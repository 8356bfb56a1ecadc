/** What the stores keep about a source. */
module Sources {
  import opened ByteStrings

  datatype Info = Info(filesize: nat, fileType: ByteString, zeroCount: nat, nonprobativeCount: nat)

  /** The record that keeps the reverse look-up from breaking. */
  const BLANK: Info := Info(0, [], 0, 0)
}
