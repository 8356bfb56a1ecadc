/** What the counts and insertions of one pass over a file say of the file's bytes. */
module IngestTallies {
  import opened ByteStrings
  import opened IngestBuffers

  /** The byte of a file at a place, zero past its end. */
  function ByteAt(file: ByteString, i: nat): Byte {
    if i < |file| then file[i] else 0
  }

  function Window(file: ByteString, offset: nat, size: nat): (block: ByteString)
    ensures |block| == size && forall j :: 0 <= j < size ==> block[j] == ByteAt(file, offset + j)
  {
    seq<Byte>(size, j requires 0 <= j => ByteAt(file, offset + j))
  }

  /** A block that reaches behind the end of the file is filled up with zeros. */
  lemma WindowExample()
    ensures Window([7, 8, 9], 1, 4) == [8, 9, 0, 0]
  {
  }

  /** Of the bytes at a place only the first may differ from zero. */
  predicate ZeroAt(file: ByteString, offset: nat, size: nat) {
    forall j :: 1 <= j < size ==> Window(file, offset, size)[j] == 0
  }

  predicate Starts(file: ByteString, step: nat, n: nat) {
    n * step < |file|
  }

  /** The steps that lie within the file, by their number, at which the block is taken to
      be zero. */
  ghost function ZeroPlaces(file: ByteString, step: nat, size: nat): set<nat> {
    set n: nat | n < |file| && Starts(file, step, n) && ZeroAt(file, n * step, size)
  }

  /** Those at which it is not. */
  ghost function OtherPlaces(file: ByteString, step: nat, size: nat): set<nat> {
    set n: nat | n < |file| && Starts(file, step, n) && !ZeroAt(file, n * step, size)
  }

  /** Those of the latter at which the block has a label. */
  ghost function LabelledPlaces(file: ByteString, step: nat, size: nat, labelled: set<ByteString>): set<nat> {
    set n: nat | n in OtherPlaces(file, step, size) && Window(file, n * step, size) in labelled
  }

  // ---------- a list of blocks ----------

  ghost function Zeroed(blocks: seq<Placed>, n: nat): set<nat>
    requires n <= |blocks|
  {
    set i: nat | i < n && Skipped(blocks[i].block)
  }

  ghost function Others(blocks: seq<Placed>, n: nat): set<nat>
    requires n <= |blocks|
  {
    set i: nat | i < n && !Skipped(blocks[i].block)
  }

  ghost function Labelled(blocks: seq<Placed>, n: nat, labelled: set<ByteString>): set<nat>
    requires n <= |blocks|
  {
    set i: nat | i in Others(blocks, n) && blocks[i].block in labelled
  }

  lemma OneMoreBlock(blocks: seq<Placed>, n: nat, labelled: set<ByteString>)
    requires n < |blocks|
    ensures var block := blocks[n].block;
            if Skipped(block) then
              && Zeroed(blocks, n + 1) == Zeroed(blocks, n) + {n} && Others(blocks, n + 1) == Others(blocks, n)
              && Labelled(blocks, n + 1, labelled) == Labelled(blocks, n, labelled)
            else
              && Zeroed(blocks, n + 1) == Zeroed(blocks, n) && Others(blocks, n + 1) == Others(blocks, n) + {n}
              && Labelled(blocks, n + 1, labelled)
                 == Labelled(blocks, n, labelled) + if block in labelled then {n} else {}
  {
  }

  /** The blocks with only zeros from the second byte on are counted as zero; the others are
      all inserted, and those of them with a label are counted as nonprobative. */
  lemma {:induction false} TallyCounts(blocks: seq<Placed>, n: nat, labelled: set<ByteString>)
    requires n <= |blocks|
    ensures var t := TallyUpTo(blocks, n, labelled);
            && t.zeroCount == |Zeroed(blocks, n)| && t.nonprobativeCount == |Labelled(blocks, n, labelled)|
            && |t.inserted| == |Others(blocks, n)| == n - t.zeroCount
  {
    if n == 0 {
    } else {
      TallyCounts(blocks, n - 1, labelled);
      OneMoreBlock(blocks, n - 1, labelled);
    }
  }

  /** What is inserted is exactly the other blocks, in their order. */
  lemma {:induction false} TallyInserts(blocks: seq<Placed>, n: nat, labelled: set<ByteString>) returns (at: seq<nat>)
    requires n <= |blocks|
    ensures var inserted := TallyUpTo(blocks, n, labelled).inserted;
            && |at| == |inserted|
            && (forall k :: 0 <= k < |at| ==> at[k] < n && inserted[k] == blocks[at[k]])
            && (forall k, m :: 0 <= k < m < |at| ==> at[k] < at[m])
    ensures forall i :: 0 <= i < n ==> (i in at <==> !Skipped(blocks[i].block))
  {
    if n == 0 {
      at := [];
    } else {
      at := TallyInserts(blocks, n - 1, labelled);
      if !Skipped(blocks[n - 1].block) {
        at := at + [n - 1];
      }
    }
  }

  // ---------- one pass over a file ----------

  lemma OnePassBytes(file: ByteString, step: nat, size: nat, n: nat)
    requires step > 0
    ensures var blocks := OnePass(file, |file|, step, size);
            && (n < |blocks| <==> n < |file| && Starts(file, step, n))
            && (n < |blocks| ==> blocks[n] == Placed(n * step, Window(file, n * step, size)))
  {
    var blocks := OnePass(file, |file|, step, size);
    CountBelowIs(|file|, step, n);
    AtIsMultiple(n, step);
    Scaled(1, step, n);
    if n < |blocks| {
      BlockIsWindow(file, n * step, size);
    }
  }

  lemma BlockIsWindow(file: ByteString, offset: nat, size: nat)
    ensures Block(file, offset, size) == Window(file, offset, size)
  {
    var present := Read(file, offset, size);
    forall j | 0 <= j < size
      ensures Block(file, offset, size)[j] == Window(file, offset, size)[j]
    {
      if j >= |present| {
        ZerosAreZero(size - |present|, j - |present|);
      }
    }
  }

  lemma PlacesOfOnePass(file: ByteString, step: nat, size: nat, labelled: set<ByteString>)
    requires step > 0
    ensures var blocks := OnePass(file, |file|, step, size);
            && Zeroed(blocks, |blocks|) == ZeroPlaces(file, step, size)
            && Others(blocks, |blocks|) == OtherPlaces(file, step, size)
            && Labelled(blocks, |blocks|, labelled) == LabelledPlaces(file, step, size, labelled)
  {
    forall n: nat {
      OnePassBytes(file, step, size, n);
    }
  }

  /** The counts of one pass, on the bytes of the file. */
  lemma CountsOnBytes(file: ByteString, step: nat, size: nat, labelled: set<ByteString>)
    requires step > 0
    ensures var t := TallyOf(OnePass(file, |file|, step, size), labelled);
            && t.zeroCount == |ZeroPlaces(file, step, size)|
            && t.nonprobativeCount == |LabelledPlaces(file, step, size, labelled)|
            && |t.inserted| == |OtherPlaces(file, step, size)|
  {
    var blocks := OnePass(file, |file|, step, size);
    TallyCounts(blocks, |blocks|, labelled);
    PlacesOfOnePass(file, step, size, labelled);
  }

  /** The insertions of one pass, on the bytes of the file: place after place, a block for
      each that has more than its first byte, and no other. */
  lemma InsertsOnBytes(file: ByteString, step: nat, size: nat, labelled: set<ByteString>) returns (at: seq<nat>)
    requires step > 0
    ensures var inserted := TallyOf(OnePass(file, |file|, step, size), labelled).inserted;
            |at| == |inserted| && forall k :: 0 <= k < |at| ==>
              inserted[k] == Placed(at[k] * step, Window(file, at[k] * step, size))
    ensures forall k, m :: 0 <= k < m < |at| ==> at[k] < at[m]
    ensures forall n: nat :: n in at <==> n in OtherPlaces(file, step, size)
  {
    var blocks := OnePass(file, |file|, step, size);
    at := TallyInserts(blocks, |blocks|, labelled);
    forall n: nat {
      OnePassBytes(file, step, size, n);
    }
    PlacesOfOnePass(file, step, size, labelled);
    forall n: nat
      ensures n in at <==> n in Others(blocks, |blocks|)
    {
    }
  }
}
