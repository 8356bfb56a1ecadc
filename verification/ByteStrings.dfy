/** Bytes, byte strings and their order: the vocabulary shared by every store.
    A std::string and an MDB_val are both byte strings here. */
module ByteStrings {

  type Byte = b: int | 0 <= b < 256

  type ByteString = seq<Byte>

  /** A uint64_t. */
  type U64 = n: int | 0 <= n < 0x1_0000_0000_0000_0000

  const TWO_TO_THE_32: int := 0x1_0000_0000

  const TWO_TO_THE_64: int := 0x1_0000_0000_0000_0000

  /** LMDB's default order: compare bytes, and a proper prefix comes first. */
  predicate LexLess(a: ByteString, b: ByteString) {
    if |b| == 0 then false
    else if |a| == 0 then true
    else a[0] < b[0] || (a[0] == b[0] && LexLess(a[1..], b[1..]))
  }

  lemma {:induction false} LexIrreflexive(a: ByteString)
    ensures !LexLess(a, a)
  {
    if |a| == 0 {
    } else {
      LexIrreflexive(a[1..]);
    }
  }

  lemma {:induction false} LexTransitive(a: ByteString, b: ByteString, c: ByteString)
    requires LexLess(a, b) && LexLess(b, c)
    ensures LexLess(a, c)
  {
    if |a| == 0 || a[0] < b[0] || b[0] < c[0] {
    } else {
      LexTransitive(a[1..], b[1..], c[1..]);
    }
  }

  lemma {:induction false} LexTotal(a: ByteString, b: ByteString)
    requires a != b
    ensures LexLess(a, b) || LexLess(b, a)
  {
    if |a| == 0 || |b| == 0 || a[0] != b[0] {
    } else {
      assert a == [a[0]] + a[1..] && b == [b[0]] + b[1..];
      LexTotal(a[1..], b[1..]);
    }
  }

  /** Nothing comes before the strings that it opens. */
  lemma {:induction false} LexPrefix(a: ByteString, b: ByteString)
    requires a < b
    ensures LexLess(a, b)
  {
    if |a| == 0 {
    } else {
      assert a[0] == b[..|a|][0] == b[0] && a[1..] == b[..|a|][1..] == b[1..][..|a| - 1];
      LexPrefix(a[1..], b[1..]);
    }
  }

  /** Two strings that first differ inside both compare by that byte alone. */
  lemma {:induction false} LexByFirstDifference(a: ByteString, b: ByteString, k: nat)
    requires k < |a| && k < |b| && a[..k] == b[..k] && a[k] != b[k]
    ensures LexLess(a, b) <==> a[k] < b[k]
  {
    if k == 0 {
    } else {
      assert a[0] == a[..k][0] == b[..k][0] == b[0];
      assert a[1..][..k - 1] == a[..k][1..] && b[1..][..k - 1] == b[..k][1..];
      LexByFirstDifference(a[1..], b[1..], k - 1);
    }
  }
}
