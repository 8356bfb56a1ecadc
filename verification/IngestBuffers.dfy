/** Cutting a file into overlapping buffers, hashing each buffer's blocks, and hashing
    the whole file. A hash is represented by the bytes that MD5 is fed; which blocks get
    a label is given. */
module IngestBuffers {
  import opened ByteStrings

  const BUFFER_DATA_SIZE: nat := 0x100_0000
  const BUFFER_SIZE: nat := 0x110_0000
  const OVERLAP: nat := 0x10_0000

  function Min(a: nat, b: nat): nat {
    if a <= b then a else b
  }

  function Zeros(n: nat): (r: ByteString)
    ensures |r| == n
  {
    if n == 0 then [] else Zeros(n - 1) + [0]
  }

  lemma {:induction false} ZerosAreZero(n: nat, j: nat)
    requires j < n
    ensures Zeros(n)[j] == 0
  {
    if j >= n - 1 {
    } else {
      ZerosAreZero(n - 1, j);
    }
  }

  /** The bytes that a read of the file returns. */
  function Read(file: ByteString, offset: nat, size: nat): ByteString {
    if offset > |file| then [] else file[offset..Min(offset + size, |file|)]
  }

  /** The block at an offset, zero-padded past the end of the bytes at hand. */
  function Block(bytes: ByteString, offset: nat, size: nat): (block: ByteString)
    ensures |block| == size
  {
    var present := Read(bytes, offset, size);
    present + Zeros(size - |present|)
  }

  // ---------- the hash calculator ----------

  /** hash_calculator_t: bytes are fed in pieces; past the end of a buffer it feeds zeros. */
  class HashCalculator {
    var fed: ByteString
    var inProgress: bool

    constructor ()
      ensures !inProgress
    {
      fed, inProgress := [], false;
    }

    method Init()
      requires !inProgress
      modifies this
      ensures inProgress && fed == []
    {
      fed, inProgress := [], true;
    }

    method Update(buffer: ByteString, offset: nat, count: nat)
      requires inProgress && offset <= |buffer|
      modifies this`fed
      ensures fed == old(fed) + Block(buffer, offset, count)
    {
      if offset + count <= |buffer| {
        assert Block(buffer, offset, count) == buffer[offset..offset + count];
        fed := fed + buffer[offset..offset + count];
      } else {
        var extra := count - (|buffer| - offset);
        fed := fed + buffer[offset..];
        fed := fed + Zeros(extra);
        assert Block(buffer, offset, count) == buffer[offset..] + Zeros(extra);
        assert fed == old(fed) + (buffer[offset..] + Zeros(extra));
      }
    }

    /** The bytes that the digest is of. */
    method Final() returns (hashed: ByteString)
      requires inProgress
      modifies this`inProgress
      ensures !inProgress && hashed == fed
    {
      inProgress := false;
      hashed := fed;
    }
  }

  // ---------- one buffer ----------

  /** The skip test as it is coded: it does not look at the first byte. */
  predicate Skipped(block: ByteString) {
    forall j :: 1 <= j < |block| ==> block[j] == 0
  }

  /** It finds just the blocks of zeros, except that it takes a block whose first byte
      alone is not zero for one. */
  lemma SkippedExactly(block: ByteString)
    ensures Skipped(block) <==> (forall j :: 0 <= j < |block| ==> block[j] == 0) || OnlyFirst(block)
  {
  }

  predicate OnlyFirst(block: ByteString) {
    |block| > 0 && block[0] != 0 && forall j :: 1 <= j < |block| ==> block[j] == 0
  }

  /** Blocks of every size above zero are lost that way. */
  lemma FirstByteIgnored(size: nat)
    requires size > 0
    ensures var block := [1] + Zeros(size - 1);
            |block| == size && OnlyFirst(block) && Skipped(block)
  {
    var rest := Zeros(size - 1);
    forall j | 0 <= j < |rest|
      ensures rest[j] == 0
    {
      ZerosAreZero(size - 1, j);
    }
  }

  method AllZero(buffer: ByteString, offset: nat, blockSize: nat) returns (zero: bool)
    requires offset <= |buffer|
    ensures zero <==> Skipped(Block(buffer, offset, blockSize))
  {
    var count := if offset + blockSize <= |buffer| then blockSize else |buffer| - offset;
    ghost var block := Block(buffer, offset, blockSize);
    var i := offset + 1;
    while i < offset + count
      invariant offset + 1 <= i
      invariant forall j :: offset + 1 <= j < i && j < offset + count ==> buffer[j] == 0
    {
      if buffer[i] != 0 {
        assert block[i - offset] == buffer[i];
        return false;
      }
      i := i + 1;
    }
    forall j | 1 <= j < |block|
      ensures block[j] == 0
    {
      if j < count {
        assert block[j] == buffer[offset + j];
      } else {
        ZerosAreZero(blockSize - count, j - count);
      }
    }
    return true;
  }

  /** Blocks of a file by their place in it. */
  datatype Placed = Placed(offset: nat, block: ByteString)

  /** The n-th offset that a block loop visits. */
  function At(n: nat, step: nat): nat {
    if n == 0 then 0 else At(n - 1, step) + step
  }

  lemma {:induction false} AtIsMultiple(n: nat, step: nat)
    ensures At(n, step) == n * step
  {
    if n == 0 {
    } else {
      AtIsMultiple(n - 1, step);
    }
  }

  lemma {:induction false} AtSum(m: nat, n: nat, step: nat)
    ensures At(m + n, step) == At(m, step) + At(n, step)
  {
    if n == 0 {
    } else {
      AtSum(m, n - 1, step);
    }
  }

  lemma {:induction false} AtIncreases(i: nat, m: nat, step: nat)
    requires step > 0
    ensures i < m ==> At(i, step) < At(m, step)
  {
    if i >= m {
    } else {
      AtIncreases(i, m - 1, step);
    }
  }

  /** The n-th block that the loop visits, in bytes that start at base. */
  function NthBlock(bytes: ByteString, base: nat, j: nat, step: nat, size: nat): Placed {
    Placed(base + At(j, step), Block(bytes, At(j, step), size))
  }

  /** How many multiples of the step lie below the limit. */
  function CountBelow(limit: nat, step: nat): nat
    requires step > 0
  {
    if limit == 0 then 0 else (limit - 1) / step + 1
  }

  lemma CountBelowIs(limit: nat, step: nat, n: nat)
    requires step > 0
    ensures n < CountBelow(limit, step) <==> At(n, step) < limit
  {
    AtIsMultiple(n, step);
    if limit > 0 {
      Between(limit - 1, (limit - 1) / step, n, step);
    }
  }

  lemma Between(m: nat, q: nat, n: nat, step: nat)
    requires step > 0 && q == m / step
    ensures n <= q <==> n * step <= m
  {
    Quotient(m, step);
    if n <= q {
      Scaled(n, q, step);
    } else {
      Scaled(q + 1, n, step);
    }
  }

  lemma Quotient(m: nat, step: nat)
    requires step > 0
    ensures (m / step) * step <= m < (m / step + 1) * step
  {
    assert m == (m / step) * step + m % step;
  }

  lemma CountIs(limit: nat, step: nat, n: nat)
    requires step > 0 && At(n, step) >= limit && (n == 0 || At(n - 1, step) < limit)
    ensures n == CountBelow(limit, step)
  {
    CountBelowIs(limit, step, n);
    if n > 0 {
      CountBelowIs(limit, step, n - 1);
    }
  }

  lemma Scaled(a: nat, b: nat, c: nat)
    requires a <= b
    ensures a * c <= b * c
  {
  }

  /** The first n blocks that the loop visits. */
  function Blocks(bytes: ByteString, base: nat, n: nat, step: nat, size: nat): seq<Placed> {
    seq(n, j requires 0 <= j => NthBlock(bytes, base, j, step, size))
  }

  /** What processing blocks amounts to: the counts, and the blocks whose hashes are
      inserted, in order and with their places in the file. */
  datatype Tally = Tally(zeroCount: nat, nonprobativeCount: nat, inserted: seq<Placed>)
  {
    function Plus(t: Tally): Tally {
      Tally(zeroCount + t.zeroCount, nonprobativeCount + t.nonprobativeCount, inserted + t.inserted)
    }
  }

  const NOTHING: Tally := Tally(0, 0, [])

  /** One block; labelled holds the blocks that get a label. */
  function TallyOne(p: Placed, labelled: set<ByteString>): Tally {
    if Skipped(p.block) then Tally(1, 0, [])
    else Tally(0, if p.block in labelled then 1 else 0, [p])
  }

  function TallyUpTo(blocks: seq<Placed>, n: nat, labelled: set<ByteString>): Tally
    requires n <= |blocks|
  {
    if n == 0 then NOTHING else TallyUpTo(blocks, n - 1, labelled).Plus(TallyOne(blocks[n - 1], labelled))
  }

  function TallyOf(blocks: seq<Placed>, labelled: set<ByteString>): Tally {
    TallyUpTo(blocks, |blocks|, labelled)
  }

  lemma {:induction false} TallyPrefix(a: seq<Placed>, b: seq<Placed>, n: nat, labelled: set<ByteString>)
    requires n <= |a|
    ensures TallyUpTo(a + b, n, labelled) == TallyUpTo(a, n, labelled)
  {
    if n == 0 {
    } else {
      TallyPrefix(a, b, n - 1, labelled);
    }
  }

  lemma {:induction false} TallyUpToConcat(a: seq<Placed>, b: seq<Placed>, n: nat, labelled: set<ByteString>)
    requires n <= |b|
    ensures TallyUpTo(a + b, |a| + n, labelled) == TallyUpTo(a, |a|, labelled).Plus(TallyUpTo(b, n, labelled))
  {
    if n == 0 {
      TallyPrefix(a, b, |a|, labelled);
      PlusNothing(TallyUpTo(a, |a|, labelled));
    } else {
      TallyUpToConcat(a, b, n - 1, labelled);
      assert (a + b)[|a| + (n - 1)] == b[n - 1];
      PlusAssociative(TallyUpTo(a, |a|, labelled), TallyUpTo(b, n - 1, labelled), TallyOne(b[n - 1], labelled));
    }
  }

  /** What is counted and inserted over two runs of blocks adds up. */
  lemma TallyConcat(a: seq<Placed>, b: seq<Placed>, labelled: set<ByteString>)
    ensures TallyOf(a + b, labelled) == TallyOf(a, labelled).Plus(TallyOf(b, labelled))
  {
    TallyUpToConcat(a, b, |b|, labelled);
  }

  lemma PlusNothing(t: Tally)
    ensures t.Plus(NOTHING) == t && NOTHING.Plus(t) == t
  {
  }

  lemma PlusAssociative(a: Tally, b: Tally, c: Tally)
    ensures a.Plus(b).Plus(c) == a.Plus(b.Plus(c))
  {
    assert a.inserted + b.inserted + c.inserted == a.inserted + (b.inserted + c.inserted);
  }

  /** A part of a file as its job gets it: dataSize bytes of its own, then overlap. */
  datatype Buffer = Buffer(offset: nat, bytes: ByteString, dataSize: nat)

  function BlocksOf(buffer: Buffer, step: nat, size: nat): seq<Placed>
    requires step > 0
  {
    Blocks(buffer.bytes, buffer.offset, CountBelow(buffer.dataSize, step), step, size)
  }

  /** The body of the block loop. */
  method ProcessBlock(buffer: Buffer, i: nat, size: nat, labelled: set<ByteString>) returns (tally: Tally)
    requires i <= |buffer.bytes|
    ensures tally == TallyOne(Placed(buffer.offset + i, Block(buffer.bytes, i, size)), labelled)
  {
    var zero := AllZero(buffer.bytes, i, size);
    if zero {
      return Tally(1, 0, []);
    }
    var hashed := Calculate(buffer.bytes, i, size);
    return Tally(0, if hashed in labelled then 1 else 0, [Placed(buffer.offset + i, hashed)]);
  }

  ghost predicate AreBlocks(blocks: seq<Placed>, buffer: Buffer, step: nat, size: nat) {
    forall j :: 0 <= j < |blocks| ==> blocks[j] == NthBlock(buffer.bytes, buffer.offset, j, step, size)
  }

  method CountBlock(buffer: Buffer, i: nat, ghost step: nat, size: nat, labelled: set<ByteString>, tally: Tally,
                    ghost blocks: seq<Placed>, ghost n: nat)
    returns (after: Tally)
    requires i == At(n, step) && i <= |buffer.bytes| && n < |blocks| && AreBlocks(blocks, buffer, step, size)
    requires tally == TallyUpTo(blocks, n, labelled)
    ensures after == TallyUpTo(blocks, n + 1, labelled)
  {
    var one := ProcessBlock(buffer, i, size, labelled);
    assert blocks[n] == Placed(buffer.offset + i, Block(buffer.bytes, i, size));
    after := tally.Plus(one);
  }

  /** The block loop of process_ingest_job. */
  method BlockLoop(buffer: Buffer, step: nat, size: nat, labelled: set<ByteString>, ghost blocks: seq<Placed>)
    returns (tally: Tally)
    requires step > 0 && buffer.dataSize <= |buffer.bytes| && |blocks| == CountBelow(buffer.dataSize, step)
    requires AreBlocks(blocks, buffer, step, size)
    ensures tally == TallyOf(blocks, labelled)
  {
    tally := NOTHING;
    var i := 0;
    ghost var n := 0;
    CountBelowIs(buffer.dataSize, step, 0);
    while i < buffer.dataSize
      invariant i == At(n, step) && n <= |blocks| && (i < buffer.dataSize <==> n < |blocks|)
      invariant tally == TallyUpTo(blocks, n, labelled)
      decreases buffer.dataSize - i
    {
      tally := CountBlock(buffer, i, step, size, labelled, tally, blocks, n);
      CountBelowIs(buffer.dataSize, step, n + 1);
      i, n := i + step, n + 1;
    }
  }

  method ProcessBuffer(buffer: Buffer, step: nat, size: nat, labelled: set<ByteString>) returns (tally: Tally)
    requires step > 0 && buffer.dataSize <= |buffer.bytes|
    ensures tally == TallyOf(BlocksOf(buffer, step, size), labelled)
  {
    tally := BlockLoop(buffer, step, size, labelled, BlocksOf(buffer, step, size));
  }

  /** hash_calculator_t::calculate. */
  method Calculate(buffer: ByteString, offset: nat, count: nat) returns (hashed: ByteString)
    requires offset <= |buffer|
    ensures hashed == Block(buffer, offset, count)
  {
    var calculator := new HashCalculator();
    calculator.Init();
    calculator.Update(buffer, offset, count);
    assert calculator.fed == Block(buffer, offset, count);
    hashed := calculator.Final();
  }

  // ---------- one file ----------

  /** The buffer that starts at part k. */
  function PartOf(file: ByteString, k: nat): (buffer: Buffer)
    ensures k * BUFFER_DATA_SIZE <= |file| ==> buffer.dataSize <= |buffer.bytes|
  {
    var offset := k * BUFFER_DATA_SIZE;
    var bytes := Read(file, offset, BUFFER_SIZE);
    Buffer(offset, bytes, Min(|bytes|, BUFFER_DATA_SIZE))
  }

  function PartsTotal(filesize: nat): nat {
    (filesize + (BUFFER_DATA_SIZE - 1)) / BUFFER_DATA_SIZE
  }

  function FirstParts(file: ByteString, n: nat): (r: seq<Buffer>)
    ensures |r| == n
  {
    if n == 0 then [] else FirstParts(file, n - 1) + [PartOf(file, n - 1)]
  }

  /** The blocks of the first n parts, buffer after buffer. */
  function BlocksOfParts(file: ByteString, n: nat, step: nat, size: nat): seq<Placed>
    requires step > 0
  {
    if n == 0 then [] else BlocksOfParts(file, n - 1, step, size) + BlocksOf(PartOf(file, n - 1), step, size)
  }

  /** What the jobs of the first n parts amount to, each on its own. */
  function TallyOfParts(file: ByteString, n: nat, step: nat, size: nat, labelled: set<ByteString>): Tally
    requires step > 0
  {
    if n == 0 then NOTHING
    else
      TallyOfParts(file, n - 1, step, size, labelled)
      .Plus(TallyOf(BlocksOf(PartOf(file, n - 1), step, size), labelled))
  }

  lemma {:induction false} TallyOfPartsIs(file: ByteString, n: nat, step: nat, size: nat, labelled: set<ByteString>)
    requires step > 0
    ensures TallyOfParts(file, n, step, size, labelled) == TallyOf(BlocksOfParts(file, n, step, size), labelled)
  {
    if n == 0 {
    } else {
      TallyOfPartsIs(file, n - 1, step, size, labelled);
      TallyConcat(BlocksOfParts(file, n - 1, step, size), BlocksOf(PartOf(file, n - 1), step, size), labelled);
    }
  }

  /** A step that divides the part size, and a block that ends within the buffer even when
      it starts at the last step of the part's own data. */
  predicate Regular(step: nat, size: nat) {
    step > 0 && BUFFER_DATA_SIZE % step == 0 && size <= OVERLAP + step
  }

  /** A block of a buffer is the same as that block of the file, as long as it starts in
      the buffer's own data and ends within a full buffer. */
  lemma SameBlock(file: ByteString, k: nat, i: nat, size: nat)
    requires i + size <= BUFFER_SIZE && k * BUFFER_DATA_SIZE <= |file| && i < PartOf(file, k).dataSize
    ensures k * BUFFER_DATA_SIZE + i <= |file|
    ensures Block(PartOf(file, k).bytes, i, size) == Block(file, k * BUFFER_DATA_SIZE + i, size)
  {
    ReadWithin(file, k * BUFFER_DATA_SIZE, BUFFER_SIZE, i, size);
  }

  lemma ReadWithin(file: ByteString, offset: nat, n: nat, i: nat, size: nat)
    requires offset <= |file| && i <= |Read(file, offset, n)| && i + size <= n
    ensures Read(Read(file, offset, n), i, size) == Read(file, offset + i, size)
  {
    var part := Read(file, offset, n);
    assert |Read(part, i, size)| == |Read(file, offset + i, size)|;
    forall j | 0 <= j < |Read(part, i, size)|
      ensures Read(part, i, size)[j] == Read(file, offset + i, size)[j]
    {
      assert Read(part, i, size)[j] == part[i + j] == file[offset + i + j];
    }
  }

  /** The last place in a part that the step visits leaves room for a whole step. */
  lemma RoomForStep(n: nat, step: nat)
    requires step > 0 && BUFFER_DATA_SIZE % step == 0 && At(n, step) < BUFFER_DATA_SIZE
    ensures At(n, step) + step <= BUFFER_DATA_SIZE
  {
    var q := BUFFER_DATA_SIZE / step;
    AtIsMultiple(n, step);
    assert q * step == BUFFER_DATA_SIZE;
    Apart(q, n, step);
  }

  lemma SamePlace(file: ByteString, k: nat, m: nat, n: nat, step: nat, size: nat)
    requires Regular(step, size) && At(m, step) == k * BUFFER_DATA_SIZE < |file|
    requires At(n, step) < PartOf(file, k).dataSize
    ensures NthBlock(file, 0, m + n, step, size)
            == NthBlock(PartOf(file, k).bytes, k * BUFFER_DATA_SIZE, n, step, size)
  {
    AtSum(m, n, step);
    RoomForStep(n, step);
    SameBlock(file, k, At(n, step), size);
  }

  /** The first n blocks of part k follow the m blocks before it, when the loop over
      the whole file visits the start of part k. */
  lemma BlocksContinue(file: ByteString, k: nat, m: nat, n: nat, step: nat, size: nat)
    requires Regular(step, size) && At(m, step) == k * BUFFER_DATA_SIZE < |file|
    requires forall j :: 0 <= j < n ==> At(j, step) < PartOf(file, k).dataSize
    ensures Blocks(file, 0, m + n, step, size)
            == Blocks(file, 0, m, step, size) + Blocks(PartOf(file, k).bytes, k * BUFFER_DATA_SIZE, n, step, size)
  {
    forall j | 0 <= j < n
      ensures NthBlock(file, 0, m + j, step, size)
              == NthBlock(PartOf(file, k).bytes, k * BUFFER_DATA_SIZE, j, step, size)
    {
      SamePlace(file, k, m, j, step, size);
    }
    BlocksJoin(file, PartOf(file, k).bytes, k * BUFFER_DATA_SIZE, m, n, step, size);
  }

  lemma BlocksJoin(file: ByteString, bytes: ByteString, base: nat, m: nat, n: nat, step: nat, size: nat)
    requires forall j :: 0 <= j < n ==> NthBlock(file, 0, m + j, step, size) == NthBlock(bytes, base, j, step, size)
    ensures Blocks(file, 0, m + n, step, size) == Blocks(file, 0, m, step, size) + Blocks(bytes, base, n, step, size)
  {
    var a, b := Blocks(file, 0, m, step, size), Blocks(bytes, base, n, step, size);
    var all := Blocks(file, 0, m + n, step, size);
    forall i | 0 <= i < m + n
      ensures all[i] == (a + b)[i]
    {
      assert i >= m ==> all[i] == NthBlock(file, 0, m + (i - m), step, size);
    }
  }

  /** Counting the blocks below base + d is counting those below base, then those of d. */
  lemma CountShifted(base: nat, d: nat, m: nat, step: nat)
    requires step > 0 && At(m, step) == base
    ensures CountBelow(base + d, step) == m + CountBelow(d, step)
  {
    var c := CountBelow(d, step);
    AtSum(m, c, step);
    CountBelowIs(d, step, c);
    if c > 0 {
      CountBelowIs(d, step, c - 1);
      AtSum(m, c - 1, step);
      assert At(m + c - 1, step) == At(m + (c - 1), step);
    }
    CountIs(base + d, step, m + c);
  }

  /** The start of every part is a multiple of a step that divides the part size. */
  lemma PartStart(k: nat, step: nat) returns (m: nat)
    requires step > 0 && BUFFER_DATA_SIZE % step == 0
    ensures At(m, step) == k * BUFFER_DATA_SIZE
  {
    var q := BUFFER_DATA_SIZE / step;
    m := k * q;
    AtIsMultiple(m, step);
    assert q * step == BUFFER_DATA_SIZE;
    assert k * q * step == k * (q * step);
  }

  /** The loop over offsets visits as many parts as were announced to the tracker. */
  lemma PartFits(filesize: nat, k: nat)
    ensures k < PartsTotal(filesize) <==> k * 0x100_0000 < filesize
  {
  }

  /** Where the blocks of part k stand in one pass: after the m blocks before it. */
  lemma PartInPass(file: ByteString, k: nat, step: nat) returns (m: nat)
    requires step > 0 && BUFFER_DATA_SIZE % step == 0 && k * BUFFER_DATA_SIZE < |file|
    ensures At(m, step) == k * BUFFER_DATA_SIZE && CountBelow(k * BUFFER_DATA_SIZE, step) == m
    ensures CountBelow(Min((k + 1) * BUFFER_DATA_SIZE, |file|), step) == m + CountBelow(PartOf(file, k).dataSize, step)
  {
    m := PartStart(k, step);
    var d := PartOf(file, k).dataSize;
    assert Min((k + 1) * BUFFER_DATA_SIZE, |file|) == k * BUFFER_DATA_SIZE + d;
    CountShifted(k * BUFFER_DATA_SIZE, d, m, step);
    CountShifted(k * BUFFER_DATA_SIZE, 0, m, step);
  }

  lemma PartFollows(file: ByteString, k: nat, m: nat, step: nat, size: nat)
    requires Regular(step, size) && At(m, step) == k * BUFFER_DATA_SIZE < |file|
    ensures Blocks(file, 0, m + CountBelow(PartOf(file, k).dataSize, step), step, size)
            == Blocks(file, 0, m, step, size) + BlocksOf(PartOf(file, k), step, size)
  {
    var d := PartOf(file, k).dataSize;
    var c := CountBelow(d, step);
    forall j | 0 <= j < c
      ensures At(j, step) < d
    {
      CountBelowIs(d, step, j);
    }
    BlocksContinue(file, k, m, c, step, size);
  }

  /** One pass over the whole file, up to a limit: a block at every multiple of the step. */
  function OnePass(file: ByteString, limit: nat, step: nat, size: nat): seq<Placed>
    requires step > 0
  {
    Blocks(file, 0, CountBelow(limit, step), step, size)
  }

  lemma {:induction false} PartsAreOnePass(file: ByteString, n: nat, step: nat, size: nat)
    requires Regular(step, size)
    requires n == 0 || (n - 1) * BUFFER_DATA_SIZE < |file|
    ensures BlocksOfParts(file, n, step, size) == OnePass(file, Min(n * BUFFER_DATA_SIZE, |file|), step, size)
  {
    if n == 0 {
    } else {
      PartsAreOnePass(file, n - 1, step, size);
      var m := PartInPass(file, n - 1, step);
      PartFollows(file, n - 1, m, step, size);
    }
  }

  /** The blocks of all buffers of a file, with their offsets, are exactly the blocks of
      one pass over the whole file, each once and in order, zero-padded only past the
      end of the file; so the counts and insertions of all jobs add up to those of that
      one pass. */
  lemma BuffersAreOnePass(file: ByteString, step: nat, size: nat, labelled: set<ByteString>)
    requires Regular(step, size)
    ensures BlocksOfParts(file, PartsTotal(|file|), step, size) == OnePass(file, |file|, step, size)
    ensures TallyOfParts(file, PartsTotal(|file|), step, size, labelled)
            == TallyOf(OnePass(file, |file|, step, size), labelled)
  {
    var n := PartsTotal(|file|);
    PartFits(|file|, n);
    PartFits(|file|, if n == 0 then 0 else n - 1);
    PartsAreOnePass(file, n, step, size);
    TallyOfPartsIs(file, n, step, size, labelled);
  }

  // ---------- when the buffers are not one pass ----------

  ghost predicate KeptWhole(file: ByteString, step: nat, size: nat)
    requires step > 0
  {
    BlocksOfParts(file, PartsTotal(|file|), step, size) == OnePass(file, |file|, step, size)
  }

  function Ones(n: nat): (r: ByteString)
    ensures |r| == n && forall j :: 0 <= j < n ==> r[j] == 1
  {
    seq(n, _ => 1)
  }

  /** The buffers of every file are one pass exactly when the step divides the part size
      and the block is no longer than the overlap and one step. */
  lemma OnePassExactly(step: nat, size: nat)
    requires step > 0
    ensures (forall file: ByteString :: KeptWhole(file, step, size))
            <==> 0x100_0000 % step == 0 && size <= 0x10_0000 + step
  {
    if Regular(step, size) {
      forall file: ByteString
        ensures KeptWhole(file, step, size)
      {
        BuffersAreOnePass(file, step, size, {});
      }
    } else if BUFFER_DATA_SIZE % step != 0 {
      OffGrid(step, size);
    } else {
      CutShort(step, size);
    }
  }

  /** A second part that starts off the grid. */
  lemma OffGrid(step: nat, size: nat)
    requires step > 0 && BUFFER_DATA_SIZE % step != 0
    ensures !KeptWhole(Ones(BUFFER_DATA_SIZE + 1), step, size)
  {
    var file := Ones(BUFFER_DATA_SIZE + 1);
    assert PartsTotal(|file|) == 2;
    var first, second := BlocksOfParts(file, 1, step, size), BlocksOf(PartOf(file, 1), step, size);
    CountBelowIs(PartOf(file, 1).dataSize, step, 0);
    assert (first + second)[|first|] == second[0] && second[0].offset == BUFFER_DATA_SIZE;
    if KeptWhole(file, step, size) {
      assert OnePass(file, |file|, step, size)[|first|].offset == At(|first|, step);
      AtIsMultiple(|first|, step);
      Divides(BUFFER_DATA_SIZE, |first|, step);
    }
  }

  /** A block at the last step of the first part that reaches past its buffer. */
  lemma CutShort(step: nat, size: nat)
    requires step > 0 && BUFFER_DATA_SIZE % step == 0 && size > OVERLAP + step
    ensures !KeptWhole(Ones(BUFFER_SIZE + 1), step, size)
  {
    var file := Ones(BUFFER_SIZE + 1);
    var n := LastOfPart(step);
    PaddedTooSoon(file, step, size);
    FirstPartBlock(file, n, step, size);
    CountBelowIs(|file|, step, n);
    assert OnePass(file, |file|, step, size)[n] == NthBlock(file, 0, n, step, size);
  }

  lemma LastOfPart(step: nat) returns (n: nat)
    requires step > 0 && BUFFER_DATA_SIZE % step == 0
    ensures step <= BUFFER_DATA_SIZE && At(n, step) == BUFFER_DATA_SIZE - step
  {
    var q := PartStart(1, step);
    n := q - 1;
  }

  lemma FirstPartBlock(file: ByteString, n: nat, step: nat, size: nat)
    requires step > 0 && |file| == BUFFER_SIZE + 1 && At(n, step) < BUFFER_DATA_SIZE
    ensures PartsTotal(|file|) == 2 && n < |BlocksOfParts(file, 2, step, size)|
    ensures BlocksOfParts(file, 2, step, size)[n] == NthBlock(PartOf(file, 0).bytes, 0, n, step, size)
  {
    var first := BlocksOfParts(file, 1, step, size);
    assert BlocksOfParts(file, 0, step, size) == [];
    assert first == BlocksOf(PartOf(file, 0), step, size);
    CountBelowIs(BUFFER_DATA_SIZE, step, n);
    assert first[n] == NthBlock(PartOf(file, 0).bytes, 0, n, step, size);
  }

  lemma PaddedTooSoon(file: ByteString, step: nat, size: nat)
    requires 0 < step <= BUFFER_DATA_SIZE && size > OVERLAP + step && file == Ones(BUFFER_SIZE + 1)
    ensures Block(PartOf(file, 0).bytes, BUFFER_DATA_SIZE - step, size) != Block(file, BUFFER_DATA_SIZE - step, size)
  {
    var i, j := BUFFER_DATA_SIZE - step, OVERLAP + step;
    var bytes := PartOf(file, 0).bytes;
    assert |bytes| == BUFFER_SIZE;
    ZerosAreZero(size - |Read(bytes, i, size)|, 0);
    assert Block(bytes, i, size)[j] == 0;
    assert Block(file, i, size)[j] == file[i + j] == 1;
  }

  ghost predicate VisitedInPart(file: ByteString, k: nat, step: nat, offset: nat) {
    exists j: nat :: At(j, step) < PartOf(file, k).dataSize && offset == k * BUFFER_DATA_SIZE + At(j, step)
  }

  ghost predicate VisitedInParts(file: ByteString, step: nat, offset: nat) {
    exists k: nat :: k < PartsTotal(|file|) && VisitedInPart(file, k, step, offset)
  }

  ghost predicate VisitedInOnePass(file: ByteString, step: nat, offset: nat) {
    exists j: nat :: At(j, step) == offset && offset < |file|
  }

  /** The offsets of the blocks are those of one pass exactly when the file has one part
      or the step divides the part size. */
  lemma GridKeptExactly(file: ByteString, step: nat)
    requires step > 0
    ensures (forall offset: nat :: VisitedInParts(file, step, offset) <==> VisitedInOnePass(file, step, offset))
            <==> |file| <= 0x100_0000 || 0x100_0000 % step == 0
  {
    if |file| <= BUFFER_DATA_SIZE || BUFFER_DATA_SIZE % step == 0 {
      forall offset: nat
        ensures VisitedInParts(file, step, offset) <==> VisitedInOnePass(file, step, offset)
      {
        if VisitedInParts(file, step, offset) {
          PartsWithinPass(file, step, offset);
        }
        if VisitedInOnePass(file, step, offset) {
          PassWithinParts(file, step, offset);
        }
      }
    } else {
      PartFits(|file|, 1);
      assert At(0, step) == 0;
      assert VisitedInPart(file, 1, step, BUFFER_DATA_SIZE);
      assert VisitedInParts(file, step, BUFFER_DATA_SIZE);
      if VisitedInOnePass(file, step, BUFFER_DATA_SIZE) {
        var j: nat :| At(j, step) == BUFFER_DATA_SIZE;
        AtIsMultiple(j, step);
        Divides(BUFFER_DATA_SIZE, j, step);
      }
    }
  }

  lemma Divides(n: nat, j: nat, step: nat)
    requires step > 0 && j * step == n
    ensures n % step == 0
  {
    var q := n / step;
    assert n == q * step + n % step;
    Apart(j, q, step);
  }

  lemma Apart(j: nat, q: nat, step: nat)
    ensures j > q ==> j * step >= q * step + step
    ensures j <= q ==> j * step <= q * step
  {
    if j > q {
      Scaled(q + 1, j, step);
    } else {
      Scaled(j, q, step);
    }
  }

  lemma PartsWithinPass(file: ByteString, step: nat, offset: nat)
    requires step > 0 && (|file| <= BUFFER_DATA_SIZE || BUFFER_DATA_SIZE % step == 0)
    requires VisitedInParts(file, step, offset)
    ensures VisitedInOnePass(file, step, offset)
  {
    var k: nat :| k < PartsTotal(|file|) && VisitedInPart(file, k, step, offset);
    var j: nat :| At(j, step) < PartOf(file, k).dataSize && offset == k * BUFFER_DATA_SIZE + At(j, step);
    OwnDataInFile(file, k, At(j, step));
    if BUFFER_DATA_SIZE % step == 0 {
      OnGrid(k, j, step, offset);
    }
  }

  lemma OwnDataInFile(file: ByteString, k: nat, i: nat)
    requires k < PartsTotal(|file|) && i < PartOf(file, k).dataSize
    ensures k * BUFFER_DATA_SIZE + i < |file| && (|file| <= BUFFER_DATA_SIZE ==> k == 0)
  {
    PartFits(|file|, k);
  }

  lemma OnGrid(k: nat, j: nat, step: nat, offset: nat)
    requires step > 0 && BUFFER_DATA_SIZE % step == 0 && offset == k * BUFFER_DATA_SIZE + At(j, step)
    ensures exists m: nat :: At(m, step) == offset
  {
    var m := PartStart(k, step);
    AtSum(m, j, step);
    assert At(m + j, step) == offset;
  }

  lemma PassWithinParts(file: ByteString, step: nat, offset: nat)
    requires step > 0 && (|file| <= BUFFER_DATA_SIZE || BUFFER_DATA_SIZE % step == 0)
    requires VisitedInOnePass(file, step, offset)
    ensures VisitedInParts(file, step, offset)
  {
    var i: nat :| At(i, step) == offset && offset < |file|;
    var k := offset / BUFFER_DATA_SIZE;
    PartFits(|file|, k);
    if BUFFER_DATA_SIZE % step == 0 {
      var m := PartStart(k, step);
      AtIncreases(i, m, step);
      AtSum(m, i - m, step);
      assert offset == k * BUFFER_DATA_SIZE + At(i - m, step);
    }
    assert VisitedInPart(file, k, step, offset);
  }

  // ---------- ingest_file ----------

  /** The file could not be hashed, only some jobs were pushed, or all were. */
  datatype Status = NotHashed | Stopped(part: nat) | Complete

  /** The whole-file hash: the first buffer, then the rest in further reads. */
  method HashFile(file: ByteString, unreadable: set<nat>) returns (ok: bool, hashed: ByteString)
    ensures ok ==> hashed == file
    ensures !ok ==> exists offset :: offset in unreadable && offset <= |file|
  {
    hashed := [];
    if 0 in unreadable {
      return false, [];
    }
    var b := Read(file, 0, Min(|file|, BUFFER_SIZE));
    var calculator := new HashCalculator();
    calculator.Init();
    calculator.Update(b, 0, |b|);
    WholeBlock(b);
    var offset := BUFFER_SIZE;
    while offset < |file|
      invariant calculator.inProgress && offset > 0 && fresh(calculator)
      invariant calculator.fed == file[..Min(offset, |file|)]
    {
      if offset in unreadable {
        return false, [];
      }
      FeedNext(calculator, file, offset);
      offset := offset + BUFFER_SIZE;
    }
    hashed := calculator.Final();
    ok := true;
  }

  method FeedNext(calculator: HashCalculator, file: ByteString, offset: nat)
    requires calculator.inProgress && offset < |file| && calculator.fed == file[..offset]
    modifies calculator`fed
    ensures calculator.fed == file[..Min(offset + BUFFER_SIZE, |file|)]
  {
    var b2 := Read(file, offset, BUFFER_SIZE);
    calculator.Update(b2, 0, |b2|);
    WholeBlock(b2);
  }

  lemma WholeBlock(bytes: ByteString)
    ensures Block(bytes, 0, |bytes|) == bytes
  {
  }

  /** ingest_file: hash the file, then push its buffers as jobs. The two passes read the
      file on their own, and either may fail. */
  method IngestFile(file: ByteString, unreadable: set<nat>, unreadableAgain: set<nat>)
    returns (status: Status, hashed: ByteString, jobs: seq<Buffer>)
    requires file != []
    ensures status.NotHashed? ==> jobs == []
    ensures !status.NotHashed? ==> hashed == file
    ensures status.Stopped? ==> 0 < status.part < PartsTotal(|file|) && jobs == FirstParts(file, status.part)
                                && status.part * BUFFER_DATA_SIZE in unreadableAgain
    ensures status.Complete? ==> jobs == FirstParts(file, PartsTotal(|file|))
  {
    jobs := [];
    var ok;
    ok, hashed := HashFile(file, unreadable);
    if !ok {
      return NotHashed, hashed, jobs;
    }
    var b := Read(file, 0, Min(|file|, BUFFER_SIZE));
    jobs := [Buffer(0, b, if |b| > BUFFER_DATA_SIZE then BUFFER_DATA_SIZE else |b|)];
    FirstPart(file);
    var offset := BUFFER_DATA_SIZE;
    ghost var k := 1;
    while offset < |file|
      invariant k > 0 && offset == k * BUFFER_DATA_SIZE && (k - 1) * BUFFER_DATA_SIZE < |file|
      invariant jobs == FirstParts(file, k)
    {
      PartFits(|file|, k);
      if offset in unreadableAgain {
        return Stopped(offset / BUFFER_DATA_SIZE), hashed, jobs;
      }
      var b2 := Read(file, offset, BUFFER_SIZE);
      jobs := jobs + [Buffer(offset, b2, if |b2| > BUFFER_DATA_SIZE then BUFFER_DATA_SIZE else |b2|)];
      offset, k := offset + BUFFER_DATA_SIZE, k + 1;
    }
    PartFits(|file|, k);
    PartFits(|file|, k - 1);
    status := Complete;
  }

  lemma FirstPart(file: ByteString)
    ensures Read(file, 0, Min(|file|, BUFFER_SIZE)) == PartOf(file, 0).bytes
    ensures FirstParts(file, 1) == [PartOf(file, 0)]
  {
    assert FirstParts(file, 0) == [];
  }
}
