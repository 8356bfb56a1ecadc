/** The stores of source ids and of source data: byte records under varint lengths. */
module SourceStores {
  import opened ByteStrings
  import opened HashDataModel
  import opened HashDataRecords
  import opened Sources
  import opened ImportManager
  import Lmdb
  import Varint

  /** A string under its length. */
  function Text(s: ByteString): ByteString {
    Varint.Encoding(|s|) + s
  }

  /** A source data record. */
  function Record(fileHash: ByteString, info: Info): ByteString {
    Text(fileHash) + Varint.Encoding(info.filesize) + Text(info.fileType) + Counts(info)
  }

  function Counts(info: Info): ByteString {
    Varint.Encoding(info.zeroCount) + Varint.Encoding(info.nonprobativeCount)
  }

  /** The values are 64-bit ones. */
  predicate Storable(info: Info) {
    info.filesize < TWO_TO_THE_64 && info.zeroCount < TWO_TO_THE_64 && info.nonprobativeCount < TWO_TO_THE_64
  }

  const MAX_TEXT: int := 0x8_0000_0000

  /** The writer sets 40 bytes aside for five numbers. That is room enough for any three
      counts, as long as both strings are shorter than 2^35 bytes. */
  lemma RecordFits(fileHash: ByteString, info: Info)
    requires Storable(info) && |fileHash| < 0x8_0000_0000 && |info.fileType| < 0x8_0000_0000
    ensures |Record(fileHash, info)| <= |fileHash| + |info.fileType| + 40
  {
    Varint.EncodingLength(info.filesize);
    Varint.EncodingLength(info.zeroCount);
    Varint.EncodingLength(info.nonprobativeCount);
    Varint.EncodingLength(|fileHash|);
    Varint.EncodingLength(|info.fileType|);
  }

  /** As for a file hash of two bytes and a file type of one. */
  lemma RecordLayout()
    ensures Record([0x61, 0x62], Info(300, [0x78], 1, 128))
              == [2, 0x61, 0x62, 0xac, 0x02, 1, 0x78, 1, 0x80, 0x01]
  {
    assert Varint.Encoding(300) == [0xac, 0x02] && Varint.Encoding(128) == [0x80, 0x01];
  }

  method WriteText(s: ByteString, buf: array<Byte>, p: nat) returns (q: nat)
    requires |s| < MAX_TEXT && p + |Text(s)| <= buf.Length
    modifies buf
    ensures q == p + |Text(s)| && buf[..q] == old(buf[..p]) + Text(s)
  {
    q := WriteUint64(|s|, buf, p);
    q := WriteBytes(s, buf, q);
  }

  method WriteRecord(fileHash: ByteString, info: Info, buf: array<Byte>) returns (size: nat)
    requires Storable(info) && |fileHash| < MAX_TEXT && |info.fileType| < MAX_TEXT
    requires buf.Length == |fileHash| + |info.fileType| + 40
    modifies buf
    ensures size <= buf.Length && buf[..size] == Record(fileHash, info)
  {
    RecordFits(fileHash, info);
    size := WriteText(fileHash, buf, 0);
    assert buf[..size] == Text(fileHash);
    size := WriteUint64(info.filesize, buf, size);
    size := WriteText(info.fileType, buf, size);
    size := WriteCounts(info, buf, size);
    assert buf[..size] == Record(fileHash, info);
  }

  method WriteCounts(info: Info, buf: array<Byte>, p: nat) returns (q: nat)
    requires Storable(info) && p + |Counts(info)| <= buf.Length
    modifies buf
    ensures q == p + |Counts(info)| && buf[..q] == old(buf[..p]) + Counts(info)
  {
    q := WriteUint64(info.zeroCount, buf, p);
    q := WriteUint64(info.nonprobativeCount, buf, q);
  }

  method ReadText(data: ByteString, p: nat, ghost s: ByteString) returns (r: ByteString, q: nat)
    requires |s| < TWO_TO_THE_64 && StandsAt(data, p, Text(s))
    ensures r == s && q == p + |Text(s)|
  {
    PartsStand(data, p, Varint.Encoding(|s|), s);
    var size: int;
    size, q := ReadUint64(data, p, |s|);
    r := data[q..q + size];
    q := q + size;
  }

  lemma RecordStands(data: ByteString, fileHash: ByteString, info: Info)
    requires data == Record(fileHash, info)
    ensures var a := |Text(fileHash)|;
            var b := a + |Varint.Encoding(info.filesize)|;
            var c := b + |Text(info.fileType)|;
            var d := c + |Varint.Encoding(info.zeroCount)|;
            && StandsAt(data, 0, Text(fileHash)) && StandsAt(data, a, Varint.Encoding(info.filesize))
            && StandsAt(data, b, Text(info.fileType)) && StandsAt(data, c, Varint.Encoding(info.zeroCount))
            && StandsAt(data, d, Varint.Encoding(info.nonprobativeCount))
            && |data| == d + |Varint.Encoding(info.nonprobativeCount)|
  {
    var t1 := Text(fileHash) + Varint.Encoding(info.filesize);
    PartsStand(data, 0, t1 + Text(info.fileType), Counts(info));
    PartsStand(data, |t1 + Text(info.fileType)|, Varint.Encoding(info.zeroCount),
      Varint.Encoding(info.nonprobativeCount));
    PartsStand(data, 0, t1, Text(info.fileType));
    PartsStand(data, 0, Text(fileHash), Varint.Encoding(info.filesize));
  }

  /** Reading a record gives back what was written, and ends exactly at its end. */
  method ReadRecord(data: ByteString, ghost f: ByteString, ghost i: Info)
    returns (fileHash: ByteString, info: Info, p: nat)
    requires Storable(i) && |f| < TWO_TO_THE_64 && |i.fileType| < TWO_TO_THE_64 && data == Record(f, i)
    ensures fileHash == f && info == i && p == |data|
  {
    RecordStands(data, f, i);
    var filesize, fileType, zeroCount, nonprobativeCount;
    fileHash, p := ReadText(data, 0, f);
    filesize, p := ReadUint64(data, p, i.filesize);
    fileType, p := ReadText(data, p, i.fileType);
    zeroCount, p := ReadUint64(data, p, i.zeroCount);
    nonprobativeCount, p := ReadUint64(data, p, i.nonprobativeCount);
    info := Info(filesize, fileType, zeroCount, nonprobativeCount);
  }

  lemma TextPrefixFree(s: ByteString, t: ByteString, x: ByteString, y: ByteString)
    requires Text(s) + x == Text(t) + y
    ensures s == t && x == y
  {
    assert Varint.Encoding(|s|) + (s + x) == Text(s) + x;
    assert Varint.Encoding(|t|) + (t + y) == Text(t) + y;
    Varint.PrefixFree(|s|, |t|, s + x, t + y);
    assert s == (s + x)[..|s|] && t == (t + y)[..|t|];
    assert x == (s + x)[|s|..] && y == (t + y)[|t|..];
  }

  /** Comparing bytes compares records. */
  lemma RecordInjective(f: ByteString, i: Info, g: ByteString, j: Info)
    requires Record(f, i) == Record(g, j)
    ensures f == g && i == j
  {
    HashFirst(f, i);
    HashFirst(g, j);
    TextPrefixFree(f, g, InfoBytes(i), InfoBytes(j));
    InfoInjective(i, j);
  }

  function InfoBytes(i: Info): ByteString {
    Varint.Encoding(i.filesize) + (Text(i.fileType) + Counts(i))
  }

  lemma HashFirst(f: ByteString, i: Info)
    ensures Record(f, i) == Text(f) + InfoBytes(i)
  {
    Regrouped(Text(f), Varint.Encoding(i.filesize), Text(i.fileType), Counts(i));
  }

  lemma Regrouped(a: ByteString, b: ByteString, c: ByteString, d: ByteString)
    ensures a + b + c + d == a + (b + (c + d))
  {
  }

  lemma InfoInjective(i: Info, j: Info)
    requires InfoBytes(i) == InfoBytes(j)
    ensures i == j
  {
    Varint.PrefixFree(i.filesize, j.filesize, Text(i.fileType) + Counts(i), Text(j.fileType) + Counts(j));
    TextPrefixFree(i.fileType, j.fileType, Counts(i), Counts(j));
    Varint.PrefixFree(i.zeroCount, j.zeroCount, Varint.Encoding(i.nonprobativeCount),
      Varint.Encoding(j.nonprobativeCount));
    Varint.EncodingInjective(i.nonprobativeCount, j.nonprobativeCount);
  }

  // ---------- lmdb_source_data_manager_t ----------

  predicate Ok(e: SourceData) {
    Storable(e.info) && |e.fileHash| < MAX_TEXT && |e.info.fileType| < MAX_TEXT
  }

  datatype Side = FromKeys | FromModel

  /** The bytes in the environment are those of the model, under the encoded ids. The
      sides open one at a time. */
  ghost predicate Represents(env: map<ByteString, ByteString>, model: map<nat, SourceData>) {
    forall side :: Agrees(side, env, model)
  }

  ghost predicate Agrees(side: Side, env: map<ByteString, ByteString>, model: map<nat, SourceData>) {
    match side
    case FromKeys => forall k :: k in env ==> exists id :: id in model && k == Varint.Encoding(id)
    case FromModel => forall id :: id in model ==> RecordOf(env, id, model[id])
  }

  ghost predicate RecordOf(env: map<ByteString, ByteString>, id: nat, e: SourceData) {
    Ok(e) && Varint.Encoding(id) in env && env[Varint.Encoding(id)] == Record(e.fileHash, e.info)
  }

  lemma KeyInEnv(env: map<ByteString, ByteString>, model: map<nat, SourceData>, id: nat)
    requires Represents(env, model)
    ensures Varint.Encoding(id) in env <==> id in model
  {
    assert Agrees(FromKeys, env, model) && Agrees(FromModel, env, model);
    if Varint.Encoding(id) in env {
      var other :| other in model && Varint.Encoding(id) == Varint.Encoding(other);
      Varint.EncodingInjective(id, other);
    }
    assert id in model ==> RecordOf(env, id, model[id]);
  }

  /** Writing a record under an id is writing the pair into the map. */
  lemma Rewritten(env: map<ByteString, ByteString>, model: map<nat, SourceData>, id: nat, e: SourceData)
    requires Represents(env, model) && Ok(e)
    ensures Represents(env[Varint.Encoding(id) := Record(e.fileHash, e.info)], model[id := e])
  {
    var env', model' := env[Varint.Encoding(id) := Record(e.fileHash, e.info)], model[id := e];
    assert Agrees(FromKeys, env, model) && Agrees(FromModel, env, model);
    forall k | k in env'
      ensures exists i :: i in model' && k == Varint.Encoding(i)
    {
      if k in env {
        var i :| i in model && k == Varint.Encoding(i);
        assert i in model';
      } else {
        assert id in model';
      }
    }
    forall i | i in model'
      ensures RecordOf(env', i, model'[i])
    {
      if i != id {
        OtherIdStands(env, i, id, model[i], Record(e.fileHash, e.info));
      }
    }
  }

  lemma OtherIdStands(env: map<ByteString, ByteString>, i: nat, id: nat, was: SourceData, data: ByteString)
    requires RecordOf(env, i, was) && i != id
    ensures RecordOf(env[Varint.Encoding(id) := data], i, was)
  {
    if Varint.Encoding(i) == Varint.Encoding(id) {
      Varint.EncodingInjective(i, id);
    }
  }

  /** An equal record on file stands for equal data. */
  lemma SameRecord(env: map<ByteString, ByteString>, model: map<nat, SourceData>, id: nat, e: SourceData)
    requires Represents(env, model) && id in model && Varint.Encoding(id) in env
    requires env[Varint.Encoding(id)] == Record(e.fileHash, e.info)
    ensures model[id] == e
  {
    assert Agrees(FromModel, env, model) && RecordOf(env, id, model[id]);
    RecordInjective(model[id].fileHash, model[id].info, e.fileHash, e.info);
  }

  lemma SameModel(model: map<nat, SourceData>, id: nat, e: SourceData)
    requires id in model && model[id] == e
    ensures model[id := e] == model
  {
  }

  lemma OtherRecord(env: map<ByteString, ByteString>, model: map<nat, SourceData>, id: nat, e: SourceData)
    requires Represents(env, model) && id in model && Varint.Encoding(id) in env
    requires env[Varint.Encoding(id)] != Record(e.fileHash, e.info)
    ensures model[id] != e
  {
    assert Agrees(FromModel, env, model) && RecordOf(env, id, model[id]);
  }

  method NewRecord(fileHash: ByteString, info: Info) returns (data: ByteString)
    requires Ok(SourceData(fileHash, info))
    ensures data == Record(fileHash, info)
  {
    var buf := new Byte[|fileHash| + |info.fileType| + 40];
    var size := WriteRecord(fileHash, info, buf);
    data := buf[..size];
  }

  method WriteKey(id: U64) returns (key: ByteString)
    ensures key == Varint.Encoding(id)
  {
    var start := new Byte[10];
    Varint.EncodingLength(id);
    var p := WriteUint64(id, start, 0);
    key := start[..p];
  }

  datatype Existing = Absent | Same | Other

  class SourceDataManager {
    var env: map<ByteString, ByteString>
    var inserted: nat
    var same: nat
    var changed: nat
    ghost var model: map<nat, SourceData>

    ghost predicate Valid()
      reads this
    {
      Represents(env, model)
    }

    constructor ()
      ensures Valid() && model == map[]
    {
      env, model := map[], map[];
      inserted, same, changed := 0, 0, 0;
    }

    /** Insert, or overwrite when different. */
    method Insert(id: U64, fileHash: ByteString, info: Info)
      requires Valid() && Ok(SourceData(fileHash, info))
      modifies this
      ensures Valid() && model == old(model)[id := SourceData(fileHash, info)]
      ensures inserted == old(inserted) + (if id in old(model) then 0 else 1)
      ensures same == old(same) + (if At(old(model), id) == Some(SourceData(fileHash, info)) then 1 else 0)
      ensures inserted + same + changed == old(inserted + same + changed) + 1
    {
      var key := WriteKey(id);
      var data := NewRecord(fileHash, info);
      var was := Compare(key, data, id, SourceData(fileHash, info));
      Keep(was, key, data, id, SourceData(fileHash, info));
      Tally(was);
    }

    method Tally(was: Existing)
      modifies this`inserted, this`same, this`changed
      ensures inserted == old(inserted) + (if was.Absent? then 1 else 0)
      ensures same == old(same) + (if was.Same? then 1 else 0)
      ensures changed == old(changed) + (if was.Other? then 1 else 0)
    {
      match was
      case Absent => inserted := inserted + 1;
      case Same => same := same + 1;
      case Other => changed := changed + 1;
    }

    /** How the record on file compares to the new one. */
    method Compare(key: ByteString, data: ByteString, ghost id: nat, ghost e: SourceData) returns (was: Existing)
      requires Valid() && key == Varint.Encoding(id) && data == Record(e.fileHash, e.info)
      ensures was == if id !in model then Absent else if model[id] == e then Same else Other
    {
      KeyInEnv(env, model, id);
      if key !in env {
        return Absent;
      }
      if env[key] == data {
        SameRecord(env, model, id, e);
        return Same;
      }
      OtherRecord(env, model, id, e);
      return Other;
    }

    method Keep(was: Existing, key: ByteString, data: ByteString, ghost id: nat, ghost e: SourceData)
      requires Valid() && Ok(e) && key == Varint.Encoding(id) && data == Record(e.fileHash, e.info)
      requires was.Same? ==> id in model && model[id] == e
      modifies this`env, this`model
      ensures Valid() && model == old(model)[id := e]
    {
      if was.Same? {
        SameModel(model, id, e);
      } else {
        Put(key, data, id, e);
      }
    }

    /** mdb_put over the record of one id. */
    method Put(key: ByteString, data: ByteString, ghost id: nat, ghost e: SourceData)
      requires Valid() && Ok(e) && key == Varint.Encoding(id) && data == Record(e.fileHash, e.info)
      modifies this`env, this`model
      ensures Valid() && model == old(model)[id := e]
    {
      Rewritten(env, model, id, e);
      env := env[key := data];
      model := model[id := e];
    }

    /** Find gives what the latest insert for the id wrote. */
    method Find(id: U64) returns (found: bool, fileHash: ByteString, info: Info)
      requires Valid()
      ensures found <==> id in model
      ensures if found then model[id] == SourceData(fileHash, info)
              else fileHash == [] && info == Info(0, [], 0, 0)
    {
      var key := WriteKey(id);
      KeyInEnv(env, model, id);
      if key !in env {
        return false, [], BLANK;
      }
      assert Agrees(FromModel, env, model) && RecordOf(env, id, model[id]);
      var p;
      found := true;
      fileHash, info, p := ReadRecord(env[key], model[id].fileHash, model[id].info);
      assert p == |env[key]|;
    }
  }

  function At<V>(m: map<nat, V>, id: nat): Option<V> {
    if id in m then Some(m[id]) else None
  }

  // ---------- lmdb_source_id_manager_t ----------

  ghost predicate IdsRepresent(env: map<ByteString, ByteString>, ids: map<ByteString, nat>) {
    && env.Keys == ids.Keys
    && (forall f :: f in ids ==> IdRecord(env, f, ids[f]))
  }

  ghost predicate IdRecord(env: map<ByteString, ByteString>, f: ByteString, id: nat) {
    Lmdb.IsKey(f) && id < TWO_TO_THE_64 && f in env && env[f] == Varint.Encoding(id)
  }

  class SourceIdManager {
    var env: map<ByteString, ByteString>
    var inserted: nat
    var alreadyPresent: nat
    ghost var ids: map<ByteString, nat>

    ghost predicate Valid()
      reads this
    {
      IdsRepresent(env, ids)
    }

    constructor ()
      ensures Valid() && ids == map[]
    {
      env, ids := map[], map[];
      inserted, alreadyPresent := 0, 0;
    }

    /** The id on record, or a new one; an empty file hash leaves the caller's value. */
    method Insert(fileHash: ByteString, was: U64) returns (isNew: bool, id: U64)
      requires Valid() && |ids| + 1 < TWO_TO_THE_64 && |fileHash| <= Lmdb.MAX_KEY_SIZE
      modifies this
      ensures Valid()
      ensures fileHash == [] ==> !isNew && id == was && ids == old(ids)
      ensures fileHash != [] ==> ids == ImportManager.WithId(old(ids), fileHash) && id == ids[fileHash]
      ensures fileHash != [] ==> (isNew <==> fileHash !in old(ids))
      ensures inserted == old(inserted) + (if isNew then 1 else 0)
      ensures alreadyPresent == old(alreadyPresent) + (if fileHash == [] || isNew then 0 else 1)
    {
      if fileHash == [] {
        return false, was;
      }
      if fileHash in env {
        assert IdRecord(env, fileHash, ids[fileHash]);
        var p;
        id, p := ReadId(env[fileHash], ids[fileHash]);
        alreadyPresent := alreadyPresent + 1;
        isNew := false;
      } else {
        assert |env.Keys| == |env| && |ids.Keys| == |ids|;
        id := |env| + 1;
        var data := WriteKey(id);
        IdsStay(env, ids, fileHash, id);
        env := env[fileHash := data];
        ids := ids[fileHash := id];
        inserted := inserted + 1;
        isNew := true;
      }
    }

    method Find(fileHash: ByteString, was: U64) returns (found: bool, id: U64)
      requires Valid()
      ensures found <==> fileHash != [] && fileHash in ids
      ensures id == if fileHash == [] then was else if found then ids[fileHash] else 0
    {
      if fileHash == [] {
        return false, was;
      }
      if fileHash !in env {
        return false, 0;
      }
      assert IdRecord(env, fileHash, ids[fileHash]);
      var p;
      id, p := ReadId(env[fileHash], ids[fileHash]);
      found := true;
    }

    /** The least file hash, or nothing. */
    method FirstSource() returns (f: ByteString)
      requires Valid()
      ensures f == [] <==> ids == map[]
      ensures f != [] ==> f in ids && forall g :: g in ids && g != f ==> LexLess(f, g)
    {
      KeysNotEmpty(env, ids);
      f := LeastAbove(env.Keys, []);
    }

    /** The least greater file hash; nothing at the end, or for an unknown file hash. */
    method NextSource(f: ByteString) returns (next: ByteString)
      requires Valid()
      ensures f !in ids ==> next == []
      ensures next != [] ==> next in ids && LexLess(f, next)
      ensures f in ids ==> forall g :: g in ids && LexLess(f, g) ==> next != [] && (g == next || LexLess(next, g))
    {
      KeysNotEmpty(env, ids);
      if f !in env {
        return [];
      }
      next := LeastAbove(env.Keys, f);
    }

    /** load_preexisting_sources: from first_source on through next_source. */
    method AllSources() returns (sources: set<ByteString>)
      requires Valid()
      ensures sources == ids.Keys
    {
      var f := FirstSource();
      sources := {};
      forall g | g in ids
        ensures !LexLess(g, f)
      {
        NotBefore(f, g);
      }
      while f != []
        invariant f != [] ==> f in ids
        invariant sources <= ids.Keys
        invariant forall g :: g in ids ==> (g in sources <==> f == [] || LexLess(g, f))
        decreases ids.Keys - sources
      {
        var next := NextSource(f);
        LexIrreflexive(f);
        forall g | g in ids
          ensures g == f || LexLess(g, f) <==> next == [] || LexLess(g, next)
        {
          UpToNext(f, next, g);
        }
        sources := sources + {f};
        f := next;
      }
    }
  }

  lemma KeysNotEmpty(env: map<ByteString, ByteString>, ids: map<ByteString, nat>)
    requires IdsRepresent(env, ids)
    ensures env.Keys == ids.Keys && [] !in env.Keys
  {
    forall f | f in ids
      ensures f != []
    {
      assert IdRecord(env, f, ids[f]);
    }
  }

  lemma NotBefore(f: ByteString, g: ByteString)
    requires g == f || LexLess(f, g)
    ensures !LexLess(g, f)
  {
    LexIrreflexive(f);
    if g != f && LexLess(g, f) {
      LexTransitive(f, g, f);
    }
  }

  /** What is not behind f comes before its successor. */
  lemma UpToNext(f: ByteString, next: ByteString, g: ByteString)
    requires next != [] ==> LexLess(f, next)
    requires LexLess(f, g) ==> next != [] && (g == next || LexLess(next, g))
    ensures g == f || LexLess(g, f) <==> next == [] || LexLess(g, next)
  {
    if g == f {
    } else if LexLess(f, g) {
      NotBefore(f, g);
      if next != [] {
        NotBefore(next, g);
      }
    } else {
      LexTotal(g, f);
      if next != [] {
        LexTransitive(g, f, next);
      }
    }
  }

  /** The least of the keys behind f, or nothing. */
  method LeastAbove(keys: set<ByteString>, f: ByteString) returns (least: ByteString)
    requires [] !in keys
    ensures least == [] <==> forall k :: k in keys ==> !LexLess(f, k)
    ensures least != [] ==>
              least in keys && LexLess(f, least) && forall k :: k in keys && LexLess(f, k) ==>
              k == least || LexLess(least, k)
  {
    least := [];
    var left := keys;
    while left != {}
      invariant left <= keys
      invariant least == [] <==> forall k :: k in keys && k !in left ==> !LexLess(f, k)
      invariant least != [] ==>
              least in keys && LexLess(f, least) && forall k :: k in keys && k !in left && LexLess(f, k) ==>
              k == least || LexLess(least, k)
      decreases left
    {
      var k :| k in left;
      left := left - {k};
      if LexLess(f, k) && (least == [] || LexLess(k, least)) {
        forall j | j in keys && j !in left && LexLess(f, j) && j != k
          ensures LexLess(k, j)
        {
          if least != [] && j != least {
            LexTransitive(k, least, j);
          }
        }
        least := k;
      } else if LexLess(f, k) && k != least {
        LexTotal(k, least);
      }
    }
  }

  /** Decoding an id record ends at the end of the record. */
  method ReadId(data: ByteString, ghost n: nat) returns (id: U64, p: nat)
    requires n < TWO_TO_THE_64 && data == Varint.Encoding(n)
    ensures id == n && p == |data|
  {
    assert data[0..|data|] == data;
    id, p := ReadUint64(data, 0, n);
  }

  lemma IdsStay(env: map<ByteString, ByteString>, ids: map<ByteString, nat>, f: ByteString, id: U64)
    requires IdsRepresent(env, ids) && f !in ids && Lmdb.IsKey(f)
    ensures IdsRepresent(env[f := Varint.Encoding(id)], ids[f := id])
  {
    var env', ids' := env[f := Varint.Encoding(id)], ids[f := id];
    forall g | g in ids'
      ensures IdRecord(env', g, ids'[g])
    {
      assert g != f ==> IdRecord(env, g, ids[g]);
    }
  }
}
