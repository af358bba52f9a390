/** Read and write sets on the wire: the pushback payload (db/src/context.rs), the client's cache and commit
    payload (splinter/src/proxy.rs, splinter/src/container.rs, splinter/src/sched.rs) and the server's commit
    parsing (db/src/master.rs). */
module Wire {
  import opened Bytes
  import opened Store

  const OPTYPE_SIZE: nat := 1
  const VERSION_SIZE: nat := 8
  const MAX_COMMIT_PAYLOAD: nat := 1436
  /** What `search_cache` returns for a key that is not cached. */
  const NOT_CACHED: nat := 1024

  function RecordLen(keyLen: nat, valLen: nat): nat { OPTYPE_SIZE + VERSION_SIZE + keyLen + valLen }

  /** The lengths of keys and values that a client is configured with. */
  datatype Config = Config(keyLen: nat, valLen: nat) {
    function Len(): (len: nat)
      ensures len > 0
    {
      RecordLen(keyLen, valLen)
    }
  }

  function OpByte(op: OpType): byte { if op == Read then 1 else 2 }

  /** `parse_record_optype`; a zero byte is not an operation type and is treated like the other invalid ones. */
  function ParseOpType(b: byte): Option<OpType> {
    if b == 1 then Some(Read) else if b == 2 then Some(Write) else None
  }

  function EncodeRecord(r: Record): Bytes {
    [OpByte(r.optype)] + LittleEndian(r.version, VERSION_SIZE) + r.key + r.value
  }

  function Encodings(rs: seq<Record>): seq<Bytes> {
    seq(|rs|, i requires 0 <= i < |rs| => EncodeRecord(rs[i]))
  }

  function EncodeAll(rs: seq<Record>): Bytes {
    if rs == [] then [] else EncodeRecord(rs[0]) + EncodeAll(rs[1..])
  }

  function OfType(rs: seq<Record>, op: OpType): seq<Record> {
    if rs == [] then [] else (if rs[0].optype == op then [rs[0]] else []) + OfType(rs[1..], op)
  }

  /** Records of one length, as one RPC header describes them. */
  ghost predicate Uniform(rs: seq<Record>, keyLen: nat, valLen: nat) {
    forall i | 0 <= i < |rs| :: |rs[i].key| == keyLen && |rs[i].value| == valLen && rs[i].version < Pow256(VERSION_SIZE)
  }

  /** Splitting a record off panics if the record is too short; an empty key panics in `bucket`. */
  predicate Splittable(record: Bytes, keyLen: nat) {
    0 < keyLen && OPTYPE_SIZE + VERSION_SIZE + keyLen <= |record|
  }

  // ---------------------------------------------------------------- server: parsing a commit request

  function ParseRecord(op: OpType, record: Bytes, keyLen: nat): Record
    requires Splittable(record, keyLen)
  {
    var rest := record[OPTYPE_SIZE..];
    Record(op, FromLittleEndian(rest[..VERSION_SIZE]), rest[VERSION_SIZE..][..keyLen], rest[VERSION_SIZE..][keyLen..])
  }

  function AddParsed(tx: Tx, record: Bytes, keyLen: nat): Tx
    requires Splittable(record, keyLen)
  {
    match ParseOpType(record[0])
    case Some(Read) => tx.(readSet := tx.readSet + [ParseRecord(Read, record, keyLen)])
    case Some(Write) => tx.(writeSet := tx.writeSet + [ParseRecord(Write, record, keyLen)])
    case None => tx
  }

  /** One record after the other; `None` stands for a panic. */
  function ParseAll(tx: Tx, records: seq<Bytes>, keyLen: nat): Option<Tx>
    decreases |records|
  {
    if records == [] then Some(tx)
    else if !Splittable(records[0], keyLen) then None
    else ParseAll(AddParsed(tx, records[0], keyLen), records[1..], keyLen)
  }

  datatype Parsed = Malformed | Panic | Parsed(tx: Tx)

  /** What the server makes of a commit payload, given the lengths in the request header. */
  function ParsePayload(payload: Bytes, keyLen: nat, valLen: nat): Parsed {
    if |payload| < RecordLen(keyLen, valLen) then Malformed
    else
      match ParseAll(Tx([], []), Chunks(payload, RecordLen(keyLen, valLen)), keyLen)
      case Some(tx) => Parsed(tx)
      case None => Panic
  }

  /** `Master::commit` up to `validate`: one record per chunk, in order. */
  method ParseCommit(payload: Bytes, keyLen: nat, valLen: nat) returns (parsed: Parsed)
    ensures parsed == ParsePayload(payload, keyLen, valLen)
  {
    if |payload| < RecordLen(keyLen, valLen) { return Malformed; }
    var records := Chunks(payload, RecordLen(keyLen, valLen));
    var tx := Tx([], []);
    for i := 0 to |records|
      invariant ParseAll(tx, records[i..], keyLen) == ParseAll(Tx([], []), records, keyLen)
    {
      var record := records[i];
      assert records[i..][0] == record && records[i..][1..] == records[i + 1..];
      if !Splittable(record, keyLen) { return Panic; }
      match ParseOpType(record[0]) {
        case Some(Read) => tx := tx.(readSet := tx.readSet + [ParseRecord(Read, record, keyLen)]);
        case Some(Write) => tx := tx.(writeSet := tx.writeSet + [ParseRecord(Write, record, keyLen)]);
        case None =>
      }
    }
    return Parsed(tx);
  }

  // ---------------------------------------------------------------- client: cache and commit payload

  datatype KV = KV(version: Bytes, key: Bytes, value: Bytes)
  datatype Cache = Cache(readset: seq<KV>, writeset: seq<KV>, commitPayload: Bytes)
  const EMPTY := Cache([], [], [])

  function SplitRecord(record: Bytes, keyLen: nat): KV
    requires VERSION_SIZE + keyLen <= |record|
  {
    KV(record[..VERSION_SIZE], record[VERSION_SIZE..][..keyLen], record[VERSION_SIZE..][keyLen..])
  }

  /** `set_read_record` and `set_write_record`: the record goes to the payload and, split up, to a set. */
  function SetRecord(c: Cache, op: OpType, record: Bytes, keyLen: nat): Cache
    requires VERSION_SIZE + keyLen <= |record|
  {
    var c' := c.(commitPayload := c.commitPayload + [OpByte(op)] + record);
    if op == Read then c'.(readset := c.readset + [SplitRecord(record, keyLen)])
    else c'.(writeset := c.writeset + [SplitRecord(record, keyLen)])
  }

  /** A chunk without a valid operation type is skipped before anything is split off it. */
  predicate Loadable(record: Bytes, keyLen: nat) {
    record != [] && (ParseOpType(record[0]).Some? ==> OPTYPE_SIZE + VERSION_SIZE + keyLen <= |record|)
  }

  function Load(c: Cache, record: Bytes, keyLen: nat): Cache
    requires Loadable(record, keyLen)
  {
    match ParseOpType(record[0])
    case Some(op) => SetRecord(c, op, record[OPTYPE_SIZE..], keyLen)
    case None => c
  }

  /** `update_rwset`: every chunk into the cache; `None` stands for a panic. */
  function LoadAll(c: Cache, records: seq<Bytes>, keyLen: nat): Option<Cache>
    decreases |records|
  {
    if records == [] then Some(c)
    else if !Loadable(records[0], keyLen) then None
    else LoadAll(Load(c, records[0], keyLen), records[1..], keyLen)
  }

  function ToKV(r: Record): KV { KV(LittleEndian(r.version, VERSION_SIZE), r.key, r.value) }

  function KVs(rs: seq<Record>): seq<KV> {
    seq(|rs|, i requires 0 <= i < |rs| => ToKV(rs[i]))
  }

  datatype CommitRpc = NoRpc | Rpc(payload: Bytes, keyLen: nat, valLen: nat) | PayloadTooLong

  /** The record that gives the header of the commit request its lengths. */
  function FirstRecord(c: Cache): KV
    requires c.readset != [] || c.writeset != []
  {
    if c.readset != [] && (c.readset[0].key != [] || c.writeset == []) then c.readset[0] else c.writeset[0]
  }

  /** The request that `commit` sends: everything recorded, nothing, or a panic for a payload that is too long. */
  function CommitRequest(c: Cache): CommitRpc {
    if c.readset == [] && c.writeset == [] then NoRpc
    else if |c.commitPayload| > MAX_COMMIT_PAYLOAD then PayloadTooLong
    else Rpc(c.commitPayload, |FirstRecord(c).key| % 65536, |FirstRecord(c).value| % 65536)
  }

  // ---------------------------------------------------------------- chunks of an encoding are the records

  lemma EncodeRecordShape(r: Record)
    ensures |EncodeRecord(r)| == RecordLen(|r.key|, |r.value|)
    ensures var e := EncodeRecord(r);
            && e[0] == OpByte(r.optype)
            && e[OPTYPE_SIZE..][..VERSION_SIZE] == LittleEndian(r.version, VERSION_SIZE)
            && e[OPTYPE_SIZE..][VERSION_SIZE..][..|r.key|] == r.key
            && e[OPTYPE_SIZE..][VERSION_SIZE..][|r.key|..] == r.value
  {
    var e := EncodeRecord(r);
    assert e[OPTYPE_SIZE..] == LittleEndian(r.version, VERSION_SIZE) + r.key + r.value;
    assert e[OPTYPE_SIZE..][VERSION_SIZE..] == r.key + r.value;
  }

  /** The layout of a record: 1 for a read and 2 for a write, the eight bytes of the version, least significant first,
      the key and the value. */
  lemma RecordLayout(r: Record)
    ensures var e := EncodeRecord(r);
            && |e| == 9 + |r.key| + |r.value|
            && e[0] == (if r.optype == Read then 1 else 2)
            && (forall i | 0 <= i < 8 :: e[1 + i] == r.version / Pow256(i) % 256)
            && e[9..9 + |r.key|] == r.key && e[9 + |r.key|..] == r.value
  {
    var e, version := EncodeRecord(r), LittleEndian(r.version, VERSION_SIZE);
    forall i | 0 <= i < 8 ensures e[1 + i] == r.version / Pow256(i) % 256 {
      LittleEndianDigits(r.version, VERSION_SIZE, i);
      assert e[1 + i] == version[i];
    }
  }

  lemma ChunksOfConcat(head: Bytes, tail: Bytes)
    requires head != []
    ensures Chunks(head + tail, |head|) == [head] + Chunks(tail, |head|)
  {
    if tail == [] {
      assert head + tail == head;
    } else {
      assert (head + tail)[..|head|] == head && (head + tail)[|head|..] == tail;
    }
  }

  lemma {:induction false} ChunksOfEncoding(rs: seq<Record>, keyLen: nat, valLen: nat)
    requires Uniform(rs, keyLen, valLen)
    ensures Chunks(EncodeAll(rs), RecordLen(keyLen, valLen)) == Encodings(rs)
  {
    if rs != [] {
      ChunksOfEncoding(rs[1..], keyLen, valLen);
      EncodeRecordShape(rs[0]);
      ChunksOfConcat(EncodeRecord(rs[0]), EncodeAll(rs[1..]));
      EncodingsFirst(rs);
    }
  }

  lemma EncodingsFirst(rs: seq<Record>)
    requires rs != []
    ensures Encodings(rs) == [EncodeRecord(rs[0])] + Encodings(rs[1..])
  {
  }

  lemma {:induction false} EncodeAllConcat(a: seq<Record>, b: seq<Record>)
    ensures EncodeAll(a + b) == EncodeAll(a) + EncodeAll(b)
  {
    if a == [] {
      assert a + b == b;
    } else {
      EncodeAllConcat(a[1..], b);
      assert (a + b)[1..] == a[1..] + b;
      Associative(EncodeRecord(a[0]), EncodeAll(a[1..]), EncodeAll(b));
    }
  }

  lemma Associative<T>(a: seq<T>, b: seq<T>, c: seq<T>)
    ensures a + (b + c) == (a + b) + c
  {
  }

  lemma {:induction false} OfTypeConcat(a: seq<Record>, b: seq<Record>, op: OpType)
    ensures OfType(a + b, op) == OfType(a, op) + OfType(b, op)
  {
    if a == [] {
      assert a + b == b;
    } else {
      OfTypeConcat(a[1..], b, op);
      assert (a + b)[1..] == a[1..] + b;
      Associative(if a[0].optype == op then [a[0]] else [], OfType(a[1..], op), OfType(b, op));
    }
  }

  // ---------------------------------------------------------------- reading an encoding back

  function AddTyped(tx: Tx, r: Record): Tx {
    Tx(if r.optype == Read then tx.readSet + [r] else tx.readSet,
       if r.optype == Write then tx.writeSet + [r] else tx.writeSet)
  }

  function SplitByType(tx: Tx, rs: seq<Record>): Tx {
    Tx(tx.readSet + OfType(rs, Read), tx.writeSet + OfType(rs, Write))
  }

  lemma ParseOfEncoding(tx: Tx, r: Record, valLen: nat)
    requires Uniform([r], |r.key|, valLen)
    ensures Splittable(EncodeRecord(r), |r.key|)
    ensures AddParsed(tx, EncodeRecord(r), |r.key|) == AddTyped(tx, r)
  {
    assert [r][0] == r;
    EncodeRecordShape(r);
    LittleEndianRoundTrip(r.version, VERSION_SIZE);
    assert ParseRecord(r.optype, EncodeRecord(r), |r.key|) == r;
  }

  lemma AddTypedStep(tx: Tx, rs: seq<Record>)
    requires rs != []
    ensures SplitByType(AddTyped(tx, rs[0]), rs[1..]) == SplitByType(tx, rs)
  {
    Associative(tx.readSet, [rs[0]], OfType(rs[1..], Read));
    Associative(tx.writeSet, [rs[0]], OfType(rs[1..], Write));
  }

  function AddRecord(c: Cache, r: Record): Cache {
    Cache(if r.optype == Read then c.readset + [ToKV(r)] else c.readset,
          if r.optype == Write then c.writeset + [ToKV(r)] else c.writeset,
          c.commitPayload + EncodeRecord(r))
  }

  lemma LoadOfEncoding(c: Cache, r: Record)
    ensures Loadable(EncodeRecord(r), |r.key|)
    ensures Load(c, EncodeRecord(r), |r.key|) == AddRecord(c, r)
  {
    EncodeRecordShape(r);
    var e := EncodeRecord(r);
    assert e == [e[0]] + e[OPTYPE_SIZE..];
    Associative(c.commitPayload, [e[0]], e[OPTYPE_SIZE..]);
  }

  lemma KVsOfType(rs: seq<Record>, op: OpType)
    requires rs != []
    ensures KVs(OfType(rs, op)) == (if rs[0].optype == op then [ToKV(rs[0])] else []) + KVs(OfType(rs[1..], op))
  {
  }

  /** The cache with further records in it. */
  function Loaded(c: Cache, rs: seq<Record>): Cache {
    Cache(c.readset + KVs(OfType(rs, Read)), c.writeset + KVs(OfType(rs, Write)), c.commitPayload + EncodeAll(rs))
  }

  lemma LoadedStep(c: Cache, rs: seq<Record>)
    requires rs != []
    ensures Loaded(AddRecord(c, rs[0]), rs[1..]) == Loaded(c, rs)
  {
    var c', kv, rest := AddRecord(c, rs[0]), ToKV(rs[0]), rs[1..];
    assert c'.readset + KVs(OfType(rest, Read)) == c.readset + KVs(OfType(rs, Read)) by {
      KVsOfType(rs, Read);
      Associative(c.readset, [kv], KVs(OfType(rest, Read)));
    }
    assert c'.writeset + KVs(OfType(rest, Write)) == c.writeset + KVs(OfType(rs, Write)) by {
      KVsOfType(rs, Write);
      Associative(c.writeset, [kv], KVs(OfType(rest, Write)));
    }
    Associative(c.commitPayload, EncodeRecord(rs[0]), EncodeAll(rest));
  }

  lemma LoadedIntoEmpty(rs: seq<Record>)
    ensures Loaded(EMPTY, rs) == Cache(KVs(OfType(rs, Read)), KVs(OfType(rs, Write)), EncodeAll(rs))
  {
  }

  lemma {:induction false} LoadOfEncodings(c: Cache, rs: seq<Record>, keyLen: nat, valLen: nat)
    requires Uniform(rs, keyLen, valLen)
    ensures LoadAll(c, Encodings(rs), keyLen) == Some(Loaded(c, rs))
    decreases |rs|
  {
    if rs == [] {
      assert Loaded(c, rs) == c;
    } else {
      LoadOfEncoding(c, rs[0]);
      LoadedStep(c, rs);
      assert Encodings(rs)[0] == EncodeRecord(rs[0]) && Encodings(rs)[1..] == Encodings(rs[1..]);
      LoadOfEncodings(AddRecord(c, rs[0]), rs[1..], keyLen, valLen);
    }
  }

  // ---------------------------------------------------------------- the whole way round

  ghost predicate Typed(tx: Tx) {
    && (forall i | 0 <= i < |tx.readSet| :: tx.readSet[i].optype == Read)
    && (forall i | 0 <= i < |tx.writeSet| :: tx.writeSet[i].optype == Write)
  }

  lemma {:induction false} OfTypeAll(rs: seq<Record>, op: OpType)
    requires forall i | 0 <= i < |rs| :: rs[i].optype == op
    ensures OfType(rs, op) == rs
    ensures forall other | other != op :: OfType(rs, other) == []
  {
    if rs != [] { OfTypeAll(rs[1..], op); }
  }

  lemma OfTypeOfTx(tx: Tx)
    requires Typed(tx)
    ensures OfType(tx.readSet + tx.writeSet, Read) == tx.readSet
    ensures OfType(tx.readSet + tx.writeSet, Write) == tx.writeSet
  {
    OfTypeAll(tx.readSet, Read);
    OfTypeAll(tx.writeSet, Write);
    OfTypeConcat(tx.readSet, tx.writeSet, Read);
    OfTypeConcat(tx.readSet, tx.writeSet, Write);
  }

  function PushbackPayload(tx: Tx): Bytes { EncodeAll(tx.readSet) + EncodeAll(tx.writeSet) }

  /** The client's cache after a pushback holds the server's read and write sets in order. */
  lemma PushbackFillsCache(tx: Tx, keyLen: nat, valLen: nat)
    requires Typed(tx) && Uniform(tx.readSet + tx.writeSet, keyLen, valLen)
    ensures LoadAll(EMPTY, Chunks(PushbackPayload(tx), RecordLen(keyLen, valLen)), keyLen)
            == Some(Cache(KVs(tx.readSet), KVs(tx.writeSet), EncodeAll(tx.readSet + tx.writeSet)))
  {
    var all := tx.readSet + tx.writeSet;
    EncodeAllConcat(tx.readSet, tx.writeSet);
    ChunksOfEncoding(all, keyLen, valLen);
    LoadOfEncodings(EMPTY, all, keyLen, valLen);
    OfTypeOfTx(tx);
    LoadedIntoEmpty(all);
  }

  /** All records but the last have exactly the lengths of the header, the last has at most these. */
  ghost predicate Aligned(rs: seq<Record>, keyLen: nat, valLen: nat) {
    forall i | 0 <= i < |rs| ::
      && |rs[i].key| == keyLen && |rs[i].value| <= valLen && rs[i].version < Pow256(VERSION_SIZE)
      && (i < |rs| - 1 ==> |rs[i].value| == valLen)
  }

  ghost predicate FullSize(r: Record, keyLen: nat, valLen: nat) {
    |r.key| == keyLen && |r.value| == valLen && r.version < Pow256(VERSION_SIZE)
  }

  function SetOf(tx: Tx, op: OpType): seq<Record> { if op == Read then tx.readSet else tx.writeSet }

  lemma {:induction false} ParseAllExtends(tx: Tx, records: seq<Bytes>, keyLen: nat, op: OpType)
    requires ParseAll(tx, records, keyLen).Some?
    ensures SetOf(tx, op) <= SetOf(ParseAll(tx, records, keyLen).value, op)
    decreases |records|
  {
    if records != [] { ParseAllExtends(AddParsed(tx, records[0], keyLen), records[1..], keyLen, op); }
  }

  /** A payload that reads back exactly starts with a record that reads back exactly. */
  lemma FirstReadsBack(tx: Tx, rs: seq<Record>, records: seq<Bytes>, keyLen: nat)
    requires rs != [] && records != [] && records[0] != [] && records[0][0] == OpByte(rs[0].optype)
    requires ParseAll(tx, records, keyLen) == Some(SplitByType(tx, rs))
    ensures Splittable(records[0], keyLen) && ParseRecord(rs[0].optype, records[0], keyLen) == rs[0]
  {
    var op, tx' := rs[0].optype, AddParsed(tx, records[0], keyLen);
    ParseAllExtends(tx', records[1..], keyLen, op);
    var n := |SetOf(tx, op)|;
    assert SetOf(tx', op)[n] == ParseRecord(op, records[0], keyLen);
    assert SetOf(SplitByType(tx, rs), op)[n] == OfType(rs, op)[0] == rs[0];
  }

  lemma FullSizeIffReadsBack(r: Record, more: Bytes, chunk: Bytes, keyLen: nat)
    requires chunk <= EncodeRecord(r) + more && Splittable(chunk, keyLen)
    requires ParseRecord(r.optype, chunk, keyLen) == r
    ensures |r.key| == keyLen && |chunk| == |EncodeRecord(r)| && r.version < Pow256(VERSION_SIZE)
  {
    EncodeRecordShape(r);
    var e := EncodeRecord(r);
    assert chunk[OPTYPE_SIZE..][..VERSION_SIZE] == e[OPTYPE_SIZE..][..VERSION_SIZE];
    LittleEndianRoundTrip(r.version, VERSION_SIZE);
  }

  lemma {:induction false} ParsesIffAligned(tx: Tx, rs: seq<Record>, keyLen: nat, valLen: nat)
    ensures ParseAll(tx, Chunks(EncodeAll(rs), RecordLen(keyLen, valLen)), keyLen) == Some(SplitByType(tx, rs))
            <==> Aligned(rs, keyLen, valLen)
    decreases |rs|
  {
    if rs == [] {
      assert SplitByType(tx, rs) == tx;
    } else {
      var head, tail, len := EncodeRecord(rs[0]), EncodeAll(rs[1..]), RecordLen(keyLen, valLen);
      var records := Chunks(head + tail, len);
      EncodeRecordShape(rs[0]);
      if FullSize(rs[0], keyLen, valLen) {
        FullSizeParses(tx, rs, keyLen, valLen);
        ParsesIffAligned(AddTyped(tx, rs[0]), rs[1..], keyLen, valLen);
        AddTypedStep(tx, rs);
        AlignedTail(rs, keyLen, valLen);
      } else {
        OtherSizeParses(tx, rs, keyLen, valLen);
      }
    }
  }

  lemma AlignedTail(rs: seq<Record>, keyLen: nat, valLen: nat)
    requires rs != [] && FullSize(rs[0], keyLen, valLen)
    ensures Aligned(rs, keyLen, valLen) <==> Aligned(rs[1..], keyLen, valLen)
  {
    if Aligned(rs[1..], keyLen, valLen) {
      forall i | 0 < i < |rs| ensures rs[i] == rs[1..][i - 1] {}
    }
    if Aligned(rs, keyLen, valLen) {
      forall i | 0 <= i < |rs[1..]| ensures rs[1..][i] == rs[i + 1] {}
    }
  }

  lemma FullSizeParses(tx: Tx, rs: seq<Record>, keyLen: nat, valLen: nat)
    requires rs != [] && FullSize(rs[0], keyLen, valLen)
    ensures ParseAll(tx, Chunks(EncodeAll(rs), RecordLen(keyLen, valLen)), keyLen)
            == ParseAll(AddTyped(tx, rs[0]), Chunks(EncodeAll(rs[1..]), RecordLen(keyLen, valLen)), keyLen)
  {
    var head, tail, len := EncodeRecord(rs[0]), EncodeAll(rs[1..]), RecordLen(keyLen, valLen);
    EncodeRecordShape(rs[0]);
    ParseOfEncoding(tx, rs[0], valLen);
    ChunksOfConcat(head, tail);
    assert ([head] + Chunks(tail, len))[1..] == Chunks(tail, len);
  }

  lemma OtherSizeParses(tx: Tx, rs: seq<Record>, keyLen: nat, valLen: nat)
    requires rs != [] && !FullSize(rs[0], keyLen, valLen)
    ensures ParseAll(tx, Chunks(EncodeAll(rs), RecordLen(keyLen, valLen)), keyLen) == Some(SplitByType(tx, rs))
            <==> Aligned(rs, keyLen, valLen)
  {
    var head, tail, len := EncodeRecord(rs[0]), EncodeAll(rs[1..]), RecordLen(keyLen, valLen);
    var records := Chunks(head + tail, len);
    EncodeRecordShape(rs[0]);
    if Aligned(rs, keyLen, valLen) {
      assert |rs| == 1;
      assert head + tail == head && records == [head];
      ParseOfEncoding(tx, rs[0], |rs[0].value|);
      AddTypedStep(tx, rs);
      assert SplitByType(AddTyped(tx, rs[0]), rs[1..]) == AddTyped(tx, rs[0]);
    }
    if ParseAll(tx, records, keyLen) == Some(SplitByType(tx, rs)) {
      assert records[0] <= head + tail;
      FirstReadsBack(tx, rs, records, keyLen);
      FullSizeIffReadsBack(rs[0], tail, records[0], keyLen);
      assert tail == [];
    }
  }

  /** A commit payload reads back exactly if and only if its records are aligned: one shorter record before the end, or
      one key of another length, shifts everything behind it. */
  lemma CommitPayloadParsesIff(rs: seq<Record>, keyLen: nat, valLen: nat)
    ensures ParseAll(Tx([], []), Chunks(EncodeAll(rs), RecordLen(keyLen, valLen)), keyLen)
              == Some(Tx(OfType(rs, Read), OfType(rs, Write)))
            <==> Aligned(rs, keyLen, valLen)
  {
    ParsesIffAligned(Tx([], []), rs, keyLen, valLen);
    assert [] + OfType(rs, Read) == OfType(rs, Read) && [] + OfType(rs, Write) == OfType(rs, Write);
  }

  /** In particular records of one length, reads and writes mixed, parse into the reads and the writes. */
  lemma CommitPayloadParses(rs: seq<Record>, keyLen: nat, valLen: nat)
    requires Uniform(rs, keyLen, valLen)
    ensures ParseAll(Tx([], []), Chunks(EncodeAll(rs), RecordLen(keyLen, valLen)), keyLen)
            == Some(Tx(OfType(rs, Read), OfType(rs, Write)))
  {
    CommitPayloadParsesIff(rs, keyLen, valLen);
  }

  /** The pushback payload, chunked into the client's cache, extended by whatever the replay reads and writes,
      sent as the commit payload and parsed by the server, is the original read and write sets followed by the
      replay's own, versions included. */
  lemma PushbackRoundTrip(tx: Tx, later: seq<Record>, keyLen: nat, valLen: nat)
    requires Typed(tx)
    requires Uniform(tx.readSet + tx.writeSet, keyLen, valLen) && Uniform(later, keyLen, valLen)
    ensures var len := RecordLen(keyLen, valLen);
            var pushed := LoadAll(EMPTY, Chunks(PushbackPayload(tx), len), keyLen);
            pushed.Some? &&
            var replayed := LoadAll(pushed.value, Encodings(later), keyLen);
            replayed.Some? &&
            ParseAll(Tx([], []), Chunks(replayed.value.commitPayload, len), keyLen)
              == Some(Tx(tx.readSet + OfType(later, Read), tx.writeSet + OfType(later, Write)))
  {
    var first := tx.readSet + tx.writeSet;
    PushbackFillsCache(tx, keyLen, valLen);
    LoadOfEncodings(Cache(KVs(tx.readSet), KVs(tx.writeSet), EncodeAll(first)), later, keyLen, valLen);
    EncodeAllConcat(first, later);
    CommitPayloadParses(first + later, keyLen, valLen);
    OfTypeOfTx(tx);
    OfTypeConcat(first, later, Read);
    OfTypeConcat(first, later, Write);
  }

  // ---------------------------------------------------------------- any payload

  /** The chunks that start with the byte `b`. */
  function StartingWith(chunks: seq<Bytes>, b: byte): seq<Bytes> {
    if chunks == [] then []
    else (if chunks[0] != [] && chunks[0][0] == b then [chunks[0]] else []) + StartingWith(chunks[1..], b)
  }

  /** The four parts of a record, put together again. */
  lemma Reassembled(record: Bytes, keyLen: nat)
    requires OPTYPE_SIZE + VERSION_SIZE + keyLen <= |record|
    ensures var rest := record[OPTYPE_SIZE..];
            var more := rest[VERSION_SIZE..];
            [record[0]] + rest[..VERSION_SIZE] + more[..keyLen] + more[keyLen..] == record
  {
    var rest := record[OPTYPE_SIZE..];
    var more := rest[VERSION_SIZE..];
    assert more[..keyLen] + more[keyLen..] == more;
    Associative([record[0]] + rest[..VERSION_SIZE], more[..keyLen], more[keyLen..]);
    assert rest[..VERSION_SIZE] + more == rest;
    Associative([record[0]], rest[..VERSION_SIZE], more);
    assert [record[0]] + rest == record;
  }

  lemma ParsedReencodes(op: OpType, record: Bytes, keyLen: nat)
    requires Splittable(record, keyLen) && record[0] == if op == Read then 1 else 2
    ensures var r := ParseRecord(op, record, keyLen);
            EncodeRecord(r) == record && r.optype == op && |r.key| == keyLen && r.version < Pow256(VERSION_SIZE)
  {
    ReadWriteBytes(record[OPTYPE_SIZE..][..VERSION_SIZE]);
    Reassembled(record, keyLen);
  }

  ghost predicate Keyed(rs: seq<Record>, op: OpType, keyLen: nat) {
    forall i | 0 <= i < |rs| :: rs[i].optype == op && |rs[i].key| == keyLen && rs[i].version < Pow256(VERSION_SIZE)
  }

  lemma EncodingsAppend(rs: seq<Record>, r: Record)
    ensures Encodings(rs + [r]) == Encodings(rs) + [EncodeRecord(r)]
  {
  }

  /** The server takes every chunk that starts with 1 for a read and every one that starts with 2 for a write, in order,
      and skips the others: encoded again, the parsed records are these chunks. It panics exactly if keys are empty or
      some chunk is too short for type, version and key. */
  lemma {:induction false} ParsesEveryChunk(tx: Tx, chunks: seq<Bytes>, keyLen: nat)
    requires Keyed(tx.readSet, Read, keyLen) && Keyed(tx.writeSet, Write, keyLen)
    ensures ParseAll(tx, chunks, keyLen) == None <==>
              exists i :: 0 <= i < |chunks| && (keyLen == 0 || |chunks[i]| < 9 + keyLen)
    ensures match ParseAll(tx, chunks, keyLen)
            case None => true
            case Some(tx') =>
              && Encodings(tx'.readSet) == Encodings(tx.readSet) + StartingWith(chunks, 1)
              && Encodings(tx'.writeSet) == Encodings(tx.writeSet) + StartingWith(chunks, 2)
              && Keyed(tx'.readSet, Read, keyLen) && Keyed(tx'.writeSet, Write, keyLen)
    decreases |chunks|
  {
    if chunks != [] && Splittable(chunks[0], keyLen) {
      var tx' := AddParsed(tx, chunks[0], keyLen);
      ParsedChunk(tx, chunks[0], keyLen);
      ParsesEveryChunk(tx', chunks[1..], keyLen);
      Associative(Encodings(tx.readSet), StartingWith([chunks[0]], 1), StartingWith(chunks[1..], 1));
      Associative(Encodings(tx.writeSet), StartingWith([chunks[0]], 2), StartingWith(chunks[1..], 2));
      FirstChunk(chunks, 1);
      FirstChunk(chunks, 2);
      forall i | 1 <= i < |chunks| ensures chunks[i] == chunks[1..][i - 1] {}
    }
  }

  lemma FirstChunk(chunks: seq<Bytes>, b: byte)
    requires chunks != []
    ensures StartingWith(chunks, b) == StartingWith([chunks[0]], b) + StartingWith(chunks[1..], b)
  {
    assert StartingWith([chunks[0]][1..], b) == [];
  }

  lemma ParsedChunk(tx: Tx, record: Bytes, keyLen: nat)
    requires Splittable(record, keyLen) && Keyed(tx.readSet, Read, keyLen) && Keyed(tx.writeSet, Write, keyLen)
    ensures var tx' := AddParsed(tx, record, keyLen);
            && Encodings(tx'.readSet) == Encodings(tx.readSet) + StartingWith([record], 1)
            && Encodings(tx'.writeSet) == Encodings(tx.writeSet) + StartingWith([record], 2)
            && Keyed(tx'.readSet, Read, keyLen) && Keyed(tx'.writeSet, Write, keyLen)
  {
    assert StartingWith([record][1..], 1) == [] == StartingWith([record][1..], 2);
    if record[0] == 1 {
      ParsedReencodes(Read, record, keyLen);
      EncodingsAppend(tx.readSet, ParseRecord(Read, record, keyLen));
    } else if record[0] == 2 {
      ParsedReencodes(Write, record, keyLen);
      EncodingsAppend(tx.writeSet, ParseRecord(Write, record, keyLen));
    }
  }

  /** The cached records as chunks of their type. */
  function AsChunks(kvs: seq<KV>, b: byte): seq<Bytes> {
    seq(|kvs|, i requires 0 <= i < |kvs| => [b] + kvs[i].version + kvs[i].key + kvs[i].value)
  }

  ghost predicate Split(kvs: seq<KV>, keyLen: nat) {
    forall i | 0 <= i < |kvs| :: |kvs[i].version| == 8 && |kvs[i].key| == keyLen
  }

  /** So does the client with its cache: the split records, put together again, are the chunks, in order. It panics
      exactly if some chunk is empty, or is a read or a write and too short. */
  lemma {:induction false} LoadsEveryChunk(c: Cache, chunks: seq<Bytes>, keyLen: nat)
    requires Split(c.readset, keyLen) && Split(c.writeset, keyLen)
    ensures LoadAll(c, chunks, keyLen) == None <==>
              exists i :: 0 <= i < |chunks| &&
                (chunks[i] == [] || ((chunks[i][0] == 1 || chunks[i][0] == 2) && |chunks[i]| < 9 + keyLen))
    ensures match LoadAll(c, chunks, keyLen)
            case None => true
            case Some(c') =>
              && AsChunks(c'.readset, 1) == AsChunks(c.readset, 1) + StartingWith(chunks, 1)
              && AsChunks(c'.writeset, 2) == AsChunks(c.writeset, 2) + StartingWith(chunks, 2)
              && Split(c'.readset, keyLen) && Split(c'.writeset, keyLen)
    decreases |chunks|
  {
    if chunks != [] && Loadable(chunks[0], keyLen) {
      LoadedChunk(c, chunks[0], keyLen);
      LoadsEveryChunk(Load(c, chunks[0], keyLen), chunks[1..], keyLen);
      Associative(AsChunks(c.readset, 1), StartingWith([chunks[0]], 1), StartingWith(chunks[1..], 1));
      Associative(AsChunks(c.writeset, 2), StartingWith([chunks[0]], 2), StartingWith(chunks[1..], 2));
      FirstChunk(chunks, 1);
      FirstChunk(chunks, 2);
      forall i | 1 <= i < |chunks| ensures chunks[i] == chunks[1..][i - 1] {}
    }
  }

  lemma LoadedChunk(c: Cache, record: Bytes, keyLen: nat)
    requires Loadable(record, keyLen) && Split(c.readset, keyLen) && Split(c.writeset, keyLen)
    ensures var c' := Load(c, record, keyLen);
            && AsChunks(c'.readset, 1) == AsChunks(c.readset, 1) + StartingWith([record], 1)
            && AsChunks(c'.writeset, 2) == AsChunks(c.writeset, 2) + StartingWith([record], 2)
            && Split(c'.readset, keyLen) && Split(c'.writeset, keyLen)
  {
    assert StartingWith([record][1..], 1) == [] == StartingWith([record][1..], 2);
    if record[0] == 1 || record[0] == 2 {
      var kv := SplitRecord(record[OPTYPE_SIZE..], keyLen);
      Reassembled(record, keyLen);
      AsChunksAppend(if record[0] == 1 then c.readset else c.writeset, kv, record[0]);
    }
  }

  lemma AsChunksAppend(kvs: seq<KV>, kv: KV, b: byte)
    ensures AsChunks(kvs + [kv], b) == AsChunks(kvs, b) + [[b] + kv.version + kv.key + kv.value]
  {
  }
}
