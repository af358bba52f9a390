/** The client-side database of a pushed-back extension: a cache in front of remote gets (splinter/src/proxy.rs,
    splinter/src/container.rs, splinter/src/sched.rs). */
module Proxies {
  import opened Bytes
  import opened Store
  import opened Wire

  /** The position of the first record with this key, or the sentinel. */
  function SearchIndex(list: seq<KV>, key: Bytes): nat { SearchFrom(list, key, 0) }

  function SearchFrom(list: seq<KV>, key: Bytes, i: nat): (index: nat)
    requires i <= |list|
    ensures CachedFrom(list, key, i) ==>
              i <= index < |list| && list[index].key == key && forall j | i <= j < index :: list[j].key != key
    ensures !CachedFrom(list, key, i) ==> index == NOT_CACHED
    decreases |list| - i
  {
    if i == |list| then NOT_CACHED
    else if list[i].key == key then i
    else SearchFrom(list, key, i + 1)
  }

  predicate CachedFrom(list: seq<KV>, key: Bytes, i: nat) { exists j :: i <= j < |list| && list[j].key == key }

  predicate Cached(list: seq<KV>, key: Bytes) { CachedFrom(list, key, 0) }

  /** The hit test `index != 1024` is right for every key exactly when no key has its first record at position 1024. */
  lemma SentinelIsSafeIff(list: seq<KV>)
    ensures (forall key :: SearchIndex(list, key) != NOT_CACHED <==> Cached(list, key)) <==>
            (|list| <= NOT_CACHED || Cached(list[..NOT_CACHED], list[NOT_CACHED].key))
  {
    if |list| > NOT_CACHED {
      var key := list[NOT_CACHED].key;
      if Cached(list[..NOT_CACHED], key) {
        var j :| 0 <= j < |list[..NOT_CACHED]| && list[..NOT_CACHED][j].key == key;
        assert list[j].key == key;
        forall k ensures SearchIndex(list, k) != NOT_CACHED <==> Cached(list, k) {}
      } else {
        assert Cached(list, key);
        forall j | 0 <= j < NOT_CACHED ensures list[j].key != key { assert list[..NOT_CACHED][j] == list[j]; }
        assert SearchIndex(list, key) == NOT_CACHED;
      }
    }
  }

  datatype GetResult = Value(value: Bytes) | IndexPanic
  datatype Search = Hit(value: Bytes) | Miss

  class ProxyDb {
    var readset: seq<KV>
    var writeset: seq<KV>
    var commitPayload: Bytes
    var waiting: bool
    /** Keys of the get requests sent so far. */
    var sent: seq<Bytes>

    ghost function Contents(): Cache reads this { Cache(readset, writeset, commitPayload) }

    constructor ()
      ensures Contents() == EMPTY && !waiting && sent == []
    {
      readset, writeset, commitPayload, waiting, sent := [], [], [], false, [];
    }

    method SetReadRecord(record: Bytes, keyLen: nat)
      requires VERSION_SIZE + keyLen <= |record|
      modifies this`readset, this`commitPayload
      ensures Contents() == SetRecord(old(Contents()), Read, record, keyLen)
      ensures readset == old(readset) + [KV(record[..8], record[8..8 + keyLen], record[8 + keyLen..])]
      ensures writeset == old(writeset) && commitPayload == old(commitPayload) + [1] + record
    {
      commitPayload := commitPayload + [OpByte(Read)];
      commitPayload := commitPayload + record;
      var version, entry := record[..VERSION_SIZE], record[VERSION_SIZE..];
      assert entry[..keyLen] == record[8..8 + keyLen] && entry[keyLen..] == record[8 + keyLen..];
      readset := readset + [KV(version, entry[..keyLen], entry[keyLen..])];
    }

    method SetWriteRecord(record: Bytes, keyLen: nat)
      requires VERSION_SIZE + keyLen <= |record|
      modifies this`writeset, this`commitPayload
      ensures Contents() == SetRecord(old(Contents()), Write, record, keyLen)
      ensures writeset == old(writeset) + [KV(record[..8], record[8..8 + keyLen], record[8 + keyLen..])]
      ensures readset == old(readset) && commitPayload == old(commitPayload) + [2] + record
    {
      commitPayload := commitPayload + [OpByte(Write)];
      commitPayload := commitPayload + record;
      var version, entry := record[..VERSION_SIZE], record[VERSION_SIZE..];
      assert entry[..keyLen] == record[8..8 + keyLen] && entry[keyLen..] == record[8 + keyLen..];
      writeset := writeset + [KV(version, entry[..keyLen], entry[keyLen..])];
    }

    /** `update_cache` on every chunk of a server reply; reports the panic on a chunk that is too short. */
    method UpdateRwset(records: Bytes, recordLen: nat, keyLen: nat) returns (ok: bool)
      requires recordLen > 0
      modifies this`readset, this`writeset, this`commitPayload
      ensures ok <==> LoadAll(old(Contents()), Chunks(records, recordLen), keyLen).Some?
      ensures ok ==> LoadAll(old(Contents()), Chunks(records, recordLen), keyLen) == Some(Contents())
    {
      var chunks := Chunks(records, recordLen);
      for i := 0 to |chunks|
        invariant LoadAll(Contents(), chunks[i..], keyLen) == LoadAll(old(Contents()), chunks, keyLen)
      {
        var record := chunks[i];
        assert chunks[i..][0] == record && chunks[i..][1..] == chunks[i + 1..];
        if !Loadable(record, keyLen) { return false; }
        match ParseOpType(record[0]) {
          case Some(Read) => SetReadRecord(record[OPTYPE_SIZE..], keyLen);
          case Some(Write) => SetWriteRecord(record[OPTYPE_SIZE..], keyLen);
          case None =>
        }
      }
      return true;
    }

    static method SearchCache(list: seq<KV>, key: Bytes) returns (index: nat)
      ensures index == SearchIndex(list, key)
      ensures Cached(list, key) ==>
                index < |list| && list[index].key == key && forall j | 0 <= j < index :: list[j].key != key
      ensures !Cached(list, key) ==> index == 1024
    {
      for i := 0 to |list|
        invariant SearchIndex(list, key) == SearchFrom(list, key, i)
      {
        if list[i].key == key { return i; }
      }
      return NOT_CACHED;
    }

    /** The lookup after a resumed miss; indexing past the cache panics. */
    method Get(key: Bytes) returns (result: GetResult)
      modifies this`waiting
      ensures !waiting
      ensures Cached(readset, key) ==> result == Value(readset[SearchIndex(readset, key)].value)
      ensures !Cached(readset, key) && |readset| <= NOT_CACHED ==> result == IndexPanic
    {
      waiting := false;
      var index := SearchCache(readset, key);
      if index >= |readset| { return IndexPanic; }
      return Value(readset[index].value);
    }

    /** First half of `GET!`: a hit, or a get request and the waiting flag. */
    method SearchGetInCache(key: Bytes) returns (search: Search)
      modifies this`waiting, this`sent
      ensures |readset| <= NOT_CACHED && Cached(readset, key) ==>
                search == Hit(readset[SearchIndex(readset, key)].value) && waiting == old(waiting) && sent == old(sent)
      ensures !Cached(readset, key) ==> search == Miss && waiting && sent == old(sent) + [key]
    {
      var index := SearchCache(readset, key);
      if index != NOT_CACHED { return Hit(readset[index].value); }
      waiting := true;
      sent := sent + [key];
      return Miss;
    }

    /** A miss, the server's reply for the key it asked for, and the `get` after the yield: it always finds its key,
        and with the value of the reply. */
    method GetAfterMiss(key: Key, reply: Record) returns (result: GetResult)
      requires !Cached(readset, key) && |readset| < NOT_CACHED
      requires reply.key == key && reply.optype == Read
      modifies this
      ensures result == Value(reply.value) && !waiting
      ensures readset == old(readset) + [ToKV(reply)] && sent == old(sent) + [key]
    {
      var search := SearchGetInCache(key);
      assert EncodeAll([reply]) == EncodeRecord(reply) by { assert [reply][1..] == []; }
      EncodeRecordShape(reply);
      LoadOfEncoding(Contents(), reply);
      ghost var before := readset;
      assert Chunks(EncodeRecord(reply), |EncodeRecord(reply)|) == [EncodeRecord(reply)];
      var ok := UpdateRwset(EncodeRecord(reply), |EncodeRecord(reply)|, |key|);
      assert readset[|before|].key == key;
      result := Get(key);
    }

    /** `put`: the buffer is a zero version, the key and the value, and must have 138 bytes. */
    method Put(buf: Bytes) returns (ok: bool)
      modifies this`writeset, this`commitPayload
      ensures ok <==> |buf| == 138
      ensures Contents() == if ok then SetRecord(old(Contents()), Write, buf, PUT_KEY_LEN) else old(Contents())
      ensures ok ==> writeset == old(writeset) + [KV(buf[..8], buf[8..38], buf[38..])]
      ensures ok ==> commitPayload == old(commitPayload) + [2] + buf
    {
      if |buf| != PUT_SIZE { return false; }
      SetWriteRecord(buf, PUT_KEY_LEN);
      return true;
    }

    /** `commit`: the payload is everything recorded; the header takes its lengths from the first record. */
    method Commit() returns (rpc: CommitRpc)
      ensures rpc == CommitRequest(Contents())
      ensures rpc == NoRpc <==> readset == [] && writeset == []
      ensures rpc == PayloadTooLong <==> (readset != [] || writeset != []) && |commitPayload| > 1436
      ensures rpc.Rpc? ==>
                && rpc.payload == commitPayload
                && var first := if readset == []
                    || (readset[0].key == [] && writeset != []) then writeset[0] else readset[0];
                   rpc.keyLen == |first.key| % 65536 && rpc.valLen == |first.value| % 65536
    {
      if readset == [] && writeset == [] { return NoRpc; }
      var keyLen, valLen := 0, 0;
      if readset != [] { keyLen, valLen := |readset[0].key|, |readset[0].value|; }
      if keyLen == 0 && writeset != [] { keyLen, valLen := |writeset[0].key|, |writeset[0].value|; }
      if |commitPayload| > MAX_COMMIT_PAYLOAD { return PayloadTooLong; }
      return Rpc(commitPayload, keyLen % 65536, valLen % 65536);
    }
  }

  /** What `put` asserts of its buffer, and where it splits the key off. */
  const PUT_SIZE: nat := 138
  const PUT_KEY_LEN: nat := 30

  const ZERO_VERSION: Bytes := [0, 0, 0, 0, 0, 0, 0, 0]

  /** The buffer that `alloc` prepares and the extension fills. */
  function PutBuffer(key: Bytes, value: Bytes): Bytes { ZERO_VERSION + key + value }

  /** Among the buffers that `put` accepts, the record is the key and value put exactly for 30-byte keys. */
  lemma ClientPutIsExactIff(key: Bytes, value: Bytes)
    requires |PutBuffer(key, value)| == PUT_SIZE
    ensures SplitRecord(PutBuffer(key, value), PUT_KEY_LEN) == KV(ZERO_VERSION, key, value) <==> |key| == PUT_KEY_LEN
  {
    var buf := PutBuffer(key, value);
    assert buf[VERSION_SIZE..] == key + value;
    assert buf[..VERSION_SIZE] == ZERO_VERSION;
    if |key| == PUT_KEY_LEN {
      assert (key + value)[..|key|] == key && (key + value)[|key|..] == value;
    }
  }

  lemma ZeroVersion()
    ensures LittleEndian(0, VERSION_SIZE) == ZERO_VERSION
  {
    var width := VERSION_SIZE;
    ZeroBytes(width);
    assert forall i | 0 <= i < width :: ZERO_VERSION[i] == 0;
  }

  lemma {:induction false} ZeroBytes(width: nat)
    ensures forall i | 0 <= i < width :: LittleEndian(0, width)[i] == 0
  {
    if width > 0 { ZeroBytes(width - 1); }
  }
}
