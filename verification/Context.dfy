/** The execution context of an extension on the server (db/src/context.rs). */
module Contexts {
  import opened Bytes
  import opened Store
  import opened Tables
  import Alloc
  import Wire

  datatype Status = StatusOk | StatusPushback | StatusTxAbort

  /** The value part of a stored object. */
  function ValueOf(obj: Bytes): Value {
    match Alloc.Resolve(obj)
    case Resolved(_, v) => v
    case _ => obj
  }

  function ResolvedValues(m: map<Key, Value>): map<Key, Value> {
    map k | k in m :: ValueOf(m[k])
  }

  /** Every stored object carries its own key. */
  ghost predicate Resolvable(entries: map<Key, Entry>) {
    forall k | k in entries :: Alloc.Resolve(entries[k].value) == Alloc.Resolved(k, ValueOf(entries[k].value))
  }

  /** Storing objects and resolving them is the same as working on plain values. */
  lemma {:induction false} StoredApply(tenant: nat, table: nat, m: map<Key, Value>, writes: seq<Record>)
    requires forall i | 0 <= i < |writes| :: |writes[i].key| <= 65535
    ensures ResolvedValues(ApplyWrites(m, Stored(tenant, table, writes))) == ApplyWrites(ResolvedValues(m), writes)
    decreases |writes|
  {
    if writes != [] {
      var w := writes[0];
      var obj := Alloc.ObjectBytes(tenant, table, w.key, w.value);
      Alloc.ResolveUndoesObject(tenant, table, w.key, w.value);
      assert ValueOf(obj) == w.value;
      StoredApply(tenant, table, m[w.key := obj], writes[1..]);
      assert ResolvedValues(m[w.key := obj]) == ResolvedValues(m)[w.key := w.value];
      assert Stored(tenant, table, writes)[1..] == Stored(tenant, table, writes[1..]);
    }
  }

  /** The record of a successful read of `key`. */
  predicate IsRead(entries: map<Key, Entry>, key: Bytes, r: Record) {
    && |key| > 0 && key in entries
    && var k: Key := key;
       r == Record(Read, entries[k].version, k, ValueOf(entries[k].value))
  }

  ghost predicate AreReads(entries: map<Key, Entry>, all: seq<Bytes>, keyLen: nat, got: seq<Record>) {
    |got| <= |all| && forall i | 0 <= i < |got| :: |all[i]| == keyLen && IsRead(entries, all[i], got[i])
  }

  function RecordValues(rs: seq<Record>): seq<Value> { seq(|rs|, i requires 0 <= i < |rs| => rs[i].value) }

  /** Reads of the table as it is are valid. */
  lemma ReadsStayOk(entries: map<Key, Entry>, before: seq<Record>, got: seq<Record>)
    requires forall i | 0 <= i < |got| :: IsRead(entries, got[i].key, got[i])
    ensures ReadsOk(entries, before) ==> ReadsOk(entries, before + got)
  {
    if ReadsOk(entries, before) {
      forall i | 0 <= i < |before + got| ensures VersionOk(entries, (before + got)[i]) {
        if i < |before| {
          assert VersionOk(entries, before[i]);
        } else {
          assert (before + got)[i] == got[i - |before|];
        }
      }
    }
  }

  lemma SameKeys(stored: seq<Record>, writes: seq<Record>)
    requires |stored| == |writes| && forall i | 0 <= i < |writes| :: stored[i].key == writes[i].key
    ensures forall k :: Mentions(stored, k) <==> Mentions(writes, k)
  {
    forall k ensures Mentions(stored, k) <==> Mentions(writes, k) {
      if Mentions(stored, k) {
        var i :| 0 <= i < |stored| && stored[i].key == k;
        assert writes[i].key == k;
      }
      if Mentions(writes, k) {
        var i :| 0 <= i < |writes| && writes[i].key == k;
        assert stored[i].key == k;
      }
    }
  }

  class Context {
    const tenant: nat
    const tableId: nat
    const request: Bytes
    const table: Table
    const tx: TX
    var response: Bytes
    var status: Status

    constructor (tenant: nat, tableId: nat, request: Bytes, table: Table)
      ensures this.table == table && this.request == request && fresh(tx)
      ensures tx.readSet == [] && tx.writeSet == [] && response == [] && status == StatusOk
    {
      this.tenant, this.tableId, this.request, this.table := tenant, tableId, request, table;
      var t := new TX();
      this.tx := t;
      response, status := [], StatusOk;
    }

    /** A read that finds nothing is not recorded. */
    method Get(key: Key) returns (value: Option<Value>)
      requires table.Valid() && Resolvable(table.entries)
      modifies tx`readSet
      ensures key !in table.entries ==> value == None && tx.readSet == old(tx.readSet)
      ensures key in table.entries ==>
                && value == Some(ValueOf(table.entries[key].value))
                && tx.readSet == old(tx.readSet) + [Record(Read, table.entries[key].version, key, value.value)]
      ensures ReadsOk(table.entries, old(tx.readSet)) ==> ReadsOk(table.entries, tx.readSet)
    {
      var entry := table.Get(key);
      match entry {
        case None => value := None;
        case Some(e) =>
          match Alloc.Resolve(e.value) {
            case Resolved(k, v) =>
              tx.RecordGet(Record(Read, e.version, k, v));
              value := Some(v);
            case _ => value := None;
          }
      }
    }

    /** Keys in one byte string, `keyLen` bytes each: one read is recorded for each key up to a short tail or a key that
        is absent, and there is an answer in the first case only. */
    method MultiGet(keyLen: nat, keys: Bytes) returns (values: Option<seq<Value>>)
      requires table.Valid() && Resolvable(table.entries) && keyLen > 0
      modifies tx`readSet
      ensures old(tx.readSet) <= tx.readSet
      ensures var all, got := Chunks(keys, keyLen), tx.readSet[|old(tx.readSet)|..];
              && |got| <= |all|
              && (forall i | 0 <= i < |got| ::
                    && |all[i]| == keyLen && all[i] in table.entries
                    && var k: Key := all[i];
                       got[i] == Record(Read, table.entries[k].version, k, ValueOf(table.entries[k].value)))
              && (values.Some? ==>
                    && |values.value| == |got| && (forall i | 0 <= i < |got| :: values.value[i] == got[i].value)
                    && (|got| == |all| || |all[|got|]| != keyLen))
              && (values == None ==> |got| < |all| && |all[|got|]| == keyLen && all[|got|] !in table.entries)
      ensures ReadsOk(table.entries, old(tx.readSet)) ==> ReadsOk(table.entries, tx.readSet)
    {
      ghost var got: seq<Record>;
      values, got := ReadAll(Chunks(keys, keyLen), keyLen);
      ReadsStayOk(table.entries, old(tx.readSet), got);
      assert tx.readSet[|old(tx.readSet)|..] == got;
    }

    /** The loop of `multiget`; `got` is what it records. */
    method ReadAll(all: seq<Bytes>, keyLen: nat) returns (values: Option<seq<Value>>, ghost got: seq<Record>)
      requires table.Valid() && Resolvable(table.entries) && keyLen > 0
      modifies tx`readSet
      ensures tx.readSet == old(tx.readSet) + got && AreReads(table.entries, all, keyLen, got)
      ensures values.Some? ==> values.value == RecordValues(got) && (|got| == |all| || |all[|got|]| != keyLen)
      ensures values == None ==> |got| < |all| && |all[|got|]| == keyLen && all[|got|] !in table.entries
    {
      var objs: seq<Value> := [];
      got := [];
      for i := 0 to |all|
        invariant tx.readSet == old(tx.readSet) + got && |got| == i && objs == RecordValues(got)
        invariant AreReads(table.entries, all, keyLen, got)
      {
        if |all[i]| != keyLen { return Some(objs), got; }
        var key: Key := all[i];
        var value := Get(key);
        if value == None { return None, got; }
        objs := objs + [value.value];
        got := got + [Record(Read, table.entries[key].version, key, value.value)];
      }
      return Some(objs), got;
    }

    /** Records the write; the object is the buffer that `alloc` handed out. */
    method Put(buf: Bytes) returns (ok: bool)
      requires match Alloc.Resolve(buf) case Resolved(k, _) => |k| > 0 case TooShort => true case OutOfRange => false
      modifies tx`writeSet
      ensures ok <==> Alloc.Resolve(buf).Resolved?
      ensures tx.writeSet == old(tx.writeSet) +
                if ok then [Record(Write, 0, Alloc.Resolve(buf).key, Alloc.Resolve(buf).value)] else []
    {
      match Alloc.Resolve(buf) {
        case Resolved(k, v) => tx.RecordPut(Record(Write, 0, k, v)); ok := true;
        case _ => ok := false;
      }
    }

    /** Replaces the response payload by the read set followed by the write set. */
    method PrepareForPushback()
      modifies this
      ensures status == StatusPushback && response == Wire.PushbackPayload(Tx(tx.readSet, tx.writeSet))
    {
      status := StatusPushback;
      response := [];
      AppendRecords(tx.readSet);
      AppendRecords(tx.writeSet);
    }

    method AppendRecord(r: Record)
      modifies this`response
      ensures response == old(response) + Wire.EncodeRecord(r)
    {
      response := response + [Wire.OpByte(r.optype)];
      response := response + LittleEndian(r.version, Wire.VERSION_SIZE);
      response := response + r.key;
      response := response + r.value;
    }

    method AppendRecords(records: seq<Record>)
      modifies this`response
      ensures response == old(response) + Wire.EncodeAll(records)
    {
      for i := 0 to |records|
        invariant response == old(response) + Wire.EncodeAll(records[..i])
      {
        var r := records[i];
        AppendRecord(r);
        Wire.EncodeAllConcat(records[..i], [r]);
        assert records[..i + 1] == records[..i] + [r];
        assert Wire.EncodeAll([r]) == Wire.EncodeRecord(r) by { assert [r][1..] == []; }
        Wire.Associative(old(response), Wire.EncodeAll(records[..i]), Wire.EncodeRecord(r));
      }
      assert records[..|records|] == records;
    }

    /** A commit either applies every recorded write to the values of the table or changes nothing and returns the
        request to the client; `now` is the cycle counter. */
    method Commit(now: nat) returns (outcome: Outcome)
      requires table.Valid() && forall i | 0 <= i < |tx.writeSet| :: |tx.writeSet[i].key| <= 65535
      modifies this, tx, table, table.maps
      ensures table.Valid()
      ensures outcome == Committed ==>
                && ResolvedValues(Values(table.entries))
                    == ApplyWrites(ResolvedValues(Values(old(table.entries))), old(tx.writeSet))
                && table.entries.Keys == old(table.entries).Keys && table.maxDeleted == old(table.maxDeleted)
                && (forall k | k in table.entries ::
                      if exists i :: 0 <= i < |old(tx.writeSet)| && old(tx.writeSet)[i].key == k
                      then table.entries[k].version == now else table.entries[k] == old(table.entries)[k])
                && response == old(response) && status == old(status)
      ensures outcome == Aborted <==>
                exists i :: 0 <= i < |old(tx.readSet)| &&
                  var r := old(tx.readSet)[i];
                  r.key !in old(table.entries) || old(table.entries)[r.key].version != r.version
      ensures outcome == Aborted ==>
                && table.Contents() == old(table.Contents())
                && response == request && status == StatusTxAbort
      ensures outcome == Panicked <==>
                && outcome != Aborted
                && exists i :: 0 <= i < |old(tx.writeSet)| && old(tx.writeSet)[i].key !in old(table.entries)
    {
      ghost var before := table.Contents();
      ghost var full := Tx(tx.readSet, Stored(tenant, tableId, tx.writeSet));
      StoredApply(tenant, tableId, Values(table.entries), tx.writeSet);
      StoredAt(tenant, tableId, tx.writeSet);
      ValidatePanicsIff(before, full, now);
      AbortsIff(before, full, now);
      outcome := table.Validate(tenant, tableId, tx, now);
      if outcome == Committed {
        CommitAppliesWrites(before, full, now);
        CommitSetsVersions(before, full, now);
        SameKeys(full.writeSet, old(tx.writeSet));
      }
      if outcome == Aborted {
        response := request;
        status := StatusTxAbort;
      }
    }
  }
}
