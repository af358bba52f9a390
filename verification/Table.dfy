/** The table and transaction objects of the server (db/src/table.rs, db/src/tx.rs), changed in place. */
module Tables {
  import opened Bytes
  import opened Store
  import Alloc

  /** The read and write sets of one transaction. */
  class TX {
    var readSet: seq<Record>
    var writeSet: seq<Record>

    constructor ()
      ensures readSet == [] && writeSet == []
    {
      readSet, writeSet := [], [];
    }

    method RecordGet(record: Record)
      modifies this`readSet
      ensures readSet == old(readSet) + [record]
    {
      readSet := readSet + [record];
    }

    method RecordPut(record: Record)
      modifies this`writeSet
      ensures writeSet == old(writeSet) + [record]
    {
      writeSet := writeSet + [record];
    }

    method Sort()
      modifies this
      ensures readSet == SortByKey(old(readSet)) && writeSet == SortByKey(old(writeSet))
      ensures Sorted(readSet) && Sorted(writeSet)
    {
      SortIsSorted(readSet);
      SortIsSorted(writeSet);
      readSet := SortByKey(readSet);
      writeSet := SortByKey(writeSet);
    }
  }

  /** The objects an install stores: heap header, key and value of each written record. */
  function Stored(tenant: nat, table: nat, writes: seq<Record>): seq<Record> {
    if writes == [] then []
    else [writes[0].(value := Alloc.ObjectBytes(tenant, table, writes[0].key, writes[0].value))]
         + Stored(tenant, table, writes[1..])
  }

  lemma {:induction false} StoredAt(tenant: nat, table: nat, writes: seq<Record>)
    ensures |Stored(tenant, table, writes)| == |writes|
    ensures forall i | 0 <= i < |writes| :: Stored(tenant, table, writes)[i] ==
              writes[i].(value := Alloc.ObjectBytes(tenant, table, writes[i].key, writes[i].value))
  {
    if writes != [] { StoredAt(tenant, table, writes[1..]); }
  }

  lemma {:induction false} StoredInsert(tenant: nat, table: nat, r: Record, rs: seq<Record>)
    ensures Stored(tenant, table, InsertByKey(r, rs)) ==
            InsertByKey(r.(value := Alloc.ObjectBytes(tenant, table, r.key, r.value)), Stored(tenant, table, rs))
  {
    if rs == [] || LexLe(r.key, rs[0].key) {
      assert ([r] + rs)[1..] == rs;
    } else {
      StoredInsert(tenant, table, r, rs[1..]);
      assert ([rs[0]] + InsertByKey(r, rs[1..]))[1..] == InsertByKey(r, rs[1..]);
    }
  }

  /** Sorting looks at keys only, so storing and sorting commute. */
  lemma {:induction false} StoredSort(tenant: nat, table: nat, rs: seq<Record>)
    ensures Stored(tenant, table, SortByKey(rs)) == SortByKey(Stored(tenant, table, rs))
  {
    if rs != [] {
      StoredSort(tenant, table, rs[1..]);
      StoredInsert(tenant, table, rs[0], SortByKey(rs[1..]));
    }
  }

  lemma InstallStep(entries: map<Key, Entry>, writes: seq<Record>, i: nat, version: nat)
    requires i < |writes|
    ensures Install(entries, writes[i..], version) ==
            if writes[i].key in entries
            then Install(entries[writes[i].key := Entry(version, writes[i].value)], writes[i + 1..], version)
            else entries
  {
    assert writes[i..][0] == writes[i] && writes[i..][1..] == writes[i + 1..];
  }

  lemma NothingLeft(entries: map<Key, Entry>, writes: seq<Record>, version: nat)
    ensures Install(entries, writes[|writes|..], version) == entries
  {
  }

  datatype Lock = Unlocked | ReadLocked | WriteLocked

  class Table {
    /** One hash map for each bucket. */
    const maps: array<map<Key, Entry>>
    var maxDeleted: nat
    /** All buckets together. */
    ghost var entries: map<Key, Entry>

    ghost predicate Valid()
      reads this, maps
    {
      && maps.Length == N_BUCKETS
      && (forall k: Key :: k in entries <==> k in maps[Bucket(k)])
      && (forall k: Key | k in entries :: entries[k] == maps[Bucket(k)][k])
    }

    ghost function Contents(): State
      reads this
    {
      State(entries, maxDeleted)
    }

    constructor ()
      ensures Valid() && fresh(maps)
      ensures Contents() == State(map[], 0)
    {
      maps := new map<Key, Entry>[N_BUCKETS](_ => map[]);
      maxDeleted := 0;
      entries := map[];
    }

    method Get(key: Key) returns (entry: Option<Entry>)
      requires Valid()
      ensures entry == Lookup(Contents(), key) == if key in entries then Some(entries[key]) else None
    {
      var bucket := maps[Bucket(key)];
      entry := if key in bucket then Some(bucket[key]) else None;
    }

    /** An update returns the new entry; an insertion returns what the map held before, nothing. */
    method Put(key: Key, value: Value) returns (entry: Option<Entry>)
      requires Valid()
      modifies this, maps
      ensures Valid()
      ensures Contents() == Store.Put(old(Contents()), key, value)
      ensures var version := if key in old(entries) then old(entries)[key].version + 1 else maxDeleted + 1;
              entries == old(entries)[key := Entry(version, value)] && maxDeleted == old(maxDeleted)
      ensures entry == if key in old(entries) then Some(entries[key]) else None
    {
      var present := Get(key);
      match present {
        case Some(e) =>
          entry := Some(Entry(e.version + 1, value));
          SetEntry(key, entry.value);
        case None =>
          SetEntry(key, Entry(maxDeleted + 1, value));
          entry := None;
      }
    }

    /** Puts an entry into the bucket of its key. */
    method SetEntry(key: Key, entry: Entry)
      requires Valid()
      modifies this`entries, maps
      ensures Valid()
      ensures entries == old(entries)[key := entry]
    {
      var b := Bucket(key);
      maps[b] := maps[b][key := entry];
      entries := entries[key := entry];
    }

    method Delete(key: Key)
      requires Valid()
      modifies this, maps
      ensures Valid()
      ensures Contents() == Store.Delete(old(Contents()), key)
      ensures entries == old(entries) - {key}
      ensures key !in old(entries) ==> maxDeleted == old(maxDeleted)
      ensures key in old(entries) ==> maxDeleted >= old(maxDeleted) && maxDeleted >= old(entries)[key].version
      ensures maxDeleted == old(maxDeleted) || (key in old(entries) && maxDeleted == old(entries)[key].version)
    {
      var b := Bucket(key);
      if key in maps[b] {
        var removed := maps[b][key];
        maps[b] := maps[b] - {key};
        entries := entries - {key};
        if removed.version > maxDeleted { maxDeleted := removed.version; }
      }
    }

    /** First pass of `validate`: write-lock the bucket of every written key, once. */
    method AcquireWriteLocks(locks: array<Lock>, writeSet: seq<Record>)
      requires locks.Length == N_BUCKETS && forall b | 0 <= b < N_BUCKETS :: locks[b] == Unlocked
      modifies locks
      ensures forall j | 0 <= j < |writeSet| :: locks[Bucket(writeSet[j].key)] == WriteLocked
      ensures forall b | 0 <= b < N_BUCKETS :: locks[b] != ReadLocked
    {
      for i := 0 to |writeSet|
        invariant forall b | 0 <= b < N_BUCKETS :: locks[b] != ReadLocked
        invariant forall j | 0 <= j < i :: locks[Bucket(writeSet[j].key)] == WriteLocked
      {
        var bucket := Bucket(writeSet[i].key);
        match locks[bucket] {
          case Unlocked => locks[bucket] := WriteLocked;
          case WriteLocked =>
          case ReadLocked => assert false;
        }
      }
    }

    /** Second pass: read-lock what is not locked yet and compare versions, stopping at a mismatch. */
    method CheckReads(locks: array<Lock>, readSet: seq<Record>) returns (ok: bool)
      requires Valid() && locks.Length == N_BUCKETS
      modifies locks
      ensures ok <==> ReadsOk(entries, readSet)
      ensures forall b | 0 <= b < N_BUCKETS && old(locks[b]) == WriteLocked :: locks[b] == WriteLocked
      ensures ok ==> forall j | 0 <= j < |readSet| :: locks[Bucket(readSet[j].key)] != Unlocked
    {
      for i := 0 to |readSet|
        invariant forall b | 0 <= b < N_BUCKETS && old(locks[b]) == WriteLocked :: locks[b] == WriteLocked
        invariant forall j | 0 <= j < i :: locks[Bucket(readSet[j].key)] != Unlocked
        invariant forall j | 0 <= j < i :: VersionOk(entries, readSet[j])
      {
        var record := readSet[i];
        var bucket := Bucket(record.key);
        if locks[bucket] == Unlocked { locks[bucket] := ReadLocked; }
        if !(record.key in maps[bucket] && maps[bucket][record.key].version == record.version) {
          assert !VersionOk(entries, readSet[i]);
          return false;
        }
      }
      return true;
    }

    /** Overwrites the entry of `key` if there is one. */
    method Overwrite(key: Key, entry: Entry) returns (found: bool)
      requires Valid()
      modifies this`entries, maps
      ensures Valid()
      ensures found <==> key in old(entries)
      ensures entries == if found then old(entries)[key := entry] else old(entries)
    {
      found := key in maps[Bucket(key)];
      if found { SetEntry(key, entry); }
    }

    /** One round of the last pass: a new object in the heap, and the entry of its key. */
    method InstallOne(tenant: nat, table: nat, record: Record, now: nat) returns (found: bool)
      requires Valid()
      modifies this`entries, maps
      ensures Valid()
      ensures found <==> record.key in old(entries)
      ensures var obj := Alloc.ObjectBytes(tenant, table, record.key, record.value);
              entries == if found then old(entries)[record.key := Entry(now, obj)] else old(entries)
    {
      var _, obj := Alloc.Object(tenant, table, record.key, record.value);
      found := Overwrite(record.key, Entry(now, obj));
    }

    /** Last pass: overwrite the entries under their write locks; a key that is not there is the failed assertion. */
    method InstallWrites(tenant: nat, table: nat, locks: array<Lock>, writeSet: seq<Record>, now: nat)
      returns (ok: bool)
      requires Valid() && locks.Length == N_BUCKETS
      requires forall j | 0 <= j < |writeSet| :: locks[Bucket(writeSet[j].key)] == WriteLocked
      modifies this`entries, maps
      ensures Valid()
      ensures entries == Install(old(entries), Stored(tenant, table, writeSet), now)
      ensures ok <==> AllPresent(old(entries), Stored(tenant, table, writeSet))
    {
      ghost var stored := Stored(tenant, table, writeSet);
      StoredAt(tenant, table, writeSet);
      for i := 0 to |writeSet|
        invariant Valid()
        invariant entries.Keys == old(entries.Keys)
        invariant forall j | 0 <= j < i :: stored[j].key in old(entries)
        invariant Install(entries, stored[i..], now) == Install(old(entries), stored, now)
      {
        var record := writeSet[i];
        assert locks[Bucket(record.key)] == WriteLocked;
        InstallStep(entries, stored, i, now);
        var found := InstallOne(tenant, table, record, now);
        if !found {
          assert stored[i].key !in old(entries);
          return false;
        }
      }
      NothingLeft(entries, stored, now);
      return true;
    }

    /** `validate`; `now` is the cycle counter read after the checks. */
    method Validate(tenant: nat, table: nat, tx: TX, now: nat) returns (decision: Outcome)
      requires Valid()
      modifies this, maps, tx
      ensures Valid()
      ensures (decision, Contents()) ==
              Store.Validate(old(Contents()), Tx(old(tx.readSet), Stored(tenant, table, old(tx.writeSet))), now)
      ensures tx.readSet == SortByKey(old(tx.readSet)) && tx.writeSet == SortByKey(old(tx.writeSet))
    {
      SortKeepsReadsOk(entries, tx.readSet);
      StoredSort(tenant, table, tx.writeSet);
      tx.Sort();
      var locks := new Lock[N_BUCKETS](_ => Unlocked);
      AcquireWriteLocks(locks, tx.writeSet);
      var ok := CheckReads(locks, tx.readSet);
      if !ok { return Aborted; }
      ok := InstallWrites(tenant, table, locks, tx.writeSet, now);
      return if ok then Committed else Panicked;
    }
  }
}
