/** What one table operation does to the versioned contents of a table (db/src/table.rs, db/src/tx.rs),
    as functions on values. The class in Table.dfy, the histories and the lock-step machine are all
    proved against these functions. */
module Store {
  import opened Bytes

  /** Keys are non-empty: `bucket` indexes the first byte. */
  type Key = k: Bytes | |k| > 0 witness [0]
  type Value = Bytes

  const N_BUCKETS: nat := 128

  /** `key[0] & (N_BUCKETS - 1)`. */
  function Bucket(key: Key): (b: nat)
    ensures b < N_BUCKETS
  {
    key[0] % N_BUCKETS
  }

  /** The bucket is the low seven bits of the first byte. */
  lemma BucketIsLowBits(key: Key)
    ensures Bucket(key) == if key[0] < 128 then key[0] else key[0] - 128
  {
  }

  datatype Entry = Entry(version: nat, value: Value)
  datatype OpType = Read | Write
  datatype Record = Record(optype: OpType, version: nat, key: Key, value: Value)
  datatype Tx = Tx(readSet: seq<Record>, writeSet: seq<Record>)
  datatype State = State(entries: map<Key, Entry>, maxDeleted: nat)
  datatype Outcome = Committed | Aborted | Panicked

  // ---------------------------------------------------------------- single-key operations

  function Lookup(s: State, key: Key): Option<Entry> {
    if key in s.entries then Some(s.entries[key]) else None
  }

  function Put(s: State, key: Key, value: Value): State {
    if key in s.entries then s.(entries := s.entries[key := Entry(s.entries[key].version + 1, value)])
    else s.(entries := s.entries[key := Entry(s.maxDeleted + 1, value)])
  }

  function Delete(s: State, key: Key): State {
    if key in s.entries then
      var v := s.entries[key].version;
      State(s.entries - {key}, if v > s.maxDeleted then v else s.maxDeleted)
    else s
  }

  // ---------------------------------------------------------------- validation

  predicate VersionOk(entries: map<Key, Entry>, r: Record) {
    r.key in entries && entries[r.key].version == r.version
  }

  predicate ReadsOk(entries: map<Key, Entry>, readSet: seq<Record>) {
    forall i | 0 <= i < |readSet| :: VersionOk(entries, readSet[i])
  }

  predicate AllPresent(entries: map<Key, Entry>, writes: seq<Record>) {
    forall i | 0 <= i < |writes| :: writes[i].key in entries
  }

  /** The install loop: overwrite one entry after the other, stopping at an absent key. */
  function Install(entries: map<Key, Entry>, writes: seq<Record>, version: nat): map<Key, Entry>
    decreases |writes|
  {
    if writes == [] || writes[0].key !in entries then entries
    else Install(entries[writes[0].key := Entry(version, writes[0].value)], writes[1..], version)
  }

  /** `Table::validate` as one atomic step: the decision and the new table. */
  function Validate(s: State, tx: Tx, version: nat): (Outcome, State) {
    var writes := SortByKey(tx.writeSet);
    if !ReadsOk(s.entries, tx.readSet) then (Aborted, s)
    else (if AllPresent(s.entries, writes) then Committed else Panicked,
          s.(entries := Install(s.entries, writes, version)))
  }

  /** Validation runs into the absent-key assertion exactly when every read version still holds and
      some written key is not in the table; otherwise it commits or changes nothing. */
  lemma ValidatePanicsIff(s: State, tx: Tx, version: nat)
    ensures Validate(s, tx, version).0 == Panicked <==>
              ReadsOk(s.entries, tx.readSet) && exists i :: 0 <= i < |tx.writeSet| && tx.writeSet[i].key !in s.entries
    ensures Validate(s, tx, version).0 == Aborted ==> Validate(s, tx, version).1 == s
  {
    SortKeepsPresence(s.entries, tx.writeSet);
  }

  /** A transaction that writes only keys it has read never hits that assertion. */
  predicate WritesAreRead(tx: Tx) {
    forall i | 0 <= i < |tx.writeSet| :: Mentions(tx.readSet, tx.writeSet[i].key)
  }

  predicate Mentions(rs: seq<Record>, key: Key) { exists i :: 0 <= i < |rs| && rs[i].key == key }

  lemma ReadWritesNeverPanic(s: State, tx: Tx, version: nat)
    requires WritesAreRead(tx)
    ensures Validate(s, tx, version).0 != Panicked
  {
    if ReadsOk(s.entries, tx.readSet) { ReadKeysArePresent(s.entries, tx); }
    ValidatePanicsIff(s, tx, version);
  }

  lemma ReadKeysArePresent(entries: map<Key, Entry>, tx: Tx)
    requires ReadsOk(entries, tx.readSet) && WritesAreRead(tx)
    ensures AllPresent(entries, tx.writeSet)
  {
    forall i | 0 <= i < |tx.writeSet| ensures tx.writeSet[i].key in entries {
      assert Mentions(tx.readSet, tx.writeSet[i].key);
      var j :| 0 <= j < |tx.readSet| && tx.readSet[j].key == tx.writeSet[i].key;
      assert VersionOk(entries, tx.readSet[j]);
    }
  }

  /** The assertion is reachable, and then part of the write set stays in the table. */
  lemma PanicLeavesPartOfTheWrites()
    ensures var a: Key, b: Key := [1], [2];
            var s := State(map[a := Entry(1, [0])], 0);
            var tx := Tx([], [Record(Write, 0, a, [7]), Record(Write, 0, b, [8])]);
            Validate(s, tx, 5) == (Panicked, State(map[a := Entry(5, [7])], 0))
  {
    var a: Key, b: Key := [1], [2];
    var ra, rb := Record(Write, 0, a, [7]), Record(Write, 0, b, [8]);
    assert SortByKey([rb]) == [rb] by { assert SortByKey([]) == []; }
    assert LexLe(a, b);
    assert SortByKey([ra, rb]) == [ra, rb] by { assert [ra, rb][1..] == [rb]; }
    var m: map<Key, Entry> := map[a := Entry(1, [0])];
    assert Install(m[a := Entry(5, [7])], [ra, rb][1..], 5) == map[a := Entry(5, [7])];
    assert !AllPresent(m, [ra, rb]) by { assert [ra, rb][1].key !in m; }
  }

  // ---------------------------------------------------------------- sorting the read and write sets

  /** Byte-wise order of keys. */
  predicate LexLe(a: Bytes, b: Bytes) {
    a == [] || (b != [] && (a[0] < b[0] || (a[0] == b[0] && LexLe(a[1..], b[1..]))))
  }

  lemma {:induction false} LexTotal(a: Bytes, b: Bytes)
    ensures LexLe(a, b) || LexLe(b, a)
    ensures a == b ==> LexLe(a, b)
  {
    if a != [] && b != [] { LexTotal(a[1..], b[1..]); }
  }

  lemma {:induction false} LexTransitive(a: Bytes, b: Bytes, c: Bytes)
    requires LexLe(a, b) && LexLe(b, c)
    ensures LexLe(a, c)
  {
    if a != [] && a[0] == b[0] == c[0] { LexTransitive(a[1..], b[1..], c[1..]); }
  }

  /** It is the order by the first byte that differs, a prefix coming first. */
  lemma {:induction false} LexLeIff(a: Bytes, b: Bytes)
    ensures LexLe(a, b) <==> exists p: nat :: FirstDiffersAt(a, b, p)
  {
    if a == [] {
      assert FirstDiffersAt(a, b, 0);
    } else if b == [] {
      forall p: nat ensures !FirstDiffersAt(a, b, p) {}
    } else if a[0] != b[0] {
      assert a[0] < b[0] ==> FirstDiffersAt(a, b, 0);
      forall p: nat | 0 < p <= |a| && p <= |b| ensures a[..p] != b[..p] { assert a[..p][0] != b[..p][0]; }
    } else {
      LexLeIff(a[1..], b[1..]);
      if p: nat :| FirstDiffersAt(a[1..], b[1..], p) {
        assert a[..p + 1] == [a[0]] + a[1..][..p] && b[..p + 1] == [b[0]] + b[1..][..p];
        assert FirstDiffersAt(a, b, p + 1);
      }
      if p: nat :| FirstDiffersAt(a, b, p) {
        assert p > 0;
        assert a[1..][..p - 1] == a[..p][1..] && b[1..][..p - 1] == b[..p][1..];
        assert FirstDiffersAt(a[1..], b[1..], p - 1);
      }
    }
  }

  predicate FirstDiffersAt(a: Bytes, b: Bytes, p: nat) {
    p <= |a| && p <= |b| && a[..p] == b[..p] && (p == |a| || (p < |b| && a[p] < b[p]))
  }

  function InsertByKey(r: Record, rs: seq<Record>): seq<Record> {
    if rs == [] || LexLe(r.key, rs[0].key) then [r] + rs
    else [rs[0]] + InsertByKey(r, rs[1..])
  }

  /** `sort_by_key(|record| record.get_key())`, a stable sort. */
  function SortByKey(rs: seq<Record>): seq<Record> {
    if rs == [] then [] else InsertByKey(rs[0], SortByKey(rs[1..]))
  }

  ghost predicate Sorted(rs: seq<Record>) {
    forall i, j | 0 <= i < j < |rs| :: LexLe(rs[i].key, rs[j].key)
  }

  /** The records of one key, in order. */
  function ForKey(rs: seq<Record>, key: Key): seq<Record> {
    if rs == [] then []
    else (if rs[0].key == key then [rs[0]] else []) + ForKey(rs[1..], key)
  }

  lemma {:induction false} InsertIsPermutation(r: Record, rs: seq<Record>)
    ensures multiset(InsertByKey(r, rs)) == multiset{r} + multiset(rs)
  {
    if !(rs == [] || LexLe(r.key, rs[0].key)) {
      InsertIsPermutation(r, rs[1..]);
      assert rs == [rs[0]] + rs[1..];
    }
  }

  /** Everything in a list comes after `x`. */
  ghost predicate AllAfter(x: Record, rs: seq<Record>) { forall i | 0 <= i < |rs| :: LexLe(x.key, rs[i].key) }

  lemma {:induction false} InsertKeepsAfter(x: Record, r: Record, rs: seq<Record>)
    requires LexLe(x.key, r.key) && AllAfter(x, rs)
    ensures AllAfter(x, InsertByKey(r, rs))
  {
    if !(rs == [] || LexLe(r.key, rs[0].key)) {
      assert LexLe(x.key, rs[0].key);
      InsertKeepsAfter(x, r, rs[1..]);
    }
  }

  lemma SortedPrepend(x: Record, rs: seq<Record>)
    requires AllAfter(x, rs) && Sorted(rs)
    ensures Sorted([x] + rs)
  {
  }

  lemma {:induction false} InsertIsSorted(r: Record, rs: seq<Record>)
    requires Sorted(rs)
    ensures Sorted(InsertByKey(r, rs))
  {
    if rs == [] || LexLe(r.key, rs[0].key) {
      forall i | 0 <= i < |rs| ensures LexLe(r.key, rs[i].key) {
        if i > 0 { LexTransitive(r.key, rs[0].key, rs[i].key); }
      }
      SortedPrepend(r, rs);
    } else {
      InsertIsSorted(r, rs[1..]);
      LexTotal(r.key, rs[0].key);
      forall i | 0 <= i < |rs[1..]| ensures LexLe(rs[0].key, rs[1..][i].key) { assert rs[1..][i] == rs[i + 1]; }
      InsertKeepsAfter(rs[0], r, rs[1..]);
      SortedPrepend(rs[0], InsertByKey(r, rs[1..]));
    }
  }

  lemma {:induction false} InsertIsStable(r: Record, rs: seq<Record>, key: Key)
    ensures ForKey(InsertByKey(r, rs), key) == (if r.key == key then [r] else []) + ForKey(rs, key)
  {
    if rs == [] || LexLe(r.key, rs[0].key) {
      ForKeyPrepend(r, rs, key);
    } else {
      LexTotal(r.key, rs[0].key);
      InsertIsStable(r, rs[1..], key);
      ForKeyPrepend(rs[0], InsertByKey(r, rs[1..]), key);
      ForKeyPrepend(rs[0], rs[1..], key);
      assert rs == [rs[0]] + rs[1..];
    }
  }

  lemma ForKeyPrepend(r: Record, rs: seq<Record>, key: Key)
    ensures ForKey([r] + rs, key) == (if r.key == key then [r] else []) + ForKey(rs, key)
  {
    assert ([r] + rs)[1..] == rs;
  }

  /** Sorting yields an ordered permutation ... */
  lemma {:induction false} SortIsSorted(rs: seq<Record>)
    ensures Sorted(SortByKey(rs))
    ensures multiset(SortByKey(rs)) == multiset(rs)
  {
    if rs != [] {
      SortIsSorted(rs[1..]);
      InsertIsSorted(rs[0], SortByKey(rs[1..]));
      InsertIsPermutation(rs[0], SortByKey(rs[1..]));
      assert rs == [rs[0]] + rs[1..];
    }
  }

  /** ... that keeps the order of records with equal keys. */
  lemma {:induction false} SortIsStable(rs: seq<Record>, key: Key)
    ensures ForKey(SortByKey(rs), key) == ForKey(rs, key)
  {
    if rs != [] {
      SortIsStable(rs[1..], key);
      InsertIsStable(rs[0], SortByKey(rs[1..]), key);
    }
  }

  lemma SortKeepsMembers(rs: seq<Record>)
    ensures forall r :: r in SortByKey(rs) <==> r in rs
  {
    SortIsSorted(rs);
    forall r ensures r in SortByKey(rs) <==> r in rs {
      assert r in SortByKey(rs) <==> r in multiset(SortByKey(rs));
      assert r in rs <==> r in multiset(rs);
    }
  }

  lemma SortKeepsPresence(entries: map<Key, Entry>, writes: seq<Record>)
    ensures AllPresent(entries, SortByKey(writes)) <==> AllPresent(entries, writes)
  {
    SortKeepsMembers(writes);
    var sorted := SortByKey(writes);
    forall i | 0 <= i < |writes| ensures writes[i] in sorted {}
    forall i | 0 <= i < |sorted| ensures sorted[i] in writes {}
  }

  lemma SortKeepsReadsOk(entries: map<Key, Entry>, rs: seq<Record>)
    ensures ReadsOk(entries, SortByKey(rs)) <==> ReadsOk(entries, rs)
  {
    SortKeepsMembers(rs);
    var sorted := SortByKey(rs);
    forall i | 0 <= i < |rs| ensures rs[i] in sorted {}
    forall i | 0 <= i < |sorted| ensures sorted[i] in rs {}
  }

  // ---------------------------------------------------------------- what an install leaves behind

  /** With every key present, each written key ends with the last value written to it. */
  lemma {:induction false} InstallLastWins(entries: map<Key, Entry>, writes: seq<Record>, version: nat, k: Key)
    requires AllPresent(entries, writes) && k in entries
    ensures Install(entries, writes, version).Keys == entries.Keys
    ensures Install(entries, writes, version)[k] ==
            if ForKey(writes, k) == [] then entries[k]
            else Entry(version, ForKey(writes, k)[|ForKey(writes, k)| - 1].value)
    decreases |writes|
  {
    if writes != [] {
      var next := entries[writes[0].key := Entry(version, writes[0].value)];
      assert next.Keys == entries.Keys;
      InstallLastWins(next, writes[1..], version, k);
    }
  }

  /** Sorting first does not change what is installed: the last put to a key wins. */
  lemma SortedInstallIsProgramOrder(entries: map<Key, Entry>, writes: seq<Record>, version: nat)
    requires AllPresent(entries, writes)
    ensures Install(entries, SortByKey(writes), version) == Install(entries, writes, version)
  {
    SortKeepsPresence(entries, writes);
    InstallKeepsKeys(entries, writes, version);
    InstallKeepsKeys(entries, SortByKey(writes), version);
    forall k | k in entries
      ensures Install(entries, SortByKey(writes), version)[k] == Install(entries, writes, version)[k]
    {
      SortIsStable(writes, k);
      InstallLastWins(entries, writes, version, k);
      InstallLastWins(entries, SortByKey(writes), version, k);
    }
  }

  lemma {:induction false} InstallKeepsKeys(entries: map<Key, Entry>, writes: seq<Record>, version: nat)
    ensures Install(entries, writes, version).Keys == entries.Keys
    decreases |writes|
  {
    if writes != [] && writes[0].key in entries {
      var next := entries[writes[0].key := Entry(version, writes[0].value)];
      assert next.Keys == entries.Keys;
      InstallKeepsKeys(next, writes[1..], version);
    }
  }

  /** A commit gives every written key the new version and leaves every other entry, and what is remembered of deleted
      ones, alone. */
  lemma CommitSetsVersions(s: State, tx: Tx, version: nat)
    requires Validate(s, tx, version).0 == Committed
    ensures var s' := Validate(s, tx, version).1;
            && s'.entries.Keys == s.entries.Keys && s'.maxDeleted == s.maxDeleted
            && forall k | k in s.entries ::
                 if Mentions(tx.writeSet, k) then s'.entries[k].version == version else s'.entries[k] == s.entries[k]
  {
    SortKeepsPresence(s.entries, tx.writeSet);
    SortedInstallIsProgramOrder(s.entries, tx.writeSet, version);
    InstallKeepsKeys(s.entries, tx.writeSet, version);
    forall k | k in s.entries
      ensures var e := Install(s.entries, tx.writeSet, version)[k];
              if Mentions(tx.writeSet, k) then e.version == version else e == s.entries[k]
    {
      InstallLastWins(s.entries, tx.writeSet, version, k);
      ForKeyIff(tx.writeSet, k);
    }
  }

  lemma {:induction false} ForKeyIff(rs: seq<Record>, k: Key)
    ensures Mentions(rs, k) <==> ForKey(rs, k) != []
  {
    if rs != [] {
      ForKeyIff(rs[1..], k);
      if Mentions(rs, k) && rs[0].key != k {
        var i :| 0 <= i < |rs| && rs[i].key == k;
        assert rs[1..][i - 1].key == k;
      }
      if Mentions(rs[1..], k) {
        var i :| 0 <= i < |rs[1..]| && rs[1..][i].key == k;
        assert rs[i + 1].key == k;
      }
    }
  }

  /** A read of a key that has been written by a commit since, with a timestamp above all versions, is stale. */
  lemma CommitMakesReadsStale(s: State, tx: Tx, version: nat, r: Record)
    requires Validate(s, tx, version).0 == Committed && Mentions(tx.writeSet, r.key)
    requires VersionOk(s.entries, r) && forall k | k in s.entries :: s.entries[k].version < version
    ensures !VersionOk(Validate(s, tx, version).1.entries, r)
  {
    CommitSetsVersions(s, tx, version);
  }

  /** A transaction is turned away exactly if one of its reads has another version now, or no entry. */
  lemma AbortsIff(s: State, tx: Tx, version: nat)
    ensures Validate(s, tx, version).0 == Aborted <==>
              exists i :: 0 <= i < |tx.readSet| &&
                (tx.readSet[i].key !in s.entries || s.entries[tx.readSet[i].key].version != tx.readSet[i].version)
  {
    if !ReadsOk(s.entries, tx.readSet) {
      var i :| 0 <= i < |tx.readSet| && !VersionOk(s.entries, tx.readSet[i]);
    }
  }

  // ---------------------------------------------------------------- the version-free view

  /** The key/value pairs of a table, without versions. */
  function Values(entries: map<Key, Entry>): map<Key, Value> {
    map k | k in entries :: entries[k].value
  }

  /** A serial write set: assign in program order. */
  function ApplyWrites(m: map<Key, Value>, writes: seq<Record>): map<Key, Value>
    decreases |writes|
  {
    if writes == [] then m else ApplyWrites(m[writes[0].key := writes[0].value], writes[1..])
  }

  lemma {:induction false} InstallIsApply(entries: map<Key, Entry>, writes: seq<Record>, version: nat)
    requires AllPresent(entries, writes)
    ensures Values(Install(entries, writes, version)) == ApplyWrites(Values(entries), writes)
    decreases |writes|
  {
    if writes != [] {
      var next := entries[writes[0].key := Entry(version, writes[0].value)];
      InstallIsApply(next, writes[1..], version);
      assert Values(next) == Values(entries)[writes[0].key := writes[0].value];
    }
  }

  /** A committing validation equals applying the writes in program order to the values. */
  lemma CommitAppliesWrites(s: State, tx: Tx, version: nat)
    requires Validate(s, tx, version).0 == Committed
    ensures Values(Validate(s, tx, version).1.entries) == ApplyWrites(Values(s.entries), tx.writeSet)
    ensures AllPresent(s.entries, tx.writeSet)
  {
    SortKeepsPresence(s.entries, tx.writeSet);
    SortedInstallIsProgramOrder(s.entries, tx.writeSet, version);
    InstallIsApply(s.entries, tx.writeSet, version);
  }
}
