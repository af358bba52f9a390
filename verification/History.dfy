/** Runs of many transactions and native operations on one table, each table operation one atomic step
    (db/src/context.rs, db/src/table.rs, db/src/master.rs). LockSteps.dfy shows that the lock-by-lock
    code is such a run. */
module History {
  import opened Bytes
  import opened Store

  /** One completed operation as its caller saw it. */
  datatype Call =
    | GetCall(key: Key, result: Option<Value>)
    | PutCall(key: Key, value: Value)
    | DeleteCall(key: Key)
    | Txn(tx: Tx)

  datatype Sys = Sys(
    table: State,
    clock: nat,                  // last value drawn from the cycle counter
    txs: map<nat, Tx>,           // read and write sets of running transactions
    log: seq<Call>,              // completed operations, in commit order
    crashed: bool)               // some commit hit the absent-key assertion or was misread by the server

  datatype Step =
    | TxGet(id: nat, key: Key)
    | TxPut(id: nat, key: Key, value: Value)
    | Commit(id: nat, ticks: nat)
    | NativeGet(key: Key)
    | NativePut(key: Key, value: Value, ticks: nat)
    | NativeDelete(key: Key, ticks: nat)

  const INIT := Sys(State(map[], 0), 0, map[], [], false)

  function TxOf(s: Sys, id: nat): Tx {
    if id in s.txs then s.txs[id] else Tx([], [])
  }

  function ValueAt(entries: map<Key, Entry>, key: Key): Option<Value> {
    if key in entries then Some(entries[key].value) else None
  }

  /** A changed table; the cycle counter moves on by at least one. */
  function Change(s: Sys, table: State, ticks: nat, call: Call): Sys {
    s.(table := table, clock := s.clock + 1 + ticks, log := s.log + [call])
  }

  /** `Context::get` records what it found and nothing otherwise; `Context::put` only records. */
  function Next(s: Sys, step: Step): Sys {
    match step
    case TxGet(id, k) =>
      if k !in s.table.entries then s
      else
        var e, tx := s.table.entries[k], TxOf(s, id);
        s.(txs := s.txs[id := tx.(readSet := tx.readSet + [Record(Read, e.version, k, e.value)])])
    case TxPut(id, k, v) =>
      var tx := TxOf(s, id);
      s.(txs := s.txs[id := tx.(writeSet := tx.writeSet + [Record(Write, 0, k, v)])])
    case Commit(id, ticks) =>
      var tx := TxOf(s, id);
      var (outcome, table) := Validate(s.table, tx, s.clock + 1 + ticks);
      var done := s.(txs := s.txs - {id});
      match outcome {
        case Aborted => done.(clock := s.clock + 1 + ticks)
        case Committed => Change(done, table, ticks, Txn(tx))
        case Panicked => Change(done, table, ticks, Txn(tx)).(crashed := true)
      }
    case NativeGet(k) => s.(log := s.log + [GetCall(k, ValueAt(s.table.entries, k))])
    case NativePut(k, v, ticks) => Change(s, Put(s.table, k, v), ticks, PutCall(k, v))
    case NativeDelete(k, ticks) => Change(s, Delete(s.table, k), ticks, DeleteCall(k))
  }

  function Run(s: Sys, steps: seq<Step>): Sys {
    if steps == [] then s else Next(Run(s, steps[..|steps| - 1]), steps[|steps| - 1])
  }

  // ---------------------------------------------------------------- the serial specification

  /** Does `m` explain what the caller of `call` saw, if the whole call runs alone on `m`? */
  predicate Legal(m: map<Key, Value>, call: Call) {
    match call
    case GetCall(k, result) => result == if k in m then Some(m[k]) else None
    case Txn(tx) =>
      forall i | 0 <= i < |tx.readSet| :: tx.readSet[i].key in m && m[tx.readSet[i].key] == tx.readSet[i].value
    case _ => true
  }

  function Effect(m: map<Key, Value>, call: Call): map<Key, Value> {
    match call
    case GetCall(_, _) => m
    case PutCall(k, v) => m[k := v]
    case DeleteCall(k) => m - {k}
    case Txn(tx) => ApplyWrites(m, tx.writeSet)
  }

  /** One operation after the other, without versions, locks or validation. */
  function Serially(log: seq<Call>): map<Key, Value> {
    if log == [] then map[] else Effect(Serially(log[..|log| - 1]), log[|log| - 1])
  }

  ghost predicate LegalLog(log: seq<Call>) {
    forall i | 0 <= i < |log| :: Legal(Serially(log[..i]), log[i])
  }

  lemma AppendToLog(log: seq<Call>, call: Call)
    requires LegalLog(log) && Legal(Serially(log), call)
    ensures LegalLog(log + [call])
    ensures Serially(log + [call]) == Effect(Serially(log), call)
  {
    var longer := log + [call];
    assert longer[..|log|] == log;
    forall i | 0 <= i < |longer| ensures Legal(Serially(longer[..i]), longer[i]) {
      if i < |log| { assert longer[..i] == log[..i]; }
    }
  }

  // ---------------------------------------------------------------- versions

  ghost predicate Bounded(table: State, clock: nat) {
    table.maxDeleted <= clock && forall k | k in table.entries :: table.entries[k].version <= clock
  }

  /** An entry that `k` once had: it still is the entry of `k`, or every version of `k` from now on is higher. */
  ghost predicate Superseded(k: Key, e: Entry, table: State) {
    if k in table.entries then e == table.entries[k] || e.version < table.entries[k].version
    else e.version <= table.maxDeleted
  }

  /** Every operation leaves an entry alone or gives its key a version above all earlier ones. */
  ghost predicate Evolves(s: State, s': State) {
    && s.maxDeleted <= s'.maxDeleted
    && (forall k | k in s'.entries :: (k in s.entries && s'.entries[k] == s.entries[k])
          || s'.entries[k].version > if k in s.entries then s.entries[k].version else s.maxDeleted)
    && (forall k | k in s.entries && k !in s'.entries :: s.entries[k].version <= s'.maxDeleted)
  }

  lemma EvolvesKeepsSuperseded(s: State, s': State, k: Key, e: Entry)
    requires Evolves(s, s') && Superseded(k, e, s)
    ensures Superseded(k, e, s')
  {
    if k in s'.entries && k in s.entries && s'.entries[k] == s.entries[k] {}
  }

  lemma PutEvolves(s: State, clock: nat, k: Key, v: Value)
    requires Bounded(s, clock)
    ensures Evolves(s, Put(s, k, v)) && Bounded(Put(s, k, v), clock + 1)
  {
  }

  lemma DeleteEvolves(s: State, clock: nat, k: Key)
    requires Bounded(s, clock)
    ensures Evolves(s, Delete(s, k)) && Bounded(Delete(s, k), clock)
  {
  }

  lemma {:induction false} InstallShape(entries: map<Key, Entry>, writes: seq<Record>, version: nat)
    ensures Install(entries, writes, version).Keys == entries.Keys
    ensures forall k | k in entries ::
              Install(entries, writes, version)[k] == entries[k]
                  || Install(entries, writes, version)[k].version == version
    decreases |writes|
  {
    if writes != [] && writes[0].key in entries {
      var next := entries[writes[0].key := Entry(version, writes[0].value)];
      assert next.Keys == entries.Keys;
      InstallShape(next, writes[1..], version);
    }
  }

  lemma ValidateEvolves(s: State, clock: nat, tx: Tx, now: nat)
    requires Bounded(s, clock) && clock < now
    ensures Evolves(s, Validate(s, tx, now).1) && Bounded(Validate(s, tx, now).1, now)
  {
    InstallShape(s.entries, SortByKey(tx.writeSet), now);
  }

  // ---------------------------------------------------------------- the invariant of every run

  /** Recorded reads carry an entry that their key really had. */
  ghost predicate Genuine(table: State, tx: Tx) {
    forall i | 0 <= i < |tx.readSet| ::
      Superseded(tx.readSet[i].key, Entry(tx.readSet[i].version, tx.readSet[i].value), table)
  }

  ghost predicate SerialSoFar(s: Sys) {
    LegalLog(s.log) && Serially(s.log) == Values(s.table.entries)
  }

  ghost predicate Inv(s: Sys) {
    && Bounded(s.table, s.clock)
    && (forall id | id in s.txs :: Genuine(s.table, s.txs[id]))
    && (!s.crashed ==> SerialSoFar(s))
  }

  /** Validation compares versions only, but every value read is then the value in the table. */
  lemma ValidReadsAreCurrent(table: State, tx: Tx)
    requires Genuine(table, tx) && ReadsOk(table.entries, tx.readSet)
    ensures Legal(Values(table.entries), Txn(tx))
  {
  }

  lemma EvolvesKeepsGenuine(s: State, s': State, tx: Tx)
    requires Evolves(s, s') && Genuine(s, tx)
    ensures Genuine(s', tx)
  {
    forall i | 0 <= i < |tx.readSet|
      ensures Superseded(tx.readSet[i].key, Entry(tx.readSet[i].version, tx.readSet[i].value), s')
    {
      EvolvesKeepsSuperseded(s, s', tx.readSet[i].key, Entry(tx.readSet[i].version, tx.readSet[i].value));
    }
  }

  lemma ChangeKeepsInv(s: Sys, table: State, ticks: nat, call: Call)
    requires Inv(s) && Evolves(s.table, table) && Bounded(table, s.clock + 1 + ticks)
    requires !s.crashed ==> Legal(Values(s.table.entries), call)
    requires !s.crashed ==> Values(table.entries) == Effect(Values(s.table.entries), call)
    ensures Inv(Change(s, table, ticks, call))
  {
    forall id | id in s.txs ensures Genuine(table, s.txs[id]) {
      EvolvesKeepsGenuine(s.table, table, s.txs[id]);
    }
    if !s.crashed { AppendToLog(s.log, call); }
  }

  /** A commit is legal on the values before it and has the effect of its transaction. */
  lemma CommitIsLegal(s: State, clock: nat, tx: Tx, version: nat)
    requires Bounded(s, clock) && clock < version && Genuine(s, tx) && Validate(s, tx, version).0 == Committed
    ensures var s' := Validate(s, tx, version).1;
            && Evolves(s, s') && Bounded(s', version)
            && Legal(Values(s.entries), Txn(tx)) && Values(s'.entries) == Effect(Values(s.entries), Txn(tx))
  {
    ValidateEvolves(s, clock, tx, version);
    ValidReadsAreCurrent(s, tx);
    CommitAppliesWrites(s, tx, version);
  }

  lemma CommittedKeepsInv(s: Sys, id: nat, ticks: nat)
    requires Inv(s) && Validate(s.table, TxOf(s, id), s.clock + 1 + ticks).0 == Committed
    ensures Inv(Next(s, Commit(id, ticks)))
  {
    var tx, now := TxOf(s, id), s.clock + 1 + ticks;
    CommitIsLegal(s.table, s.clock, tx, now);
    ChangeKeepsInv(s.(txs := s.txs - {id}), Validate(s.table, tx, now).1, ticks, Txn(tx));
  }

  lemma NotCommittedKeepsInv(s: Sys, id: nat, ticks: nat)
    requires Inv(s) && Validate(s.table, TxOf(s, id), s.clock + 1 + ticks).0 != Committed
    ensures Inv(Next(s, Commit(id, ticks)))
  {
    var tx, now := TxOf(s, id), s.clock + 1 + ticks;
    if Validate(s.table, tx, now).0 == Panicked {
      ValidateEvolves(s.table, s.clock, tx, now);
      ChangeKeepsInv(s.(txs := s.txs - {id}, crashed := true), Validate(s.table, tx, now).1, ticks, Txn(tx));
    }
  }

  lemma RecordingKeepsInv(s: Sys, step: Step)
    requires Inv(s) && (step.TxGet? || step.TxPut?)
    ensures Inv(Next(s, step))
  {
    var tx := TxOf(s, step.id);
    var tx' := TxOf(Next(s, step), step.id);
    assert Genuine(s.table, tx');
    assert SerialSoFar(Next(s, step)) == SerialSoFar(s);
  }

  lemma PutValues(s: State, k: Key, v: Value)
    ensures Values(Put(s, k, v).entries) == Values(s.entries)[k := v]
  {
  }

  lemma DeleteValues(s: State, k: Key)
    ensures Values(Delete(s, k).entries) == Values(s.entries) - {k}
  {
  }

  lemma NativePutKeepsInv(s: Sys, k: Key, v: Value, ticks: nat)
    requires Inv(s)
    ensures Inv(Next(s, NativePut(k, v, ticks)))
  {
    PutEvolves(s.table, s.clock, k, v);
    PutValues(s.table, k, v);
    ChangeKeepsInv(s, Put(s.table, k, v), ticks, PutCall(k, v));
  }

  lemma NativeDeleteKeepsInv(s: Sys, k: Key, ticks: nat)
    requires Inv(s)
    ensures Inv(Next(s, NativeDelete(k, ticks)))
  {
    DeleteEvolves(s.table, s.clock, k);
    DeleteValues(s.table, k);
    ChangeKeepsInv(s, Delete(s.table, k), ticks, DeleteCall(k));
  }

  /** Every step of every run keeps the invariant. */
  lemma NextKeepsInv(s: Sys, step: Step)
    requires Inv(s)
    ensures Inv(Next(s, step))
  {
    match step {
      case TxGet(_, _) => RecordingKeepsInv(s, step);
      case TxPut(_, _, _) => RecordingKeepsInv(s, step);
      case Commit(id, ticks) =>
        if Validate(s.table, TxOf(s, id), s.clock + 1 + ticks).0 == Committed {
          CommittedKeepsInv(s, id, ticks);
        } else {
          NotCommittedKeepsInv(s, id, ticks);
        }
      case NativeGet(k) => if !s.crashed { AppendToLog(s.log, GetCall(k, ValueAt(s.table.entries, k))); }
      case NativePut(k, v, ticks) => NativePutKeepsInv(s, k, v, ticks);
      case NativeDelete(k, ticks) => NativeDeleteKeepsInv(s, k, ticks);
    }
  }

  lemma {:induction false} RunKeepsInv(s: Sys, steps: seq<Step>)
    requires Inv(s)
    ensures Inv(Run(s, steps))
  {
    if steps != [] {
      RunKeepsInv(s, steps[..|steps| - 1]);
      NextKeepsInv(Run(s, steps[..|steps| - 1]), steps[|steps| - 1]);
    }
  }

  // ---------------------------------------------------------------- main results

  /** Strict serializability: for every interleaving, running the completed operations one at a time in
      commit order explains every value that was read and leaves the same table. */
  lemma StrictlySerializable(steps: seq<Step>)
    ensures !Run(INIT, steps).crashed ==> SerialSoFar(Run(INIT, steps))
  {
    RunKeepsInv(INIT, steps);
  }

  lemma RunLast(s: Sys, all: seq<Step>, front: seq<Step>, last: Step)
    requires all == front + [last]
    ensures Run(s, all) == Next(Run(s, front), last)
  {
    assert all[..|all| - 1] == front;
  }

  lemma RunSplit(s: Sys, before: seq<Step>, after: seq<Step>)
    requires after != []
    ensures var n := |after| - 1; Run(s, before + after) == Next(Run(s, before + after[..n]), after[n])
  {
    var n := |after| - 1;
    assert before + after == (before + after[..n]) + [after[n]];
    RunLast(s, before + after, before + after[..n], after[n]);
  }

  lemma NextExtendsLog(s: Sys, step: Step)
    ensures s.log <= Next(s, step).log
  {
  }

  /** Commit order respects real time: what completed in an earlier part of the run stays in front. */
  lemma {:induction false} CommitOrderIsRealTime(s: Sys, before: seq<Step>, after: seq<Step>)
    ensures Run(s, before).log <= Run(s, before + after).log
  {
    if after == [] {
      assert before + after == before;
    } else {
      var n := |after| - 1;
      CommitOrderIsRealTime(s, before, after[..n]);
      RunSplit(s, before, after);
      NextExtendsLog(Run(s, before + after[..n]), after[n]);
    }
  }

  /** A run whose transactions commit only writes to keys they have read never crashes. */
  lemma {:induction false} ReadBeforeWriteNeverCrashes(steps: seq<Step>)
    requires forall i | 0 <= i < |steps| && steps[i].Commit? :: WritesAreRead(TxOf(Run(INIT, steps[..i]), steps[i].id))
    ensures !Run(INIT, steps).crashed
  {
    if steps != [] {
      var n := |steps| - 1;
      var front := steps[..n];
      forall i | 0 <= i < |front| && front[i].Commit? ensures WritesAreRead(TxOf(Run(INIT, front[..i]), front[i].id)) {
        assert front[..i] == steps[..i] && steps[i].Commit?;
      }
      ReadBeforeWriteNeverCrashes(front);
      if steps[n].Commit? {
        var s := Run(INIT, front);
        ReadWritesNeverPanic(s.table, TxOf(s, steps[n].id), s.clock + 1 + steps[n].ticks);
      }
    }
  }

  lemma NextEvolves(s: Sys, step: Step)
    requires Inv(s)
    ensures Evolves(s.table, Next(s, step).table)
  {
    match step {
      case Commit(id, ticks) => ValidateEvolves(s.table, s.clock, TxOf(s, id), s.clock + 1 + ticks);
      case NativePut(k, v, ticks) => PutEvolves(s.table, s.clock, k, v);
      case NativeDelete(k, ticks) => DeleteEvolves(s.table, s.clock, k);
      case _ =>
    }
  }

  lemma {:induction false} EntriesAreSuperseded(before: seq<Step>, after: seq<Step>, k: Key)
    requires k in Run(INIT, before).table.entries
    ensures Superseded(k, Run(INIT, before).table.entries[k], Run(INIT, before + after).table)
  {
    if after == [] {
      assert before + after == before;
    } else {
      var n := |after| - 1;
      var mid := Run(INIT, before + after[..n]);
      EntriesAreSuperseded(before, after[..n], k);
      RunSplit(INIT, before, after);
      RunKeepsInv(INIT, before + after[..n]);
      NextEvolves(mid, after[n]);
      EvolvesKeepsSuperseded(mid.table, Next(mid, after[n]).table, k, Run(INIT, before).table.entries[k]);
    }
  }

  /** Between any two moments of a run, through puts, deletes, re-insertions and commits, the version of a
      key never goes down, and an equal version means an unchanged value. */
  lemma VersionsDetermineValues(before: seq<Step>, after: seq<Step>, k: Key)
    requires k in Run(INIT, before).table.entries && k in Run(INIT, before + after).table.entries
    ensures var e, e' := Run(INIT, before).table.entries[k], Run(INIT, before + after).table.entries[k];
            e.version <= e'.version && (e.version == e'.version ==> e == e')
  {
    EntriesAreSuperseded(before, after, k);
  }

  /** Why the counter must advance: with a version drawn at or below the current one, a stale read of
      another transaction still validates. */
  lemma StalledClockBreaksValidation()
    ensures var k: Key := [1];
            var s := State(map[k := Entry(6, [0])], 0);
            var stale := Tx([Record(Read, 6, k, [0])], []);
            var (_, s') := Validate(s, Tx([], [Record(Write, 0, k, [9])]), 6);
            Validate(s', stale, 7).0 == Committed && s'.entries[k].value != stale.readSet[0].value
  {
    var k: Key := [1];
    var w := Record(Write, 0, k, [9]);
    assert SortByKey([w]) == [w] by { assert SortByKey([]) == []; }
    var m: map<Key, Entry> := map[k := Entry(6, [0])];
    assert Install(m[k := Entry(6, [9])], [w][1..], 6) == m[k := Entry(6, [9])];
    assert SortByKey([]) == [];
  }

  // ---------------------------------------------------------------- every operation is in the history, as it was made

  /** The successful reads that transaction `id` has made since it began, with what they found when they were made. */
  function ReadsSince(steps: seq<Step>, id: nat): seq<Record>
    decreases |steps|
  {
    if steps == [] then []
    else
      var front := steps[..|steps| - 1];
      match steps[|steps| - 1]
      case TxGet(who, k) =>
        var entries := Run(INIT, front).table.entries;
        ReadsSince(front, id) +
          if who == id && k in entries then [Record(Read, entries[k].version, k, entries[k].value)] else []
      case Commit(who, _) => if who == id then [] else ReadsSince(front, id)
      case _ => ReadsSince(front, id)
  }

  /** The writes that it has made. */
  function PutsSince(steps: seq<Step>, id: nat): seq<Record>
    decreases |steps|
  {
    if steps == [] then []
    else
      var front := steps[..|steps| - 1];
      match steps[|steps| - 1]
      case TxPut(who, k, v) => PutsSince(front, id) + if who == id then [Record(Write, 0, k, v)] else []
      case Commit(who, _) => if who == id then [] else PutsSince(front, id)
      case _ => PutsSince(front, id)
  }

  lemma CommitClears(s: Sys, who: nat, ticks: nat, id: nat)
    ensures TxOf(Next(s, Commit(who, ticks)), id) == if who == id then Tx([], []) else TxOf(s, id)
  {
    assert Next(s, Commit(who, ticks)).txs == s.txs - {who};
  }

  /** A transaction's sets hold its reads and writes, all of them and nothing else. */
  lemma {:induction false} SetsAreComplete(steps: seq<Step>, id: nat)
    ensures TxOf(Run(INIT, steps), id) == Tx(ReadsSince(steps, id), PutsSince(steps, id))
  {
    if steps != [] {
      var front, last := steps[..|steps| - 1], steps[|steps| - 1];
      SetsAreComplete(front, id);
      match last {
        case Commit(who, ticks) => CommitClears(Run(INIT, front), who, ticks, id);
        case _ =>
      }
    }
  }

  /** Some read has another version now, or no entry. */
  predicate SomeReadIsStale(entries: map<Key, Entry>, got: seq<Record>) {
    exists i | 0 <= i < |got| :: got[i].key !in entries || entries[got[i].key].version != got[i].version
  }

  lemma CurrentReads(s: Sys, id: nat)
    requires Inv(s) && !SomeReadIsStale(s.table.entries, TxOf(s, id).readSet)
    ensures var got := TxOf(s, id).readSet;
            forall i | 0 <= i < |got| ::
              got[i].key in s.table.entries && s.table.entries[got[i].key].value == got[i].value
  {
    var got := TxOf(s, id).readSet;
    assert Genuine(s.table, TxOf(s, id));
    forall i | 0 <= i < |got|
      ensures got[i].key in s.table.entries && s.table.entries[got[i].key].value == got[i].value
    {
      assert Superseded(got[i].key, Entry(got[i].version, got[i].value), s.table);
    }
  }

  lemma StaleCommit(s: Sys, id: nat, ticks: nat)
    requires SomeReadIsStale(s.table.entries, TxOf(s, id).readSet)
    ensures var s' := Next(s, Commit(id, ticks)); s'.table == s.table && s'.log == s.log
  {
    AbortsIff(s.table, TxOf(s, id), s.clock + 1 + ticks);
  }

  lemma CurrentCommit(s: Sys, id: nat, ticks: nat)
    requires !SomeReadIsStale(s.table.entries, TxOf(s, id).readSet)
    ensures var s', tx := Next(s, Commit(id, ticks)), TxOf(s, id);
            && s'.log == s.log + [Txn(tx)]
            && ((forall i | 0 <= i < |tx.writeSet| :: tx.writeSet[i].key in s.table.entries) ==>
                  Values(s'.table.entries) == ApplyWrites(Values(s.table.entries), tx.writeSet))
  {
    var tx, now := TxOf(s, id), s.clock + 1 + ticks;
    AbortsIff(s.table, tx, now);
    ValidatePanicsIff(s.table, tx, now);
    if Validate(s.table, tx, now).0 == Committed { CommitAppliesWrites(s.table, tx, now); }
  }

  /** A commit turns the transaction away exactly if one of its reads has another version now or no entry. Otherwise it
      is in the history with all its reads, which are current, and, if all its keys are there, all its writes are
      assigned. */
  lemma CommitTakesEffect(steps: seq<Step>, id: nat, ticks: nat)
    ensures var s, got, puts := Run(INIT, steps), ReadsSince(steps, id), PutsSince(steps, id);
            var s' := Next(s, Commit(id, ticks));
            if SomeReadIsStale(s.table.entries, got) then s'.table == s.table && s'.log == s.log
            else
              && s'.log == s.log + [Txn(Tx(got, puts))]
              && (forall i | 0 <= i < |got| ::
                    got[i].key in s.table.entries && s.table.entries[got[i].key].value == got[i].value)
              && ((forall i | 0 <= i < |puts| :: puts[i].key in s.table.entries) ==>
                    Values(s'.table.entries) == ApplyWrites(Values(s.table.entries), puts))
  {
    var s := Run(INIT, steps);
    RunKeepsInv(INIT, steps);
    SetsAreComplete(steps, id);
    if SomeReadIsStale(s.table.entries, TxOf(s, id).readSet) {
      StaleCommit(s, id, ticks);
    } else {
      CurrentCommit(s, id, ticks);
      CurrentReads(s, id);
    }
  }

  /** Native operations take effect at once and as themselves. */
  lemma NativesTakeEffect(s: Sys, k: Key, v: Value, ticks: nat)
    ensures Next(s, NativeGet(k)).log ==
            s.log + [GetCall(k, if k in s.table.entries then Some(s.table.entries[k].value) else None)]
    ensures Next(s, NativeGet(k)).table == s.table
    ensures Next(s, NativePut(k, v, ticks)).log == s.log + [PutCall(k, v)]
    ensures Values(Next(s, NativePut(k, v, ticks)).table.entries) == Values(s.table.entries)[k := v]
    ensures Next(s, NativeDelete(k, ticks)).log == s.log + [DeleteCall(k)]
    ensures Values(Next(s, NativeDelete(k, ticks)).table.entries) == Values(s.table.entries) - {k}
  {
    PutValues(s.table, k, v);
    DeleteValues(s.table, k);
  }
}
