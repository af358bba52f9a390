/** Threads that share one table and move one lock operation at a time: native and extension `get`, `put`
    and `delete` under a single bucket lock, and `validate` under `Tenant::lock_table`
    (db/src/table.rs, db/src/tenant.rs, db/src/context.rs, db/src/master.rs). */
module LockSteps {
  import opened Bytes
  import opened Store

  datatype Mode = Shared | Exclusive
  datatype Op = GetOp(key: Key) | PutOp(key: Key, value: Value) | DeleteOp(key: Key)

  /** What a thread does to the table at the one moment at which it seems to happen. */
  datatype Event =
    | GetEv(key: Key, result: Option<Entry>)
    | PutEv(key: Key, value: Value)
    | DeleteEv(key: Key)
    | ValidateEv(tx: Tx, version: nat, outcome: Outcome)

  datatype Result = Got(entry: Option<Entry>) | Nothing | Decided(outcome: Outcome)

  /** A deterministic transaction: what it does next is a function of what its reads have found. Its writes are only
      recorded, so they can be given at the end. */
  datatype Act = ReadKey(key: Key) | Finish(writes: seq<Record>)
  type Body = seq<Option<Entry>> -> Act

  /** A thread makes one table operation, or runs a transaction with at most `bound` reads and writes; `seen` is what
      its reads have found so far and `got` the read set. */
  datatype Work = Single | Transaction(body: Body, bound: nat, seen: seq<Option<Entry>>, got: seq<Record>)

  datatype Phase =
    | Idle                                      // a transaction between two operations
    | OpStart(op: Op)                           // before `get_table`
    | OpTenant(op: Op)                          // inside `get_table`, tenant lock shared
    | OpHandle(op: Op)                          // has the table, waits for the bucket
    | OpBucket(op: Op)                          // holds the bucket lock
    | VStart(tx: Tx)                            // before `lock_table`
    | VLock(tx: Tx, i: nat)                     // write-locking pass over the sorted write set
    | VCheck(tx: Tx, i: nat)                    // read-locking and checking pass over the sorted read set
    | VInstall(tx: Tx, i: nat, version: nat)    // timestamp drawn, installing
    | VRelease(outcome: Outcome, b: nat)        // dropping the guards in bucket order
    | AssertFailed                              // a lock of the wrong kind in `validate`
    | Done(result: Result)

  /** `held` is the thread's lock-guard array, `lin` the event of its current operation if that has taken effect, and
      `past` the events of its earlier operations. */
  datatype Thread = Thread(phase: Phase, held: map<nat, Mode>, tenant: Option<Mode>, work: Work, past: seq<Event>,
                           lin: Option<Event>)

  datatype Happening = Happening(t: nat, ev: Event)

  /** `clock` is the last value of the cycle counter, `history` the events in the order in which they took effect. */
  datatype Machine = Machine(table: State, clock: nat, threads: seq<Thread>, history: seq<Happening>)

  /** All events of a thread. */
  function Trace(th: Thread): seq<Event> { th.past + if th.lin.Some? then [th.lin.value] else [] }

  function Ws(tx: Tx): seq<Record> { SortByKey(tx.writeSet) }
  function Rs(tx: Tx): seq<Record> { SortByKey(tx.readSet) }
  function ModeOf(op: Op): Mode { if op.GetOp? then Shared else Exclusive }

  // ---------------------------------------------------------------- steps

  predicate NobodyHolds(m: Machine, b: nat) {
    forall t | 0 <= t < |m.threads| :: b !in m.threads[t].held
  }

  predicate NobodyWrites(m: Machine, b: nat) {
    forall t | 0 <= t < |m.threads| :: b in m.threads[t].held ==> m.threads[t].held[b] == Shared
  }

  /** Spinning on a lock is not a step: a thread moves when the lock it wants is free, its own guards included. */
  predicate Enabled(m: Machine, t: nat)
    requires t < |m.threads|
  {
    var th := m.threads[t];
    match th.phase
    case OpStart(_) => forall u | 0 <= u < |m.threads| :: m.threads[u].tenant != Some(Exclusive)
    case OpHandle(op) => if op.GetOp? then NobodyWrites(m, Bucket(op.key)) else NobodyHolds(m, Bucket(op.key))
    case VStart(_) => forall u | 0 <= u < |m.threads| :: m.threads[u].tenant == None
    case VLock(tx, i) => i < |Ws(tx)| && Bucket(Ws(tx)[i].key) !in th.held ==> NobodyHolds(m, Bucket(Ws(tx)[i].key))
    case VCheck(tx, i) => i < |Rs(tx)| && Bucket(Rs(tx)[i].key) !in th.held ==> NobodyWrites(m, Bucket(Rs(tx)[i].key))
    case AssertFailed => false
    case Done(_) => false
    case _ => true
  }

  function Perform(s: State, op: Op): (State, Event, Result) {
    match op
    case GetOp(k) => (s, GetEv(k, Lookup(s, k)), Got(Lookup(s, k)))
    case PutOp(k, v) => (Put(s, k, v), PutEv(k, v), Nothing)
    case DeleteOp(k) => (Delete(s, k), DeleteEv(k), Nothing)
  }

  /** A transaction decides on its next operation. */
  function Decide(th: Thread): Thread
    requires th.work.Transaction?
  {
    var next := th.(past := Trace(th), lin := None);
    match th.work.body(th.work.seen)
    case ReadKey(k) => next.(phase := OpStart(GetOp(k)))
    case Finish(writes) => next.(phase := VStart(Tx(th.work.got, writes)))
  }

  /** A transaction takes note of what a `get` has found; nothing is recorded for an absent key. */
  function Took(th: Thread, k: Key, found: Option<Entry>): Thread
    requires th.work.Transaction?
  {
    var got := match found
               case None => th.work.got
               case Some(e) => th.work.got + [Record(Read, e.version, k, e.value)];
    th.(phase := Idle, work := th.work.(seen := th.work.seen + [found], got := got))
  }

  /** One step of thread `th`: the table and the thread afterwards. `now` is the cycle counter. */
  function ThreadStep(table: State, th: Thread, now: nat): (State, Thread) {
    match th.phase
    case Idle => (table, if th.work.Transaction? then Decide(th) else th)
    case OpStart(op) => (table, th.(phase := OpTenant(op), tenant := Some(Shared)))
    case OpTenant(op) => (table, th.(phase := OpHandle(op), tenant := None))
    case OpHandle(op) => (table, th.(phase := OpBucket(op), held := map[Bucket(op.key) := ModeOf(op)]))
    case OpBucket(op) =>
      var (table', ev, result) := Perform(table, op);
      var free := th.(held := map[], lin := Some(ev));
      (table', if th.work.Transaction? && op.GetOp? then Took(free, op.key, Lookup(table, op.key))
               else free.(phase := Done(result)))
    case VStart(tx) => (table, th.(phase := VLock(tx, 0), tenant := Some(Exclusive)))
    case VLock(tx, i) =>
      if i >= |Ws(tx)| then (table, th.(phase := VCheck(tx, 0)))
      else
        var b := Bucket(Ws(tx)[i].key);
        if b !in th.held then (table, th.(phase := VLock(tx, i + 1), held := th.held[b := Exclusive]))
        else if th.held[b] == Exclusive then (table, th.(phase := VLock(tx, i + 1)))
        else (table, th.(phase := AssertFailed))
    case VCheck(tx, i) =>
      if i >= |Rs(tx)| then
        var outcome := if AllPresent(table.entries, Ws(tx)) then Committed else Panicked;
        (table, th.(phase := VInstall(tx, 0, now), lin := Some(ValidateEv(tx, now, outcome))))
      else
        var b := Bucket(Rs(tx)[i].key);
        var held := if b in th.held then th.held else th.held[b := Shared];
        if VersionOk(table.entries, Rs(tx)[i]) then (table, th.(phase := VCheck(tx, i + 1), held := held))
        else (table, th.(phase := VRelease(Aborted, 0), held := held, lin := Some(ValidateEv(tx, now, Aborted))))
    case VInstall(tx, i, version) =>
      if i >= |Ws(tx)| then (table, th.(phase := VRelease(Committed, 0)))
      else
        var w := Ws(tx)[i];
        if !(Bucket(w.key) in th.held && th.held[Bucket(w.key)] == Exclusive) then (table, th.(phase := AssertFailed))
        else if w.key in table.entries then
          (table.(entries := table.entries[w.key := Entry(version, w.value)]),
              th.(phase := VInstall(tx, i + 1, version)))
        else (table, th.(phase := VRelease(Panicked, 0)))
    case VRelease(outcome, b) =>
      if b < N_BUCKETS then (table, th.(phase := VRelease(outcome, b + 1), held := th.held - {b}))
      else (table, th.(phase := Done(Decided(outcome)), tenant := None))
    case _ => (table, th)
  }

  function Step(m: Machine, t: nat, now: nat): Machine
    requires t < |m.threads|
  {
    var (table, th) := ThreadStep(m.table, m.threads[t], now);
    Machine(table, now, m.threads[t := th],
            if m.threads[t].lin == None && th.lin.Some? then m.history + [Happening(t, th.lin.value)] else m.history)
  }

  // ---------------------------------------------------------------- the atomic specification

  /** The event on the whole table at once; `None` if its result does not fit. */
  function Apply(s: State, ev: Event): Option<State> {
    match ev
    case GetEv(k, result) => if result == Lookup(s, k) then Some(s) else None
    case PutEv(k, v) => Some(Put(s, k, v))
    case DeleteEv(k) => Some(Delete(s, k))
    case ValidateEv(tx, version, outcome) =>
      if Validate(s, tx, version).0 == outcome then Some(Validate(s, tx, version).1) else None
  }

  function Replay(s: State, evs: seq<Event>): Option<State> {
    if evs == [] then Some(s) else Then(Replay(s, evs[..|evs| - 1]), evs[|evs| - 1])
  }

  function Then(s: Option<State>, ev: Event): Option<State> {
    match s case None => None case Some(s') => Apply(s', ev)
  }

  /** The events of one thread. */
  function Own(history: seq<Happening>, t: nat): seq<Event> {
    if history == [] then []
    else
      var front, last := history[..|history| - 1], history[|history| - 1];
      Own(front, t) + if last.t == t then [last.ev] else []
  }

  /** The history holds what each thread did, in its order. */
  ghost predicate HistoryOk(m: Machine) {
    && (forall t | 0 <= t < |m.threads| :: Own(m.history, t) == Trace(m.threads[t]))
    && (forall i | 0 <= i < |m.history| :: m.history[i].t < |m.threads|)
  }

  function Events(history: seq<Happening>): seq<Event> {
    seq(|history|, i requires 0 <= i < |history| => history[i].ev)
  }

  /** The table as the specification sees it: a started install counts as finished. */
  ghost function Abs(m: Machine): State {
    if exists t :: 0 <= t < |m.threads| && m.threads[t].phase.VInstall? then
      var t :| 0 <= t < |m.threads| && m.threads[t].phase.VInstall?;
      AbsOf(m.table, m.threads[t].phase)
    else m.table
  }

  function AbsOf(table: State, phase: Phase): State {
    match phase
    case VInstall(tx, i, version) =>
      if i <= |Ws(tx)| then table.(entries := Install(table.entries, Ws(tx)[i..], version)) else table
    case _ => table
  }

  // ---------------------------------------------------------------- invariant

  ghost predicate WriteLocksHeld(th: Thread, tx: Tx, n: nat)
    requires n <= |Ws(tx)|
  {
    forall j | 0 <= j < n :: Bucket(Ws(tx)[j].key) in th.held && th.held[Bucket(Ws(tx)[j].key)] == Exclusive
  }

  ghost predicate ReadsChecked(entries: map<Key, Entry>, th: Thread, tx: Tx, n: nat)
    requires n <= |Rs(tx)|
  {
    forall j | 0 <= j < n :: Bucket(Rs(tx)[j].key) in th.held && VersionOk(entries, Rs(tx)[j])
  }

  ghost predicate Fits(result: Result, ev: Event) {
    match ev
    case GetEv(_, r) => result == Got(r)
    case ValidateEv(_, _, outcome) => result == Decided(outcome)
    case _ => result == Nothing
  }

  ghost predicate Quiet(th: Thread) { th.held == map[] && th.tenant == None }

  ghost predicate ThreadInv(entries: map<Key, Entry>, th: Thread) {
    match th.phase
    case Idle => Quiet(th) && (th.lin.Some? ==> th.lin.value.GetEv?)
    case OpStart(_) => Quiet(th) && th.lin == None
    case OpTenant(_) => th.held == map[] && th.tenant == Some(Shared) && th.lin == None
    case OpHandle(_) => Quiet(th) && th.lin == None
    case OpBucket(op) => th.held == map[Bucket(op.key) := ModeOf(op)] && th.tenant == None && th.lin == None
    case VStart(_) => Quiet(th) && th.lin == None
    case VLock(tx, i) =>
      && th.tenant == Some(Exclusive) && th.lin == None && i <= |Ws(tx)| && WriteLocksHeld(th, tx, i)
      && forall b | b in th.held :: th.held[b] == Exclusive && b < N_BUCKETS
    case VCheck(tx, i) =>
      && th.tenant == Some(Exclusive) && th.lin == None && i <= |Rs(tx)|
      && WriteLocksHeld(th, tx, |Ws(tx)|) && ReadsChecked(entries, th, tx, i)
      && forall b | b in th.held :: b < N_BUCKETS
    case VInstall(tx, i, version) =>
      && th.tenant == Some(Exclusive) && i <= |Ws(tx)| && WriteLocksHeld(th, tx, |Ws(tx)|)
      && (forall b | b in th.held :: b < N_BUCKETS)
      && (th.lin == Some(ValidateEv(tx, version, Committed)) || th.lin == Some(ValidateEv(tx, version, Panicked)))
      && (th.lin.value.outcome == Committed <==> AllPresent(entries, Ws(tx)[i..]))
      && (WritesAreRead(tx) ==> th.lin.value.outcome == Committed)
    case VRelease(outcome, b) =>
      && th.tenant == Some(Exclusive) && b <= N_BUCKETS && (forall k | k in th.held :: b <= k < N_BUCKETS)
      && th.lin.Some? && th.lin.value.ValidateEv? && th.lin.value.outcome == outcome
      && (WritesAreRead(th.lin.value.tx) ==> outcome != Panicked)
    case AssertFailed => false
    case Done(result) =>
      && Quiet(th) && th.lin.Some? && Fits(result, th.lin.value)
      && (th.lin.value.ValidateEv? && WritesAreRead(th.lin.value.tx) ==> th.lin.value.outcome != Panicked)
  }

  /** A transaction comes to an end. */
  ghost predicate Terse(body: Body, bound: nat) {
    && (forall seen: seq<Option<Entry>> | |seen| >= bound :: body(seen).Finish?)
    && (forall seen: seq<Option<Entry>> | body(seen).Finish? :: |body(seen).writes| <= bound)
  }

  ghost predicate WasRead(trace: seq<Event>, r: Record) {
    GetEv(r.key, Some(Entry(r.version, r.value))) in trace
  }

  /** What a transaction has read is what its gets have found. */
  ghost predicate ReadsAreOwn(th: Thread)
    requires th.work.Transaction?
  {
    && Terse(th.work.body, th.work.bound) && |th.work.got| <= |th.work.seen| <= th.work.bound
    && forall i | 0 <= i < |th.work.got| :: WasRead(Trace(th), th.work.got[i])
  }

  /** A transaction reads, and then validates what it has read and recorded. */
  ghost predicate WorkInv(th: Thread) {
    match th.work
    case Single => !th.phase.Idle? && th.past == []
    case Transaction(body, bound, seen, got) =>
      && ReadsAreOwn(th)
      && match th.phase
         case Idle => true
         case OpStart(op) => op.GetOp? && |seen| < bound
         case OpTenant(op) => op.GetOp? && |seen| < bound
         case OpHandle(op) => op.GetOp? && |seen| < bound
         case OpBucket(op) => op.GetOp? && |seen| < bound
         case VStart(tx) => tx.readSet == got && |tx.writeSet| <= bound
         case VLock(tx, _) => tx.readSet == got
         case VCheck(tx, _) => tx.readSet == got
         case _ => th.lin.Some? && th.lin.value.ValidateEv? && th.lin.value.tx.readSet == got
  }

  /** Read-write locks exclude each other. */
  ghost predicate LocksOk(threads: seq<Thread>) {
    && (forall t, u, b | 0 <= t < |threads| && 0 <= u < |threads| && t != u && b in threads[t].held
        && b in threads[u].held ::
          threads[t].held[b] == Shared)
    && (forall t, u | 0 <= t < |threads| && 0 <= u < |threads| && t != u && threads[t].tenant == Some(Exclusive) ::
          threads[u].tenant == None)
  }

  ghost predicate Inv(m: Machine) {
    && LocksOk(m.threads)
    && (forall t | 0 <= t < |m.threads| :: ThreadInv(m.table.entries, m.threads[t]) && WorkInv(m.threads[t]))
  }

  ghost predicate Initial(m: Machine) {
    m.history == [] && forall t | 0 <= t < |m.threads| :: Unstarted(m.threads[t])
  }

  /** A native operation, a commit request, or a transaction that has not read anything yet. */
  ghost predicate Unstarted(th: Thread) {
    && Quiet(th) && th.lin == None && th.past == []
    && match th.work
       case Single => th.phase.OpStart? || th.phase.VStart?
       case Transaction(body, bound, seen, got) => th.phase.Idle? && Terse(body, bound) && seen == [] && got == []
  }

  lemma InitialInv(m: Machine)
    requires Initial(m)
    ensures Inv(m) && HistoryOk(m)
  {
  }

  // ---------------------------------------------------------------- each step keeps the lock discipline

  lemma StepKeepsLocks(m: Machine, t: nat, now: nat)
    requires Inv(m) && t < |m.threads| && Enabled(m, t)
    ensures LocksOk(Step(m, t, now).threads)
  {
    var th, th' := m.threads[t], ThreadStep(m.table, m.threads[t], now).1;
    assert ThreadInv(m.table.entries, th);
    forall u, b | 0 <= u < |m.threads| && u != t && b in th'.held && b in m.threads[u].held
      ensures th'.held[b] == Shared && m.threads[u].held[b] == Shared
    {
      if b in th.held {
        assert th'.held[b] == th.held[b];
      } else {
        assert !NobodyHolds(m, b);
        assert NobodyWrites(m, b);
      }
    }
  }

  // ---------------------------------------------------------------- each step keeps the thread invariants

  lemma CheckedReadsCoverWrites(entries: map<Key, Entry>, th: Thread, tx: Tx)
    requires ReadsChecked(entries, th, tx, |Rs(tx)|)
    ensures ReadsOk(entries, tx.readSet)
    ensures WritesAreRead(tx) ==> AllPresent(entries, Ws(tx))
  {
    assert ReadsOk(entries, Rs(tx));
    SortKeepsReadsOk(entries, tx.readSet);
    if WritesAreRead(tx) {
      ReadKeysArePresent(entries, tx);
      SortKeepsPresence(entries, tx.writeSet);
    }
  }

  lemma InstallOnePresence(entries: map<Key, Entry>, writes: seq<Record>, i: nat, e: Entry)
    requires i < |writes|
    ensures writes[i].key in entries ==>
              (AllPresent(entries[writes[i].key := e], writes[i + 1..]) <==> AllPresent(entries, writes[i..]))
    ensures writes[i].key !in entries ==> !AllPresent(entries, writes[i..])
  {
    assert writes[i..] == [writes[i]] + writes[i + 1..];
    if writes[i].key in entries && AllPresent(entries[writes[i].key := e], writes[i + 1..]) {
      forall j | 0 <= j < |writes[i..]| ensures writes[i..][j].key in entries {
        if j > 0 { assert writes[i..][j] == writes[i + 1..][j - 1]; }
      }
    }
    if AllPresent(entries, writes[i..]) {
      assert writes[i..][0].key in entries;
      var rest := writes[i + 1..];
      forall j | 0 <= j < |rest| ensures rest[j].key in entries {
        assert rest[j] == writes[i..][j + 1];
      }
    }
  }

  lemma CheckKeepsOwn(table: State, th: Thread, now: nat)
    requires ThreadInv(table.entries, th) && th.phase.VCheck?
    ensures ThreadInv(table.entries, ThreadStep(table, th, now).1)
  {
    var VCheck(tx, i) := th.phase;
    if i >= |Rs(tx)| {
      CheckedReadsCoverWrites(table.entries, th, tx);
      assert Ws(tx)[0..] == Ws(tx);
    }
  }

  lemma InstallKeepsOwn(table: State, th: Thread, now: nat)
    requires ThreadInv(table.entries, th) && th.phase.VInstall?
    ensures var (table', th') := ThreadStep(table, th, now); ThreadInv(table'.entries, th')
  {
    var VInstall(tx, i, version) := th.phase;
    if i < |Ws(tx)| { InstallOnePresence(table.entries, Ws(tx), i, Entry(version, Ws(tx)[i].value)); }
  }

  lemma LockKeepsOwn(table: State, th: Thread, now: nat)
    requires ThreadInv(table.entries, th) && (th.phase.VStart? || th.phase.VLock? || th.phase.VRelease?)
    ensures ThreadInv(table.entries, ThreadStep(table, th, now).1)
  {
  }

  lemma StepKeepsOwn(table: State, th: Thread, now: nat)
    requires ThreadInv(table.entries, th)
    ensures var (table', th') := ThreadStep(table, th, now); ThreadInv(table'.entries, th')
  {
    match th.phase {
      case VCheck(_, _) => CheckKeepsOwn(table, th, now);
      case VInstall(_, _, _) => InstallKeepsOwn(table, th, now);
      case VStart(_) => LockKeepsOwn(table, th, now);
      case VLock(_, _) => LockKeepsOwn(table, th, now);
      case VRelease(_, _) => LockKeepsOwn(table, th, now);
      case _ => OpKeepsOwn(table, th, now);
    }
  }

  predicate Operating(phase: Phase) {
    phase.Idle? || phase.OpStart? || phase.OpTenant? || phase.OpHandle? || phase.OpBucket? || phase.Done?
  }

  lemma OpKeepsOwn(table: State, th: Thread, now: nat)
    requires ThreadInv(table.entries, th) && Operating(th.phase)
    ensures var (table', th') := ThreadStep(table, th, now); ThreadInv(table'.entries, th')
  {
    match th.phase {
      case OpBucket(op) => BucketKeepsOwn(table, th, now);
      case _ =>
    }
  }

  lemma BucketKeepsOwn(table: State, th: Thread, now: nat)
    requires ThreadInv(table.entries, th) && th.phase.OpBucket?
    ensures var (table', th') := ThreadStep(table, th, now); ThreadInv(table'.entries, th')
  {
  }

  lemma TookKeepsReads(th: Thread, free: Thread, k: Key, found: Option<Entry>)
    requires th.work.Transaction? && ReadsAreOwn(th) && |th.work.seen| < th.work.bound && th.lin == None
    requires free == th.(held := map[], lin := Some(GetEv(k, found)))
    ensures ReadsAreOwn(Took(free, k, found))
  {
    var th' := Took(free, k, found);
    forall i | 0 <= i < |th'.work.got| ensures WasRead(Trace(th'), th'.work.got[i]) {
      if i < |th.work.got| { assert WasRead(Trace(th), th.work.got[i]); }
    }
  }

  lemma TraceGrows(th: Thread, th': Thread)
    requires th.work.Transaction? && ReadsAreOwn(th) && th'.work == th.work
    requires Trace(th) <= Trace(th')
    ensures ReadsAreOwn(th')
  {
    forall i | 0 <= i < |th.work.got| ensures WasRead(Trace(th'), th.work.got[i]) {
      assert WasRead(Trace(th), th.work.got[i]);
    }
  }

  lemma DecideKeepsWork(th: Thread)
    requires th.work.Transaction? && WorkInv(th) && th.phase.Idle?
    ensures WorkInv(Decide(th))
  {
    assert Trace(Decide(th)) == Trace(th);
    TraceGrows(th, Decide(th));
  }

  lemma OpKeepsWork(table: State, th: Thread, now: nat)
    requires ThreadInv(table.entries, th) && WorkInv(th) && th.phase.OpBucket?
    ensures WorkInv(ThreadStep(table, th, now).1)
  {
    if th.work.Transaction? {
      var k := th.phase.op.key;
      TookKeepsReads(th, th.(held := map[], lin := Some(GetEv(k, Lookup(table, k)))), k, Lookup(table, k));
    }
  }

  /** Steps of `validate` add at most its event. */
  lemma LockingKeepsWork(table: State, th: Thread, now: nat)
    requires ThreadInv(table.entries, th) && WorkInv(th) && !th.phase.Idle? && !th.phase.OpBucket? && !th.phase.VCheck?
    ensures WorkInv(ThreadStep(table, th, now).1)
  {
    var th' := ThreadStep(table, th, now).1;
    assert th'.work == th.work && th'.past == th.past && th'.lin == th.lin;
    if th.work.Transaction? { TraceGrows(th, th'); }
  }

  lemma CheckingKeepsWork(table: State, th: Thread, now: nat)
    requires ThreadInv(table.entries, th) && WorkInv(th) && th.phase.VCheck?
    ensures WorkInv(ThreadStep(table, th, now).1)
  {
    var th' := ThreadStep(table, th, now).1;
    assert th'.work == th.work && th'.past == th.past && Trace(th) == th.past;
    if th.work.Transaction? { TraceGrows(th, th'); }
  }

  lemma StepKeepsWork(table: State, th: Thread, now: nat)
    requires ThreadInv(table.entries, th) && WorkInv(th)
    ensures WorkInv(ThreadStep(table, th, now).1)
  {
    match th.phase {
      case Idle => DecideKeepsWork(th);
      case OpBucket(_) => OpKeepsWork(table, th, now);
      case VCheck(_, _) => CheckingKeepsWork(table, th, now);
      case _ => LockingKeepsWork(table, th, now);
    }
  }

  /** Two tables agree outside one bucket. */
  ghost predicate AgreeOutside(e: map<Key, Entry>, e': map<Key, Entry>, b: nat) {
    forall k: Key | Bucket(k) != b :: (k in e <==> k in e') && (k in e ==> e[k] == e'[k])
  }

  lemma PerformAgreesOutside(s: State, op: Op)
    ensures AgreeOutside(s.entries, Perform(s, op).0.entries, Bucket(op.key))
  {
  }

  lemma OtherBucketKeepsPresence(e: map<Key, Entry>, e': map<Key, Entry>, b: nat, th: Thread, ws: seq<Record>, i: nat)
    requires AgreeOutside(e, e', b) && i <= |ws| && (b in th.held ==> th.held[b] == Shared && e == e')
    requires forall j | 0 <= j < |ws| :: Bucket(ws[j].key) in th.held && th.held[Bucket(ws[j].key)] == Exclusive
    ensures AllPresent(e, ws[i..]) <==> AllPresent(e', ws[i..])
  {
    var rest := ws[i..];
    forall j | 0 <= j < |rest| ensures rest[j].key in e <==> rest[j].key in e' { assert rest[j] == ws[i + j]; }
  }

  lemma OtherBucketKeepsThread(e: map<Key, Entry>, e': map<Key, Entry>, b: nat, th: Thread)
    requires ThreadInv(e, th) && AgreeOutside(e, e', b)
    requires b in th.held ==> th.held[b] == Shared && e == e'
    ensures ThreadInv(e', th)
  {
    match th.phase {
      case VCheck(tx, i) =>
        forall j | 0 <= j < i ensures VersionOk(e', Rs(tx)[j]) { assert VersionOk(e, Rs(tx)[j]); }
      case VInstall(tx, i, version) => OtherBucketKeepsPresence(e, e', b, th, Ws(tx), i);
      case _ =>
    }
  }

  lemma StepKeepsOthers(m: Machine, t: nat, now: nat, u: nat)
    requires Inv(m) && t < |m.threads| && Enabled(m, t) && u < |m.threads| && u != t
    ensures ThreadInv(ThreadStep(m.table, m.threads[t], now).0.entries, m.threads[u])
  {
    var th := m.threads[t];
    assert ThreadInv(m.table.entries, th) && ThreadInv(m.table.entries, m.threads[u]);
    match th.phase {
      case OpBucket(op) =>
        PerformAgreesOutside(m.table, op);
        assert th.held[Bucket(op.key)] == ModeOf(op);
        OtherBucketKeepsThread(m.table.entries, Perform(m.table, op).0.entries, Bucket(op.key), m.threads[u]);
      case VInstall(_, _, _) =>
        assert m.threads[u].tenant == None;
      case _ =>
    }
  }

  lemma StepKeepsInv(m: Machine, t: nat, now: nat)
    requires Inv(m) && t < |m.threads| && Enabled(m, t)
    ensures Inv(Step(m, t, now))
  {
    StepKeepsLocks(m, t, now);
    StepKeepsOwn(m.table, m.threads[t], now);
    StepKeepsWork(m.table, m.threads[t], now);
    forall u | 0 <= u < |m.threads| && u != t
      ensures ThreadInv(ThreadStep(m.table, m.threads[t], now).0.entries, m.threads[u])
    {
      StepKeepsOthers(m, t, now, u);
    }
  }

  // ---------------------------------------------------------------- refinement of the atomic specification

  lemma AbsDuringInstall(m: Machine, t: nat)
    requires Inv(m) && t < |m.threads| && m.threads[t].phase.VInstall?
    ensures Abs(m) == AbsOf(m.table, m.threads[t].phase)
  {
    forall u | 0 <= u < |m.threads| && m.threads[u].phase.VInstall? ensures u == t {
      assert ThreadInv(m.table.entries, m.threads[u]) && ThreadInv(m.table.entries, m.threads[t]);
    }
  }

  lemma AbsBesideValidator(m: Machine, t: nat)
    requires Inv(m) && t < |m.threads| && m.threads[t].tenant == Some(Exclusive) && !m.threads[t].phase.VInstall?
    ensures Abs(m) == m.table
  {
    forall u | 0 <= u < |m.threads| ensures !m.threads[u].phase.VInstall? {
      assert ThreadInv(m.table.entries, m.threads[u]);
    }
  }

  /** Installing does not touch a key outside the write set, so it commutes with a change of that key. */
  lemma {:induction false} InstallCommutes(entries: map<Key, Entry>, writes: seq<Record>, version: nat, k: Key,
      e: Entry)
    requires forall j | 0 <= j < |writes| :: writes[j].key != k
    ensures var done := Install(entries, writes, version);
            && (k in done <==> k in entries) && (k in entries ==> done[k] == entries[k])
            && Install(entries[k := e], writes, version) == done[k := e]
            && Install(entries - {k}, writes, version) == done - {k}
    decreases |writes|
  {
    if writes != [] && writes[0].key in entries {
      var w := writes[0];
      var e0 := Entry(version, w.value);
      InstallCommutes(entries[w.key := e0], writes[1..], version, k, e);
      assert entries[k := e][w.key := e0] == entries[w.key := e0][k := e];
      assert (entries - {k})[w.key := e0] == entries[w.key := e0] - {k};
    }
  }

  lemma PerformCommutes(s: State, writes: seq<Record>, version: nat, op: Op)
    requires forall j | 0 <= j < |writes| :: writes[j].key != op.key
    ensures var (s', ev, _) := Perform(s, op);
            Apply(s.(entries := Install(s.entries, writes, version)), ev)
              == Some(s'.(entries := Install(s'.entries, writes, version)))
  {
    var done := s.(entries := Install(s.entries, writes, version));
    InstallCommutes(s.entries, writes, version, op.key, Entry(0, []));
    match op {
      case GetOp(k) =>
      case PutOp(k, v) =>
        InstallCommutes(s.entries, writes, version, k, Put(s, k, v).entries[k]);
      case DeleteOp(k) =>
        if k !in s.entries { assert done.entries - {k} == done.entries; }
    }
  }

  lemma OpBesideInstallRefines(m: Machine, t: nat, u: nat, now: nat)
    requires Inv(m) && t < |m.threads| && m.threads[t].phase.OpBucket?
    requires u < |m.threads| && m.threads[u].phase.VInstall?
    ensures var (table', th') := ThreadStep(m.table, m.threads[t], now);
            Apply(AbsOf(m.table, m.threads[u].phase), Perform(m.table, m.threads[t].phase.op).1)
              == Some(AbsOf(table', m.threads[u].phase))
  {
    var op := m.threads[t].phase.op;
    var VInstall(tx, i, version) := m.threads[u].phase;
    assert ThreadInv(m.table.entries, m.threads[t]) && ThreadInv(m.table.entries, m.threads[u]);
    var rest := Ws(tx)[i..];
    forall j | 0 <= j < |rest| ensures rest[j].key != op.key {
      var b := Bucket(Ws(tx)[i + j].key);
      assert b in m.threads[u].held && m.threads[u].held[b] == Exclusive;
    }
    PerformCommutes(m.table, rest, version, op);
  }

  lemma OpStepRefines(m: Machine, t: nat, now: nat)
    requires Inv(m) && t < |m.threads| && m.threads[t].phase.OpBucket?
    requires Inv(Step(m, t, now))
    ensures Apply(Abs(m), Perform(m.table, m.threads[t].phase.op).1) == Some(Abs(Step(m, t, now)))
  {
    var m' := Step(m, t, now);
    assert !m'.threads[t].phase.VInstall?;
    if u :| 0 <= u < |m.threads| && m.threads[u].phase.VInstall? {
      assert m'.threads[u] == m.threads[u];
      AbsDuringInstall(m, u);
      AbsDuringInstall(m', u);
      OpBesideInstallRefines(m, t, u, now);
    } else {
      assert forall u | 0 <= u < |m'.threads| :: !m'.threads[u].phase.VInstall?;
      assert Abs(m) == m.table && Abs(m') == m'.table;
    }
  }

  /** After the last check `validate` is as good as done. */
  lemma LastCheckRefines(m: Machine, t: nat, now: nat)
    requires Inv(m) && t < |m.threads| && m.threads[t].phase.VCheck?
    requires m.threads[t].phase.i >= |Rs(m.threads[t].phase.tx)|
    requires Inv(Step(m, t, now))
    ensures var m' := Step(m, t, now);
            m'.threads[t].lin.Some? && Apply(Abs(m), m'.threads[t].lin.value) == Some(Abs(m'))
  {
    assert ThreadInv(m.table.entries, m.threads[t]);
    AbsBesideValidator(m, t);
    LastCheckEvent(m.table, m.threads[t], now);
    AbsDuringInstall(Step(m, t, now), t);
  }

  lemma LastCheckEvent(table: State, th: Thread, now: nat)
    requires ThreadInv(table.entries, th) && th.phase.VCheck? && th.phase.i >= |Rs(th.phase.tx)|
    ensures var (table', th') := ThreadStep(table, th, now);
            && table' == table && th'.phase.VInstall? && th'.lin.Some?
            && Apply(table, th'.lin.value) == Some(AbsOf(table, th'.phase))
  {
    CheckedReadsCoverWrites(table.entries, th, th.phase.tx);
    assert Ws(th.phase.tx)[0..] == Ws(th.phase.tx);
  }

  lemma CheckStepRefines(m: Machine, t: nat, now: nat)
    requires Inv(m) && t < |m.threads| && m.threads[t].phase.VCheck?
    requires Inv(Step(m, t, now))
    ensures var m' := Step(m, t, now);
            if m'.threads[t].lin.Some? then Apply(Abs(m), m'.threads[t].lin.value) == Some(Abs(m'))
            else Abs(m') == Abs(m)
  {
    var VCheck(tx, i) := m.threads[t].phase;
    if i >= |Rs(tx)| {
      LastCheckRefines(m, t, now);
    } else {
      assert ThreadInv(m.table.entries, m.threads[t]);
      AbsBesideValidator(m, t);
      AbsBesideValidator(Step(m, t, now), t);
      if !VersionOk(m.table.entries, Rs(tx)[i]) { SortKeepsReadsOk(m.table.entries, tx.readSet); }
    }
  }

  lemma InstallOneIsSilent(table: State, th: Thread, now: nat)
    requires ThreadInv(table.entries, th) && th.phase.VInstall?
    ensures var (table', th') := ThreadStep(table, th, now); AbsOf(table', th'.phase) == AbsOf(table, th.phase)
  {
    var VInstall(tx, i, version) := th.phase;
    if i < |Ws(tx)| {
      assert Ws(tx)[i..][0] == Ws(tx)[i] && Ws(tx)[i..][1..] == Ws(tx)[i + 1..];
    }
  }

  lemma InstallStepRefines(m: Machine, t: nat, now: nat)
    requires Inv(m) && t < |m.threads| && m.threads[t].phase.VInstall?
    requires Inv(Step(m, t, now))
    ensures Abs(Step(m, t, now)) == Abs(m)
  {
    var m' := Step(m, t, now);
    assert ThreadInv(m.table.entries, m.threads[t]) && ThreadInv(m'.table.entries, m'.threads[t]);
    InstallOneIsSilent(m.table, m.threads[t], now);
    AbsDuringInstall(m, t);
    if m'.threads[t].phase.VInstall? { AbsDuringInstall(m', t); } else { AbsBesideValidator(m', t); }
  }

  predicate Silent(phase: Phase) { !phase.OpBucket? && !phase.VCheck? && !phase.VInstall? }

  lemma SilentKeepsTrace(table: State, th: Thread, now: nat)
    requires ThreadInv(table.entries, th) && Silent(th.phase)
    ensures var (table', th') := ThreadStep(table, th, now);
            && table' == table && !th'.phase.VInstall? && Trace(th') == Trace(th)
            && (th.lin == None ==> th'.lin == None)
  {
  }

  /** The abstract table does not change with a thread that is not installing. */
  lemma AbsStays(m: Machine, m': Machine, t: nat)
    requires Inv(m) && Inv(m') && t < |m.threads| && m'.table == m.table && |m'.threads| == |m.threads|
    requires !m.threads[t].phase.VInstall? && !m'.threads[t].phase.VInstall?
    requires forall u | 0 <= u < |m.threads| && u != t :: m'.threads[u] == m.threads[u]
    ensures Abs(m') == Abs(m)
  {
    if u :| 0 <= u < |m.threads| && m.threads[u].phase.VInstall? {
      assert m'.threads[u] == m.threads[u];
      AbsDuringInstall(m, u);
      AbsDuringInstall(m', u);
    } else {
      assert forall u | 0 <= u < |m'.threads| :: !m'.threads[u].phase.VInstall?;
    }
  }

  lemma SilentStepRefines(m: Machine, t: nat, now: nat)
    requires Inv(m) && t < |m.threads| && Silent(m.threads[t].phase)
    requires Inv(Step(m, t, now))
    ensures Abs(Step(m, t, now)) == Abs(m)
    ensures Trace(Step(m, t, now).threads[t]) == Trace(m.threads[t])
    ensures m.threads[t].lin == None ==> Step(m, t, now).threads[t].lin == None
  {
    assert ThreadInv(m.table.entries, m.threads[t]);
    SilentKeepsTrace(m.table, m.threads[t], now);
    AbsStays(m, Step(m, t, now), t);
  }

  // ---------------------------------------------------------------- whole runs

  /** The events so far, replayed atomically in order, give every result and the abstract table. */
  ghost predicate Explained(start: State, m: Machine) {
    HistoryOk(m) && Replay(start, Events(m.history)) == Some(Abs(m))
  }

  lemma OwnAppend(history: seq<Happening>, h: Happening, t: nat)
    ensures Own(history + [h], t) == Own(history, t) + if h.t == t then [h.ev] else []
    ensures Events(history + [h]) == Events(history) + [h.ev]
  {
    assert (history + [h])[..|history|] == history;
  }

  lemma HistoryGrows(m: Machine, t: nat, now: nat)
    requires HistoryOk(m) && t < |m.threads|
    requires var th := Step(m, t, now).threads[t];
             m.threads[t].lin == None && th.lin.Some? && th.past == m.threads[t].past
    ensures HistoryOk(Step(m, t, now))
  {
    var m' := Step(m, t, now);
    var h := Happening(t, m'.threads[t].lin.value);
    forall u | 0 <= u < |m.threads| ensures Own(m'.history, u) == Trace(m'.threads[u]) { OwnAppend(m.history, h, u); }
  }

  lemma HistoryStays(m: Machine, t: nat, now: nat)
    requires HistoryOk(m) && t < |m.threads|
    requires var th := Step(m, t, now).threads[t];
             !(m.threads[t].lin == None && th.lin.Some?) && Trace(th) == Trace(m.threads[t])
    ensures HistoryOk(Step(m, t, now))
  {
  }

  lemma ReplayAppend(start: State, history: seq<Happening>, h: Happening)
    requires Replay(start, Events(history)).Some?
    ensures Replay(start, Events(history + [h])) == Apply(Replay(start, Events(history)).value, h.ev)
  {
    var evs := Events(history + [h]);
    assert evs[..|evs| - 1] == Events(history);
  }

  /** A step that adds an event applies it to the abstract table, any other leaves table and trace as they are. */
  ghost predicate StepRefines(m: Machine, t: nat, now: nat)
    requires t < |m.threads|
  {
    var m', th, th' := Step(m, t, now), m.threads[t], Step(m, t, now).threads[t];
    if th.lin == None && th'.lin.Some? then th'.past == th.past && Apply(Abs(m), th'.lin.value) == Some(Abs(m'))
    else Abs(m') == Abs(m) && Trace(th') == Trace(th)
  }

  lemma OpAddsEvent(table: State, th: Thread, now: nat)
    requires ThreadInv(table.entries, th) && th.phase.OpBucket?
    ensures var th' := ThreadStep(table, th, now).1;
            th.lin == None && th'.lin == Some(Perform(table, th.phase.op).1) && th'.past == th.past
  {
  }

  lemma ValidateAddsEvent(table: State, th: Thread, now: nat)
    requires ThreadInv(table.entries, th) && (th.phase.VCheck? || th.phase.VInstall?)
    ensures var th' := ThreadStep(table, th, now).1;
            && th'.past == th.past && (th.phase.VCheck? ==> th.lin == None)
            && (th.phase.VInstall? ==> th.lin.Some? && th'.lin == th.lin)
  {
  }

  lemma EveryStepRefines(m: Machine, t: nat, now: nat)
    requires Inv(m) && t < |m.threads| && Inv(Step(m, t, now))
    ensures StepRefines(m, t, now)
  {
    assert ThreadInv(m.table.entries, m.threads[t]);
    match m.threads[t].phase {
      case OpBucket(_) =>
        OpAddsEvent(m.table, m.threads[t], now);
        OpStepRefines(m, t, now);
      case VCheck(_, _) =>
        ValidateAddsEvent(m.table, m.threads[t], now);
        CheckStepRefines(m, t, now);
      case VInstall(_, _, _) =>
        ValidateAddsEvent(m.table, m.threads[t], now);
        InstallStepRefines(m, t, now);
      case _ => SilentStepRefines(m, t, now);
    }
  }

  lemma StepStaysExplained(start: State, m: Machine, t: nat, now: nat)
    requires Inv(m) && Explained(start, m) && t < |m.threads| && Enabled(m, t)
    ensures Explained(start, Step(m, t, now))
  {
    StepKeepsInv(m, t, now);
    EveryStepRefines(m, t, now);
    RefinedStaysExplained(start, m, t, now);
  }

  lemma RefinedStaysExplained(start: State, m: Machine, t: nat, now: nat)
    requires Explained(start, m) && t < |m.threads| && StepRefines(m, t, now)
    ensures Explained(start, Step(m, t, now))
  {
    var th' := Step(m, t, now).threads[t];
    if m.threads[t].lin == None && th'.lin.Some? {
      HistoryGrows(m, t, now);
      ReplayAppend(start, m.history, Happening(t, th'.lin.value));
    } else {
      HistoryStays(m, t, now);
    }
  }

  /** A schedule: which thread moves next, and the counter value it would read. */
  datatype Move = Move(t: nat, now: nat)

  function Run(m: Machine, moves: seq<Move>): (m': Machine)
    ensures |m'.threads| == |m.threads|
  {
    if moves == [] then m
    else
      var mid, last := Run(m, moves[..|moves| - 1]), moves[|moves| - 1];
      if last.t < |mid.threads| then Step(mid, last.t, last.now) else mid
  }

  /** Every move is made by a thread that can move, and the cycle counter advances from move to move. */
  predicate Feasible(m: Machine, moves: seq<Move>) {
    moves == []
    || (var front, last := moves[..|moves| - 1], moves[|moves| - 1];
        && Feasible(m, front) && last.t < |m.threads| && Enabled(Run(m, front), last.t)
        && last.now > Run(m, front).clock)
  }

  lemma {:induction false} RunIsExplained(m: Machine, moves: seq<Move>)
    requires Initial(m) && Feasible(m, moves)
    ensures Inv(Run(m, moves)) && Explained(m.table, Run(m, moves))
  {
    InitialInv(m);
    if moves == [] {
      assert Events(m.history) == [];
    } else {
      var n := |moves| - 1;
      RunIsExplained(m, moves[..n]);
      StepKeepsInv(Run(m, moves[..n]), moves[n].t, moves[n].now);
      StepStaysExplained(m.table, Run(m, moves[..n]), moves[n].t, moves[n].now);
    }
  }

  /** Atomicity of the lock-by-lock code: whatever the interleaving, once all threads are done the table is the one that
      the atomic operations produce in the order recorded, the history holds each thread's operations in their order and
      nothing else, and every caller got the result its operation has there. */
  lemma LockStepsAreAtomic(m: Machine, moves: seq<Move>)
    requires Initial(m) && Feasible(m, moves)
    requires forall t | 0 <= t < |m.threads| :: Run(m, moves).threads[t].phase.Done?
    ensures var end := Run(m, moves);
            && HistoryOk(end)
            && Replay(m.table, Events(end.history)) == Some(end.table)
            && forall t | 0 <= t < |m.threads| ::
                 && end.threads[t].lin.Some? && Fits(end.threads[t].phase.result, end.threads[t].lin.value)
                 && (end.threads[t].work.Single? ==> Own(end.history, t) == [end.threads[t].lin.value])
  {
    RunIsExplained(m, moves);
    var end := Run(m, moves);
    forall t | 0 <= t < |m.threads|
      ensures end.threads[t].lin.Some? && Fits(end.threads[t].phase.result, end.threads[t].lin.value)
      ensures end.threads[t].work.Single? ==> Own(end.history, t) == [end.threads[t].lin.value]
    {
      assert ThreadInv(end.table.entries, end.threads[t]) && WorkInv(end.threads[t]);
    }
    assert Abs(end) == end.table;
  }

  /** The assertions of `validate` in every reachable state: lock kinds are always right, and a transaction that
      writes only keys it has read finds each of them present when it installs. */
  lemma AssertionsAreUnreachable(m: Machine, moves: seq<Move>, t: nat)
    requires Initial(m) && Feasible(m, moves) && t < |m.threads|
    ensures var th := Run(m, moves).threads[t];
            && !th.phase.AssertFailed?
            && (th.phase.VInstall? && WritesAreRead(th.phase.tx) && th.phase.i < |Ws(th.phase.tx)| ==>
                  Ws(th.phase.tx)[th.phase.i].key in Run(m, moves).table.entries)
            && (th.lin.Some? && th.lin.value.ValidateEv? && WritesAreRead(th.lin.value.tx) ==>
                th.lin.value.outcome != Panicked)
  {
    RunIsExplained(m, moves);
    AssertionsHold(Run(m, moves).table.entries, Run(m, moves).threads[t]);
  }

  lemma AssertionsHold(entries: map<Key, Entry>, th: Thread)
    requires ThreadInv(entries, th)
    ensures !th.phase.AssertFailed?
    ensures th.phase.VInstall? && WritesAreRead(th.phase.tx) && th.phase.i < |Ws(th.phase.tx)| ==>
              Ws(th.phase.tx)[th.phase.i].key in entries
    ensures th.lin.Some? && th.lin.value.ValidateEv? && WritesAreRead(th.lin.value.tx) ==>
            th.lin.value.outcome != Panicked
  {
    if th.phase.VInstall? && th.phase.i < |Ws(th.phase.tx)| {
      assert Ws(th.phase.tx)[th.phase.i..][0] == Ws(th.phase.tx)[th.phase.i];
    }
  }

  // ---------------------------------------------------------------- real time

  /** The last move of a run. */
  lemma LastMove(m: Machine, all: seq<Move>, front: seq<Move>, last: Move)
    requires all == front + [last] && Feasible(m, all)
    ensures var mid := Run(m, front);
            && Feasible(m, front) && last.t < |mid.threads| && Enabled(mid, last.t) && last.now > mid.clock
            && Run(m, all) == Step(mid, last.t, last.now)
  {
    assert all[..|all| - 1] == front;
  }

  lemma RunSplit(m: Machine, before: seq<Move>, after: seq<Move>)
    requires after != [] && Feasible(m, before + after)
    ensures var n := |after| - 1;
            var mid := Run(m, before + after[..n]);
            && Feasible(m, before + after[..n]) && after[n].t < |mid.threads| && Enabled(mid, after[n].t)
            && after[n].now > mid.clock && Run(m, before + after) == Step(mid, after[n].t, after[n].now)
  {
    var n := |after| - 1;
    assert before + after == (before + after[..n]) + [after[n]];
    LastMove(m, before + after, before + after[..n], after[n]);
  }

  /** The history only grows. */
  lemma {:induction false} HistoryOnlyGrows(m: Machine, before: seq<Move>, after: seq<Move>)
    requires Feasible(m, before + after)
    ensures Run(m, before).history <= Run(m, before + after).history
  {
    if after == [] {
      assert before + after == before;
    } else {
      RunSplit(m, before, after);
      HistoryOnlyGrows(m, before, after[..|after| - 1]);
    }
  }

  /** A thread that is done makes no more steps. */
  lemma {:induction false} DoneStays(m: Machine, before: seq<Move>, after: seq<Move>, t: nat)
    requires Feasible(m, before + after) && t < |m.threads| && Run(m, before).threads[t].phase.Done?
    ensures Run(m, before + after).threads[t] == Run(m, before).threads[t]
  {
    if after == [] {
      assert before + after == before;
    } else {
      RunSplit(m, before, after);
      DoneStays(m, before, after[..|after| - 1], t);
    }
  }

  lemma {:induction false} OwnPosition(history: seq<Happening>, t: nat, i: nat)
    requires i < |history| && history[i].t == t
    ensures |Own(history, t)| > |Own(history[..i], t)|
  {
    var n := |history| - 1;
    if i == n {
    } else {
      OwnPosition(history[..n], t, i);
      assert history[..n][..i] == history[..i];
    }
  }

  /** What a thread did until it was done is in the history by then. */
  lemma DoneIsRecorded(m: Machine, before: seq<Move>, after: seq<Move>, t: nat, i: nat)
    requires Initial(m) && Feasible(m, before) && Feasible(m, before + after) && t < |m.threads|
    requires Run(m, before).threads[t].phase.Done?
    requires i < |Run(m, before + after).history| && Run(m, before + after).history[i].t == t
    ensures i < |Run(m, before).history|
  {
    OwnOfRun(m, before, t);
    OwnOfRun(m, before + after, t);
    HistoryOnlyGrows(m, before, after);
    DoneStays(m, before, after, t);
    NothingRecordedLater(Run(m, before).history, Run(m, before + after).history, t, i);
  }

  lemma OwnOfRun(m: Machine, moves: seq<Move>, t: nat)
    requires Initial(m) && Feasible(m, moves) && t < |m.threads|
    ensures Own(Run(m, moves).history, t) == Trace(Run(m, moves).threads[t])
  {
    RunIsExplained(m, moves);
  }

  lemma NothingRecordedLater(early: seq<Happening>, late: seq<Happening>, t: nat, i: nat)
    requires early <= late && Own(late, t) == Own(early, t) && i < |late| && late[i].t == t
    ensures i < |early|
  {
    if i >= |early| {
      assert late[..|early|] == early;
      OwnPosition(late, t, i);
      OwnOnlyGrows(late, t, |early|, i);
    }
  }

  lemma UnstartedIsNotRecorded(m: Machine, moves: seq<Move>, u: nat, j: nat)
    requires Initial(m) && Feasible(m, moves) && u < |m.threads| && Unstarted(Run(m, moves).threads[u])
    requires j < |Run(m, moves).history|
    ensures Run(m, moves).history[j].t != u
  {
    OwnOfRun(m, moves, u);
    if Run(m, moves).history[j].t == u { OwnPosition(Run(m, moves).history, u, j); }
  }

  /** The history respects real time: if thread `t` was done at a moment at which thread `u` had not started, all events
      of `t` come before all events of `u`. */
  lemma RealTimeOrder(m: Machine, before: seq<Move>, after: seq<Move>, t: nat, u: nat, i: nat, j: nat)
    requires Initial(m) && Feasible(m, before) && Feasible(m, before + after) && t < |m.threads| && u < |m.threads|
    requires Run(m, before).threads[t].phase.Done? && Unstarted(Run(m, before).threads[u])
    requires var history := Run(m, before + after).history;
             i < |history| && j < |history| && history[i].t == t && history[j].t == u
    ensures i < j
  {
    DoneIsRecorded(m, before, after, t, i);
    HistoryOnlyGrows(m, before, after);
    if j < |Run(m, before).history| { UnstartedIsNotRecorded(m, before, u, j); }
  }

  lemma {:induction false} OwnOnlyGrows(history: seq<Happening>, t: nat, a: nat, b: nat)
    requires a <= b <= |history|
    ensures |Own(history[..a], t)| <= |Own(history[..b], t)|
  {
    if a < b {
      OwnOnlyGrows(history, t, a, b - 1);
      assert history[..b][..b - 1] == history[..b - 1];
    }
  }

  /** One more move of a thread that can move. */
  lemma OneMoreMove(m: Machine, moves: seq<Move>, t: nat) returns (longer: seq<Move>)
    requires Feasible(m, moves) && t < |m.threads| && Enabled(Run(m, moves), t)
    ensures Feasible(m, longer) && moves <= longer
    ensures Run(m, longer) == MovedOn(Run(m, moves), t)
  {
    longer := moves + [Move(t, Run(m, moves).clock + 1)];
    assert longer[..|longer| - 1] == moves;
  }

  ghost predicate AllQuiet(m: Machine) { forall u | 0 <= u < |m.threads| :: Quiet(m.threads[u]) }

  /** Everybody but thread `t` is quiet and as in `base`. */
  ghost predicate Alone(m: Machine, base: Machine, t: nat) {
    && |m.threads| == |base.threads| && t < |m.threads| && AllQuiet(base)
    && forall u | 0 <= u < |m.threads| && u != t :: m.threads[u] == base.threads[u]
  }

  lemma AloneStarts(m: Machine, base: Machine, t: nat, op: Op, now: nat)
    requires Alone(m, base, t) && m.threads[t] == Thread(OpStart(op), map[], None, Single, [], None)
    ensures Enabled(m, t) && Alone(Step(m, t, now), base, t) && Step(m, t, now).history == m.history
    ensures Step(m, t, now).threads[t] == Thread(OpTenant(op), map[], Some(Shared), Single, [], None)
  {
  }

  lemma AloneGetsTable(m: Machine, base: Machine, t: nat, op: Op, now: nat)
    requires Alone(m, base, t) && m.threads[t] == Thread(OpTenant(op), map[], Some(Shared), Single, [], None)
    ensures Enabled(m, t) && Alone(Step(m, t, now), base, t) && Step(m, t, now).history == m.history
    ensures Step(m, t, now).threads[t] == Thread(OpHandle(op), map[], None, Single, [], None)
  {
  }

  lemma AloneLocks(m: Machine, base: Machine, t: nat, op: Op, now: nat)
    requires Alone(m, base, t) && m.threads[t] == Thread(OpHandle(op), map[], None, Single, [], None)
    ensures Enabled(m, t) && Alone(Step(m, t, now), base, t) && Step(m, t, now).history == m.history
    ensures Step(m, t, now).threads[t]
            == Thread(OpBucket(op), map[Bucket(op.key) := ModeOf(op)], None, Single, [], None)
  {
    forall u | 0 <= u < |m.threads| ensures m.threads[u].held == map[] {}
  }

  lemma AloneFinishes(m: Machine, base: Machine, t: nat, op: Op, now: nat)
    requires Alone(m, base, t)
    requires m.threads[t] == Thread(OpBucket(op), map[Bucket(op.key) := ModeOf(op)], None, Single, [], None)
    ensures Enabled(m, t) && Alone(Step(m, t, now), base, t)
    ensures Step(m, t, now).threads[t].phase.Done? && Quiet(Step(m, t, now).threads[t])
    ensures Step(m, t, now).history == m.history + [Happening(t, Perform(m.table, op).1)]
  {
  }

  function MovedOn(m: Machine, t: nat): Machine
    requires t < |m.threads|
  {
    Step(m, t, m.clock + 1)
  }

  /** A single operation on a machine on which nothing else is going on takes four steps. */
  lemma AloneRuns(m: Machine, t: nat, op: Op)
    requires AllQuiet(m) && t < |m.threads| && m.threads[t] == Thread(OpStart(op), map[], None, Single, [], None)
    ensures var m1 := MovedOn(m, t); var m2 := MovedOn(m1, t); var m3 := MovedOn(m2, t); var m4 := MovedOn(m3, t);
            && Enabled(m, t) && Enabled(m1, t) && Enabled(m2, t) && Enabled(m3, t) && Alone(m4, m, t)
            && m4.threads[t].phase.Done? && Quiet(m4.threads[t])
            && |m4.history| == |m.history| + 1 && m4.history[|m.history|].t == t
  {
    AloneStarts(m, m, t, op, m.clock + 1);
    var m1 := MovedOn(m, t);
    AloneGetsTable(m1, m, t, op, m1.clock + 1);
    var m2 := MovedOn(m1, t);
    AloneLocks(m2, m, t, op, m2.clock + 1);
    var m3 := MovedOn(m2, t);
    AloneFinishes(m3, m, t, op, m3.clock + 1);
  }

  lemma FourMoreMoves(m: Machine, moves: seq<Move>, t: nat) returns (longer: seq<Move>)
    requires Feasible(m, moves) && t < |m.threads|
    requires var m0 := Run(m, moves); var m1 := MovedOn(m0, t); var m2 := MovedOn(m1, t); var m3 := MovedOn(m2, t);
             Enabled(m0, t) && Enabled(m1, t) && Enabled(m2, t) && Enabled(m3, t)
    ensures Feasible(m, longer) && moves <= longer
    ensures Run(m, longer) == MovedOn(MovedOn(MovedOn(MovedOn(Run(m, moves), t), t), t), t)
  {
    longer := OneMoreMove(m, moves, t);
    longer := OneMoreMove(m, longer, t);
    longer := OneMoreMove(m, longer, t);
    longer := OneMoreMove(m, longer, t);
  }

  lemma OneOperation(m: Machine, moves: seq<Move>, t: nat, op: Op) returns (longer: seq<Move>)
    requires Feasible(m, moves) && t < |m.threads| && AllQuiet(Run(m, moves))
    requires Run(m, moves).threads[t] == Thread(OpStart(op), map[], None, Single, [], None)
    ensures Feasible(m, longer) && moves <= longer
    ensures Alone(Run(m, longer), Run(m, moves), t)
    ensures Run(m, longer).threads[t].phase.Done? && Quiet(Run(m, longer).threads[t])
    ensures |Run(m, longer).history| == |Run(m, moves).history| + 1
    ensures Run(m, longer).history[|Run(m, moves).history|].t == t
  {
    AloneRuns(Run(m, moves), t, op);
    longer := FourMoreMoves(m, moves, t);
  }

  /** Such runs exist: two single operations, one after the other. */
  lemma RealTimeOrderApplies(k: Key, v: Value) returns (m: Machine, before: seq<Move>, after: seq<Move>)
    ensures Initial(m) && Feasible(m, before) && Feasible(m, before + after) && |m.threads| == 2
    ensures Run(m, before).threads[0].phase.Done? && Unstarted(Run(m, before).threads[1])
    ensures var history := Run(m, before + after).history; |history| == 2 && history[0].t == 0 && history[1].t == 1
  {
    var th := Thread(OpStart(PutOp(k, v)), map[], None, Single, [], None);
    m := Machine(State(map[], 0), 0, [th, th], []);
    assert Run(m, []) == m;
    before := OneOperation(m, [], 0, PutOp(k, v));
    assert Run(m, before).threads[1] == th;
    var all := OneOperation(m, before, 1, PutOp(k, v));
    after := all[|before|..];
    assert before + after == all;
    HistoryOnlyGrows(m, before, after);
  }

  // ---------------------------------------------------------------- deadlock freedom and termination

  /** Whenever some thread is unfinished, some thread can move. */
  lemma SomebodyCanMove(m: Machine) returns (t: nat)
    requires Inv(m) && exists u :: 0 <= u < |m.threads| && !m.threads[u].phase.Done?
    ensures t < |m.threads| && Enabled(m, t)
  {
    var u :| 0 <= u < |m.threads| && !m.threads[u].phase.Done?;
    if v :| 0 <= v < |m.threads| && (m.threads[v].phase.OpBucket? || m.threads[v].phase.OpTenant?) {
      return v;
    }
    if v :| 0 <= v < |m.threads| && m.threads[v].tenant == Some(Exclusive) {
      OnlyValidatorHolds(m, v);
      assert ThreadInv(m.table.entries, m.threads[v]);
      return v;
    }
    forall v | 0 <= v < |m.threads| ensures m.threads[v].held == map[] && m.threads[v].tenant == None {
      assert ThreadInv(m.table.entries, m.threads[v]);
    }
    assert ThreadInv(m.table.entries, m.threads[u]);
    return u;
  }

  /** Beside the validator, only a thread inside its bucket holds bucket locks. */
  lemma OnlyValidatorHolds(m: Machine, v: nat)
    requires Inv(m) && v < |m.threads| && m.threads[v].tenant == Some(Exclusive)
    requires forall u | 0 <= u < |m.threads| :: !m.threads[u].phase.OpBucket?
    ensures forall u | 0 <= u < |m.threads| && u != v :: m.threads[u].held == map[]
  {
    forall u | 0 <= u < |m.threads| && u != v ensures m.threads[u].held == map[] {
      assert ThreadInv(m.table.entries, m.threads[u]);
    }
  }

  /** An upper bound on the steps a thread still needs for its current operation ... */
  function ForNow(phase: Phase): nat {
    match phase
    case OpStart(_) => 4
    case OpTenant(_) => 3
    case OpHandle(_) => 2
    case OpBucket(_) => 1
    case VStart(tx) => 2 * |Ws(tx)| + |Rs(tx)| + N_BUCKETS + 6
    case VLock(tx, i) => 2 * |Ws(tx)| + |Rs(tx)| + N_BUCKETS + 5 - if i <= |Ws(tx)| then i else |Ws(tx)|
    case VCheck(tx, i) => |Ws(tx)| + |Rs(tx)| + N_BUCKETS + 4 - if i <= |Rs(tx)| then i else |Rs(tx)|
    case VInstall(tx, i, _) => |Ws(tx)| + N_BUCKETS + 3 - if i <= |Ws(tx)| then i else |Ws(tx)|
    case VRelease(_, b) => N_BUCKETS + 1 - if b <= N_BUCKETS then b else N_BUCKETS
    case _ => 0
  }

  /** ... and for the rest of its transaction. */
  function Later(th: Thread): nat {
    match th.work
    case Single => 0
    case Transaction(_, bound, seen, _) =>
      var left: nat := if |seen| < bound then bound - |seen| else 0;
      var whole := 5 * left + 3 * bound + N_BUCKETS + 8;
      match th.phase {
        case Idle => whole
        case OpStart(_) => whole - 5
        case OpTenant(_) => whole - 5
        case OpHandle(_) => whole - 5
        case OpBucket(_) => whole - 5
        case _ => 0
      }
  }

  function Remaining(th: Thread): nat { ForNow(th.phase) + Later(th) }

  function Total(threads: seq<Thread>): nat {
    if threads == [] then 0 else Remaining(threads[0]) + Total(threads[1..])
  }

  lemma {:induction false} TotalUpdate(threads: seq<Thread>, t: nat, th: Thread)
    requires t < |threads|
    ensures Total(threads[t := th]) == Total(threads) - Remaining(threads[t]) + Remaining(th)
  {
    if t == 0 {
      assert threads[t := th][1..] == threads[1..];
    } else {
      TotalUpdate(threads[1..], t - 1, th);
      assert threads[t := th][1..] == threads[1..][t - 1 := th];
    }
  }

  lemma SortKeepsLength(rs: seq<Record>)
    ensures |SortByKey(rs)| == |rs|
  {
    SortIsSorted(rs);
    assert |multiset(SortByKey(rs))| == |multiset(rs)|;
  }

  lemma DecisionUsesBudget(th: Thread)
    requires th.work.Transaction? && WorkInv(th) && th.phase.Idle?
    ensures Remaining(Decide(th)) < Remaining(th)
  {
    match th.work.body(th.work.seen) {
      case ReadKey(k) =>
      case Finish(writes) =>
        SortKeepsLength(writes);
        SortKeepsLength(th.work.got);
    }
  }

  lemma OpUsesBudget(table: State, th: Thread, now: nat)
    requires ThreadInv(table.entries, th) && WorkInv(th)
    requires th.phase.OpStart? || th.phase.OpTenant? || th.phase.OpHandle? || th.phase.OpBucket?
    ensures Remaining(ThreadStep(table, th, now).1) < Remaining(th)
  {
  }

  predicate Validating(phase: Phase) {
    phase.VStart? || phase.VLock? || phase.VCheck? || phase.VInstall? || phase.VRelease?
  }

  lemma LockingUsesBudget(table: State, th: Thread, now: nat)
    requires ThreadInv(table.entries, th) && (th.phase.VStart? || th.phase.VLock? || th.phase.VCheck?)
    ensures var th' := ThreadStep(table, th, now).1;
            ForNow(th'.phase) < ForNow(th.phase) && th'.work == th.work && Validating(th'.phase)
  {
  }

  lemma InstallingUsesBudget(table: State, th: Thread, now: nat)
    requires ThreadInv(table.entries, th) && (th.phase.VInstall? || th.phase.VRelease?)
    ensures var th' := ThreadStep(table, th, now).1;
            ForNow(th'.phase) < ForNow(th.phase) && th'.work == th.work && (Validating(th'.phase) || th'.phase.Done?)
  {
  }

  lemma ValidatingUsesBudget(table: State, th: Thread, now: nat)
    requires ThreadInv(table.entries, th) && Validating(th.phase)
    ensures Remaining(ThreadStep(table, th, now).1) < Remaining(th)
  {
    if th.phase.VInstall? || th.phase.VRelease? {
      InstallingUsesBudget(table, th, now);
    } else {
      LockingUsesBudget(table, th, now);
    }
    NothingLater(th);
    NothingLater(ThreadStep(table, th, now).1);
  }

  lemma NothingLater(th: Thread)
    requires Validating(th.phase) || th.phase.Done?
    ensures Later(th) == 0
  {
  }

  lemma ThreadUsesBudget(table: State, th: Thread, now: nat)
    requires ThreadInv(table.entries, th) && WorkInv(th) && !th.phase.Done?
    ensures Remaining(ThreadStep(table, th, now).1) < Remaining(th)
  {
    match th.phase {
      case Idle => DecisionUsesBudget(th);
      case OpStart(_) => OpUsesBudget(table, th, now);
      case OpTenant(_) => OpUsesBudget(table, th, now);
      case OpHandle(_) => OpUsesBudget(table, th, now);
      case OpBucket(_) => OpUsesBudget(table, th, now);
      case _ => ValidatingUsesBudget(table, th, now);
    }
  }

  lemma StepUsesBudget(m: Machine, t: nat, now: nat)
    requires Inv(m) && t < |m.threads| && Enabled(m, t)
    ensures Total(Step(m, t, now).threads) < Total(m.threads)
  {
    assert ThreadInv(m.table.entries, m.threads[t]) && WorkInv(m.threads[t]);
    ThreadUsesBudget(m.table, m.threads[t], now);
    TotalUpdate(m.threads, t, ThreadStep(m.table, m.threads[t], now).1);
  }

  /** No run is longer than the budget of its start, and a run that cannot be continued has finished every thread:
      there is no deadlock. */
  lemma {:induction false} EveryRunFinishes(m: Machine, moves: seq<Move>)
    requires Initial(m) && Feasible(m, moves)
    ensures |moves| + Total(Run(m, moves).threads) <= Total(m.threads)
    ensures (forall t | 0 <= t < |m.threads| :: !Enabled(Run(m, moves), t)) ==>
              forall t | 0 <= t < |m.threads| :: Run(m, moves).threads[t].phase.Done?
  {
    RunIsExplained(m, moves);
    if moves != [] {
      var n := |moves| - 1;
      EveryRunFinishes(m, moves[..n]);
      RunIsExplained(m, moves[..n]);
      StepUsesBudget(Run(m, moves[..n]), moves[n].t, moves[n].now);
    }
    if exists t :: 0 <= t < |m.threads| && !Run(m, moves).threads[t].phase.Done? {
      var t := SomebodyCanMove(Run(m, moves));
    }
  }
}
