/** What the events of a thread have to do with its program: a native operation or a commit request takes effect once
    and as itself, and a transaction validates what its program has asked for, found and written (db/src/context.rs,
    db/src/master.rs, db/src/table.rs). */
module Threads {
  import opened Bytes
  import opened Store
  import opened LockSteps

  /** What the gets in a trace have found. */
  function Found(trace: seq<Event>): seq<Option<Entry>> {
    if trace == [] then []
    else Found(trace[..|trace| - 1]) + match trace[|trace| - 1] case GetEv(_, result) => [result] case _ => []
  }

  /** The read set that belongs to a trace: one record for each get that has found its key. */
  function ReadsIn(trace: seq<Event>): seq<Record> {
    if trace == [] then []
    else
      ReadsIn(trace[..|trace| - 1]) +
      match trace[|trace| - 1]
      case GetEv(k, Some(e)) => [Record(Read, e.version, k, e.value)]
      case _ => []
  }

  /** Of a trace of gets it is one result for each, in their order. */
  lemma {:induction false} FoundInOrder(trace: seq<Event>)
    requires forall i | 0 <= i < |trace| :: trace[i].GetEv?
    ensures |Found(trace)| == |trace| && forall i | 0 <= i < |trace| :: Found(trace)[i] == trace[i].result
  {
    if trace != [] { FoundInOrder(trace[..|trace| - 1]); }
  }

  /** An event is what the program does after the events before it. */
  ghost predicate Obeys(body: Body, before: seq<Event>, ev: Event) {
    match body(Found(before))
    case ReadKey(k) => ev.GetEv? && ev.key == k
    case Finish(writes) => ev.ValidateEv? && ev.tx == Tx(ReadsIn(before), writes)
  }

  /** A trace of a transaction: gets as its program asks for them, and at the end at most one validation of what they
      have found and the program has written. */
  ghost predicate Follows(body: Body, trace: seq<Event>) {
    forall i | 0 <= i < |trace| :: Obeys(body, trace[..i], trace[i]) && (i < |trace| - 1 ==> trace[i].GetEv?)
  }

  /** An event is the operation, or the commit request, that a thread was started with. */
  predicate Serves(phase: Phase, ev: Event) {
    match phase
    case OpStart(GetOp(k)) => ev.GetEv? && ev.key == k
    case OpStart(PutOp(k, v)) => ev == PutEv(k, v)
    case OpStart(DeleteOp(k)) => ev == DeleteEv(k)
    case VStart(tx) => ev.ValidateEv? && ev.tx == tx
    case _ => false
  }

  // ---------------------------------------------------------------- single operations

  /** A thread with a single operation is on its way with it, or has done it. */
  ghost predicate SingleInv(start: Phase, th: Thread) {
    && th.work.Single? && th.past == []
    && (th.lin.Some? ==> Serves(start, th.lin.value))
    && match th.phase
       case OpStart(op) => start == OpStart(op)
       case OpTenant(op) => start == OpStart(op)
       case OpHandle(op) => start == OpStart(op)
       case OpBucket(op) => start == OpStart(op)
       case VStart(tx) => start == VStart(tx)
       case VLock(tx, _) => start == VStart(tx)
       case VCheck(tx, _) => start == VStart(tx)
       case Idle => false
       case _ => true
  }

  lemma SingleStays(start: Phase, table: State, th: Thread, now: nat)
    requires SingleInv(start, th)
    ensures SingleInv(start, ThreadStep(table, th, now).1)
  {
    match th.phase {
      case VCheck(_, _) =>
      case VInstall(_, _, _) =>
      case _ =>
    }
  }

  // ---------------------------------------------------------------- transactions

  ghost predicate OnlyGets(trace: seq<Event>) { forall i | 0 <= i < |trace| :: trace[i].GetEv? }

  /** What a transaction knows is what its trace says. */
  ghost predicate Knows(body: Body, th: Thread) {
    && th.work.Transaction? && th.work.body == body
    && th.work.seen == Found(Trace(th)) && th.work.got == ReadsIn(Trace(th)) && Follows(body, Trace(th))
  }

  /** What it is about to do is what its program says. */
  ghost predicate OnCourse(body: Body, th: Thread) {
    match th.phase
    case Idle => OnlyGets(Trace(th))
    case OpStart(op) => Asks(body, th, op)
    case OpTenant(op) => Asks(body, th, op)
    case OpHandle(op) => Asks(body, th, op)
    case OpBucket(op) => Asks(body, th, op)
    case VStart(tx) => Finishes(body, th, tx)
    case VLock(tx, _) => Finishes(body, th, tx)
    case VCheck(tx, _) => Finishes(body, th, tx)
    case AssertFailed => true
    case _ => th.lin.Some?
  }

  ghost predicate ProgramInv(body: Body, th: Thread) { Knows(body, th) && OnCourse(body, th) }

  ghost predicate Asks(body: Body, th: Thread, op: Op) {
    th.lin == None && OnlyGets(th.past) && op.GetOp? && body(Found(th.past)) == ReadKey(op.key)
  }

  ghost predicate Finishes(body: Body, th: Thread, tx: Tx) {
    th.lin == None && OnlyGets(th.past) && tx.readSet == ReadsIn(th.past) && body(Found(th.past)) == Finish(tx.writeSet)
  }

  lemma TraceAppend(body: Body, past: seq<Event>, ev: Event)
    requires Follows(body, past) && OnlyGets(past) && Obeys(body, past, ev)
    ensures Follows(body, past + [ev])
    ensures Found(past + [ev]) == Found(past) + match ev case GetEv(_, result) => [result] case _ => []
    ensures ReadsIn(past + [ev]) == ReadsIn(past) +
              match ev case GetEv(k, Some(e)) => [Record(Read, e.version, k, e.value)] case _ => []
  {
    var longer := past + [ev];
    assert longer[..|past|] == past;
    forall i | 0 <= i < |longer|
      ensures Obeys(body, longer[..i], longer[i]) && (i < |longer| - 1 ==> longer[i].GetEv?)
    {
      if i < |past| { assert longer[..i] == past[..i]; }
    }
  }

  lemma DecideStays(body: Body, th: Thread)
    requires ProgramInv(body, th) && th.phase.Idle?
    ensures ProgramInv(body, Decide(th))
  {
    assert Trace(Decide(th)) == Trace(th) && Decide(th).past == Trace(th);
  }

  lemma GetStays(body: Body, table: State, th: Thread, now: nat)
    requires ProgramInv(body, th) && th.phase.OpBucket?
    ensures ProgramInv(body, ThreadStep(table, th, now).1)
  {
    var ev := GetEv(th.phase.op.key, Lookup(table, th.phase.op.key));
    assert Trace(th) == th.past;
    TraceAppend(body, th.past, ev);
    assert Trace(ThreadStep(table, th, now).1) == th.past + [ev];
  }

  lemma KnowsStill(body: Body, th: Thread, th': Thread)
    requires Knows(body, th) && th'.work == th.work && th'.past == th.past && th'.lin == th.lin
    ensures Knows(body, th')
  {
    assert Trace(th') == Trace(th);
  }

  /** A step that is not the last check, a `get` or a decision. */
  lemma QuietStep(table: State, th: Thread, now: nat)
    requires !th.phase.Idle? && !th.phase.OpBucket? && !th.phase.VCheck?
    ensures var th' := ThreadStep(table, th, now).1; th'.work == th.work && th'.past == th.past && th'.lin == th.lin
  {
  }

  lemma CheckStep(table: State, th: Thread, now: nat)
    requires th.phase.VCheck? && th.lin == None
    ensures var th' := ThreadStep(table, th, now).1;
            && th'.work == th.work && th'.past == th.past
            && (th'.lin == None ==> th'.phase.VCheck? && th'.phase.tx == th.phase.tx)
            && (th'.lin.Some? ==> th'.lin.value.ValidateEv? && th'.lin.value.tx == th.phase.tx)
            && (th'.lin.Some? ==> th'.phase.VInstall? || th'.phase.VRelease?)
  {
  }

  lemma CheckStays(body: Body, table: State, th: Thread, now: nat)
    requires ProgramInv(body, th) && th.phase.VCheck?
    ensures ProgramInv(body, ThreadStep(table, th, now).1)
  {
    var th' := ThreadStep(table, th, now).1;
    CheckStep(table, th, now);
    if th'.lin.Some? { Validated(body, th, th'); } else { KnowsStill(body, th, th'); }
  }

  lemma Validated(body: Body, th: Thread, th': Thread)
    requires Knows(body, th) && th.phase.VCheck? && Finishes(body, th, th.phase.tx)
    requires th'.work == th.work && th'.past == th.past && th'.lin.Some? && th'.lin.value.ValidateEv?
    requires th'.lin.value.tx == th.phase.tx
    ensures Knows(body, th')
  {
    assert Trace(th) == th.past && Trace(th') == th.past + [th'.lin.value];
    TraceAppend(body, th.past, th'.lin.value);
  }

  lemma WaitStays(body: Body, table: State, th: Thread, now: nat)
    requires ProgramInv(body, th) && (th.phase.OpStart? || th.phase.OpTenant? || th.phase.OpHandle?)
    ensures ProgramInv(body, ThreadStep(table, th, now).1)
  {
    QuietStep(table, th, now);
    KnowsStill(body, th, ThreadStep(table, th, now).1);
  }

  lemma LockingStep(table: State, th: Thread, now: nat)
    requires th.phase.VStart? || th.phase.VLock?
    ensures var phase := ThreadStep(table, th, now).1.phase;
            phase.AssertFailed? || ((phase.VLock? || phase.VCheck?) && phase.tx == th.phase.tx)
  {
  }

  lemma LockStays(body: Body, table: State, th: Thread, now: nat)
    requires ProgramInv(body, th) && (th.phase.VStart? || th.phase.VLock?)
    ensures ProgramInv(body, ThreadStep(table, th, now).1)
  {
    QuietStep(table, th, now);
    LockingStep(table, th, now);
    KnowsStill(body, th, ThreadStep(table, th, now).1);
    assert Finishes(body, th, th.phase.tx);
  }

  lemma EndStep(table: State, th: Thread, now: nat)
    requires th.phase.VInstall? || th.phase.VRelease?
    ensures var phase := ThreadStep(table, th, now).1.phase;
            phase.VInstall? || phase.VRelease? || phase.AssertFailed? || phase.Done?
  {
  }

  lemma EndStays(body: Body, table: State, th: Thread, now: nat)
    requires ProgramInv(body, th) && (th.phase.VInstall? || th.phase.VRelease?)
    ensures ProgramInv(body, ThreadStep(table, th, now).1)
  {
    QuietStep(table, th, now);
    EndStep(table, th, now);
    KnowsStill(body, th, ThreadStep(table, th, now).1);
  }

  lemma StoppedStays(body: Body, table: State, th: Thread, now: nat)
    requires ProgramInv(body, th) && (th.phase.Done? || th.phase.AssertFailed?)
    ensures ProgramInv(body, ThreadStep(table, th, now).1)
  {
    assert ThreadStep(table, th, now).1 == th;
  }

  lemma ProgramStays(body: Body, table: State, th: Thread, now: nat)
    requires ProgramInv(body, th)
    ensures ProgramInv(body, ThreadStep(table, th, now).1)
  {
    match th.phase {
      case Idle => DecideStays(body, th);
      case OpBucket(_) => GetStays(body, table, th, now);
      case VCheck(_, _) => CheckStays(body, table, th, now);
      case OpStart(_) => WaitStays(body, table, th, now);
      case OpTenant(_) => WaitStays(body, table, th, now);
      case OpHandle(_) => WaitStays(body, table, th, now);
      case VStart(_) => LockStays(body, table, th, now);
      case VLock(_, _) => LockStays(body, table, th, now);
      case VInstall(_, _, _) => EndStays(body, table, th, now);
      case VRelease(_, _) => EndStays(body, table, th, now);
      case _ => StoppedStays(body, table, th, now);
    }
  }

  // ---------------------------------------------------------------- runs

  ghost predicate IsTrue(start: Thread, th: Thread) {
    match start.work
    case Single => SingleInv(start.phase, th)
    case Transaction(body, _, _, _) => ProgramInv(body, th)
  }

  lemma StartsTrue(th: Thread)
    requires Unstarted(th)
    ensures IsTrue(th, th)
  {
    assert Trace(th) == [];
  }

  lemma StepStaysTrue(start: Thread, table: State, th: Thread, now: nat)
    requires IsTrue(start, th)
    ensures IsTrue(start, ThreadStep(table, th, now).1)
  {
    match start.work {
      case Single => SingleStays(start.phase, table, th, now);
      case Transaction(body, _, _, _) => ProgramStays(body, table, th, now);
    }
  }

  lemma {:induction false} RunStaysTrue(m: Machine, moves: seq<Move>, t: nat)
    requires Initial(m) && t < |m.threads|
    ensures IsTrue(m.threads[t], Run(m, moves).threads[t])
  {
    if moves == [] {
      StartsTrue(m.threads[t]);
    } else {
      var mid, last := Run(m, moves[..|moves| - 1]), moves[|moves| - 1];
      RunStaysTrue(m, moves[..|moves| - 1], t);
      if last.t == t { StepStaysTrue(m.threads[t], mid.table, mid.threads[t], last.now); }
    }
  }

  /** In every run a thread with one operation takes effect at most once, and as that operation; if it is done, it
      has. */
  lemma OperationsTakeEffect(m: Machine, moves: seq<Move>, t: nat)
    requires Initial(m) && Feasible(m, moves) && t < |m.threads| && m.threads[t].work.Single?
    ensures var own := Own(Run(m, moves).history, t);
            && |own| <= 1 && (own != [] ==> Serves(m.threads[t].phase, own[0]))
            && (Run(m, moves).threads[t].phase.Done? ==> |own| == 1)
  {
    RunStaysTrue(m, moves, t);
    OwnOfRun(m, moves, t);
    DoneHasEvent(m, moves, t);
  }

  lemma DoneHasEvent(m: Machine, moves: seq<Move>, t: nat)
    requires Initial(m) && Feasible(m, moves) && t < |m.threads|
    ensures Run(m, moves).threads[t].phase.Done? ==> Run(m, moves).threads[t].lin.Some?
  {
    RunIsExplained(m, moves);
    assert ThreadInv(Run(m, moves).table.entries, Run(m, moves).threads[t]);
  }

  /** In every run a transaction gets the keys that its program asks for after what it has found so far, and validates
      every read that has found its key, with version and value, and exactly the writes that its program ends with; if
      it is done, it has validated. */
  lemma TransactionsFollow(m: Machine, moves: seq<Move>, t: nat)
    requires Initial(m) && Feasible(m, moves) && t < |m.threads| && m.threads[t].work.Transaction?
    ensures var own := Own(Run(m, moves).history, t);
            && Follows(m.threads[t].work.body, own)
            && (Run(m, moves).threads[t].phase.Done? ==> own != [] && own[|own| - 1].ValidateEv?)
  {
    RunStaysTrue(m, moves, t);
    OwnOfRun(m, moves, t);
    DoneHasValidated(m, moves, t);
  }

  lemma DoneHasValidated(m: Machine, moves: seq<Move>, t: nat)
    requires Initial(m) && Feasible(m, moves) && t < |m.threads| && m.threads[t].work.Transaction?
    ensures var th := Run(m, moves).threads[t];
            th.phase.Done? ==> th.lin.Some? && th.lin.value.ValidateEv?
  {
    RunIsExplained(m, moves);
    RunStaysTrue(m, moves, t);
    DoneIsValidated(m.threads[t], Run(m, moves).threads[t]);
  }

  lemma DoneIsValidated(start: Thread, th: Thread)
    requires start.work.Transaction? && IsTrue(start, th) && WorkInv(th)
    ensures th.phase.Done? ==> th.lin.Some? && th.lin.value.ValidateEv?
  {
  }
}
