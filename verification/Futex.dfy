/** The futex mutex shared by forked processes (misc/benchmarks/context_switch/Mutex.h), one atomic operation per
    step. */
module Futex {
  datatype Pc =
    | Idle
    | Check1                    // first compare-and-swap, 0 to 1
    | Check2(expected: nat)     // second compare-and-swap, `expected` to 2, unless `expected` is 2
    | Wait                      // about to call futex_wait
    | Sleeping
    | Check4                    // last compare-and-swap, 0 to 2
    | Holding
    | Waking                    // has stored 0, about to call futex_wake

  /** One step of `lock`: the mutex and the program counter afterwards. */
  function LockStep(value: nat, pc: Pc): (nat, Pc) {
    match pc
    case Check1 => if value == 0 then (1, Holding) else (value, Check2(value))
    case Check2(expected) =>
      if expected == 2 then (value, Wait)
      else if value == expected then (2, Check4)
      else (value, if value != 0 then Wait else Check4)
    case Wait => (value, if value == 2 then Sleeping else Check4)
    case Check4 => if value == 0 then (2, Holding) else (value, Check2(value))
    case _ => (value, pc)
  }

  /** Awake in the slow path of `lock`. */
  predicate Contending(pc: Pc) { pc.Check2? || pc == Wait || pc == Check4 }

  datatype Mutex = Mutex(value: nat, pcs: seq<Pc>)

  datatype Step =
    | Call(p: nat)              // enter `lock`
    | Lock(p: nat)              // the next atomic operation of `lock`
    | Spurious(p: nat)          // futex_wait returns for no reason
    | Store(p: nat)             // first half of `unlock`
    | Wake(p: nat, q: nat)      // second half: wakes q, if anybody sleeps

  predicate Enabled(m: Mutex, step: Step) {
    step.p < |m.pcs| &&
    match step
    case Call(p) => m.pcs[p] == Idle
    case Lock(p) => m.pcs[p] == Check1 || Contending(m.pcs[p])
    case Spurious(p) => m.pcs[p] == Sleeping
    case Store(p) => m.pcs[p] == Holding
    case Wake(p, q) => m.pcs[p] == Waking && q < |m.pcs| && (Sleeping in m.pcs ==> m.pcs[q] == Sleeping)
  }

  function Next(m: Mutex, step: Step): Mutex
    requires Enabled(m, step)
  {
    match step
    case Call(p) => m.(pcs := m.pcs[p := Check1])
    case Lock(p) =>
      var (value, pc) := LockStep(m.value, m.pcs[p]);
      Mutex(value, m.pcs[p := pc])
    case Spurious(p) => m.(pcs := m.pcs[p := Check4])
    case Store(p) => Mutex(0, m.pcs[p := Waking])
    case Wake(p, q) => m.(pcs := if m.pcs[q] == Sleeping then m.pcs[q := Check4][p := Idle] else m.pcs[p := Idle])
  }

  // ---------------------------------------------------------------- invariant

  /** The mutex is taken exactly when one process, and only one, holds it. */
  ghost predicate Exclusive(m: Mutex) {
    && m.value <= 2
    && (forall p, q | 0 <= p < |m.pcs| && 0 <= q < |m.pcs| && m.pcs[p] == Holding && m.pcs[q] == Holding :: p == q)
    && (m.value != 0 <==> exists p :: 0 <= p < |m.pcs| && m.pcs[p] == Holding)
  }

  ghost predicate ExpectedOk(pc: Pc) { pc.Check2? ==> pc.expected == 1 || pc.expected == 2 }

  /** Somebody will see to it that sleepers are looked after: the value makes the holder's successor notice them, or a
      wake is under way, or an awake contender will set the value to 2 before it stops contending. */
  ghost predicate SleepersHaveHelp(m: Mutex) {
    Sleeping in m.pcs ==> m.value == 2 || Helped(m)
  }

  ghost predicate Helped(m: Mutex) { exists p :: 0 <= p < |m.pcs| && (m.pcs[p] == Waking || Contending(m.pcs[p])) }

  ghost predicate Inv(m: Mutex) {
    && Exclusive(m) && SleepersHaveHelp(m)
    && forall p | 0 <= p < |m.pcs| :: ExpectedOk(m.pcs[p])
  }

  lemma InitInv(m: Mutex)
    requires Fresh(m)
    ensures Inv(m)
  {
  }

  /** A step that leaves the holders and the freedom of the mutex alone. */
  lemma SameHolders(m: Mutex, m': Mutex)
    requires Exclusive(m) && |m'.pcs| == |m.pcs| && m'.value <= 2 && (m'.value == 0 <==> m.value == 0)
    requires forall p | 0 <= p < |m.pcs| :: m'.pcs[p] == Holding <==> m.pcs[p] == Holding
    ensures Exclusive(m')
  {
    if m.value != 0 {
      var h :| 0 <= h < |m.pcs| && m.pcs[h] == Holding;
      assert m'.pcs[h] == Holding;
    }
  }

  lemma NextKeepsExclusive(m: Mutex, step: Step)
    requires Inv(m) && Enabled(m, step)
    ensures Exclusive(Next(m, step))
  {
    var m', t := Next(m, step), step.p;
    assert ExpectedOk(m.pcs[t]);
    match step {
      case Lock(_) =>
        if m'.pcs[t] == Holding {
          assert m.value == 0;
          assert forall p | 0 <= p < |m.pcs| && p != t :: m'.pcs[p] != Holding;
        } else {
          SameHolders(m, m');
        }
      case Store(_) => assert forall p | 0 <= p < |m.pcs| :: m'.pcs[p] != Holding;
      case _ => SameHolders(m, m');
    }
  }

  lemma NextKeepsExpected(m: Mutex, step: Step)
    requires Inv(m) && Enabled(m, step)
    ensures forall p | 0 <= p < |m.pcs| :: ExpectedOk(Next(m, step).pcs[p])
  {
    assert ExpectedOk(m.pcs[step.p]);
  }

  lemma NextKeepsHelp(m: Mutex, step: Step)
    requires Inv(m) && Enabled(m, step)
    ensures SleepersHaveHelp(Next(m, step))
  {
    var m', p := Next(m, step), step.p;
    if Sleeping in m'.pcs {
      var s :| 0 <= s < |m'.pcs| && m'.pcs[s] == Sleeping;
      match step {
        case Store(_) => assert m'.pcs[p] == Waking;
        case Spurious(_) => assert Contending(m'.pcs[p]);
        case Wake(_, q) =>
          assert m.pcs[s] == Sleeping;
          assert Sleeping in m.pcs && m.pcs[q] == Sleeping && Contending(m'.pcs[q]);
        case Lock(_) =>
          if m.pcs[p] != Check1 && m'.value != 2 { assert Contending(m'.pcs[p]); }
          else if m'.value != 2 {
            assert s != p && m.pcs[s] == Sleeping;
            assert Helped(m);
            var h :| 0 <= h < |m.pcs| && (m.pcs[h] == Waking || Contending(m.pcs[h]));
            assert m'.pcs[h] == m.pcs[h];
          }
        case Call(_) =>
          assert s != p && m.pcs[s] == Sleeping;
          if m.value != 2 {
            var h :| 0 <= h < |m.pcs| && (m.pcs[h] == Waking || Contending(m.pcs[h]));
            assert m'.pcs[h] == m.pcs[h];
          }
      }
    }
  }

  /** Any interleaving; a step that is not possible does nothing. */
  function Run(m: Mutex, steps: seq<Step>): Mutex {
    if steps == [] then m
    else
      var mid := Run(m, steps[..|steps| - 1]);
      if Enabled(mid, steps[|steps| - 1]) then Next(mid, steps[|steps| - 1]) else mid
  }

  lemma {:induction false} RunKeepsInv(m: Mutex, steps: seq<Step>)
    requires Inv(m)
    ensures Inv(Run(m, steps))
  {
    if steps != [] {
      RunKeepsInv(m, steps[..|steps| - 1]);
      var mid, last := Run(m, steps[..|steps| - 1]), steps[|steps| - 1];
      if Enabled(mid, last) {
        NextKeepsExclusive(mid, last);
        NextKeepsExpected(mid, last);
        NextKeepsHelp(mid, last);
      }
    }
  }

  // ---------------------------------------------------------------- main results

  ghost predicate Fresh(m: Mutex) { m.value == 0 && forall p | 0 <= p < |m.pcs| :: m.pcs[p] == Idle }

  /** For any number of processes and any interleaving, at most one holds the mutex. */
  lemma MutualExclusion(m: Mutex, steps: seq<Step>, p: nat, q: nat)
    requires Fresh(m) && Owns(Run(m, steps), p) && Owns(Run(m, steps), q)
    ensures p == q
  {
    InitInv(m);
    RunKeepsInv(m, steps);
  }

  /** No wake-up is lost: whenever somebody sleeps, the value is 2 and a holder exists whose unlock will wake, or a wake
      is pending, or an awake contender is in the slow path. So a system in which everybody is idle or asleep has no
      sleepers. */
  lemma NoLostWakeUp(m: Mutex, steps: seq<Step>)
    requires Fresh(m) && Sleeping in Run(m, steps).pcs
    ensures var end := Run(m, steps); Helped(end) || (end.value == 2 && exists p :: Owns(end, p))
  {
    InitInv(m);
    RunKeepsInv(m, steps);
    var end := Run(m, steps);
    if end.value == 2 {
      var p :| 0 <= p < |end.pcs| && end.pcs[p] == Holding;
      assert Owns(end, p);
    }
  }

  /** Who owns the lock, for the specification of a lock. */
  ghost predicate Owns(m: Mutex, p: nat) { p < |m.pcs| && m.pcs[p] == Holding }

  // ---------------------------------------------------------------- progress

  /** Process `p` makes `n` steps of `lock`, and nobody else moves. */
  function OnItsOwn(p: nat, n: nat): seq<Step> { seq(n, _ => Lock(p)) }

  lemma OneOnItsOwn(m: Mutex, p: nat, n: nat)
    requires Enabled(m, Lock(p))
    ensures Run(m, OnItsOwn(p, n + 1)) == Run(Next(m, Lock(p)), OnItsOwn(p, n))
    decreases n
  {
    var steps := OnItsOwn(p, n + 1);
    assert steps[..n] == OnItsOwn(p, n);
    if n > 0 {
      OneOnItsOwn(m, p, n - 1);
      assert OnItsOwn(p, n)[..n - 1] == OnItsOwn(p, n - 1);
    } else {
      assert Run(m, []) == m;
    }
  }

  /** A process that is in `lock` and not asleep gets a free mutex by at most three of its own steps. */
  lemma FreeMutexIsTaken(m: Mutex, p: nat) returns (n: nat)
    requires Inv(m) && m.value == 0 && p < |m.pcs|
    requires m.pcs[p] != Idle && m.pcs[p] != Sleeping && m.pcs[p] != Holding && m.pcs[p] != Waking
    ensures n <= 3 && Owns(Run(m, OnItsOwn(p, n)), p)
  {
    assert ExpectedOk(m.pcs[p]);
    assert Run(m, OnItsOwn(p, 0)) == m;
    var m1 := Next(m, Lock(p));
    assert Run(m1, OnItsOwn(p, 0)) == m1;
    OneOnItsOwn(m, p, 0);
    if m1.pcs[p] == Holding { return 1; }
    var m2 := Next(m1, Lock(p));
    assert Run(m2, OnItsOwn(p, 0)) == m2;
    OneOnItsOwn(m1, p, 0);
    OneOnItsOwn(m, p, 1);
    if m2.pcs[p] == Holding { return 2; }
    OneOnItsOwn(m2, p, 0);
    OneOnItsOwn(m1, p, 1);
    OneOnItsOwn(m, p, 2);
    var m3 := Next(m2, Lock(p));
    assert Run(m3, OnItsOwn(p, 0)) == m3;
    return 3;
  }

  /** In every reachable state in which the mutex is free, a process that is in `lock` and not asleep holds it after at
      most three of its own steps. */
  lemma ContenderGetsFreeMutex(m: Mutex, steps: seq<Step>, p: nat) returns (n: nat)
    requires Fresh(m)
    requires var end := Run(m, steps);
             && end.value == 0 && p < |end.pcs|
             && end.pcs[p] != Idle && end.pcs[p] != Sleeping && end.pcs[p] != Holding && end.pcs[p] != Waking
    ensures n <= 3 && Owns(Run(Run(m, steps), OnItsOwn(p, n)), p)
  {
    InitInv(m);
    RunKeepsInv(m, steps);
    n := FreeMutexIsTaken(Run(m, steps), p);
  }

  /** So does a sleeper that is woken, by a wake or for no reason. */
  lemma WokenGetsFreeMutex(m: Mutex, steps: seq<Step>, wake: Step, q: nat) returns (n: nat)
    requires Fresh(m)
    requires var end := Run(m, steps);
             && end.value == 0 && q < |end.pcs| && end.pcs[q] == Sleeping && Enabled(end, wake)
             && (wake == Spurious(q) || (wake.Wake? && wake.q == q))
    ensures n <= 3 && Owns(Run(Run(m, steps + [wake]), OnItsOwn(q, n)), q)
  {
    var end := Run(m, steps);
    assert (steps + [wake])[..|steps|] == steps;
    assert Run(m, steps + [wake]) == Next(end, wake);
    n := ContenderGetsFreeMutex(m, steps + [wake], q);
  }

  /** The other half: a holder can always give the mutex back, and then nobody owns it. */
  lemma HolderCanUnlock(m: Mutex, steps: seq<Step>, p: nat)
    requires Fresh(m) && Owns(Run(m, steps), p)
    ensures Enabled(Run(m, steps), Store(p))
    ensures var m' := Next(Run(m, steps), Store(p)); m'.value == 0 && forall q :: !Owns(m', q)
  {
    InitInv(m);
    RunKeepsInv(m, steps);
  }

  // ---------------------------------------------------------------- refinement of an atomic lock

  datatype LockEvent = Acquire(p: nat) | Release(p: nat)
  datatype Owner = Free | Held(p: nat) | Broken

  /** A lock that is taken and given back in one step each. */
  function Atomic(owner: Owner, event: LockEvent): Owner {
    match event
    case Acquire(p) => if owner == Free then Held(p) else Broken
    case Release(p) => if owner == Held(p) then Free else Broken
  }

  function Replay(events: seq<LockEvent>): Owner {
    if events == [] then Free else Atomic(Replay(events[..|events| - 1]), events[|events| - 1])
  }

  /** `lock` returns with a successful compare-and-swap from 0, `unlock` takes effect with its store. */
  function Emitted(m: Mutex, step: Step): seq<LockEvent> {
    if !Enabled(m, step) then []
    else if step.Lock? && Next(m, step).pcs[step.p] == Holding then [Acquire(step.p)]
    else if step.Store? then [Release(step.p)]
    else []
  }

  function LockEvents(m: Mutex, steps: seq<Step>): seq<LockEvent> {
    if steps == [] then []
    else
      var front := steps[..|steps| - 1];
      LockEvents(m, front) + Emitted(Run(m, front), steps[|steps| - 1])
  }

  ghost predicate Agrees(owner: Owner, m: Mutex) {
    owner != Broken && forall p :: Owns(m, p) <==> owner == Held(p)
  }

  lemma StepRefines(owner: Owner, m: Mutex, step: Step)
    requires Inv(m) && Enabled(m, step) && Agrees(owner, m)
    ensures Agrees(if Emitted(m, step) == [] then owner else Atomic(owner, Emitted(m, step)[0]), Next(m, step))
  {
    var m', t := Next(m, step), step.p;
    if Emitted(m, step) == [] {
      forall p ensures Owns(m', p) <==> Owns(m, p) {}
    } else if step.Lock? {
      assert m.value == 0;
      forall p ensures !Owns(m, p) {}
      forall p ensures Owns(m', p) <==> p == t {}
      forall p ensures owner != Held(p) { assert !Owns(m, p); }
    } else {
      assert Owns(m, t);
      forall p ensures !Owns(m', p) {}
    }
  }

  lemma ReplayAppend(events: seq<LockEvent>, more: seq<LockEvent>)
    requires |more| <= 1
    ensures Replay(events + more) == if more == [] then Replay(events) else Atomic(Replay(events), more[0])
  {
    if more == [] {
      assert events + more == events;
    } else {
      assert (events + more)[..|events|] == events;
    }
  }

  /** Over every run the mutex is an atomic lock: the sequence of its acquisitions and releases is one that an atomic
      lock allows, each release by the process that acquired it, and the holder is the owner of that lock. */
  lemma {:induction false} RefinesAtomicLock(m: Mutex, steps: seq<Step>)
    requires Fresh(m)
    ensures Agrees(Replay(LockEvents(m, steps)), Run(m, steps))
  {
    if steps != [] {
      var front, last := steps[..|steps| - 1], steps[|steps| - 1];
      RefinesAtomicLock(m, front);
      InitInv(m);
      RunKeepsInv(m, front);
      ReplayAppend(LockEvents(m, front), Emitted(Run(m, front), last));
      if Enabled(Run(m, front), last) { StepRefines(Replay(LockEvents(m, front)), Run(m, front), last); }
    }
  }
}

/** The start/done pair of mutexes between the measuring master and the slave
    (misc/benchmarks/context_switch/ContextSwitchBench.cc). */
module Handshake {
  import opened Futex

  datatype Master = MReady | MWake | MLock(pc: Pc)     // about to unlock start; about to wake; locking done
  datatype Slave = SLock(pc: Pc) | SReady | SWake      // locking start; about to unlock done; about to wake

  /** `samples` counts the master's finished measurements, `turns` the times the slave got the start mutex. */
  datatype Pair = Pair(start: nat, done: nat, master: Master, slave: Slave, samples: nat, turns: nat)

  /** The parent has locked both mutexes before it forks. */
  const INIT := Pair(1, 1, MReady, SLock(Check1), 0, 0)

  datatype Move = MasterMove | SlaveMove | MasterSpurious | SlaveSpurious

  function MasterStep(s: Pair): Pair {
    match s.master
    case MReady => s.(start := 0, master := MWake)
    case MWake => s.(master := MLock(Check1), slave := if s.slave == SLock(Sleeping) then SLock(Check4) else s.slave)
    case MLock(pc) =>
      var (value, pc') := LockStep(s.done, pc);
      if pc' == Holding then s.(done := value, master := MReady, samples := s.samples + 1)
      else s.(done := value, master := MLock(pc'))
  }

  function SlaveStep(s: Pair): Pair {
    match s.slave
    case SReady => s.(done := 0, slave := SWake)
    case SWake => s.(slave := SLock(Check1), master := if s.master == MLock(Sleeping) then MLock(Check4) else s.master)
    case SLock(pc) =>
      var (value, pc') := LockStep(s.start, pc);
      if pc' == Holding then s.(start := value, slave := SReady, turns := s.turns + 1)
      else s.(start := value, slave := SLock(pc'))
  }

  /** A sleeper does not move by itself, but may be woken for no reason. */
  function Step(s: Pair, move: Move): Pair {
    match move
    case MasterMove => MasterStep(s)
    case SlaveMove => SlaveStep(s)
    case MasterSpurious => if s.master == MLock(Sleeping) then s.(master := MLock(Check4)) else s
    case SlaveSpurious => if s.slave == SLock(Sleeping) then s.(slave := SLock(Check4)) else s
  }

  function Run(s: Pair, moves: seq<Move>): Pair {
    if moves == [] then s else Step(Run(s, moves[..|moves| - 1]), moves[|moves| - 1])
  }

  function One(b: bool): nat { if b then 1 else 0 }

  /** Master turn, start available, slave turn, done available: one token. */
  function Tokens(s: Pair): nat {
    One(s.master == MReady) + One(s.start == 0) + One(s.slave == SReady) + One(s.done == 0)
  }

  ghost predicate Locking(pc: Pc) { pc == Check1 || Contending(pc) || pc == Sleeping }

  ghost predicate Inv(s: Pair) {
    && Tokens(s) == 1 && s.start <= 2 && s.done <= 2
    && s.turns == s.samples + One(s.slave == SReady || s.done == 0)
    && (s.master.MLock? ==> Locking(s.master.pc) && ExpectedOk(s.master.pc))
    && (s.slave.SLock? ==> Locking(s.slave.pc) && ExpectedOk(s.slave.pc))
    && (s.slave == SLock(Sleeping) ==> s.start == 2 || s.master == MWake)
    && (s.master == MLock(Sleeping) ==> s.done == 2 || s.slave == SWake)
  }

  lemma MasterKeepsInv(s: Pair)
    requires Inv(s)
    ensures Inv(MasterStep(s))
  {
  }

  lemma SlaveKeepsInv(s: Pair)
    requires Inv(s)
    ensures Inv(SlaveStep(s))
  {
  }

  lemma StepKeepsInv(s: Pair, move: Move)
    requires Inv(s)
    ensures Inv(Step(s, move))
  {
    match move {
      case MasterMove => MasterKeepsInv(s);
      case SlaveMove => SlaveKeepsInv(s);
      case _ =>
    }
  }

  lemma {:induction false} RunKeepsInv(moves: seq<Move>)
    ensures Inv(Run(INIT, moves))
  {
    if moves != [] {
      RunKeepsInv(moves[..|moves| - 1]);
      StepKeepsInv(Run(INIT, moves[..|moves| - 1]), moves[|moves| - 1]);
    }
  }

  /** In every run exactly one of the four turns is on, whenever the wakes arrive. */
  lemma TurnsAlternate(moves: seq<Move>)
    ensures Tokens(Run(INIT, moves)) == 1
  {
    RunKeepsInv(moves);
  }

  /** Each measurement spans exactly one slave turn: whenever the master is between two measurements, the slave has had
      as many turns as there are samples. */
  lemma OneTurnPerSample(moves: seq<Move>)
    requires Run(INIT, moves).master == MReady
    ensures Run(INIT, moves).turns == Run(INIT, moves).samples
  {
    RunKeepsInv(moves);
  }

  /** The pair never falls asleep: one of the two can always make a real step. */
  lemma NeverBothAsleep(moves: seq<Move>)
    ensures var s := Run(INIT, moves); s.master != MLock(Sleeping) || s.slave != SLock(Sleeping)
  {
    RunKeepsInv(moves);
  }

  // ---------------------------------------------------------------- progress

  function Moves(move: Move, n: nat): seq<Move> { seq(n, _ => move) }

  lemma OneMove(s: Pair, move: Move, n: nat)
    ensures Run(s, Moves(move, n + 1)) == Run(Step(s, move), Moves(move, n))
    decreases n
  {
    assert Moves(move, n + 1)[..n] == Moves(move, n);
    if n > 0 {
      OneMove(s, move, n - 1);
      assert Moves(move, n)[..n - 1] == Moves(move, n - 1);
    } else {
      assert Run(s, []) == s;
    }
  }

  lemma FirstMove(s: Pair, move: Move)
    ensures Run(s, Moves(move, 1)) == Step(s, move)
  {
    OneMove(s, move, 0);
    assert Moves(move, 0) == [];
  }

  lemma SecondMove(s: Pair, move: Move)
    ensures Run(s, Moves(move, 2)) == Step(Step(s, move), move)
  {
    OneMove(s, move, 1);
    FirstMove(Step(s, move), move);
  }

  lemma ThirdMove(s: Pair, move: Move)
    ensures Run(s, Moves(move, 3)) == Step(Step(Step(s, move), move), move)
  {
    OneMove(s, move, 2);
    SecondMove(Step(s, move), move);
  }

  lemma ThreeMoves(s: Pair, move: Move)
    ensures Run(s, Moves(move, 1)) == Step(s, move)
    ensures Run(s, Moves(move, 2)) == Step(Step(s, move), move)
    ensures Run(s, Moves(move, 3)) == Step(Step(Step(s, move), move), move)
  {
    FirstMove(s, move);
    SecondMove(s, move);
    ThirdMove(s, move);
  }

  /** In every reachable state in which the slave has given `done` back, a master that waits for it and is awake
      completes its sample by at most three moves of its own. */
  lemma MasterCompletes(moves: seq<Move>) returns (n: nat)
    requires var s := Run(INIT, moves); s.done == 0 && s.master.MLock? && s.master.pc != Sleeping
    ensures var s := Run(INIT, moves);
            var s' := Run(s, Moves(MasterMove, n));
            n <= 3 && s'.master == MReady && s'.samples == s.samples + 1
  {
    var s := Run(INIT, moves);
    RunKeepsInv(moves);
    ThreeMoves(s, MasterMove);
    n := if Step(s, MasterMove).master == MReady then 1
         else if Step(Step(s, MasterMove), MasterMove).master == MReady then 2 else 3;
  }

  /** The same for the slave and `start`. */
  lemma SlaveGetsTurn(moves: seq<Move>) returns (n: nat)
    requires var s := Run(INIT, moves); s.start == 0 && s.slave.SLock? && s.slave.pc != Sleeping
    ensures var s := Run(INIT, moves);
            var s' := Run(s, Moves(SlaveMove, n));
            n <= 3 && s'.slave == SReady && s'.turns == s.turns + 1
  {
    var s := Run(INIT, moves);
    RunKeepsInv(moves);
    ThreeMoves(s, SlaveMove);
    n := if Step(s, SlaveMove).slave == SReady then 1
         else if Step(Step(s, SlaveMove), SlaveMove).slave == SReady then 2 else 3;
  }
}
