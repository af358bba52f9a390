/** Serializability of the lock-by-lock code: the events of a run of LockSteps.dfy, in the order in which they took
    effect, are a legal serial history in the sense of History.dfy. */
module Serializable {
  import opened Bytes
  import opened Store
  import opened History
  import opened LockSteps
  import opened Threads

  function ValueOf(result: Option<Entry>): Option<Value> {
    match result case None => None case Some(e) => Some(e.value)
  }

  /** What an event contributes to the serial history; an aborted transaction contributes nothing. */
  function Calls(ev: Event): seq<Call> {
    match ev
    case GetEv(k, result) => [GetCall(k, ValueOf(result))]
    case PutEv(k, v) => [PutCall(k, v)]
    case DeleteEv(k) => [DeleteCall(k)]
    case ValidateEv(tx, _, outcome) => if outcome == Aborted then [] else [Txn(tx)]
  }

  function Log(evs: seq<Event>): seq<Call> {
    if evs == [] then [] else Log(evs[..|evs| - 1]) + Calls(evs[|evs| - 1])
  }

  /** The least the cycle counter can show after some events: writes take at least a tick each. */
  function Clock(start: nat, evs: seq<Event>): nat {
    if evs == [] then start
    else
      var before := Clock(start, evs[..|evs| - 1]);
      match evs[|evs| - 1]
      case GetEv(_, _) => before
      case ValidateEv(_, version, outcome) => if outcome == Aborted then before else version
      case _ => before + 1
  }

  // ---------------------------------------------------------------- what the machine guarantees of its events

  /** An entry that was read by an earlier event, or that its key had, or had had, when the machine started. */
  ghost predicate Recorded(start: State, before: seq<Event>, r: Record) {
    WasRead(before, r) || Superseded(r.key, Entry(r.version, r.value), start)
  }

  /** The timestamp of a validation is newer than everything before, and its transaction read what it says. */
  ghost predicate EventOk(start: State, clock: nat, before: seq<Event>, ev: Event) {
    ev.ValidateEv? ==>
      && (ev.outcome != Aborted ==> ev.version > Clock(clock, before))
      && forall i | 0 <= i < |ev.tx.readSet| :: Recorded(start, before, ev.tx.readSet[i])
  }

  ghost predicate EventsOk(start: State, clock: nat, evs: seq<Event>) {
    forall i | 0 <= i < |evs| :: EventOk(start, clock, evs[..i], evs[i])
  }

  /** A commit request brings only reads that somebody has made: by a `get` that took effect before the request is
      validated, or before the machine started. Threads that run transactions need no such assumption. */
  ghost predicate RequestsRead(start: Machine, history: seq<Happening>) {
    forall i | 0 <= i < |history| :: RequestRead(start, history[..i], history[i])
  }

  ghost predicate RequestRead(start: Machine, before: seq<Happening>, h: Happening) {
    h.ev.ValidateEv? && h.t < |start.threads| && start.threads[h.t].work.Single? ==>
      forall j | 0 <= j < |h.ev.tx.readSet| :: Recorded(start.table, Events(before), h.ev.tx.readSet[j])
  }

  lemma RequestsReadPrefix(start: Machine, history: seq<Happening>, n: nat)
    requires RequestsRead(start, history) && n <= |history|
    ensures RequestsRead(start, history[..n])
  {
    var front := history[..n];
    forall i | 0 <= i < n ensures RequestRead(start, front[..i], front[i]) {
      assert front[..i] == history[..i] && RequestRead(start, history[..i], history[i]);
    }
  }

  lemma WorkKindStays(table: State, th: Thread, now: nat)
    ensures ThreadStep(table, th, now).1.work.Single? == th.work.Single?
  {
  }

  lemma {:induction false} OwnIsInHistory(history: seq<Happening>, t: nat, ev: Event)
    requires ev in Own(history, t)
    ensures ev in Events(history)
  {
    var n := |history| - 1;
    var front := history[..n];
    assert history == front + [history[n]];
    OwnAppend(front, history[n], t);
    if ev in Own(front, t) { OwnIsInHistory(front, t, ev); }
  }

  /** The reads of a transaction that validates. */
  lemma ReadsWereMade(start: State, m: Machine, t: nat)
    requires LockSteps.Inv(m) && HistoryOk(m) && t < |m.threads| && m.threads[t].phase.VCheck?
    requires m.threads[t].work.Transaction?
    ensures forall i | 0 <= i < |m.threads[t].phase.tx.readSet| ::
              Recorded(start, Events(m.history), m.threads[t].phase.tx.readSet[i])
  {
    var th := m.threads[t];
    assert WorkInv(th);
    forall i | 0 <= i < |th.phase.tx.readSet| ensures Recorded(start, Events(m.history), th.phase.tx.readSet[i]) {
      var r := th.phase.tx.readSet[i];
      assert WasRead(Trace(th), th.work.got[i]);
      OwnIsInHistory(m.history, t, GetEv(r.key, Some(Entry(r.version, r.value))));
    }
  }

  /** What is true of the events of a machine at every moment. */
  ghost predicate Orderly(start: Machine, m: Machine) {
    && EventsOk(start.table, start.clock, Events(m.history)) && Clock(start.clock, Events(m.history)) <= m.clock
    && |m.threads| == |start.threads|
    && forall t | 0 <= t < |m.threads| :: m.threads[t].work.Single? == start.threads[t].work.Single?
  }

  lemma EventsOkAppend(start: State, clock: nat, evs: seq<Event>, ev: Event)
    requires EventsOk(start, clock, evs) && EventOk(start, clock, evs, ev)
    ensures EventsOk(start, clock, evs + [ev])
  {
    var longer := evs + [ev];
    forall i | 0 <= i < |longer| ensures EventOk(start, clock, longer[..i], longer[i]) {
      if i < |evs| {
        assert longer[..i] == evs[..i] && EventOk(start, clock, evs[..i], evs[i]);
      } else {
        assert longer[..i] == evs;
      }
    }
  }

  lemma ClockAppend(start: nat, evs: seq<Event>, ev: Event)
    ensures Clock(start, evs + [ev]) == match ev
                                        case GetEv(_, _) => Clock(start, evs)
                                        case ValidateEv(_, version, outcome) =>
                                          if outcome == Aborted then Clock(start, evs) else version
                                        case _ => Clock(start, evs) + 1
  {
    assert (evs + [ev])[..|evs|] == evs;
  }

  /** The event of a step is a validation only at its last check, with the counter's value and the thread's
      transaction. */
  lemma EventOfStep(entries: map<Key, Entry>, table: State, th: Thread, now: nat)
    requires ThreadInv(entries, th) && table.entries == entries
    requires th.lin == None && ThreadStep(table, th, now).1.lin.Some?
    ensures var ev := ThreadStep(table, th, now).1.lin.value;
            ev.ValidateEv? ==> th.phase.VCheck? && ev.tx == th.phase.tx && ev.version == now
  {
  }

  lemma NewEventOk(start: Machine, m: Machine, t: nat, now: nat, ev: Event)
    requires LockSteps.Inv(m) && HistoryOk(m) && Orderly(start, m) && t < |m.threads| && now > m.clock
    requires m.threads[t].lin == None && ThreadStep(m.table, m.threads[t], now).1.lin == Some(ev)
    requires RequestRead(start, m.history, Happening(t, ev))
    ensures EventOk(start.table, start.clock, Events(m.history), ev)
  {
    assert ThreadInv(m.table.entries, m.threads[t]);
    EventOfStep(m.table.entries, m.table, m.threads[t], now);
    if ev.ValidateEv? && m.threads[t].work.Transaction? { ReadsWereMade(start.table, m, t); }
  }

  lemma EventIsOrderly(start: Machine, m: Machine, t: nat, now: nat, ev: Event)
    requires LockSteps.Inv(m) && HistoryOk(m) && Orderly(start, m) && t < |m.threads| && now > m.clock
    requires m.threads[t].lin == None && ThreadStep(m.table, m.threads[t], now).1.lin == Some(ev)
    requires RequestRead(start, m.history, Happening(t, ev))
    ensures var evs := Events(m.history + [Happening(t, ev)]);
            EventsOk(start.table, start.clock, evs) && Clock(start.clock, evs) <= now
  {
    NewEventOk(start, m, t, now, ev);
    OwnAppend(m.history, Happening(t, ev), t);
    assert ThreadInv(m.table.entries, m.threads[t]);
    EventOfStep(m.table.entries, m.table, m.threads[t], now);
    EventsOkAppend(start.table, start.clock, Events(m.history), ev);
    ClockAppend(start.clock, Events(m.history), ev);
  }

  lemma StepIsOrderly(start: Machine, m: Machine, t: nat, now: nat)
    requires LockSteps.Inv(m) && HistoryOk(m) && Orderly(start, m) && t < |m.threads| && now > m.clock
    requires RequestsRead(start, LockSteps.Step(m, t, now).history)
    ensures Orderly(start, LockSteps.Step(m, t, now))
  {
    var m' := LockSteps.Step(m, t, now);
    WorkKindStays(m.table, m.threads[t], now);
    if m.threads[t].lin == None && m'.threads[t].lin.Some? {
      LastRequestRead(start, m.history, Happening(t, m'.threads[t].lin.value));
      EventIsOrderly(start, m, t, now, m'.threads[t].lin.value);
    }
  }

  lemma LastRequestRead(start: Machine, history: seq<Happening>, h: Happening)
    requires RequestsRead(start, history + [h])
    ensures RequestRead(start, history, h)
  {
    var longer := history + [h];
    assert longer[..|history|] == history && RequestRead(start, longer[..|history|], longer[|history|]);
  }

  /** What holds of the requests of a run holds of those of a shorter one. */
  lemma ShorterRunRead(m: Machine, moves: seq<Move>, n: nat)
    requires Feasible(m, moves) && n <= |moves| && RequestsRead(m, LockSteps.Run(m, moves).history)
    ensures RequestsRead(m, LockSteps.Run(m, moves[..n]).history)
  {
    assert moves[..n] + moves[n..] == moves;
    HistoryOnlyGrows(m, moves[..n], moves[n..]);
    var short, long := LockSteps.Run(m, moves[..n]).history, LockSteps.Run(m, moves).history;
    RequestsReadPrefix(m, long, |short|);
    assert long[..|short|] == short;
  }

  lemma {:induction false} RunIsOrderly(m: Machine, moves: seq<Move>)
    requires Initial(m) && Feasible(m, moves) && RequestsRead(m, LockSteps.Run(m, moves).history)
    ensures Orderly(m, LockSteps.Run(m, moves))
  {
    if moves == [] {
      assert Events(m.history) == [];
    } else {
      var n := |moves| - 1;
      ShorterRunRead(m, moves, n);
      RunIsOrderly(m, moves[..n]);
      RunIsExplained(m, moves[..n]);
      StepIsOrderly(m, LockSteps.Run(m, moves[..n]), moves[n].t, moves[n].now);
    }
  }

  // ---------------------------------------------------------------- such events are a serial history

  /** Entries that were read, or that were there at the start, are current or superseded for good. */
  ghost predicate Kept(start: State, evs: seq<Event>, s: State) {
    && (forall k, e | GetEv(k, Some(e)) in evs :: Superseded(k, e, s))
    && (forall k, e | Superseded(k, e, start) :: Superseded(k, e, s))
  }

  /** Versions are bounded, and the history so far explains every result and the table. */
  ghost predicate Serial(base: seq<Call>, start: State, clock: nat, evs: seq<Event>, s: State) {
    && Bounded(s, clock) && Kept(start, evs, s)
    && LegalLog(base + Log(evs)) && Serially(base + Log(evs)) == Values(s.entries)
  }

  lemma ReadsAreGenuine(start: State, evs: seq<Event>, s: State, tx: Tx)
    requires Kept(start, evs, s) && forall i | 0 <= i < |tx.readSet| :: Recorded(start, evs, tx.readSet[i])
    ensures Genuine(s, tx)
  {
    forall i | 0 <= i < |tx.readSet|
      ensures Superseded(tx.readSet[i].key, Entry(tx.readSet[i].version, tx.readSet[i].value), s)
    {
      assert Recorded(start, evs, tx.readSet[i]);
    }
  }

  /** One event: versions only grow, its call is legal on the values before, and has the effect of the call. */
  lemma EventIsLegal(start: State, clock: nat, s: State, evs: seq<Event>, ev: Event, s': State)
    requires Bounded(s, Clock(clock, evs)) && Kept(start, evs, s)
    requires Apply(s, ev) == Some(s') && EventOk(start, clock, evs, ev) && (ev.ValidateEv? ==> ev.outcome != Panicked)
    ensures Evolves(s, s') && Bounded(s', Clock(clock, evs + [ev]))
    ensures Calls(ev) == [] ==> s' == s
    ensures Calls(ev) != [] ==>
              Legal(Values(s.entries), Calls(ev)[0]) && Values(s'.entries) == Effect(Values(s.entries), Calls(ev)[0])
  {
    ClockAppend(clock, evs, ev);
    match ev {
      case GetEv(k, result) =>
      case PutEv(k, v) => PutIsLegal(s, Clock(clock, evs), k, v);
      case DeleteEv(k) => DeleteIsLegal(s, Clock(clock, evs), k);
      case ValidateEv(tx, version, outcome) =>
        if outcome == Committed {
          ReadsAreGenuine(start, evs, s, tx);
          CommitIsLegal(s, Clock(clock, evs), tx, version);
        }
    }
  }

  lemma PutIsLegal(s: State, clock: nat, k: Key, v: Value)
    requires Bounded(s, clock)
    ensures Evolves(s, Put(s, k, v)) && Bounded(Put(s, k, v), clock + 1)
    ensures Values(Put(s, k, v).entries) == Values(s.entries)[k := v]
  {
    PutEvolves(s, clock, k, v);
    PutValues(s, k, v);
  }

  lemma DeleteIsLegal(s: State, clock: nat, k: Key)
    requires Bounded(s, clock)
    ensures Evolves(s, Delete(s, k)) && Bounded(Delete(s, k), clock + 1)
    ensures Values(Delete(s, k).entries) == Values(s.entries) - {k}
  {
    DeleteEvolves(s, clock, k);
    DeleteValues(s, k);
  }

  lemma CallsExtend(base: seq<Call>, evs: seq<Event>, ev: Event)
    ensures base + Log(evs + [ev]) == (base + Log(evs)) + Calls(ev)
  {
    assert (evs + [ev])[..|evs|] == evs;
  }

  lemma EventKeepsSerial(base: seq<Call>, start: State, clock: nat, evs: seq<Event>, s: State, ev: Event, s': State)
    requires Serial(base, start, Clock(clock, evs), evs, s) && Apply(s, ev) == Some(s')
    requires EventOk(start, clock, evs, ev) && (ev.ValidateEv? ==> ev.outcome != Panicked)
    ensures Serial(base, start, Clock(clock, evs + [ev]), evs + [ev], s')
  {
    EventIsLegal(start, clock, s, evs, ev, s');
    CallsExtend(base, evs, ev);
    LogExtends(base + Log(evs), Calls(ev), s, s');
    StaysKept(start, evs, ev, s, s');
  }

  lemma LogExtends(log: seq<Call>, calls: seq<Call>, s: State, s': State)
    requires LegalLog(log) && Serially(log) == Values(s.entries) && |calls| <= 1
    requires calls == [] ==> s' == s
    requires calls != [] ==>
               Legal(Values(s.entries), calls[0]) && Values(s'.entries) == Effect(Values(s.entries), calls[0])
    ensures LegalLog(log + calls) && Serially(log + calls) == Values(s'.entries)
  {
    if calls == [] {
      assert log + calls == log;
    } else {
      assert calls == [calls[0]];
      AppendToLog(log, calls[0]);
    }
  }

  lemma StaysKept(start: State, evs: seq<Event>, ev: Event, s: State, s': State)
    requires Kept(start, evs, s) && Evolves(s, s') && Apply(s, ev) == Some(s')
    ensures Kept(start, evs + [ev], s')
  {
    forall k, e | GetEv(k, Some(e)) in evs + [ev] ensures Superseded(k, e, s') {
      if GetEv(k, Some(e)) in evs { EvolvesKeepsSuperseded(s, s', k, e); }
    }
    forall k, e | Superseded(k, e, start) ensures Superseded(k, e, s') { EvolvesKeepsSuperseded(s, s', k, e); }
  }

  ghost predicate NoPanic(evs: seq<Event>) {
    forall i | 0 <= i < |evs| :: evs[i].ValidateEv? ==> evs[i].outcome != Panicked
  }

  lemma FrontOk(s: State, clock: nat, evs: seq<Event>)
    requires evs != [] && EventsOk(s, clock, evs) && NoPanic(evs)
    ensures var n := |evs| - 1; EventsOk(s, clock, evs[..n]) && NoPanic(evs[..n]) && EventOk(s, clock, evs[..n], evs[n])
  {
    var n := |evs| - 1;
    var front := evs[..n];
    forall i | 0 <= i < n ensures EventOk(s, clock, front[..i], front[i]) {
      assert front[..i] == evs[..i] && EventOk(s, clock, evs[..i], evs[i]);
    }
    assert EventOk(s, clock, evs[..n], evs[n]);
  }

  lemma {:induction false} ReplayIsSerial(base: seq<Call>, clock: nat, s: State, evs: seq<Event>)
    requires Bounded(s, clock) && LegalLog(base) && Serially(base) == Values(s.entries)
    requires Replay(s, evs).Some? && EventsOk(s, clock, evs) && NoPanic(evs)
    ensures Serial(base, s, Clock(clock, evs), evs, Replay(s, evs).value)
  {
    if evs == [] {
      assert base + Log(evs) == base;
    } else {
      FrontOk(s, clock, evs);
      ReplayLast(s, evs);
      ReplayIsSerial(base, clock, s, evs[..|evs| - 1]);
      var front, ev := evs[..|evs| - 1], evs[|evs| - 1];
      assert evs == front + [ev];
      LastKeepsSerial(base, clock, s, evs, front, ev, Replay(s, front).value, Replay(s, evs).value);
    }
  }

  lemma ReplayLast(s: State, evs: seq<Event>)
    requires evs != [] && Replay(s, evs).Some?
    ensures var n := |evs| - 1;
            Replay(s, evs[..n]).Some? && Apply(Replay(s, evs[..n]).value, evs[n]) == Replay(s, evs)
  {
    assert Replay(s, evs) == Then(Replay(s, evs[..|evs| - 1]), evs[|evs| - 1]);
  }

  lemma LastKeepsSerial(base: seq<Call>, clock: nat, s: State, evs: seq<Event>, front: seq<Event>, ev: Event,
                        mid: State, after: State)
    requires evs == front + [ev] && Apply(mid, ev) == Some(after)
    requires EventOk(s, clock, front, ev) && (ev.ValidateEv? ==> ev.outcome != Panicked)
    requires Serial(base, s, Clock(clock, front), front, mid)
    ensures Serial(base, s, Clock(clock, evs), evs, after)
  {
    EventKeepsSerial(base, s, clock, front, mid, ev, after);
  }

  lemma {:induction false} ReplayPrefix(s: State, evs: seq<Event>, n: nat)
    requires Replay(s, evs).Some? && n <= |evs|
    ensures Replay(s, evs[..n]).Some?
  {
    if n < |evs| {
      ReplayLast(s, evs);
      ReplayPrefix(s, evs[..|evs| - 1], n);
      assert evs[..|evs| - 1][..n] == evs[..n];
    } else {
      assert evs[..n] == evs;
    }
  }

  lemma EventsOkPrefix(s: State, clock: nat, evs: seq<Event>, n: nat)
    requires EventsOk(s, clock, evs) && n <= |evs|
    ensures EventsOk(s, clock, evs[..n])
  {
    var front := evs[..n];
    forall i | 0 <= i < n ensures EventOk(s, clock, front[..i], front[i]) {
      assert front[..i] == evs[..i] && EventOk(s, clock, evs[..i], evs[i]);
    }
  }

  /** Serializability of the lock-by-lock code: whatever the interleaving of bucket locks, tenant locks and single
      installs, the operations that took effect before the first failed absent-key assertion, one at a time in the order
      in which they took effect, explain every value that a `get` or a committed transaction saw. If there is no failed
      assertion, and all threads are done, they leave the same table. The cycle counter advances. With
      `LockSteps.RealTimeOrder` the order respects real time. */
  lemma LockStepsAreSerializable(m: Machine, moves: seq<Move>, base: seq<Call>, n: nat)
    requires Initial(m) && Feasible(m, moves) && RequestsRead(m, LockSteps.Run(m, moves).history)
    requires Bounded(m.table, m.clock) && LegalLog(base) && Serially(base) == Values(m.table.entries)
    requires n <= |LockSteps.Run(m, moves).history| && NoPanic(Events(LockSteps.Run(m, moves).history)[..n])
    ensures var end := LockSteps.Run(m, moves);
            var log := base + Log(Events(end.history)[..n]);
            && LegalLog(log)
            && (n == |end.history| && (forall t | 0 <= t < |end.threads| :: end.threads[t].phase.Done?) ==>
                  Serially(log) == Values(end.table.entries))
  {
    var evs := Events(LockSteps.Run(m, moves).history);
    RunIsExplained(m, moves);
    RunIsOrderly(m, moves);
    ReplayPrefix(m.table, evs, n);
    EventsOkPrefix(m.table, m.clock, evs, n);
    ReplayIsSerial(base, m.clock, m.table, evs[..n]);
    if n == |evs| { assert evs[..n] == evs; }
  }

  // ---------------------------------------------------------------- what a committed transaction has seen

  lemma EventEvolves(start: State, clock: nat, s: State, evs: seq<Event>, ev: Event, s': State)
    requires Bounded(s, Clock(clock, evs)) && Apply(s, ev) == Some(s') && EventOk(start, clock, evs, ev)
    ensures Evolves(s, s') && Bounded(s', Clock(clock, evs + [ev]))
  {
    ClockAppend(clock, evs, ev);
    match ev {
      case GetEv(_, _) =>
      case PutEv(k, v) => PutEvolves(s, Clock(clock, evs), k, v);
      case DeleteEv(k) => DeleteEvolves(s, Clock(clock, evs), k);
      case ValidateEv(tx, version, outcome) =>
        if outcome != Aborted { ValidateEvolves(s, Clock(clock, evs), tx, version); }
    }
  }

  /** Entries that were read stay current or superseded for good, also beside failed assertions. */
  lemma {:induction false} ReplayKeeps(clock: nat, s: State, evs: seq<Event>)
    requires Bounded(s, clock) && Replay(s, evs).Some? && EventsOk(s, clock, evs)
    ensures Bounded(Replay(s, evs).value, Clock(clock, evs)) && Kept(s, evs, Replay(s, evs).value)
  {
    if evs != [] {
      var front, ev := evs[..|evs| - 1], evs[|evs| - 1];
      EventsOkPrefix(s, clock, evs, |front|);
      ReplayLast(s, evs);
      ReplayKeeps(clock, s, front);
      assert EventOk(s, clock, evs[..|evs| - 1], evs[|evs| - 1]);
      EventEvolves(s, clock, Replay(s, front).value, front, ev, Replay(s, evs).value);
      StaysKept(s, front, ev, Replay(s, front).value, Replay(s, evs).value);
      assert front + [ev] == evs;
    }
  }

  /** Everything found by the gets of a trace. */
  lemma {:induction false} FoundIsRead(trace: seq<Event>, k: Key, e: Entry)
    requires GetEv(k, Some(e)) in trace
    ensures Record(Read, e.version, k, e.value) in ReadsIn(trace)
  {
    var n := |trace| - 1;
    assert trace == trace[..n] + [trace[n]];
    if GetEv(k, Some(e)) in trace[..n] { FoundIsRead(trace[..n], k, e); }
  }

  /** The commit of a thread's transaction in a history. */
  ghost predicate CommitsAt(m: Machine, moves: seq<Move>, i: nat) {
    var history := LockSteps.Run(m, moves).history;
    && i < |history| && history[i].t < |m.threads| && m.threads[history[i].t].work.Transaction?
    && history[i].ev.ValidateEv? && history[i].ev.outcome == Committed
  }

  /** The table just before an event of a run, by replaying what took effect before. */
  ghost function TableBefore(m: Machine, moves: seq<Move>, i: nat): Option<State> {
    var evs := Events(LockSteps.Run(m, moves).history);
    if i <= |evs| then Replay(m.table, evs[..i]) else None
  }

  lemma {:induction false} OwnSplit(history: seq<Happening>, t: nat, i: nat)
    requires i < |history| && history[i].t == t
    ensures Own(history[..i], t) + [history[i].ev] <= Own(history, t)
  {
    var n := |history| - 1;
    if i == n {
    } else {
      OwnSplit(history[..n], t, i);
      assert history[..n][..i] == history[..i];
    }
  }

  lemma PrefixObeys(body: Body, trace: seq<Event>, before: seq<Event>, ev: Event)
    requires Follows(body, trace) && before + [ev] <= trace
    ensures Obeys(body, before, ev)
  {
    var n := |before|;
    assert trace[..n] == before && trace[n] == ev by {
      assert trace[..n + 1] == before + [ev];
      assert trace[n] == trace[..n + 1][n];
    }
  }

  /** In every run, at the commit of a transaction: each entry that its gets have found is the entry of its key in the
      table just before the commit, with value and version, and the commit assigns exactly the writes that its program
      ends with after these results. So no update is lost and nothing stale is used. */
  lemma CommitsWhatItSaw(m: Machine, moves: seq<Move>, i: nat)
    requires Initial(m) && Feasible(m, moves) && RequestsRead(m, LockSteps.Run(m, moves).history)
    requires Bounded(m.table, m.clock) && CommitsAt(m, moves, i)
    ensures var history := LockSteps.Run(m, moves).history;
            var t := history[i].t;
            var own := Own(history[..i], t);
            var before, after := TableBefore(m, moves, i), TableBefore(m, moves, i + 1);
            && before.Some? && after.Some?
            && (forall k, e | GetEv(k, Some(e)) in own :: k in before.value.entries && before.value.entries[k] == e)
            && m.threads[t].work.body(Found(own)).Finish?
            && Values(after.value.entries)
               == ApplyWrites(Values(before.value.entries), m.threads[t].work.body(Found(own)).writes)
  {
    var history := LockSteps.Run(m, moves).history;
    var evs, t := Events(history), history[i].t;
    RunIsExplained(m, moves);
    RunIsOrderly(m, moves);
    CommitIsApplied(m, moves, i);
    EventsOkPrefix(m.table, m.clock, evs, i);
    ReplayKeeps(m.clock, m.table, evs[..i]);
    TransactionsFollow(m, moves, t);
    OwnSplit(history, t, i);
    PrefixObeys(m.threads[t].work.body, Own(history, t), Own(history[..i], t), history[i].ev);
    OwnEventsBefore(history, t, i);
    FoundIsCurrent(m.table, evs[..i], Own(history[..i], t), TableBefore(m, moves, i).value, history[i].ev.tx);
  }

  lemma OwnEventsBefore(history: seq<Happening>, t: nat, i: nat)
    requires i <= |history|
    ensures forall ev | ev in Own(history[..i], t) :: ev in Events(history)[..i]
  {
    assert Events(history[..i]) == Events(history)[..i];
    forall ev | ev in Own(history[..i], t) ensures ev in Events(history)[..i] { OwnIsInHistory(history[..i], t, ev); }
  }

  lemma CommitIsApplied(m: Machine, moves: seq<Move>, i: nat)
    requires Initial(m) && Feasible(m, moves) && CommitsAt(m, moves, i)
    ensures var before, after := TableBefore(m, moves, i), TableBefore(m, moves, i + 1);
            var tx := LockSteps.Run(m, moves).history[i].ev.tx;
            && before.Some? && after.Some? && ReadsOk(before.value.entries, tx.readSet)
            && Values(after.value.entries) == ApplyWrites(Values(before.value.entries), tx.writeSet)
  {
    var evs := Events(LockSteps.Run(m, moves).history);
    RunIsExplained(m, moves);
    ReplayPrefix(m.table, evs, i + 1);
    ReplayLast(m.table, evs[..i + 1]);
    assert evs[..i + 1][..i] == evs[..i] && evs[..i + 1][i] == evs[i];
    AppliedCommit(Replay(m.table, evs[..i]).value, evs[i], Replay(m.table, evs[..i + 1]).value);
  }

  lemma AppliedCommit(s: State, ev: Event, s': State)
    requires ev.ValidateEv? && ev.outcome == Committed && Apply(s, ev) == Some(s')
    ensures ReadsOk(s.entries, ev.tx.readSet) && Values(s'.entries) == ApplyWrites(Values(s.entries), ev.tx.writeSet)
  {
    CommitAppliesWrites(s, ev.tx, ev.version);
  }

  lemma FoundIsCurrent(start: State, evs: seq<Event>, own: seq<Event>, s: State, tx: Tx)
    requires Kept(start, evs, s) && (forall ev | ev in own :: ev in evs)
    requires tx.readSet == ReadsIn(own) && ReadsOk(s.entries, tx.readSet)
    ensures forall k, e | GetEv(k, Some(e)) in own :: k in s.entries && s.entries[k] == e
  {
    forall k, e | GetEv(k, Some(e)) in own ensures k in s.entries && s.entries[k] == e {
      FoundIsRead(own, k, e);
      var j :| 0 <= j < |tx.readSet| && tx.readSet[j] == Record(Read, e.version, k, e.value);
      assert VersionOk(s.entries, tx.readSet[j]);
      assert Superseded(k, e, s);
    }
  }
}
