/** Tasks of the server and their round-robin scheduler with load shedding (db/src/container.rs, db/src/sched.rs). */
module Sched {
  datatype Priority = DISPATCH | REQUEST
  /** The three kinds of task: the dispatcher, a native operation and an extension. */
  datatype Kind = Dispatcher | Native | Extension
  datatype TaskState = INITIALIZED | RUNNING | YIELDED | COMPLETED | STOPPED

  const MAX_RX_PACKETS: nat := 32

  // ---------------------------------------------------------------- running an extension

  /** The counter at the start and at the end of one database call. */
  datatype DbCall = DbCall(begin: nat, end: nat)
  datatype Resumed = Yields | Completes | Panics

  /** The calls happen one after the other between `from` and `to`; the counter never goes back. */
  predicate InOrder(calls: seq<DbCall>, from: nat, to: nat) {
    if calls == [] then from <= to
    else from <= calls[0].begin <= calls[0].end && InOrder(calls[1..], calls[0].end, to)
  }

  function TotalSpent(calls: seq<DbCall>): int {
    if calls == [] then 0 else calls[0].end - calls[0].begin + TotalSpent(calls[1..])
  }

  /** The container of an extension; `credit` is its context's `db_credit`. */
  class Container {
    var state: TaskState
    var time: nat
    var dbTime: nat
    var credit: nat

    /** The credit computed by the scheduler, `time - db_time`, never underflows. */
    ghost predicate Valid()
      reads this
    {
      dbTime <= credit <= time && (state == INITIALIZED || state == YIELDED ==> dbTime == credit)
    }

    constructor ()
      ensures Valid() && state == INITIALIZED && time == 0 && dbTime == 0
    {
      state, time, dbTime, credit := INITIALIZED, 0, 0, 0;
    }

    /** Database calls add their duration to the credit. */
    method DbCalls(calls: seq<DbCall>, ghost from: nat, ghost to: nat)
      requires InOrder(calls, from, to)
      modifies this`credit
      ensures credit == old(credit) + TotalSpent(calls)
      ensures old(credit) <= credit <= old(credit) + (to - from)
    {
      ghost var last: nat := from;
      for i := 0 to |calls|
        invariant InOrder(calls[i..], last, to) && from <= last
        invariant credit + TotalSpent(calls[i..]) == old(credit) + TotalSpent(calls)
        invariant old(credit) <= credit <= old(credit) + (last - from)
      {
        assert calls[i..][0] == calls[i] && calls[i..][1..] == calls[i + 1..];
        credit := credit + (calls[i].end - calls[i].begin);
        last := calls[i].end;
      }
      assert calls[|calls|..] == [];
    }

    /** `run`: resumes the generator if the task is new or has yielded, and accounts for the time in any case. */
    method Run(begin: nat, calls: seq<DbCall>, resumed: Resumed, end: nat)
      requires Valid() && InOrder(calls, begin, end) && begin <= end
      modifies this
      ensures Valid()
      ensures time == old(time) + (end - begin) && 0 <= dbTime - old(dbTime) <= end - begin
      ensures old(state) == INITIALIZED || old(state) == YIELDED ==>
                && state == (if resumed == Yields then YIELDED else COMPLETED)
                && dbTime == (if resumed == Panics then old(dbTime) else old(credit) + TotalSpent(calls))
      ensures old(state) != INITIALIZED && old(state) != YIELDED ==> state == old(state) && dbTime == old(dbTime)
    {
      if state == INITIALIZED || state == YIELDED {
        state := RUNNING;
        DbCalls(calls, begin, end);
        match resumed {
          case Yields => dbTime := credit; state := YIELDED;
          case Completes => dbTime := credit; state := COMPLETED;
          case Panics => state := COMPLETED;
        }
      }
      time := time + (end - begin);
    }
  }

  // ---------------------------------------------------------------- the scheduler's queue

  datatype Task = Task(id: nat, kind: Kind, state: TaskState, time: nat, dbTime: nat)

  function PriorityOf(t: Task): Priority { if t.kind == Dispatcher then DISPATCH else REQUEST }

  /** Native operations never yield: the only `yield` of their generators comes after a return. */
  predicate Sane(t: Task) { t.dbTime <= t.time && (t.kind == Native ==> t.state != YIELDED) }

  ghost predicate AllSane(q: seq<Task>) { forall i | 0 <= i < |q| :: Sane(q[i]) }

  /** A yielded task that has used more than its credit. */
  predicate Over(t: Task, credit: nat)
    requires Sane(t)
  {
    t.state == YIELDED && t.time - t.dbTime > credit
  }

  /** `tear`: an extension always hands back a response, a native operation only once it has completed, the dispatcher
      never. */
  function Tear(t: Task): seq<nat> {
    if t.kind == Extension || (t.kind == Native && t.state == COMPLETED) then [t.id] else []
  }

  /** The answers to tasks that are stopped one after the other. */
  function StopAll(q: seq<Task>): seq<nat> { if q == [] then [] else Tear(q[0].(state := STOPPED)) + StopAll(q[1..]) }

  /** The longest run of tasks over their credit at the head of the queue, at most `n`. */
  function OverPrefix(q: seq<Task>, n: nat, credit: nat): (j: nat)
    requires n <= |q| && AllSane(q)
    ensures j <= n && (forall i | 0 <= i < j :: Over(q[i], credit)) && (j < n ==> !Over(q[j], credit))
  {
    if n == 0 || !Over(q[0], credit) then 0 else 1 + OverPrefix(q[1..], n - 1, credit)
  }

  datatype Queue = Queue(waiting: seq<Task>, answered: seq<nat>, previous: nat)

  /** One scheduling decision: what the clock says, how the head of the queue runs and what it enqueues. */
  datatype Turn = Turn(current: nat, state: TaskState, exec: nat, dbSpent: nat, spawned: seq<Task>, credit: nat,
      trigger: nat, shedding: bool)

  /** The head either yields or completes (natives complete, the dispatcher yields), only the dispatcher enqueues, and
      time in the database is part of the time spent. */
  predicate TurnOk(s: Queue, t: Turn) {
    s.waiting != [] ==>
      && (t.state == YIELDED || t.state == COMPLETED)
      && t.dbSpent <= t.exec && s.previous <= t.current
      && (s.waiting[0].kind == Dispatcher ==> t.state == YIELDED)
      && (s.waiting[0].kind == Native ==> t.state == COMPLETED)
      && (s.waiting[0].kind != Dispatcher ==> t.spawned == [])
      && forall i | 0 <= i < |t.spawned| :: Sane(t.spawned[i])
  }

  function AfterRun(task: Task, t: Turn): Task {
    task.(state := t.state, time := task.time + t.exec, dbTime := task.dbTime + t.dbSpent)
  }

  /** The length of the part of the queue that one turn sheds. */
  function Shed(s: Queue, t: Turn): (j: nat)
    requires AllSane(s.waiting) && TurnOk(s, t)
    ensures s.waiting != [] ==> j < |s.waiting|
  {
    if s.waiting == [] || PriorityOf(s.waiting[0]) != DISPATCH then 0
    else
      var length := |s.waiting| - 1;
      if t.shedding && (length >= MAX_RX_PACKETS / 8 || t.current - s.previous > t.trigger) && |t.spawned| > 0
      then OverPrefix(s.waiting[1..] + t.spawned, length, t.credit)
      else 0
  }

  /** One iteration of `poll` as a function. */
  function Polled(s: Queue, t: Turn): Queue
    requires AllSane(s.waiting) && TurnOk(s, t)
  {
    if s.waiting == [] then s
    else
      var task, rest := s.waiting[0], s.waiting[1..] + t.spawned;
      var previous := if PriorityOf(task) == DISPATCH then t.current else s.previous;
      if t.state == COMPLETED then Queue(rest, s.answered + Tear(AfterRun(task, t)), previous)
      else
        var j := Shed(s, t);
        Queue(rest[j..] + [AfterRun(task, t)], s.answered + StopAll(rest[..j]), previous)
  }

  class RoundRobin {
    var waiting: seq<Task>
    var responses: seq<nat>
    var previous: nat

    function Contents(): Queue reads this { Queue(waiting, responses, previous) }

    /** The load-shedding loop. A task that is not over its credit goes back to the front, so the loop looks at it again
        and again and sheds nothing behind it. */
    method ShedLoop(queueLength: nat, credit: nat)
      requires queueLength <= |waiting| && AllSane(waiting)
      modifies this`waiting, this`responses
      ensures var j := OverPrefix(old(waiting), queueLength, credit);
              waiting == old(waiting)[j..] && responses == old(responses) + StopAll(old(waiting)[..j])
    {
      ghost var all, goal := waiting, OverPrefix(waiting, queueLength, credit);
      ghost var k := 0;
      for i := 0 to queueLength
        invariant k <= goal && k <= i && waiting == all[k..]
        invariant k < i ==> k == goal
        invariant responses == old(responses) + StopAll(all[..k])
      {
        assert all[k..][0] == all[k];
        var task := waiting[0];
        waiting := waiting[1..];
        if task.state == YIELDED && task.time - task.dbTime > credit {
          task := task.(state := STOPPED);
          responses := responses + Tear(task);
          StopAllLast(all, k);
          k := k + 1;
        } else {
          waiting := [task] + waiting;
        }
      }
    }

    /** One iteration of the loop in `poll`. */
    method PollOnce(t: Turn)
      requires AllSane(waiting) && TurnOk(Contents(), t)
      modifies this
      ensures Contents() == Polled(old(Contents()), t)
    {
      if waiting == [] { return; }
      var task := waiting[0];
      waiting := waiting[1..];
      var isDispatcher, queueLength, difference := false, 0, 0;
      if PriorityOf(task) == DISPATCH {
        isDispatcher, queueLength, difference := true, |waiting|, t.current - previous;
        previous := t.current;
      }
      waiting := waiting + t.spawned;
      if t.state == COMPLETED {
        responses := responses + Tear(AfterRun(task, t));
      } else {
        ghost var rest := waiting;
        if t.shedding && isDispatcher && (queueLength >= MAX_RX_PACKETS / 8 || difference > t.trigger)
           && |waiting| - queueLength > 0 {
          ShedLoop(queueLength, t.credit);
        } else {
          assert rest[0..] == rest && responses + StopAll(rest[..0]) == responses;
        }
        waiting := waiting + [AfterRun(task, t)];
      }
    }
  }

  lemma {:induction false} StopAllLast(q: seq<Task>, k: nat)
    requires k < |q|
    ensures StopAll(q[..k + 1]) == StopAll(q[..k]) + Tear(q[k].(state := STOPPED))
  {
    if k > 0 {
      StopAllLast(q[1..], k - 1);
      assert q[1..][..k] == q[..k + 1][1..] && q[1..][..k - 1] == q[..k][1..];
    }
  }

  /** One iteration in full. The head runs; if it completes it is answered, otherwise it goes to the end of the queue.
      Only the dispatcher sheds, when it has brought new tasks and four others were waiting or it was away for too long:
      the longest run, among those that were waiting, of tasks that have yielded and used more than their credit. */
  lemma OneIteration(s: Queue, t: Turn, j: nat)
    requires AllSane(s.waiting) && TurnOk(s, t) && s.waiting != []
    requires j == |s.waiting| + |t.spawned| - |Polled(s, t).waiting| - if t.state == COMPLETED then 1 else 0
    ensures var s', head, behind := Polled(s, t), s.waiting[0], s.waiting[1..] + t.spawned;
            var ran := head.(state := t.state, time := head.time + t.exec, dbTime := head.dbTime + t.dbSpent);
            var late := |s.waiting| - 1 >= 4 || t.current - s.previous > t.trigger;
            && s'.previous == (if head.kind == Dispatcher then t.current else s.previous)
            && j < |s.waiting|
            && s'.waiting == behind[j..] + (if t.state == COMPLETED then [] else [ran])
            && (t.state == COMPLETED ==> j == 0 && s'.answered == s.answered + [head.id])
            && (t.state != COMPLETED ==> s'.answered == s.answered + StopAll(behind[..j]))
            && (forall i | 0 <= i < j ::
                  behind[i].state == YIELDED && behind[i].time - behind[i].dbTime > t.credit)
            && (j > 0 ==> head.kind == Dispatcher && t.shedding && |t.spawned| > 0 && late)
            && (head.kind == Dispatcher && t.shedding && |t.spawned| > 0 && late && j < |s.waiting| - 1 ==>
                  !(behind[j].state == YIELDED && behind[j].time - behind[j].dbTime > t.credit))
  {
    assert j == if t.state == COMPLETED then 0 else Shed(s, t);
    assert StopAll([]) == [];
  }

  /** The extensions that are shed are answered in the order of the queue. */
  lemma {:induction false} ShedInOrder(q: seq<Task>)
    requires forall i | 0 <= i < |q| :: q[i].kind == Extension
    ensures |StopAll(q)| == |q| && forall i | 0 <= i < |q| :: StopAll(q)[i] == q[i].id
  {
    if q != [] { ShedInOrder(q[1..]); }
  }

  // ---------------------------------------------------------------- whole runs

  datatype Event = Poll(turn: Turn) | Enqueue(tasks: seq<Task>)

  ghost predicate EventOk(s: Queue, e: Event) {
    match e
    case Poll(t) => TurnOk(s, t)
    case Enqueue(tasks) => AllSane(tasks)
  }

  function Happens(s: Queue, e: Event): Queue
    requires AllSane(s.waiting) && EventOk(s, e)
  {
    match e
    case Poll(t) => Polled(s, t)
    case Enqueue(tasks) => s.(waiting := s.waiting + tasks)
  }

  lemma HappensKeepsSane(s: Queue, e: Event)
    requires AllSane(s.waiting) && EventOk(s, e)
    ensures AllSane(Happens(s, e).waiting)
  {
  }

  ghost predicate RunOk(s: Queue, es: seq<Event>)
    requires AllSane(s.waiting)
    decreases |es|
  {
    es == [] || (EventOk(s, es[0]) && (HappensKeepsSane(s, es[0]); RunOk(Happens(s, es[0]), es[1..])))
  }

  ghost function Run(s: Queue, es: seq<Event>): Queue
    requires AllSane(s.waiting) && RunOk(s, es)
    decreases |es|
  {
    if es == [] then s else HappensKeepsSane(s, es[0]); Run(Happens(s, es[0]), es[1..])
  }

  /** The tasks that an event brings into the queue. */
  function Arrivals(s: Queue, e: Event): seq<Task> {
    match e
    case Poll(t) => if s.waiting == [] then [] else t.spawned
    case Enqueue(tasks) => tasks
  }

  ghost function AllArrivals(s: Queue, es: seq<Event>): seq<Task>
    requires AllSane(s.waiting) && RunOk(s, es)
    decreases |es|
  {
    if es == [] then [] else HappensKeepsSane(s, es[0]); Arrivals(s, es[0]) + AllArrivals(Happens(s, es[0]), es[1..])
  }

  /** The requests among some tasks. */
  ghost function Requests(q: seq<Task>): multiset<nat> {
    if q == [] then multiset{} else RequestOf(q[0]) + Requests(q[1..])
  }

  ghost function RequestOf(t: Task): multiset<nat> { if t.kind == Dispatcher then multiset{} else multiset{t.id} }

  lemma SumsAssociate(x: multiset<nat>, y: multiset<nat>, z: multiset<nat>)
    ensures (x + y) + z == x + (y + z)
  {
  }

  lemma {:induction false} RequestsConcat(a: seq<Task>, b: seq<Task>)
    ensures Requests(a + b) == Requests(a) + Requests(b)
  {
    if a == [] {
      assert a + b == b;
    } else {
      calc {
        Requests(a + b);
        { assert (a + b)[1..] == a[1..] + b; }
        RequestOf(a[0]) + Requests(a[1..] + b);
        { RequestsConcat(a[1..], b); }
        RequestOf(a[0]) + (Requests(a[1..]) + Requests(b));
        { SumsAssociate(RequestOf(a[0]), Requests(a[1..]), Requests(b)); }
        Requests(a) + Requests(b);
      }
    }
  }

  lemma RequestsOne(t: Task)
    ensures Requests([t]) == RequestOf(t)
  {
    assert [t][1..] == [];
  }

  /** Every request that load shedding stops is answered: none of them is native. */
  lemma {:induction false} ShedAnswers(q: seq<Task>)
    requires AllSane(q) && forall i | 0 <= i < |q| :: q[i].state == YIELDED
    ensures multiset(StopAll(q)) == Requests(q)
  {
    if q != [] {
      ShedAnswers(q[1..]);
      assert Sane(q[0]);
    }
  }

  /** The requests in the queue and the requests answered. */
  ghost function Accounted(s: Queue): multiset<nat> { Requests(s.waiting) + multiset(s.answered) }

  lemma PollAccounts(s: Queue, t: Turn)
    requires AllSane(s.waiting) && TurnOk(s, t)
    ensures Accounted(Polled(s, t)) == Accounted(s) + Requests(Arrivals(s, Poll(t)))
  {
    if s.waiting != [] {
      var task, rest := s.waiting[0], s.waiting[1..] + t.spawned;
      HeadAndRest(s.waiting, t.spawned);
      if t.state == COMPLETED { CompletionAccounts(s, t, rest); } else { YieldAccounts(s, t, rest); }
      SumsSwap(Requests(s.waiting), Requests(t.spawned), multiset(s.answered));
    }
  }

  lemma HeadAndRest(q: seq<Task>, spawned: seq<Task>)
    requires q != []
    ensures Requests([q[0]]) + Requests(q[1..] + spawned) == Requests(q) + Requests(spawned)
  {
    RequestsOne(q[0]);
    RequestsConcat(q[1..], spawned);
    SumsAssociate(RequestOf(q[0]), Requests(q[1..]), Requests(spawned));
  }

  lemma SumsSwap(x: multiset<nat>, y: multiset<nat>, z: multiset<nat>)
    ensures (x + y) + z == (x + z) + y
  {
  }

  lemma CompletionAccounts(s: Queue, t: Turn, rest: seq<Task>)
    requires AllSane(s.waiting) && TurnOk(s, t) && s.waiting != [] && t.state == COMPLETED
    requires rest == s.waiting[1..] + t.spawned
    ensures Accounted(Polled(s, t)) == Requests([s.waiting[0]]) + Requests(rest) + multiset(s.answered)
  {
    RequestsOne(s.waiting[0]);
  }

  lemma YieldAccounts(s: Queue, t: Turn, rest: seq<Task>)
    requires AllSane(s.waiting) && TurnOk(s, t) && s.waiting != [] && t.state != COMPLETED
    requires rest == s.waiting[1..] + t.spawned
    ensures Accounted(Polled(s, t)) == Requests([s.waiting[0]]) + Requests(rest) + multiset(s.answered)
  {
    var j := Shed(s, t);
    var ran := AfterRun(s.waiting[0], t);
    assert RequestOf(ran) == Requests([s.waiting[0]]) by { RequestsOne(s.waiting[0]); }
    ShedAnswers(rest[..j]);
    RequestsSplit(rest, j, ran);
    SumsShuffle(Requests(rest[..j]), Requests(rest[j..]), RequestOf(ran), multiset(s.answered));
  }

  lemma RequestsSplit(rest: seq<Task>, j: nat, t: Task)
    requires j <= |rest|
    ensures Requests(rest) == Requests(rest[..j]) + Requests(rest[j..])
    ensures Requests(rest[j..] + [t]) == Requests(rest[j..]) + RequestOf(t)
  {
    RequestsAppend(rest[j..], t);
    assert rest[..j] + rest[j..] == rest;
    RequestsConcat(rest[..j], rest[j..]);
  }

  lemma RequestsAppend(q: seq<Task>, t: Task)
    ensures Requests(q + [t]) == Requests(q) + RequestOf(t)
  {
    RequestsConcat(q, [t]);
    RequestsOne(t);
  }

  lemma SumsShuffle(gone: multiset<nat>, kept: multiset<nat>, one: multiset<nat>, was: multiset<nat>)
    ensures (kept + one) + (was + gone) == (one + (gone + kept)) + was
  {
  }

  /** Every request is answered at most once and none is lost: at every moment of every run the requests waiting and the
      requests answered are, counted, exactly the requests that ever arrived. */
  lemma {:induction false} ExactlyOnce(s: Queue, es: seq<Event>)
    requires AllSane(s.waiting) && RunOk(s, es)
    ensures Accounted(Run(s, es)) == Accounted(s) + Requests(AllArrivals(s, es))
    decreases |es|
  {
    if es != [] {
      var e := es[0];
      var s' := Happens(s, e);
      HappensKeepsSane(s, e);
      ExactlyOnce(s', es[1..]);
      RequestsConcat(Arrivals(s, e), AllArrivals(s', es[1..]));
      EventAccounts(s, e);
    }
  }

  lemma EventAccounts(s: Queue, e: Event)
    requires AllSane(s.waiting) && EventOk(s, e)
    ensures Accounted(Happens(s, e)) == Accounted(s) + Requests(Arrivals(s, e))
  {
    match e {
      case Poll(t) => PollAccounts(s, t);
      case Enqueue(tasks) => RequestsConcat(s.waiting, tasks);
    }
  }

  // ---------------------------------------------------------------- bounded waiting

  /** This event runs the task at position `i` or answers it by pushback. */
  ghost predicate Serves(s: Queue, e: Event, i: nat)
    requires AllSane(s.waiting) && EventOk(s, e)
  {
    e.Poll? && i < |s.waiting| && (i == 0 || i <= Shed(s, e.turn))
  }

  function Polls(es: seq<Event>): nat { if es == [] then 0 else (if es[0].Poll? then 1 else 0) + Polls(es[1..]) }

  /** Where the task at position `i` is after an event that does not serve it. */
  function Position(s: Queue, e: Event, i: nat): nat
    requires AllSane(s.waiting) && EventOk(s, e) && i < |s.waiting| && !Serves(s, e, i)
  {
    if e.Poll? then i - 1 - (if e.turn.state == COMPLETED then 0 else Shed(s, e.turn)) else i
  }

  lemma MovesUp(s: Queue, e: Event, i: nat)
    requires AllSane(s.waiting) && EventOk(s, e) && i < |s.waiting| && !Serves(s, e, i)
    ensures var p := Position(s, e, i);
            p < |Happens(s, e).waiting| && Happens(s, e).waiting[p] == s.waiting[i] && p <= i && (e.Poll? ==> p < i)
  {
  }

  /** The task that is at position `i` now is served during the run. */
  ghost predicate Served(s: Queue, es: seq<Event>, i: nat)
    requires AllSane(s.waiting) && RunOk(s, es)
    decreases |es|
  {
    es != [] && i < |s.waiting| &&
    (Serves(s, es[0], i) || (HappensKeepsSane(s, es[0]); Served(Happens(s, es[0]), es[1..], Position(s, es[0], i))))
  }

  /** Bounded waiting: the task at position `i` is run, or answered by pushback, within `i + 1` polls, whatever is
      enqueued or yields in the meantime. */
  lemma {:induction false} BoundedWaiting(s: Queue, es: seq<Event>, i: nat)
    requires AllSane(s.waiting) && RunOk(s, es) && i < |s.waiting| && Polls(es) > i
    ensures Served(s, es, i)
    decreases |es|
  {
    if !Serves(s, es[0], i) {
      MovesUp(s, es[0], i);
      HappensKeepsSane(s, es[0]);
      BoundedWaiting(Happens(s, es[0]), es[1..], Position(s, es[0], i));
    }
  }

  /** Some poll of the run resumes this very task. */
  ghost predicate Runs(s: Queue, es: seq<Event>, task: Task)
    requires AllSane(s.waiting) && RunOk(s, es)
    decreases |es|
  {
    es != [] &&
    ((es[0].Poll? && s.waiting != [] && s.waiting[0] == task)
      || (HappensKeepsSane(s, es[0]); Runs(Happens(s, es[0]), es[1..], task)))
  }

  lemma WithinCreditIsNotShed(s: Queue, t: Turn, i: nat)
    requires AllSane(s.waiting) && TurnOk(s, t) && 0 < i < |s.waiting|
    requires s.waiting[i].state != YIELDED || s.waiting[i].time - s.waiting[i].dbTime <= t.credit
    ensures Shed(s, t) < i
  {
    assert (s.waiting[1..] + t.spawned)[i - 1] == s.waiting[i];
  }

  /** A task that is new, or stays within the credit of every poll, is never shed: within `i + 1` polls it runs. */
  lemma {:induction false} WithinCreditRuns(s: Queue, es: seq<Event>, i: nat)
    requires AllSane(s.waiting) && RunOk(s, es) && i < |s.waiting| && Polls(es) > i
    requires forall e | e in es && e.Poll? ::
               s.waiting[i].state != YIELDED || s.waiting[i].time - s.waiting[i].dbTime <= e.turn.credit
    ensures Runs(s, es, s.waiting[i])
    decreases |es|
  {
    var e := es[0];
    if !(e.Poll? && i == 0) {
      assert e in es;
      if e.Poll? { WithinCreditIsNotShed(s, e.turn, i); }
      MovesUp(s, e, i);
      HappensKeepsSane(s, e);
      WithinCreditRuns(Happens(s, e), es[1..], Position(s, e, i));
    }
  }

  // ---------------------------------------------------------------- the dispatcher stays

  function Dispatchers(q: seq<Task>): nat {
    if q == [] then 0 else (if q[0].kind == Dispatcher then 1 else 0) + Dispatchers(q[1..])
  }

  lemma {:induction false} DispatchersConcat(a: seq<Task>, b: seq<Task>)
    ensures Dispatchers(a + b) == Dispatchers(a) + Dispatchers(b)
  {
    if a == [] {
      assert a + b == b;
    } else {
      DispatchersConcat(a[1..], b);
      assert (a + b)[1..] == a[1..] + b;
    }
  }

  /** Shedding drops tasks without a response, so a second dispatcher could vanish; a single one is never shed. */
  lemma DispatcherStays(s: Queue, t: Turn)
    requires AllSane(s.waiting) && TurnOk(s, t) && Dispatchers(s.waiting) == 1 && Dispatchers(t.spawned) == 0
    ensures Dispatchers(Polled(s, t).waiting) == 1
  {
    var task, rest := s.waiting[0], s.waiting[1..] + t.spawned;
    DispatchersConcat(s.waiting[1..], t.spawned);
    if t.state != COMPLETED { DispatchersSplit(rest, Shed(s, t), AfterRun(task, t)); }
  }

  lemma DispatchersSplit(rest: seq<Task>, j: nat, t: Task)
    requires j <= |rest|
    ensures Dispatchers(rest) == Dispatchers(rest[..j]) + Dispatchers(rest[j..])
    ensures Dispatchers(rest[j..] + [t]) == Dispatchers(rest[j..]) + (if t.kind == Dispatcher then 1 else 0)
    ensures j == 0 ==> Dispatchers(rest[..j]) == 0
  {
    assert [t][1..] == [];
    DispatchersConcat(rest[j..], [t]);
    assert rest[..j] + rest[j..] == rest;
    DispatchersConcat(rest[..j], rest[j..]);
  }
}
