/** The client's task manager for pushed-back extensions (splinter/src/sched.rs, splinter/src/container.rs) and the
    requests it has in flight. */
module ClientTasks {
  import opened Bytes
  import opened Store
  import opened Wire
  import opened Proxies

  datatype TaskState = INITIALIZED | YIELDED | WAITING | COMPLETED

  /** A container with its proxy database; `missing` is the key of a get that was sent and not looked up again. It is
      set together with the proxy's waiting flag, and both are cleared by the `get` after the yield. */
  datatype Task = Task(id: nat, state: TaskState, cache: Cache, missing: Option<Bytes>)

  /** What the generator does when it is resumed, with the cache that its puts leave behind. */
  datatype Resumed = Completes(cache: Cache) | Yields(cache: Cache) | Misses(key: Bytes, cache: Cache)

  /** Puts do not touch the cached reads, and `GET!` asks for a key only if the search of the cache gives the
      sentinel. */
  predicate ResumedOk(t: Task, r: Resumed) {
    && r.cache.readset == t.cache.readset
    && (r.Misses? ==> SearchIndex(t.cache.readset, r.key) == NOT_CACHED)
  }

  /** The `get` of a resumed miss indexes past the cached reads. */
  predicate GetPanics(t: Task) {
    t.missing.Some? && SearchIndex(t.cache.readset, t.missing.value) >= |t.cache.readset|
  }

  /** `Container::run` on a task that may be resumed; a panic completes the task. */
  function RunTask(t: Task, r: Resumed): Task {
    if GetPanics(t) then t.(state := COMPLETED)
    else
      match r
      case Completes(cache) => t.(state := COMPLETED, cache := cache, missing := None)
      case Yields(cache) => t.(state := YIELDED, cache := cache, missing := None)
      case Misses(key, cache) => t.(state := WAITING, cache := cache, missing := Some(key))
  }

  datatype Manager = Manager(ready: seq<Task>, waiting: map<nat, Task>)

  /** What `update_rwset` does to the manager; `None` stands for a panic on a chunk that is too short. */
  function Updated(m: Manager, id: nat, records: Bytes, recordLen: nat, keyLen: nat): Option<Manager>
    requires recordLen > 0
  {
    if id !in m.waiting then Some(m)
    else
      var task := m.waiting[id];
      match LoadAll(task.cache, Chunks(records, recordLen), keyLen)
      case None => None
      case Some(cache) => Some(Manager(m.ready + [task.(cache := cache)], m.waiting - {id}))
  }

  /** The manager after the head of the queue has run: a task that yielded is last in the queue, one that waits for a
      reply is in the map, and one that completed is nowhere. */
  function Executed(m: Manager, r: Resumed): Manager {
    if m.ready == [] then m
    else
      var task := RunTask(m.ready[0], r);
      Manager(m.ready[1..] + (if task.state == YIELDED then [task] else []),
              if task.state == WAITING then m.waiting[task.id := task] else m.waiting)
  }

  class TaskManager {
    var ready: seq<Task>
    var waiting: map<nat, Task>

    function Contents(): Manager reads this { Manager(ready, waiting) }

    constructor ()
      ensures Contents() == Manager([], map[])
    {
      ready, waiting := [], map[];
    }

    /** `create_task`: nothing happens for an extension that is not installed. */
    method CreateTask(id: nat, installed: bool)
      modifies this`waiting
      ensures waiting == if installed then old(waiting)[id := Task(id, INITIALIZED, EMPTY, None)] else old(waiting)
    {
      if installed { waiting := waiting[id := Task(id, INITIALIZED, EMPTY, None)]; }
    }

    method DeleteTask(id: nat)
      modifies this`waiting
      ensures waiting == old(waiting) - {id}
    {
      if id in waiting { waiting := waiting - {id}; }
    }

    /** `update_rwset`: every chunk of the reply into the cache of the task, which becomes ready. */
    method UpdateRwset(id: nat, records: Bytes, recordLen: nat, keyLen: nat) returns (ok: bool)
      requires recordLen > 0
      modifies this
      ensures ok <==> Updated(old(Contents()), id, records, recordLen, keyLen).Some?
      ensures ok ==> Updated(old(Contents()), id, records, recordLen, keyLen) == Some(Contents())
    {
      if id !in waiting { return true; }
      var task := waiting[id];
      waiting := waiting - {id};
      var chunks := Chunks(records, recordLen);
      for i := 0 to |chunks|
        invariant LoadAll(task.cache, chunks[i..], keyLen) == LoadAll(old(waiting)[id].cache, chunks, keyLen)
        invariant task == old(waiting)[id].(cache := task.cache)
      {
        assert chunks[i..][0] == chunks[i] && chunks[i..][1..] == chunks[i + 1..];
        if !Loadable(chunks[i], keyLen) { return false; }
        task := task.(cache := Load(task.cache, chunks[i], keyLen));
      }
      ready := ready + [task];
      return true;
    }

    /** `execute_task`: runs the first ready task and files it according to its state. */
    method ExecuteTask(r: Resumed) returns (state: TaskState)
      modifies this
      ensures Contents() == Executed(old(Contents()), r)
      ensures state == if old(ready) == [] then INITIALIZED else RunTask(old(ready)[0], r).state
    {
      state := INITIALIZED;
      if ready != [] {
        var task := ready[0];
        ready := ready[1..];
        task := RunTask(task, r);
        state := task.state;
        if state != COMPLETED {
          if state == YIELDED { ready := ready + [task]; }
          else if state == WAITING { waiting := waiting[task.id := task]; }
        }
      }
    }
  }

  // ---------------------------------------------------------------- the manager and the network

  /** A request whose reply has not been received. */
  datatype Message = Invoke(id: nat) | Get(id: nat, key: Bytes)

  /** `unknown` are the ids invoked for an extension that the client does not have; `requested` and `finished` record
      what has happened so far. */
  datatype Client =
    Client(manager: Manager, inFlight: multiset<Message>, requested: set<nat>, finished: set<nat>, unknown: set<nat>)

  const START := Client(Manager([], map[]), multiset{}, {}, {}, {})

  datatype Step =
    | Create(id: nat, installed: bool)
    | Done(id: nat)
    | Aborted(id: nat)
    | Reply(message: Message, records: Bytes)
    | Execute(resumed: Resumed)

  ghost predicate IsReady(c: Client, id: nat) {
    exists i :: 0 <= i < |c.manager.ready| && c.manager.ready[i].id == id
  }

  /** An id names one request at a time, replies answer requests in flight and can be split into records. */
  ghost predicate StepOk(g: Config, c: Client, s: Step) {
    match s
    case Create(id, _) => id !in c.manager.waiting && !IsReady(c, id) && id !in c.unknown
    case Done(id) => Invoke(id) in c.inFlight
    case Aborted(id) => Invoke(id) in c.inFlight
    case Reply(message, records) =>
      message in c.inFlight && Updated(c.manager, message.id, records, g.Len(), g.keyLen).Some?
    case Execute(r) => c.manager.ready != [] ==> ResumedOk(c.manager.ready[0], r)
  }

  ghost function After(g: Config, c: Client, s: Step): Client
    requires StepOk(g, c, s)
  {
    match s
    case Create(id, installed) => Created(c, id, installed)
    case Done(id) =>
      c.(manager := c.manager.(waiting := c.manager.waiting - {id}), inFlight := c.inFlight - multiset{Invoke(id)},
         finished := c.finished + {id}, unknown := c.unknown - {id})
    case Aborted(id) => c
    case Reply(message, records) =>
      c.(manager := Updated(c.manager, message.id, records, g.Len(), g.keyLen).value,
         inFlight := c.inFlight - multiset{message},
         finished := c.finished + (c.unknown * {message.id}), unknown := c.unknown - {message.id})
    case Execute(r) => if c.manager.ready == [] then c else Ran(c, r)
  }

  /** The client sends an invocation and then creates the task for it. */
  function Created(c: Client, id: nat, installed: bool): Client {
    var sent := c.(inFlight := c.inFlight + multiset{Invoke(id)},
                   requested := c.requested + {id}, finished := c.finished - {id});
    if installed
    then sent.(manager := c.manager.(waiting := c.manager.waiting[id := Task(id, INITIALIZED, EMPTY, None)]))
    else sent.(unknown := c.unknown + {id})
  }

  /** A task that misses sends a get, a task that completes is finished. */
  function Ran(c: Client, r: Resumed): Client
    requires c.manager.ready != []
  {
    var task := RunTask(c.manager.ready[0], r);
    c.(manager := Executed(c.manager, r),
       inFlight := c.inFlight + (if task.state == WAITING && task.missing.Some?
                                 then multiset{Get(task.id, task.missing.value)} else multiset{}),
       finished := c.finished + (if task.state == COMPLETED then {task.id} else {}))
  }

  ghost predicate RunOk(g: Config, c: Client, steps: seq<Step>)
    decreases |steps|
  {
    steps == [] || (StepOk(g, c, steps[0]) && RunOk(g, After(g, c, steps[0]), steps[1..]))
  }

  ghost function Run(g: Config, c: Client, steps: seq<Step>): Client
    requires RunOk(g, c, steps)
    decreases |steps|
  {
    if steps == [] then c else Run(g, After(g, c, steps[0]), steps[1..])
  }

  // ---------------------------------------------------------------- turns

  /** A resumed task that yields goes behind every other ready one, one that misses waits with its get in flight, one
      that completes is finished, and so is one that indexes past its cached reads. */
  lemma Filed(c: Client, r: Resumed)
    requires c.manager.ready != [] && ResumedOk(c.manager.ready[0], r)
    ensures var t, others, m := c.manager.ready[0], c.manager.ready[1..], c.manager;
            var fails := t.missing.Some? && SearchIndex(t.cache.readset, t.missing.value) >= |t.cache.readset|;
            if r.Completes? || fails then
              Ran(c, r) == c.(manager := m.(ready := others), finished := c.finished + {t.id})
            else if r.Yields? then
              Ran(c, r) == c.(manager := m.(ready := others + [Task(t.id, YIELDED, r.cache, None)]))
            else
              Ran(c, r) ==
                c.(manager := Manager(others, m.waiting[t.id := Task(t.id, WAITING, r.cache, Some(r.key))]),
                   inFlight := c.inFlight + multiset{Get(t.id, r.key)})
  {
    assert c.manager.ready[1..] + [] == c.manager.ready[1..];
  }

  function Executes(steps: seq<Step>): nat {
    if steps == [] then 0 else (if steps[0].Execute? then 1 else 0) + Executes(steps[1..])
  }

  /** Some call of `execute_task` in the run resumes this very task. */
  ghost predicate Resumes(g: Config, c: Client, steps: seq<Step>, task: Task)
    requires RunOk(g, c, steps)
    decreases |steps|
  {
    steps != [] &&
    ((steps[0].Execute? && c.manager.ready != [] && c.manager.ready[0] == task)
      || Resumes(g, After(g, c, steps[0]), steps[1..], task))
  }

  /** Ready tasks take turns: the one at position `i` is resumed, as it is, within `i + 1` calls of `execute_task`,
      whatever arrives or yields in the meantime. */
  lemma {:induction false} TurnsAreBounded(g: Config, c: Client, steps: seq<Step>, i: nat)
    requires RunOk(g, c, steps) && i < |c.manager.ready| && Executes(steps) > i
    ensures Resumes(g, c, steps, c.manager.ready[i])
    decreases |steps|
  {
    var c' := After(g, c, steps[0]);
    if steps[0].Execute? {
      if i > 0 {
        assert c'.manager.ready[i - 1] == c.manager.ready[i];
        TurnsAreBounded(g, c', steps[1..], i - 1);
      }
    } else {
      assert c'.manager.ready[i] == c.manager.ready[i];
      TurnsAreBounded(g, c', steps[1..], i);
    }
  }

  // ---------------------------------------------------------------- where tasks are

  ghost predicate Distinct(ready: seq<Task>) { forall i, j | 0 <= i < j < |ready| :: ready[i].id != ready[j].id }

  /** The places of a request do not overlap and together hold every request. */
  ghost predicate Placed(c: Client) {
    && Distinct(c.manager.ready)
    && (forall i | 0 <= i < |c.manager.ready| ::
          var id := c.manager.ready[i].id;
          id !in c.manager.waiting && id !in c.finished && id !in c.unknown && id in c.requested)
    && (forall id | id in c.manager.waiting :: id !in c.finished && id !in c.unknown && id in c.requested)
    && c.finished !! c.unknown && c.finished <= c.requested && c.unknown <= c.requested
    && (forall id | id in c.requested ::
          IsReady(c, id) || id in c.manager.waiting || id in c.finished || id in c.unknown)
  }

  /** The one message that a waiting task waits for. */
  function Awaits(t: Task): Message { if t.missing.Some? then Get(t.id, t.missing.value) else Invoke(t.id) }

  /** The messages in flight are exactly those awaited, once each. */
  ghost predicate Matched(c: Client) {
    && (forall id | id in c.manager.waiting ::
          c.manager.waiting[id].id == id && Awaits(c.manager.waiting[id]) in c.inFlight)
    && (forall id | id in c.unknown :: Invoke(id) in c.inFlight)
    && (forall m | m in c.inFlight :: c.inFlight[m] == 1 && Expected(c, m))
  }

  ghost predicate Expected(c: Client, m: Message) {
    if m.id in c.manager.waiting then m == Awaits(c.manager.waiting[m.id]) else m.id in c.unknown && m.Invoke?
  }

  ghost predicate Inv(c: Client) { Placed(c) && Matched(c) }

  lemma StepKeepsPlaced(g: Config, c: Client, s: Step)
    requires Inv(c) && StepOk(g, c, s)
    ensures Placed(After(g, c, s))
  {
    var c' := After(g, c, s);
    match s {
      case Create(id, installed) => CreatedKeepsPlaced(c, id, installed);
      case Done(id) => Leaves(c, c', Invoke(id));
      case Aborted(id) =>
      case Reply(message, records) => ReplyKeepsPlaced(g, c, message, records);
      case Execute(r) => if c.manager.ready != [] { RanKeepsPlaced(c, r); }
    }
  }

  lemma ReplyKeepsPlaced(g: Config, c: Client, message: Message, records: Bytes)
    requires Inv(c) && StepOk(g, c, Reply(message, records))
    ensures Placed(After(g, c, Reply(message, records)))
  {
    var c' := After(g, c, Reply(message, records));
    assert Expected(c, message);
    if message.id in c.manager.waiting {
      assert c'.unknown == c.unknown && c'.finished == c.finished;
      Readied(c, c', message.id);
    } else {
      assert c'.finished == c.finished + {message.id};
      assert c'.manager.waiting == c.manager.waiting - {message.id};
      Leaves(c, c', message);
    }
  }

  lemma CreatedKeepsPlaced(c: Client, id: nat, installed: bool)
    requires Placed(c) && id !in c.manager.waiting && !IsReady(c, id) && id !in c.unknown
    ensures Placed(Created(c, id, installed))
  {
    forall other ensures IsReady(Created(c, id, installed), other) <==> IsReady(c, other) {}
  }

  /** A reply that makes no task ready finishes its request. */
  lemma Leaves(c: Client, c': Client, message: Message)
    requires Inv(c) && message in c.inFlight
    requires c'.manager == c.manager.(waiting := c.manager.waiting - {message.id}) && c'.requested == c.requested
    requires c'.finished == c.finished + {message.id} && c'.unknown == c.unknown - {message.id}
    ensures Placed(c')
  {
    assert Expected(c, message);
    forall other ensures IsReady(c', other) <==> IsReady(c, other) {}
  }

  lemma Readied(c: Client, c': Client, id: nat)
    requires Inv(c) && id in c.manager.waiting && c'.manager.waiting == c.manager.waiting - {id}
    requires |c'.manager.ready| == |c.manager.ready| + 1 && c'.manager.ready[..|c.manager.ready|] == c.manager.ready
    requires c'.manager.ready[|c.manager.ready|].id == id
    requires c'.requested == c.requested && c'.finished == c.finished && c'.unknown == c.unknown
    ensures Placed(c')
  {
    var n := |c.manager.ready|;
    forall i | 0 <= i < n ensures c'.manager.ready[i] == c.manager.ready[i] {
      assert c'.manager.ready[..n][i] == c'.manager.ready[i];
    }
    forall other | other in c.requested
      ensures IsReady(c', other) || other in c'.manager.waiting || other in c'.finished || other in c'.unknown
    {
      ReadiedKeepsPlaceOf(c.manager.ready, c, c', id, other);
    }
  }

  lemma ReadiedKeepsPlaceOf(ready: seq<Task>, c: Client, c': Client, id: nat, other: nat)
    requires c.manager.ready == ready && c'.manager.waiting == c.manager.waiting - {id}
    requires |c'.manager.ready| == |ready| + 1 && c'.manager.ready[|ready|].id == id
    requires forall i | 0 <= i < |ready| :: c'.manager.ready[i] == ready[i]
    requires c'.finished == c.finished && c'.unknown == c.unknown
    requires IsReady(c, other) || other in c.manager.waiting || other in c.finished || other in c.unknown
    ensures IsReady(c', other) || other in c'.manager.waiting || other in c'.finished || other in c'.unknown
  {
    if IsReady(c, other) {
      var i :| 0 <= i < |ready| && ready[i].id == other;
      assert c'.manager.ready[i].id == other;
    } else if other == id {
      assert c'.manager.ready[|ready|].id == other;
    }
  }

  lemma RanKeepsPlaced(c: Client, r: Resumed)
    requires Inv(c) && c.manager.ready != [] && ResumedOk(c.manager.ready[0], r)
    ensures Placed(Ran(c, r))
  {
    var c', n := Ran(c, r), |c.manager.ready|;
    forall i | 1 <= i < n ensures c'.manager.ready[i - 1] == c.manager.ready[i] {}
    forall id | id in c'.requested
      ensures IsReady(c', id) || id in c'.manager.waiting || id in c'.finished || id in c'.unknown
    {
      RanKeepsPlaceOf(c, r, id);
    }
  }

  lemma RanKeepsPlaceOf(c: Client, r: Resumed, id: nat)
    requires c.manager.ready != []
    requires IsReady(c, id) || id in c.manager.waiting || id in c.finished || id in c.unknown
    ensures var c' := Ran(c, r); IsReady(c', id) || id in c'.manager.waiting || id in c'.finished || id in c'.unknown
  {
    var c', n := Ran(c, r), |c.manager.ready|;
    if IsReady(c, id) {
      var i :| 0 <= i < n && c.manager.ready[i].id == id;
      if i > 0 {
        assert c'.manager.ready[i - 1].id == id;
      } else if RunTask(c.manager.ready[0], r).state == YIELDED {
        assert c'.manager.ready[n - 1].id == id;
      }
    }
  }

  lemma StepKeepsMatched(g: Config, c: Client, s: Step)
    requires Inv(c) && StepOk(g, c, s)
    ensures Matched(After(g, c, s))
  {
    match s {
      case Create(id, installed) => CreatedKeepsMatched(c, id, installed);
      case Done(id) => ReceivedKeepsMatched(c, After(g, c, s), Invoke(id));
      case Aborted(id) =>
      case Reply(message, records) => ReplyKeepsMatched(g, c, message, records);
      case Execute(r) => if c.manager.ready != [] { RanKeepsMatched(c, r); }
    }
  }

  lemma ReplyKeepsMatched(g: Config, c: Client, message: Message, records: Bytes)
    requires Inv(c) && StepOk(g, c, Reply(message, records))
    ensures Matched(After(g, c, Reply(message, records)))
  {
    var c' := After(g, c, Reply(message, records));
    assert c'.manager.waiting == c.manager.waiting - {message.id};
    ReceivedKeepsMatched(c, c', message);
  }

  lemma CreatedKeepsMatched(c: Client, id: nat, installed: bool)
    requires Inv(c) && id !in c.manager.waiting && !IsReady(c, id) && id !in c.unknown
    ensures Matched(Created(c, id, installed))
  {
    assert !Expected(c, Invoke(id));
    forall m | m in Created(c, id, installed).inFlight
      ensures Created(c, id, installed).inFlight[m] == 1 && Expected(Created(c, id, installed), m)
    {
      if m != Invoke(id) { assert m in c.inFlight && Expected(c, m); }
    }
  }

  /** The message that arrives was the only one for its id, so nothing is left in flight for it. */
  lemma ReceivedKeepsMatched(c: Client, c': Client, message: Message)
    requires Inv(c) && message in c.inFlight && c'.inFlight == c.inFlight - multiset{message}
    requires c'.manager.waiting == c.manager.waiting - {message.id} && c'.unknown == c.unknown - {message.id}
    ensures Matched(c')
  {
    assert Expected(c, message);
    forall m | m in c'.inFlight ensures c'.inFlight[m] == 1 && Expected(c', m) {
      assert m in c.inFlight && Expected(c, m) && c.inFlight[m] == 1;
      assert m != message;
    }
  }

  lemma RanKeepsMatched(c: Client, r: Resumed)
    requires Inv(c) && c.manager.ready != [] && ResumedOk(c.manager.ready[0], r)
    ensures Matched(Ran(c, r))
  {
    var c', task := Ran(c, r), RunTask(c.manager.ready[0], r);
    if task.state == WAITING {
      MissKeepsMatched(c, c', task);
    } else {
      assert c'.manager.waiting == c.manager.waiting && c'.inFlight == c.inFlight && c'.unknown == c.unknown;
      forall m | m in c'.inFlight ensures Expected(c', m) { assert Expected(c, m); }
    }
  }

  /** The get of a task that was ready is the only message for it. */
  lemma MissKeepsMatched(c: Client, c': Client, task: Task)
    requires Inv(c) && task.missing.Some? && task.id !in c.manager.waiting && task.id !in c.unknown
    requires c'.manager.waiting == c.manager.waiting[task.id := task] && c'.unknown == c.unknown
    requires c'.inFlight == c.inFlight + multiset{Awaits(task)}
    ensures Matched(c')
  {
    forall m | m in c.inFlight ensures m.id != task.id { assert Expected(c, m); }
    forall m | m in c'.inFlight ensures c'.inFlight[m] == 1 && Expected(c', m) {
      if m in c.inFlight { assert Expected(c, m); }
    }
  }

  lemma {:induction false} RunKeepsInv(g: Config, c: Client, steps: seq<Step>)
    requires Inv(c) && RunOk(g, c, steps)
    ensures Inv(Run(g, c, steps))
    decreases |steps|
  {
    if steps != [] {
      StepKeepsPlaced(g, c, steps[0]);
      StepKeepsMatched(g, c, steps[0]);
      RunKeepsInv(g, After(g, c, steps[0]), steps[1..]);
    }
  }

  /** With ids used for one request at a time, every request is in exactly one place in every reachable state, and a
      ready task is in the queue once. */
  lemma ExactlyOnePlace(g: Config, steps: seq<Step>, id: nat)
    requires RunOk(g, START, steps)
    ensures var c := Run(g, START, steps);
            && (id in c.requested ==> IsReady(c, id) || id in c.manager.waiting || id in c.finished || id in c.unknown)
            && (IsReady(c, id) ==> id !in c.manager.waiting && id !in c.finished && id !in c.unknown)
            && (id in c.manager.waiting ==> id !in c.finished && id !in c.unknown)
            && (id in c.finished ==> id !in c.unknown)
            && Distinct(c.manager.ready)
  {
    RunKeepsInv(g, START, steps);
  }

  /** A task suspended on a miss has its get in flight, once, and no other message; a ready or finished one has none. */
  lemma OneOutstandingGet(g: Config, steps: seq<Step>, id: nat)
    requires RunOk(g, START, steps)
    ensures var c := Run(g, START, steps);
            && (id in c.manager.waiting && c.manager.waiting[id].missing.Some? ==>
                  c.inFlight[Get(id, c.manager.waiting[id].missing.value)] == 1)
            && (id in c.manager.waiting ==>
                  forall m | m in c.inFlight && m.id == id :: m == Awaits(c.manager.waiting[id]))
            && (IsReady(c, id) || id in c.finished ==> forall m | m in c.inFlight :: m.id != id)
  {
    RunKeepsInv(g, START, steps);
    var c := Run(g, START, steps);
    forall m | m in c.inFlight ensures Expected(c, m) && c.inFlight[m] == 1 {}
  }

  // ---------------------------------------------------------------- the get after a resumed miss

  /** The reply to a get is one record of the configured lengths, with the key that was asked for. */
  ghost predicate Answers(g: Config, m: Message, records: Bytes) {
    m.Get? ==>
      exists r: Record ::
        EncodeRecord(r) == records && r.key == m.key && r.optype == Read && |r.key| == g.keyLen && |records| == g.Len()
  }

  ghost predicate Answered(g: Config, s: Step) { s.Reply? ==> Answers(g, s.message, s.records) }

  /** Every ready task finds the key that it was suspended on. */
  ghost predicate Found(c: Client) {
    forall i | 0 <= i < |c.manager.ready| :: Finds(c.manager.ready[i])
  }

  ghost predicate Finds(t: Task) { t.missing.Some? ==> Cached(t.cache.readset, t.missing.value) }

  lemma AnswerIsCached(g: Config, t: Task, records: Bytes)
    requires t.missing.Some? && Answers(g, Awaits(t), records)
    ensures var loaded := LoadAll(t.cache, Chunks(records, g.Len()), g.keyLen);
            loaded.Some? && Cached(loaded.value.readset, t.missing.value)
  {
    var r: Record :| EncodeRecord(r) == records && r.key == t.missing.value && r.optype == Read
        && |r.key| == g.keyLen && |records| == g.Len();
    LoadOfEncoding(t.cache, r);
    assert Chunks(records, |records|) == [records];
    var loaded := AddRecord(t.cache, r);
    assert LoadAll(loaded, [], g.keyLen) == Some(loaded);
    assert [records][1..] == [];
    assert loaded.readset[|t.cache.readset|].key == r.key;
  }

  /** The task that a reply makes ready finds its key. */
  lemma ReplyIsFound(g: Config, c: Client, message: Message, records: Bytes)
    requires Matched(c) && StepOk(g, c, Reply(message, records)) && Answers(g, message, records)
    requires message.id in c.manager.waiting
    ensures var ready := Updated(c.manager, message.id, records, g.Len(), g.keyLen).value.ready;
            && |ready| == |c.manager.ready| + 1 && ready[..|c.manager.ready|] == c.manager.ready
            && Finds(ready[|c.manager.ready|])
  {
    assert Expected(c, message);
    var task := c.manager.waiting[message.id];
    if task.missing.Some? { AnswerIsCached(g, task, records); }
  }

  lemma StepKeepsFound(g: Config, c: Client, s: Step)
    requires Inv(c) && Found(c) && StepOk(g, c, s) && Answered(g, s)
    ensures Found(After(g, c, s))
  {
    match s {
      case Create(id, installed) =>
      case Done(id) =>
      case Aborted(id) =>
      case Reply(message, records) =>
        if message.id in c.manager.waiting {
          ReplyIsFound(g, c, message, records);
          FoundExtends(c.manager.ready, After(g, c, s).manager.ready);
        }
      case Execute(r) => if c.manager.ready != [] { RanKeepsFound(c, r); }
    }
  }

  lemma FoundExtends(ready: seq<Task>, ready': seq<Task>)
    requires |ready'| == |ready| + 1 && ready'[..|ready|] == ready && Finds(ready'[|ready|])
    requires forall i | 0 <= i < |ready| :: Finds(ready[i])
    ensures forall i | 0 <= i < |ready'| :: Finds(ready'[i])
  {
    forall i | 0 <= i < |ready'| ensures Finds(ready'[i]) {
      if i < |ready| { assert ready'[..|ready|][i] == ready'[i]; }
    }
  }

  lemma RanKeepsFound(c: Client, r: Resumed)
    requires Found(c) && c.manager.ready != []
    ensures Found(Ran(c, r))
  {
  }

  lemma {:induction false} RunKeepsFound(g: Config, c: Client, steps: seq<Step>)
    requires Inv(c) && Found(c) && RunOk(g, c, steps) && forall s | s in steps :: Answered(g, s)
    ensures Found(Run(g, c, steps))
    decreases |steps|
  {
    if steps != [] {
      StepKeepsPlaced(g, c, steps[0]);
      StepKeepsMatched(g, c, steps[0]);
      StepKeepsFound(g, c, steps[0]);
      RunKeepsFound(g, After(g, c, steps[0]), steps[1..]);
    }
  }

  /** When every get is answered with the key it asked for, no resumed task ever panics in its `get`, and what it finds
      is the first cached record of that key. */
  lemma ResumedGetFinds(g: Config, steps: seq<Step>, i: nat)
    requires RunOk(g, START, steps) && forall s | s in steps :: Answered(g, s)
    requires i < |Run(g, START, steps).manager.ready|
    ensures var t := Run(g, START, steps).manager.ready[i];
            !GetPanics(t) &&
            (t.missing.Some? ==> t.cache.readset[SearchIndex(t.cache.readset, t.missing.value)].key == t.missing.value)
  {
    RunKeepsFound(g, START, steps);
    assert Finds(Run(g, START, steps).manager.ready[i]);
  }
}
