/** Extensions that run on the server, are pushed back at a yield, start over on the client against the cache and
    commit by RPC, beside any other traffic on the table (db/src/context.rs, db/src/container.rs,
    splinter/src/proxy.rs, splinter/src/container.rs, sandstorm/src/macros.rs, db/src/master.rs). */
module Pushback {
  import opened Bytes
  import opened Store
  import opened History
  import opened Wire
  import opened Proxies

  datatype Action = AGet(key: Key) | APut(key: Key, value: Value) | AYield | ADone
  datatype Obs = Found(value: Value) | Absent | Unit

  /** A deterministic extension: its next action is a function of what its actions returned so far. */
  type Program = seq<Obs> -> Action

  /** A doomed task has panicked on the client: it counts as completed, and its commit request is still to be served. */
  datatype Side = Server | Client | Doomed | Finished(outcome: Outcome) | Crashed

  /** `cache` is the client's proxy database. `serverObs` is what the abandoned server run had seen, and `sent` the
      records that the server pushed back and the client added, as they were before any encoding. */
  datatype Task = Task(prog: Program, config: Config, side: Side, obs: seq<Obs>, serverObs: seq<Obs>, sent: seq<Record>,
                       cache: Cache)

  datatype World = World(sys: Sys, tasks: map<nat, Task>)

  datatype WStep =
    | Spawn(id: nat, prog: Program, config: Config)
    | ServerRun(id: nat, ticks: nat)
    | PushBack(id: nat)
    | ClientRun(id: nat, ticks: nat)
    | Env(step: Step)

  ghost const START := World(INIT, map[])

  // ---------------------------------------------------------------- one atomic run

  function Answer(a: Action, m: map<Key, Value>): Obs {
    match a
    case AGet(k) => if k in m then Found(m[k]) else Absent
    case _ => Unit
  }

  /** What the first `n` actions return if nothing else happens to a table with contents `m`. */
  ghost function AtomicObs(prog: Program, m: map<Key, Value>, n: nat): (obs: seq<Obs>)
    ensures |obs| == n
  {
    if n == 0 then []
    else
      var obs := AtomicObs(prog, m, n - 1);
      obs + [Answer(prog(obs), m)]
  }

  /** The puts made along a sequence of observations. */
  ghost function Writes(prog: Program, obs: seq<Obs>): seq<Record> {
    if obs == [] then []
    else
      var front := obs[..|obs| - 1];
      Writes(prog, front) + match prog(front) case APut(k, v) => [Record(Write, 0, k, v)] case _ => []
  }

  // ---------------------------------------------------------------- steps

  function WithTask(w: World, sys: Sys, id: nat, task: Task): World { World(sys, w.tasks[id := task]) }

  function Observe(task: Task, o: Obs): Task { task.(obs := task.obs + [o]) }

  function ReadRecordOf(s: Sys, k: Key): Record
    requires k in s.table.entries
  {
    Record(Read, s.table.entries[k].version, k, s.table.entries[k].value)
  }

  function CommitOutcome(s: Sys, id: nat, ticks: nat): Outcome {
    Validate(s.table, TxOf(s, id), s.clock + 1 + ticks).0
  }

  function ServerStep(w: World, id: nat, ticks: nat): World
    requires id in w.tasks
  {
    var task := w.tasks[id];
    match task.prog(task.obs)
    case AGet(k) => WithTask(w, Next(w.sys, TxGet(id, k)), id,
        Observe(task, Answer(AGet(k), Values(w.sys.table.entries))))
    case APut(k, v) => WithTask(w, Next(w.sys, TxPut(id, k, v)), id, Observe(task, Unit))
    case AYield => WithTask(w, w.sys, id, Observe(task, Unit))
    case ADone =>
      WithTask(w, Next(w.sys, Commit(id, ticks)), id, task.(side := Finished(CommitOutcome(w.sys, id, ticks))))
  }

  /** The server validates the transaction that it has parsed. If that is not the one the task recorded, the history is
      no longer about what callers did, which counts as a crash. */
  function Requested(s: Sys, id: nat, tx: Tx, ticks: nat): Sys {
    var s' := Next(s.(txs := s.txs[id := tx]), Commit(id, ticks));
    if tx == TxOf(s, id) || Validate(s.table, tx, s.clock + 1 + ticks).0 == Aborted then s' else s'.(crashed := true)
  }

  /** How a task ends whose request has been decided. */
  function Ended(task: Task, outcome: Outcome): Task {
    task.(side := if task.side == Doomed then Crashed else Finished(outcome))
  }

  /** `tear` on the client and the commit handler on the server. */
  ghost function SendCommit(w: World, id: nat, ticks: nat): World
    requires id in w.tasks
  {
    var task, s := w.tasks[id], w.sys;
    match CommitRequest(task.cache)
    case NoRpc => WithTask(w, s, id, Ended(task, Committed))
    case PayloadTooLong => WithTask(w, s, id, task.(side := Crashed))
    case Rpc(payload, keyLen, valLen) =>
      match ParsePayload(payload, keyLen, valLen) {
        case Parsed(tx) =>
          var outcome := Validate(s.table, tx, s.clock + 1 + ticks).0;
          WithTask(w, Requested(s, id, tx, ticks), id, Ended(task, outcome))
        case _ => WithTask(w, s, id, task.(side := Crashed))
      }
  }

  /** The `get` after a resumed miss: indexing past the cached reads panics. */
  function ResumeGet(w: World, sys: Sys, id: nat, task: Task, k: Key): World {
    var index := SearchIndex(task.cache.readset, k);
    if index < |task.cache.readset| then WithTask(w, sys, id, Observe(task, Found(task.cache.readset[index].value)))
    else WithTask(w, sys, id, task.(side := Doomed))
  }

  /** A miss: the server's reply is empty if it does not have the key; a reply that cannot be split ends the client. */
  function Fetch(w: World, id: nat, k: Key): World
    requires id in w.tasks
  {
    var task, s := w.tasks[id], w.sys;
    if k !in s.table.entries then ResumeGet(w, s, id, task, k)
    else
      var r := ReadRecordOf(s, k);
      match LoadAll(task.cache, Chunks(EncodeRecord(r), task.config.Len()), task.config.keyLen)
      case None => WithTask(w, s, id, task.(side := Crashed))
      case Some(cache) => ResumeGet(w, Next(s, TxGet(id, k)), id, task.(cache := cache, sent := task.sent + [r]), k)
  }

  /** `put` asserts a buffer of 138 bytes, eight of them the version, and takes the first 30 of the rest as the key. */
  predicate PutFits(k: Key, v: Value) { |PutBuffer(k, v)| == PUT_SIZE }

  /** `GET!` answers from the cache or fetches. A panic in the extension completes the task. */
  ghost function ClientStep(w: World, id: nat, ticks: nat): World
    requires id in w.tasks
  {
    var task, s := w.tasks[id], w.sys;
    match task.prog(task.obs)
    case AGet(k) =>
      var index := SearchIndex(task.cache.readset, k);
      if index != NOT_CACHED then WithTask(w, s, id, Observe(task, Found(task.cache.readset[index].value)))
          else Fetch(w, id, k)
    case APut(k, v) =>
      if PutFits(k, v) then
        var cache := SetRecord(task.cache, Write, PutBuffer(k, v), PUT_KEY_LEN);
        WithTask(w, Next(s, TxPut(id, k, v)), id,
                 Observe(task, Unit).(sent := task.sent + [Record(Write, 0, k, v)], cache := cache))
      else WithTask(w, s, id, task.(side := Doomed))
    case AYield => WithTask(w, s, id, Observe(task, Unit))
    case ADone => SendCommit(w, id, ticks)
  }

  /** The client starts over with the read and write sets of the server in its cache. */
  function Pushed(w: World, id: nat): World
    requires id in w.tasks
  {
    var task, tx := w.tasks[id], TxOf(w.sys, id);
    match LoadAll(EMPTY, Chunks(PushbackPayload(tx), task.config.Len()), task.config.keyLen)
    case None => WithTask(w, w.sys, id, task.(side := Crashed))
    case Some(cache) =>
      WithTask(w, w.sys, id, task.(side := Client, obs := [], serverObs := task.obs,
                                   sent := tx.readSet + tx.writeSet, cache := cache))
  }

  predicate Touches(step: Step, id: nat) {
    (step.TxGet? || step.TxPut? || step.Commit?) && step.id == id
  }

  ghost function WNext(w: World, step: WStep): World {
    match step
    case Spawn(id, prog, config) =>
      if id in w.tasks || id in w.sys.txs then w
      else WithTask(w, w.sys, id, Task(prog, config, Server, [], [], [], EMPTY))
    case ServerRun(id, ticks) => if id in w.tasks && w.tasks[id].side == Server then ServerStep(w, id, ticks) else w
    case PushBack(id) =>
      if id in w.tasks && w.tasks[id].side == Server && Yielded(w.tasks[id]) then Pushed(w, id) else w
    case ClientRun(id, ticks) =>
      if id in w.tasks && w.tasks[id].side == Client then ClientStep(w, id, ticks)
      else if id in w.tasks && w.tasks[id].side == Doomed then SendCommit(w, id, ticks)
      else w
    case Env(s) => if exists id :: id in w.tasks && Touches(s, id) then w else w.(sys := Next(w.sys, s))
  }

  /** Only a task that has just yielded can be stopped. */
  predicate Yielded(task: Task) {
    task.obs != [] && task.prog(task.obs[..|task.obs| - 1]) == AYield
  }

  ghost function WRun(w: World, steps: seq<WStep>): World {
    if steps == [] then w else WNext(WRun(w, steps[..|steps| - 1]), steps[|steps| - 1])
  }

  // ---------------------------------------------------------------- invariant

  /** Action `i` was not the end, its observation has the right kind, and a value read is on record. */
  ghost predicate ObsOk(prog: Program, obs: seq<Obs>, i: nat, readSet: seq<Record>)
    requires i < |obs|
  {
    match prog(obs[..i])
    case ADone => false
    case AGet(k) => (match obs[i]
                     case Unit => false
                     case Absent => true
                     case Found(v) => OnRecord(readSet, k, v))
    case _ => obs[i] == Unit
  }

  ghost predicate OnRecord(readSet: seq<Record>, k: Key, v: Value) {
    exists j :: 0 <= j < |readSet| && readSet[j].key == k && readSet[j].value == v
  }

  ghost predicate Along(prog: Program, obs: seq<Obs>, readSet: seq<Record>) {
    forall i | 0 <= i < |obs| :: ObsOk(prog, obs, i, readSet)
  }

  /** The task's records have the lengths that its client is configured with, and are fewer than the 1024 that stand for
      a miss in `search_cache`. */
  ghost predicate Clean(task: Task) {
    Uniform(task.sent, task.config.keyLen, task.config.valLen) && |task.sent| < NOT_CACHED
  }

  /** The records fit one commit request, and its header gets their lengths: from a read, or from a write that was split
      at the key length. The client's `put` splits at 30 bytes. */
  ghost predicate Sendable(task: Task) {
    && Uniform(task.sent, task.config.keyLen, task.config.valLen) && |EncodeAll(task.sent)| <= MAX_COMMIT_PAYLOAD
    && (OfType(task.sent, Read) != [] || SplitsRight(task))
  }

  ghost predicate SplitsRight(task: Task) {
    task.config.keyLen == PUT_KEY_LEN || Writes(task.prog, task.obs) == []
  }

  /** The cache holds these records; `exact` says that its writes are split at the right place too. */
  ghost predicate Mirrors(cache: Cache, sent: seq<Record>, exact: bool) {
    && cache.readset == KVs(OfType(sent, Read)) && cache.commitPayload == EncodeAll(sent)
    && |cache.writeset| == |OfType(sent, Write)| && (exact ==> cache.writeset == KVs(OfType(sent, Write)))
  }

  /** What is known of a task after a pushback as long as it is clean: its cache is the records themselves. */
  ghost predicate ReplayInv(task: Task, tx: Tx) {
    && Along(task.prog, task.serverObs, tx.readSet) && Along(task.prog, task.obs, tx.readSet)
    && tx.writeSet == Writes(task.prog, task.serverObs) + Writes(task.prog, task.obs)
    && OfType(task.sent, Read) == tx.readSet && OfType(task.sent, Write) == tx.writeSet
    && Mirrors(task.cache, task.sent, SplitsRight(task))
  }

  ghost predicate TaskInv(task: Task, tx: Tx) {
    match task.side
    case Server => Typed(tx) && Along(task.prog, task.obs, tx.readSet) && tx.writeSet == Writes(task.prog, task.obs)
    case Client => Clean(task) ==> ReplayInv(task, tx)
    case Doomed => Clean(task) ==> ReplayInv(task, tx)
    case _ => true
  }

  ghost predicate WInv(w: World) {
    && History.Inv(w.sys)
    && forall id | id in w.tasks :: TaskInv(w.tasks[id], TxOf(w.sys, id))
  }

  lemma OtherStepsKeepTx(s: Sys, step: Step, id: nat)
    requires !Touches(step, id)
    ensures TxOf(Next(s, step), id) == TxOf(s, id)
  {
  }

  lemma AlongGrows(prog: Program, obs: seq<Obs>, readSet: seq<Record>, more: seq<Record>)
    requires Along(prog, obs, readSet)
    ensures Along(prog, obs, readSet + more)
  {
    forall i | 0 <= i < |obs| ensures ObsOk(prog, obs, i, readSet + more) {
      assert ObsOk(prog, obs, i, readSet);
      if prog(obs[..i]).AGet? && obs[i].Found? {
        var j :| 0 <= j < |readSet| && readSet[j].key == prog(obs[..i]).key && readSet[j].value == obs[i].value;
        assert (readSet + more)[j] == readSet[j];
      }
    }
  }

  lemma AlongExtends(prog: Program, obs: seq<Obs>, o: Obs, readSet: seq<Record>)
    requires Along(prog, obs, readSet) && ObsOk(prog, obs + [o], |obs|, readSet)
    ensures Along(prog, obs + [o], readSet)
  {
    var longer := obs + [o];
    forall i | 0 <= i < |longer| ensures ObsOk(prog, longer, i, readSet) {
      if i < |obs| { assert longer[..i] == obs[..i] && ObsOk(prog, obs, i, readSet); }
    }
  }

  lemma WritesExtends(prog: Program, obs: seq<Obs>, o: Obs)
    ensures Writes(prog, obs + [o]) ==
            Writes(prog, obs) + match prog(obs) case APut(k, v) => [Record(Write, 0, k, v)] case _ => []
    ensures (obs + [o])[..|obs|] == obs
  {
    assert (obs + [o])[..|obs|] == obs;
  }

  /** The writes of the first `n` actions of an atomic run. */
  ghost function AtomicWrites(prog: Program, m: map<Key, Value>, n: nat): seq<Record> {
    Writes(prog, AtomicObs(prog, m, n))
  }

  /** The writes of `n` actions are those of `n - 1` and the last one's. */
  lemma AtomicWritesStep(prog: Program, m: map<Key, Value>, n: nat)
    requires n > 0
    ensures AtomicWrites(prog, m, n) == AtomicWrites(prog, m, n - 1) +
              match prog(AtomicObs(prog, m, n - 1)) case APut(k, v) => [Record(Write, 0, k, v)] case _ => []
  {
    var front := AtomicObs(prog, m, n - 1);
    WritesExtends(prog, front, Answer(prog(front), m));
  }

  lemma OnlyTaskChanges(w: World, id: nat, task: Task)
    requires WInv(w) && TaskInv(task, TxOf(w.sys, id))
    ensures WInv(WithTask(w, w.sys, id, task))
  {
  }

  /** A step of task `id` leaves the other tasks alone. */
  lemma OthersUnaffected(w: World, step: Step, id: nat, task: Task)
    requires WInv(w) && id in w.tasks
    requires forall other | other != id :: !Touches(step, other)
    requires TaskInv(task, TxOf(Next(w.sys, step), id))
    ensures WInv(WithTask(w, Next(w.sys, step), id, task))
  {
    NextKeepsInv(w.sys, step);
    forall other | other in w.tasks && other != id ensures TaskInv(w.tasks[other], TxOf(Next(w.sys, step), other)) {
      OtherStepsKeepTx(w.sys, step, other);
    }
  }

  lemma LastRead(readSet: seq<Record>, r: Record)
    ensures OnRecord(readSet + [r], r.key, r.value)
  {
    assert (readSet + [r])[|readSet|] == r;
  }

  lemma ServerGetKeepsTask(task: Task, tx: Tx, r: Record)
    requires task.side == Server && TaskInv(task, tx) && task.prog(task.obs) == AGet(r.key) && r.optype == Read
    ensures TaskInv(Observe(task, Found(r.value)), tx.(readSet := tx.readSet + [r]))
  {
    WritesExtends(task.prog, task.obs, Found(r.value));
    AlongGrows(task.prog, task.obs, tx.readSet, [r]);
    LastRead(tx.readSet, r);
    AlongExtends(task.prog, task.obs, Found(r.value), tx.readSet + [r]);
  }

  lemma ServerGetKeepsInv(w: World, id: nat, ticks: nat, k: Key)
    requires WInv(w) && id in w.tasks && w.tasks[id].side == Server && w.tasks[id].prog(w.tasks[id].obs) == AGet(k)
    ensures WInv(ServerStep(w, id, ticks))
  {
    var task, tx := w.tasks[id], TxOf(w.sys, id);
    assert TaskInv(task, tx);
    if k in w.sys.table.entries {
      var r := ReadRecordOf(w.sys, k);
      ServerGetKeepsTask(task, tx, r);
      OthersUnaffected(w, TxGet(id, k), id, Observe(task, Found(r.value)));
    } else {
      WritesExtends(task.prog, task.obs, Absent);
      AlongExtends(task.prog, task.obs, Absent, tx.readSet);
      OnlyTaskChanges(w, id, Observe(task, Absent));
    }
  }

  lemma ServerPutKeepsInv(w: World, id: nat, ticks: nat, k: Key, v: Value)
    requires WInv(w) && id in w.tasks && w.tasks[id].side == Server && w.tasks[id].prog(w.tasks[id].obs) == APut(k, v)
    ensures WInv(ServerStep(w, id, ticks))
  {
    var task, tx := w.tasks[id], TxOf(w.sys, id);
    assert TaskInv(task, tx);
    WritesExtends(task.prog, task.obs, Unit);
    AlongExtends(task.prog, task.obs, Unit, tx.readSet);
    OthersUnaffected(w, TxPut(id, k, v), id, Observe(task, Unit));
  }

  lemma ServerYieldKeepsInv(w: World, id: nat, ticks: nat)
    requires WInv(w) && id in w.tasks && w.tasks[id].side == Server && w.tasks[id].prog(w.tasks[id].obs) == AYield
    ensures WInv(ServerStep(w, id, ticks))
  {
    var task, tx := w.tasks[id], TxOf(w.sys, id);
    assert TaskInv(task, tx);
    WritesExtends(task.prog, task.obs, Unit);
    AlongExtends(task.prog, task.obs, Unit, tx.readSet);
    OnlyTaskChanges(w, id, Observe(task, Unit));
  }

  lemma ServerStepKeepsInv(w: World, id: nat, ticks: nat)
    requires WInv(w) && id in w.tasks && w.tasks[id].side == Server
    ensures WInv(ServerStep(w, id, ticks))
  {
    var task := w.tasks[id];
    match task.prog(task.obs) {
      case AGet(k) => ServerGetKeepsInv(w, id, ticks, k);
      case APut(k, v) => ServerPutKeepsInv(w, id, ticks, k, v);
      case AYield => ServerYieldKeepsInv(w, id, ticks);
      case ADone =>
        OthersUnaffected(w, Commit(id, ticks), id, task.(side := Finished(CommitOutcome(w.sys, id, ticks))));
    }
  }

  // ---------------------------------------------------------------- a clean task's cache is its records

  /** Every record takes at least ten bytes, so a cache that can be committed is far from the 1024 of `search_cache`. */
  lemma {:induction false} RecordsTakeRoom(rs: seq<Record>)
    ensures 10 * |rs| <= |EncodeAll(rs)|
  {
    if rs != [] {
      EncodeRecordShape(rs[0]);
      RecordsTakeRoom(rs[1..]);
    }
  }

  lemma {:induction false} OfTypeIsShorter(rs: seq<Record>, op: OpType)
    ensures |OfType(rs, op)| <= |rs|
  {
    if rs != [] { OfTypeIsShorter(rs[1..], op); }
  }

  /** Searching a list of cached records finds the first record of the key, or there is none. */
  lemma SearchRecords(rs: seq<Record>, k: Key)
    requires |rs| < NOT_CACHED
    ensures var index := SearchIndex(KVs(rs), k);
            if index < |rs| then rs[index].key == k && KVs(rs)[index].value == rs[index].value
            else index == NOT_CACHED && forall i | 0 <= i < |rs| :: rs[i].key != k
  {
    if SearchIndex(KVs(rs), k) >= |rs| {
      forall i | 0 <= i < |rs| ensures rs[i].key != k { assert KVs(rs)[i].key == rs[i].key; }
    }
  }

  lemma SendableIsClean(task: Task)
    requires Sendable(task)
    ensures Clean(task)
  {
    RecordsTakeRoom(task.sent);
  }

  lemma CleanSearch(task: Task, tx: Tx, k: Key)
    requires Clean(task) && ReplayInv(task, tx)
    ensures var index := SearchIndex(task.cache.readset, k);
            && |task.cache.readset| == |tx.readSet| < NOT_CACHED
            && (index < |tx.readSet| ==>
                  task.cache.readset[index].value == tx.readSet[index].value && tx.readSet[index].key == k)
            && (index >= |tx.readSet| ==>
                  index == NOT_CACHED && forall i | 0 <= i < |tx.readSet| :: tx.readSet[i].key != k)
  {
    OfTypeIsShorter(task.sent, Read);
    SearchRecords(tx.readSet, k);
  }

  lemma KVsAppend(rs: seq<Record>, r: Record)
    ensures KVs(rs + [r]) == KVs(rs) + [ToKV(r)]
  {
  }

  lemma LoadedMirrors(sent: seq<Record>, exact: bool)
    ensures Mirrors(Loaded(EMPTY, sent), sent, exact)
  {
    LoadedIntoEmpty(sent);
  }

  lemma EncodeAllAppend(sent: seq<Record>, r: Record)
    ensures EncodeAll(sent + [r]) == EncodeAll(sent) + EncodeRecord(r)
  {
    EncodeAllConcat(sent, [r]);
    assert EncodeAll([r]) == EncodeRecord(r) by { assert [r][1..] == []; }
  }

  lemma ReadMirrors(cache: Cache, sent: seq<Record>, exact: bool, r: Record)
    requires Mirrors(cache, sent, exact) && r.optype == Read
    ensures Mirrors(AddRecord(cache, r), sent + [r], exact)
  {
    AppendSent(sent, r);
    EncodeAllAppend(sent, r);
    KVsAppend(OfType(sent, Read), r);
  }

  lemma PutMirrors(cache: Cache, sent: seq<Record>, exact: bool, k: Key, v: Value)
    requires Mirrors(cache, sent, exact) && PutFits(k, v)
    ensures Mirrors(SetRecord(cache, Write, PutBuffer(k, v), PUT_KEY_LEN), sent + [Record(Write, 0, k, v)],
                    exact && |k| == PUT_KEY_LEN)
  {
    var r := Record(Write, 0, k, v);
    AppendSent(sent, r);
    EncodeAllAppend(sent, r);
    PutEncodes(k, v);
    Associative(cache.commitPayload, [OpByte(Write)], PutBuffer(k, v));
    if |k| == PUT_KEY_LEN {
      PutLoads(cache, k, v);
      KVsAppend(OfType(sent, Write), r);
    }
  }

  lemma AppendSent(sent: seq<Record>, r: Record)
    ensures OfType(sent + [r], r.optype) == OfType(sent, r.optype) + [r]
    ensures forall op | op != r.optype :: OfType(sent + [r], op) == OfType(sent, op)
  {
    forall op ensures OfType(sent + [r], op) == OfType(sent, op) + if op == r.optype then [r] else [] {
      OfTypeConcat(sent, [r], op);
      assert [r][1..] == [];
    }
  }

  lemma CleanPrefix(task: Task, task': Task)
    requires Clean(task') && task'.config == task.config && task.sent <= task'.sent
    ensures Clean(task)
  {
    forall i | 0 <= i < |task.sent| ensures task.sent[i] == task'.sent[i] {}
  }

  /** A reply of the configured lengths goes into the cache as one record. */
  lemma ReplyLoads(cache: Cache, r: Record, config: Config)
    requires |r.key| == config.keyLen && |r.value| == config.valLen
    ensures LoadAll(cache, Chunks(EncodeRecord(r), config.Len()), config.keyLen) == Some(AddRecord(cache, r))
  {
    EncodeRecordShape(r);
    LoadOfEncoding(cache, r);
    var e := EncodeRecord(r);
    var chunks := Chunks(e, config.Len());
    assert chunks == [e] && chunks[1..] == [];
    assert LoadAll(AddRecord(cache, r), [], config.keyLen) == Some(AddRecord(cache, r));
  }

  lemma PutLoads(cache: Cache, k: Key, v: Value)
    requires PutFits(k, v) && |k| == PUT_KEY_LEN
    ensures SetRecord(cache, Write, PutBuffer(k, v), PUT_KEY_LEN) == AddRecord(cache, Record(Write, 0, k, v))
  {
    ClientPutIsExactIff(k, v);
    ZeroVersion();
    PutEncodes(k, v);
    Associative(cache.commitPayload, [OpByte(Write)], PutBuffer(k, v));
  }

  lemma PutEncodes(k: Key, v: Value)
    ensures EncodeRecord(Record(Write, 0, k, v)) == [OpByte(Write)] + PutBuffer(k, v)
  {
    ZeroVersion();
  }

  lemma FetchKeepsTask(task: Task, tx: Tx, r: Record, cache: Cache)
    requires (Clean(task) ==> ReplayInv(task, tx)) && task.prog(task.obs) == AGet(r.key) && r.optype == Read
    requires LoadAll(task.cache, Chunks(EncodeRecord(r), task.config.Len()), task.config.keyLen) == Some(cache)
    requires SearchIndex(task.cache.readset, r.key) == NOT_CACHED
    ensures var task', tx' := task.(cache := cache, sent := task.sent + [r]), tx.(readSet := tx.readSet + [r]);
            var index := SearchIndex(cache.readset, r.key);
            Clean(task') ==>
              && ReplayInv(task', tx')
              && index == |tx.readSet| < |cache.readset| && cache.readset[index].value == r.value
  {
    var task' := task.(cache := cache, sent := task.sent + [r]);
    if Clean(task') {
      CleanPrefix(task, task');
      assert task'.sent[|task.sent|] == r;
      ReplyLoads(task.cache, r, task.config);
      ReadMirrors(task.cache, task.sent, SplitsRight(task), r);
      AlongGrows(task.prog, task.obs, tx.readSet, [r]);
      AlongGrows(task.prog, task.serverObs, tx.readSet, [r]);
      AppendSent(task.sent, r);
      CleanSearch(task, tx, r.key);
      var tx' := tx.(readSet := tx.readSet + [r]);
      CleanSearch(task', tx', r.key);
      assert tx'.readSet[|tx.readSet|] == r;
    }
  }

  lemma FoundKeepsTask(task: Task, tx: Tx, v: Value)
    requires (Clean(task) ==> ReplayInv(task, tx)) && task.prog(task.obs).AGet?
    requires Clean(task) ==> OnRecord(tx.readSet, task.prog(task.obs).key, v)
    ensures Clean(Observe(task, Found(v))) ==> ReplayInv(Observe(task, Found(v)), tx)
  {
    WritesExtends(task.prog, task.obs, Found(v));
    if Clean(task) { AlongExtends(task.prog, task.obs, Found(v), tx.readSet); }
  }

  lemma HitKeepsInv(w: World, id: nat, ticks: nat)
    requires WInv(w) && id in w.tasks && w.tasks[id].side == Client && w.tasks[id].prog(w.tasks[id].obs).AGet?
    requires SearchIndex(w.tasks[id].cache.readset, w.tasks[id].prog(w.tasks[id].obs).key) != NOT_CACHED
    ensures WInv(ClientStep(w, id, ticks))
  {
    var task, tx := w.tasks[id], TxOf(w.sys, id);
    var k := task.prog(task.obs).key;
    assert TaskInv(task, tx);
    if Clean(task) { CleanSearch(task, tx, k); }
    var v := task.cache.readset[SearchIndex(task.cache.readset, k)].value;
    FoundKeepsTask(task, tx, v);
    OnlyTaskChanges(w, id, Observe(task, Found(v)));
  }

  lemma AbsentKeepsInv(w: World, id: nat, k: Key)
    requires WInv(w) && id in w.tasks && w.tasks[id].side == Client && w.tasks[id].prog(w.tasks[id].obs) == AGet(k)
    requires SearchIndex(w.tasks[id].cache.readset, k) == NOT_CACHED && k !in w.sys.table.entries
    ensures WInv(Fetch(w, id, k))
  {
    var task, tx := w.tasks[id], TxOf(w.sys, id);
    assert TaskInv(task, tx);
    if Clean(task) { CleanSearch(task, tx, k); }
    if NOT_CACHED < |task.cache.readset| {
      FoundKeepsTask(task, tx, task.cache.readset[NOT_CACHED].value);
      OnlyTaskChanges(w, id, Observe(task, Found(task.cache.readset[NOT_CACHED].value)));
    } else {
      OnlyTaskChanges(w, id, task.(side := Doomed));
    }
  }

  lemma MissKeepsInv(w: World, id: nat, k: Key)
    requires WInv(w) && id in w.tasks && w.tasks[id].side == Client && w.tasks[id].prog(w.tasks[id].obs) == AGet(k)
    requires SearchIndex(w.tasks[id].cache.readset, k) == NOT_CACHED && k in w.sys.table.entries
    ensures WInv(Fetch(w, id, k))
  {
    var task, s, tx := w.tasks[id], w.sys, TxOf(w.sys, id);
    var r := ReadRecordOf(s, k);
    assert TaskInv(task, tx);
    match LoadAll(task.cache, Chunks(EncodeRecord(r), task.config.Len()), task.config.keyLen) {
      case None =>
      case Some(cache) =>
        var task' := task.(cache := cache, sent := task.sent + [r]);
        var index := SearchIndex(cache.readset, k);
        FetchKeepsTask(task, tx, r, cache);
        if index < |cache.readset| {
          LastRead(tx.readSet, r);
          FoundKeepsTask(task', tx.(readSet := tx.readSet + [r]), cache.readset[index].value);
          OthersUnaffected(w, TxGet(id, k), id, Observe(task', Found(cache.readset[index].value)));
        } else {
          OthersUnaffected(w, TxGet(id, k), id, task'.(side := Doomed));
        }
    }
  }

  lemma PutKeepsTask(task: Task, tx: Tx, k: Key, v: Value)
    requires (Clean(task) ==> ReplayInv(task, tx)) && task.prog(task.obs) == APut(k, v) && PutFits(k, v)
    ensures var r := Record(Write, 0, k, v);
            var cache := SetRecord(task.cache, Write, PutBuffer(k, v), PUT_KEY_LEN);
            var task' := Observe(task, Unit).(sent := task.sent + [r], cache := cache);
            Clean(task') ==> ReplayInv(task', tx.(writeSet := tx.writeSet + [r]))
  {
    var r := Record(Write, 0, k, v);
    var cache := SetRecord(task.cache, Write, PutBuffer(k, v), PUT_KEY_LEN);
    var task' := Observe(task, Unit).(sent := task.sent + [r], cache := cache);
    WritesExtends(task.prog, task.obs, Unit);
    if Clean(task') {
      CleanPrefix(task, task');
      assert task'.sent[|task.sent|] == r;
      PutMirrors(task.cache, task.sent, SplitsRight(task), k, v);
      AppendSent(task.sent, r);
      AlongExtends(task.prog, task.obs, Unit, tx.readSet);
      Associative(Writes(task.prog, task.serverObs), Writes(task.prog, task.obs), [r]);
    }
  }

  /** A request that is not the task's own transaction still only makes versions grow. */
  lemma ForeignKeepsInv(s: Sys, id: nat, tx: Tx, ticks: nat)
    requires History.Inv(s) && tx != TxOf(s, id)
    ensures History.Inv(Requested(s, id, tx, ticks))
  {
    var now := s.clock + 1 + ticks;
    var quiet := s.(txs := s.txs - {id});
    assert s.txs[id := tx] - {id} == s.txs - {id};
    if Validate(s.table, tx, now).0 != Aborted {
      ValidateEvolves(s.table, s.clock, tx, now);
      ChangeKeepsInv(quiet.(crashed := true), Validate(s.table, tx, now).1, ticks, Txn(tx));
    } else {
      assert Requested(s, id, tx, ticks) == quiet.(clock := now);
      assert SerialSoFar(quiet.(clock := now)) == SerialSoFar(s);
    }
  }

  lemma OwnIsCommit(s: Sys, id: nat, ticks: nat)
    ensures Requested(s, id, TxOf(s, id), ticks) == Next(s, Commit(id, ticks))
  {
    assert s.txs[id := TxOf(s, id)] - {id} == s.txs - {id};
  }

  lemma RequestedKeepsInv(s: Sys, id: nat, tx: Tx, ticks: nat)
    requires History.Inv(s)
    ensures History.Inv(Requested(s, id, tx, ticks))
  {
    if tx == TxOf(s, id) {
      OwnIsCommit(s, id, ticks);
      NextKeepsInv(s, Commit(id, ticks));
    } else {
      ForeignKeepsInv(s, id, tx, ticks);
    }
  }

  lemma RequestedKeepsOthers(s: Sys, id: nat, tx: Tx, ticks: nat, other: nat)
    requires other != id
    ensures TxOf(Requested(s, id, tx, ticks), other) == TxOf(s, other)
  {
  }

  lemma ServedKeepsInv(w: World, id: nat, ticks: nat, tx: Tx, outcome: Outcome)
    requires WInv(w) && id in w.tasks
    ensures WInv(WithTask(w, Requested(w.sys, id, tx, ticks), id, Ended(w.tasks[id], outcome)))
  {
    RequestedKeepsInv(w.sys, id, tx, ticks);
    forall other | other in w.tasks && other != id
      ensures TxOf(Requested(w.sys, id, tx, ticks), other) == TxOf(w.sys, other)
    {
      RequestedKeepsOthers(w.sys, id, tx, ticks, other);
    }
  }

  lemma SendCommitKeepsInv(w: World, id: nat, ticks: nat)
    requires WInv(w) && id in w.tasks
    ensures WInv(SendCommit(w, id, ticks))
  {
    match CommitRequest(w.tasks[id].cache) {
      case NoRpc => OnlyTaskChanges(w, id, Ended(w.tasks[id], Committed));
      case PayloadTooLong => OnlyTaskChanges(w, id, w.tasks[id].(side := Crashed));
      case Rpc(payload, keyLen, valLen) =>
        match ParsePayload(payload, keyLen, valLen) {
          case Parsed(tx) => ServedKeepsInv(w, id, ticks, tx, Validate(w.sys.table, tx, w.sys.clock + 1 + ticks).0);
          case _ => OnlyTaskChanges(w, id, w.tasks[id].(side := Crashed));
        }
    }
  }

  lemma PutKeepsInv(w: World, id: nat, ticks: nat, k: Key, v: Value)
    requires WInv(w) && id in w.tasks && w.tasks[id].side == Client
    requires w.tasks[id].prog(w.tasks[id].obs) == APut(k, v) && PutFits(k, v)
    ensures WInv(ClientStep(w, id, ticks))
  {
    var task, tx := w.tasks[id], TxOf(w.sys, id);
    assert TaskInv(task, tx);
    PutKeepsTask(task, tx, k, v);
    var cache := SetRecord(task.cache, Write, PutBuffer(k, v), PUT_KEY_LEN);
    OthersUnaffected(w, TxPut(id, k, v), id,
                     Observe(task, Unit).(sent := task.sent + [Record(Write, 0, k, v)], cache := cache));
  }

  lemma ClientOtherKeepsInv(w: World, id: nat, ticks: nat)
    requires WInv(w) && id in w.tasks && w.tasks[id].side == Client && !w.tasks[id].prog(w.tasks[id].obs).AGet?
    ensures WInv(ClientStep(w, id, ticks))
  {
    var task, tx := w.tasks[id], TxOf(w.sys, id);
    assert TaskInv(task, tx);
    match task.prog(task.obs) {
      case APut(k, v) =>
        if PutFits(k, v) { PutKeepsInv(w, id, ticks, k, v); } else { OnlyTaskChanges(w, id, task.(side := Doomed)); }
      case AYield =>
        WritesExtends(task.prog, task.obs, Unit);
        if Clean(task) { AlongExtends(task.prog, task.obs, Unit, tx.readSet); }
        OnlyTaskChanges(w, id, Observe(task, Unit));
      case ADone => SendCommitKeepsInv(w, id, ticks);
    }
  }

  lemma PushedTask(task: Task, tx: Tx, cache: Cache)
    requires task.side == Server && TaskInv(task, tx)
    requires LoadAll(EMPTY, Chunks(PushbackPayload(tx), task.config.Len()), task.config.keyLen) == Some(cache)
    ensures var task' := task.(side := Client, obs := [], serverObs := task.obs,
                               sent := tx.readSet + tx.writeSet, cache := cache);
            Clean(task') ==> ReplayInv(task', tx)
  {
    var sent := tx.readSet + tx.writeSet;
    OfTypeOfTx(tx);
    if Uniform(sent, task.config.keyLen, task.config.valLen) {
      PushbackFillsCache(tx, task.config.keyLen, task.config.valLen);
      LoadedIntoEmpty(sent);
      LoadedMirrors(sent, true);
    }
    assert Writes(task.prog, task.obs) + Writes(task.prog, []) == Writes(task.prog, task.obs);
  }

  lemma PushedKeepsInv(w: World, id: nat)
    requires WInv(w) && id in w.tasks && w.tasks[id].side == Server
    ensures WInv(Pushed(w, id))
  {
    var task, tx := w.tasks[id], TxOf(w.sys, id);
    match LoadAll(EMPTY, Chunks(PushbackPayload(tx), task.config.Len()), task.config.keyLen) {
      case None => OnlyTaskChanges(w, id, task.(side := Crashed));
      case Some(cache) =>
        PushedTask(task, tx, cache);
        OnlyTaskChanges(w, id, task.(side := Client, obs := [], serverObs := task.obs,
                                     sent := tx.readSet + tx.writeSet, cache := cache));
    }
  }

  lemma WNextKeepsInv(w: World, step: WStep)
    requires WInv(w)
    ensures WInv(WNext(w, step))
  {
    match step {
      case Spawn(id, prog, config) =>
        if id !in w.tasks && id !in w.sys.txs { OnlyTaskChanges(w, id, Task(prog, config, Server, [], [], [], EMPTY)); }
      case ServerRun(id, ticks) =>
        if id in w.tasks && w.tasks[id].side == Server { ServerStepKeepsInv(w, id, ticks); }
      case PushBack(id) => if id in w.tasks && w.tasks[id].side == Server { PushedKeepsInv(w, id); }
      case ClientRun(id, ticks) => if id in w.tasks { ClientKeepsInv(w, id, ticks); }
      case Env(s) => if !exists id :: id in w.tasks && Touches(s, id) { EnvKeepsInv(w, s); }
    }
  }

  lemma ClientGetKeepsInv(w: World, id: nat, ticks: nat, k: Key)
    requires WInv(w) && id in w.tasks && w.tasks[id].side == Client && w.tasks[id].prog(w.tasks[id].obs) == AGet(k)
    ensures WInv(ClientStep(w, id, ticks))
  {
    if SearchIndex(w.tasks[id].cache.readset, k) != NOT_CACHED { HitKeepsInv(w, id, ticks); }
    else if k in w.sys.table.entries { MissKeepsInv(w, id, k); }
    else { AbsentKeepsInv(w, id, k); }
  }

  lemma ClientKeepsInv(w: World, id: nat, ticks: nat)
    requires WInv(w) && id in w.tasks
    ensures WInv(WNext(w, ClientRun(id, ticks)))
  {
    ClientRuns(w, id, ticks);
    if w.tasks[id].side == Doomed {
      SendCommitKeepsInv(w, id, ticks);
    } else if w.tasks[id].side == Client {
      match w.tasks[id].prog(w.tasks[id].obs) {
        case AGet(k) => ClientGetKeepsInv(w, id, ticks, k);
        case _ => ClientOtherKeepsInv(w, id, ticks);
      }
    }
  }

  lemma EnvKeepsInv(w: World, step: Step)
    requires WInv(w) && !exists id :: id in w.tasks && Touches(step, id)
    ensures WInv(w.(sys := Next(w.sys, step)))
  {
    NextKeepsInv(w.sys, step);
    forall id | id in w.tasks ensures TxOf(Next(w.sys, step), id) == TxOf(w.sys, id) {
      OtherStepsKeepTx(w.sys, step, id);
    }
  }

  lemma {:induction false} WRunKeepsInv(w: World, steps: seq<WStep>)
    requires WInv(w)
    ensures WInv(WRun(w, steps))
  {
    if steps != [] {
      WRunKeepsInv(w, steps[..|steps| - 1]);
      WNextKeepsInv(WRun(w, steps[..|steps| - 1]), steps[|steps| - 1]);
    }
  }

  // ---------------------------------------------------------------- the steps of a clean task, on records

  /** Keys and values as `put` wants them. */
  const STANDARD := Config(30, 100)

  predicate Standard(k: Key, v: Value) { |k| == STANDARD.keyLen && |v| == STANDARD.valLen }

  lemma {:induction false} PutSizedRecords(rs: seq<Record>)
    requires forall i | 0 <= i < |rs| :: VERSION_SIZE + |rs[i].key| + |rs[i].value| == PUT_SIZE
    ensures |EncodeAll(rs)| == 139 * |rs|
  {
    if rs != [] {
      EncodeRecordShape(rs[0]);
      PutSizedRecords(rs[1..]);
    }
  }

  lemma ClientRuns(w: World, id: nat, ticks: nat)
    requires id in w.tasks
    ensures w.tasks[id].side == Client ==> WNext(w, ClientRun(id, ticks)) == ClientStep(w, id, ticks)
    ensures w.tasks[id].side == Doomed ==> WNext(w, ClientRun(id, ticks)) == SendCommit(w, id, ticks)
  {
  }

  /** A task that has come to its end on the client, by itself or by a panic, sends its request. */
  lemma EndSends(w: World, id: nat, ticks: nat)
    requires id in w.tasks
    requires w.tasks[id].side == Doomed || (w.tasks[id].side == Client && w.tasks[id].prog(w.tasks[id].obs) == ADone)
    ensures WNext(w, ClientRun(id, ticks)) == SendCommit(w, id, ticks)
  {
    ClientRuns(w, id, ticks);
  }

  /** A pushback of records of the configured lengths fills the cache with these records. */
  lemma CleanPushBack(w: World, id: nat)
    requires WInv(w) && id in w.tasks && w.tasks[id].side == Server && Yielded(w.tasks[id])
    requires var tx, config := TxOf(w.sys, id), w.tasks[id].config;
             Uniform(tx.readSet + tx.writeSet, config.keyLen, config.valLen)
    ensures var task, tx := w.tasks[id], TxOf(w.sys, id);
            var sent := tx.readSet + tx.writeSet;
            WNext(w, PushBack(id)) == WithTask(w, w.sys, id,
              task.(side := Client, obs := [], serverObs := task.obs, sent := sent, cache := Loaded(EMPTY, sent)))
  {
    var task, tx := w.tasks[id], TxOf(w.sys, id);
    assert TaskInv(task, tx);
    PushbackFillsCache(tx, task.config.keyLen, task.config.valLen);
    OfTypeOfTx(tx);
    LoadedIntoEmpty(tx.readSet + tx.writeSet);
    assert WNext(w, PushBack(id)) == Pushed(w, id);
  }

  /** A key on record is a hit, with the value of some record of that key. */
  lemma CleanHit(w: World, id: nat, ticks: nat, k: Key) returns (i: nat)
    requires WInv(w) && id in w.tasks && w.tasks[id].side == Client && Clean(w.tasks[id])
    requires w.tasks[id].prog(w.tasks[id].obs) == AGet(k)
    requires exists j :: 0 <= j < |TxOf(w.sys, id).readSet| && TxOf(w.sys, id).readSet[j].key == k
    ensures i < |TxOf(w.sys, id).readSet| && TxOf(w.sys, id).readSet[i].key == k
    ensures WNext(w, ClientRun(id, ticks))
            == WithTask(w, w.sys, id, Observe(w.tasks[id], Found(TxOf(w.sys, id).readSet[i].value)))
  {
    ClientRuns(w, id, ticks);
    assert TaskInv(w.tasks[id], TxOf(w.sys, id));
    CleanSearch(w.tasks[id], TxOf(w.sys, id), k);
    i := SearchIndex(w.tasks[id].cache.readset, k);
  }

  /** A key that is neither on record nor in the table dooms the task. */
  lemma CleanAbsent(w: World, id: nat, ticks: nat, k: Key)
    requires WInv(w) && id in w.tasks && w.tasks[id].side == Client && Clean(w.tasks[id])
    requires w.tasks[id].prog(w.tasks[id].obs) == AGet(k) && k !in w.sys.table.entries
    requires forall j | 0 <= j < |TxOf(w.sys, id).readSet| :: TxOf(w.sys, id).readSet[j].key != k
    ensures WNext(w, ClientRun(id, ticks)) == WithTask(w, w.sys, id, w.tasks[id].(side := Doomed))
  {
    ClientRuns(w, id, ticks);
    assert TaskInv(w.tasks[id], TxOf(w.sys, id));
    CleanSearch(w.tasks[id], TxOf(w.sys, id), k);
  }

  // ---------------------------------------------------------------- transparency

  /** Every key that was not found is still absent. A missing key leaves no record, so validation does not check
      this. */
  ghost predicate AbsentsHold(prog: Program, obs: seq<Obs>, m: map<Key, Value>) {
    forall i | 0 <= i < |obs| && obs[i] == Absent :: prog(obs[..i]).AGet? && prog(obs[..i]).key !in m
  }

  /** If every read on record is current, what a task has seen is what an atomic run sees, exactly when the keys it did
      not find are still absent. */
  lemma {:induction false} ObsAreAtomicIff(prog: Program, obs: seq<Obs>, readSet: seq<Record>, m: map<Key, Value>)
    requires Along(prog, obs, readSet)
    requires forall j | 0 <= j < |readSet| :: readSet[j].key in m && m[readSet[j].key] == readSet[j].value
    ensures obs == AtomicObs(prog, m, |obs|) <==> AbsentsHold(prog, obs, m)
  {
    if obs != [] {
      var n := |obs| - 1;
      AlongFront(prog, obs, readSet);
      ObsAreAtomicIff(prog, obs[..n], readSet, m);
      AbsentsFront(prog, obs, m);
      LastIsAtomicIff(prog, obs, readSet, m);
    }
  }

  lemma AlongFront(prog: Program, obs: seq<Obs>, readSet: seq<Record>)
    requires obs != [] && Along(prog, obs, readSet)
    ensures Along(prog, obs[..|obs| - 1], readSet)
  {
    var front := obs[..|obs| - 1];
    forall i | 0 <= i < |front| ensures ObsOk(prog, front, i, readSet) {
      assert ObsOk(prog, obs, i, readSet) && front[..i] == obs[..i];
    }
  }

  lemma AbsentsFront(prog: Program, obs: seq<Obs>, m: map<Key, Value>)
    requires obs != []
    ensures var front, last := obs[..|obs| - 1], obs[|obs| - 1];
            AbsentsHold(prog, obs, m) <==>
              AbsentsHold(prog, front, m) && (last == Absent ==> prog(front).AGet? && prog(front).key !in m)
  {
    var front := obs[..|obs| - 1];
    assert forall i | 0 <= i < |front| :: front[i] == obs[i] && front[..i] == obs[..i];
  }

  /** The last observation is the atomic one exactly if a key that was not found is absent. */
  lemma LastIsAtomicIff(prog: Program, obs: seq<Obs>, readSet: seq<Record>, m: map<Key, Value>)
    requires obs != [] && Along(prog, obs, readSet)
    requires forall j | 0 <= j < |readSet| :: readSet[j].key in m && m[readSet[j].key] == readSet[j].value
    ensures var n := |obs| - 1;
            obs == AtomicObs(prog, m, |obs|) <==>
              && obs[..n] == AtomicObs(prog, m, n)
              && (obs[n] == Absent ==> prog(obs[..n]).AGet? && prog(obs[..n]).key !in m)
  {
    var n := |obs| - 1;
    assert ObsOk(prog, obs, n, readSet);
    assert obs == obs[..n] + [obs[n]];
    assert AtomicObs(prog, m, |obs|)[..n] == AtomicObs(prog, m, n);
  }

  lemma {:induction false} AtomicPrefix(prog: Program, m: map<Key, Value>, n: nat, k: nat)
    requires n <= k
    ensures AtomicObs(prog, m, n) == AtomicObs(prog, m, k)[..n]
  {
    if n < k {
      AtomicPrefix(prog, m, n, k - 1);
      assert AtomicObs(prog, m, k)[..k - 1] == AtomicObs(prog, m, k - 1);
    }
  }

  lemma {:induction false} WritesPrefix(prog: Program, obs: seq<Obs>, n: nat)
    requires n <= |obs|
    ensures Writes(prog, obs[..n]) <= Writes(prog, obs)
  {
    if n == |obs| {
      assert obs[..n] == obs;
    } else {
      WritesPrefix(prog, obs[..|obs| - 1], n);
      assert obs[..|obs| - 1][..n] == obs[..n];
    }
  }

  lemma {:induction false} OverwrittenAnyway(m: map<Key, Value>, k: Key, v: Value, writes: seq<Record>)
    requires Mentions(writes, k)
    ensures ApplyWrites(m[k := v], writes) == ApplyWrites(m, writes)
    decreases |writes|
  {
    var w := writes[0];
    if w.key == k {
      assert m[k := v][k := w.value] == m[k := w.value];
    } else {
      var i :| 0 <= i < |writes| && writes[i].key == k;
      assert writes[1..][i - 1].key == k;
      assert m[k := v][w.key := w.value] == m[w.key := w.value][k := v];
      OverwrittenAnyway(m[w.key := w.value], k, v, writes[1..]);
    }
  }

  /** Writes whose keys are all written again later make no difference. */
  lemma {:induction false} RepeatedWritesVanish(m: map<Key, Value>, early: seq<Record>, late: seq<Record>)
    requires forall i | 0 <= i < |early| :: Mentions(late, early[i].key)
    ensures ApplyWrites(m, early + late) == ApplyWrites(m, late)
    decreases |early|
  {
    if early == [] {
      assert early + late == late;
    } else {
      assert (early + late)[1..] == early[1..] + late;
      forall i | 0 <= i < |early[1..]| ensures Mentions(late, early[1..][i].key) {
        assert early[1..][i] == early[i + 1];
      }
      RepeatedWritesVanish(m[early[0].key := early[0].value], early[1..], late);
      OverwrittenAnyway(m, early[0].key, early[0].value, late);
    }
  }

  /** The server's part of the write set is a prefix of what the replay writes. */
  lemma ServerWritesAreReplayed(prog: Program, m: map<Key, Value>, serverObs: seq<Obs>, obs: seq<Obs>,
      readSet: seq<Record>)
    requires Along(prog, serverObs, readSet) && prog(obs) == ADone
    requires serverObs == AtomicObs(prog, m, |serverObs|) && obs == AtomicObs(prog, m, |obs|)
    ensures Writes(prog, serverObs) <= Writes(prog, obs)
  {
    forall i | 0 <= i < |serverObs| ensures prog(serverObs[..i]) != ADone { assert ObsOk(prog, serverObs, i, readSet); }
    if |obs| < |serverObs| {
      AtomicPrefix(prog, m, |obs|, |serverObs|);
      assert false;
    }
    AtomicPrefix(prog, m, |serverObs|, |obs|);
    WritesPrefix(prog, obs, |serverObs|);
  }

  /** The extension, run alone on contents `m` for `n` actions until it is done. */
  ghost predicate RunsAlone(prog: Program, m: map<Key, Value>, n: nat, m': map<Key, Value>) {
    var obs := AtomicObs(prog, m, n);
    prog(obs) == ADone && m' == ApplyWrites(m, Writes(prog, obs))
  }

  /** Task `id` is about to end with a successful commit. */
  ghost predicate Committing(w: World, id: nat, ticks: nat) {
    && id in w.tasks && w.tasks[id].prog(w.tasks[id].obs) == ADone
    && CommitOutcome(w.sys, id, ticks) == Committed
    && (w.tasks[id].side == Server || (w.tasks[id].side == Client && Sendable(w.tasks[id])))
  }

  function Finish(w: World, id: nat, ticks: nat): WStep
    requires id in w.tasks
  {
    if w.tasks[id].side == Server then ServerRun(id, ticks) else ClientRun(id, ticks)
  }

  /** Applying the server's writes and then the replay's is applying the replay's. */
  lemma ReplayHidesServerWrites(task: Task, tx: Tx, m: map<Key, Value>)
    requires ReplayInv(task, tx) && task.prog(task.obs) == ADone
    requires AbsentsHold(task.prog, task.obs, m) && AbsentsHold(task.prog, task.serverObs, m) && Legal(m, Txn(tx))
    ensures ApplyWrites(m, tx.writeSet) == ApplyWrites(m, Writes(task.prog, task.obs))
  {
    ObsAreAtomicIff(task.prog, task.obs, tx.readSet, m);
    ObsAreAtomicIff(task.prog, task.serverObs, tx.readSet, m);
    ServerWritesAreReplayed(task.prog, m, task.serverObs, task.obs, tx.readSet);
    var early, late := Writes(task.prog, task.serverObs), Writes(task.prog, task.obs);
    forall i | 0 <= i < |early| ensures Mentions(late, early[i].key) { assert late[i] == early[i]; }
    RepeatedWritesVanish(m, early, late);
  }

  /** A finished task whose reads are all current has done what an atomic run does. */
  lemma CurrentTaskIsAtomic(task: Task, tx: Tx, m: map<Key, Value>)
    requires (task.side == Server || (task.side == Client && Clean(task))) && TaskInv(task, tx)
            && task.prog(task.obs) == ADone
    requires AbsentsHold(task.prog, task.obs, m) && AbsentsHold(task.prog, task.serverObs, m) && Legal(m, Txn(tx))
    ensures task.obs == AtomicObs(task.prog, m, |task.obs|)
    ensures RunsAlone(task.prog, m, |task.obs|, ApplyWrites(m, tx.writeSet))
  {
    ObsAreAtomicIff(task.prog, task.obs, tx.readSet, m);
    if task.side == Client { ReplayHidesServerWrites(task, tx, m); }
  }

  lemma CommittedTable(s: Sys, id: nat, ticks: nat)
    requires History.Inv(s) && CommitOutcome(s, id, ticks) == Committed
    ensures Legal(Values(s.table.entries), Txn(TxOf(s, id)))
    ensures Values(Next(s, Commit(id, ticks)).table.entries)
            == ApplyWrites(Values(s.table.entries), TxOf(s, id).writeSet)
  {
    CommitAppliesWrites(s.table, TxOf(s, id), s.clock + 1 + ticks);
    assert Genuine(s.table, TxOf(s, id));
    ValidReadsAreCurrent(s.table, TxOf(s, id));
  }

  ghost predicate AbsentsStillHold(w: World, id: nat)
    requires id in w.tasks
  {
    var m := Values(w.sys.table.entries);
    AbsentsHold(w.tasks[id].prog, w.tasks[id].obs, m) && AbsentsHold(w.tasks[id].prog, w.tasks[id].serverObs, m)
  }

  lemma CommitIsAtomicRun(w: World, id: nat, ticks: nat)
    requires WInv(w) && Committing(w, id, ticks) && AbsentsStillHold(w, id)
    ensures RunsAlone(w.tasks[id].prog, Values(w.sys.table.entries), |w.tasks[id].obs|,
                      Values(Next(w.sys, Commit(id, ticks)).table.entries))
    ensures w.tasks[id].obs == AtomicObs(w.tasks[id].prog, Values(w.sys.table.entries), |w.tasks[id].obs|)
  {
    CommittedTable(w.sys, id, ticks);
    if w.tasks[id].side == Client { SendableIsClean(w.tasks[id]); }
    CurrentTaskIsAtomic(w.tasks[id], TxOf(w.sys, id), Values(w.sys.table.entries));
  }

  /** The commit request of a task is served as the task's own transaction. */
  lemma CleanRequestParses(task: Task, tx: Tx)
    requires Sendable(task) && ReplayInv(task, tx) && task.sent != []
    ensures var rpc := CommitRequest(task.cache);
            rpc.Rpc? && ParsePayload(rpc.payload, rpc.keyLen, rpc.valLen) == Parsed(tx)
  {
    UniformPayload(task.sent, task.config.keyLen, task.config.valLen);
    UniformHeader(task.cache, task.sent, SplitsRight(task), task.config.keyLen, task.config.valLen);
  }

  lemma UniformPayload(rs: seq<Record>, keyLen: nat, valLen: nat)
    requires rs != [] && Uniform(rs, keyLen, valLen)
    ensures RecordLen(keyLen, valLen) <= |EncodeAll(rs)|
    ensures ParsePayload(EncodeAll(rs), keyLen, valLen) == Parsed(Tx(OfType(rs, Read), OfType(rs, Write)))
  {
    CommitPayloadParses(rs, keyLen, valLen);
    EncodeRecordShape(rs[0]);
  }

  lemma UniformHeader(cache: Cache, rs: seq<Record>, exact: bool, keyLen: nat, valLen: nat)
    requires Mirrors(cache, rs, exact) && rs != [] && Uniform(rs, keyLen, valLen)
    requires OfType(rs, Read) != [] || exact
    requires RecordLen(keyLen, valLen) <= |EncodeAll(rs)| <= MAX_COMMIT_PAYLOAD
    ensures CommitRequest(cache) == Rpc(EncodeAll(rs), keyLen, valLen)
  {
    SomeType(rs);
    var first := FirstRecord(cache);
    if OfType(rs, Read) != [] {
      OfTypeIsUniform(rs, Read, keyLen, valLen);
      assert first == ToKV(OfType(rs, Read)[0]);
    } else {
      OfTypeIsUniform(rs, Write, keyLen, valLen);
      assert first == ToKV(OfType(rs, Write)[0]);
    }
    assert |first.key| == keyLen && |first.value| == valLen;
  }

  lemma SomeType(rs: seq<Record>)
    requires rs != []
    ensures OfType(rs, Read) != [] || OfType(rs, Write) != []
  {
  }

  lemma {:induction false} OfTypeIsUniform(rs: seq<Record>, op: OpType, keyLen: nat, valLen: nat)
    requires Uniform(rs, keyLen, valLen)
    ensures Uniform(OfType(rs, op), keyLen, valLen)
  {
    if rs != [] { OfTypeIsUniform(rs[1..], op, keyLen, valLen); }
  }

  lemma EmptyRequest(task: Task, tx: Tx)
    requires ReplayInv(task, tx) && task.sent == []
    ensures CommitRequest(task.cache) == NoRpc && tx == Tx([], [])
  {
  }

  lemma ServedRequest(w: World, id: nat, ticks: nat)
    requires id in w.tasks && CommitRequest(w.tasks[id].cache).Rpc?
    requires var rpc := CommitRequest(w.tasks[id].cache);
             ParsePayload(rpc.payload, rpc.keyLen, rpc.valLen) == Parsed(TxOf(w.sys, id))
    ensures SendCommit(w, id, ticks) == WithTask(w, Next(w.sys, Commit(id, ticks)), id,
                                                 Ended(w.tasks[id], CommitOutcome(w.sys, id, ticks)))
  {
    OwnIsCommit(w.sys, id, ticks);
  }

  /** Serving the request of a task that can send it is committing its transaction. */
  lemma CleanSendCommits(w: World, id: nat, ticks: nat)
    requires WInv(w) && id in w.tasks && Sendable(w.tasks[id])
    requires w.tasks[id].side == Client || w.tasks[id].side == Doomed
    ensures var w' := SendCommit(w, id, ticks);
            && w'.tasks == w.tasks[id := Ended(w.tasks[id], CommitOutcome(w.sys, id, ticks))]
            && w'.sys.table == Next(w.sys, Commit(id, ticks)).table
            && (w.tasks[id].sent != [] ==> w'.sys == Next(w.sys, Commit(id, ticks)))
  {
    SendableIsClean(w.tasks[id]);
    assert TaskInv(w.tasks[id], TxOf(w.sys, id));
    if w.tasks[id].sent == [] {
      EmptyRequest(w.tasks[id], TxOf(w.sys, id));
      EmptyCommits(w.sys, id, ticks);
    } else {
      CleanRequestParses(w.tasks[id], TxOf(w.sys, id));
      ServedRequest(w, id, ticks);
    }
  }

  /** A request that is too long is not sent. */
  lemma TooLongIsNotSent(w: World, id: nat, ticks: nat)
    requires WInv(w) && id in w.tasks && Clean(w.tasks[id]) && |EncodeAll(w.tasks[id].sent)| > MAX_COMMIT_PAYLOAD
    requires w.tasks[id].side == Client || w.tasks[id].side == Doomed
    ensures SendCommit(w, id, ticks) == WithTask(w, w.sys, id, w.tasks[id].(side := Crashed))
  {
    assert TaskInv(w.tasks[id], TxOf(w.sys, id));
    SomeType(w.tasks[id].sent);
  }

  lemma EmptyCommits(s: Sys, id: nat, ticks: nat)
    requires TxOf(s, id) == Tx([], [])
    ensures CommitOutcome(s, id, ticks) == Committed && Next(s, Commit(id, ticks)).table == s.table
  {
    assert SortByKey([]) == [];
  }

  /** The last step of a task with something to commit. */
  lemma CleanFinish(w: World, id: nat, ticks: nat)
    requires WInv(w) && id in w.tasks && w.tasks[id].side == Client && Sendable(w.tasks[id]) && w.tasks[id].sent != []
    requires w.tasks[id].prog(w.tasks[id].obs) == ADone
    ensures WNext(w, ClientRun(id, ticks)) == WithTask(w, Next(w.sys, Commit(id, ticks)), id,
                                                       w.tasks[id].(side := Finished(CommitOutcome(w.sys, id, ticks))))
  {
    EndSends(w, id, ticks);
    CleanSendCommits(w, id, ticks);
  }

  lemma ServerFinishes(w: World, id: nat, ticks: nat)
    requires id in w.tasks && w.tasks[id].side == Server && w.tasks[id].prog(w.tasks[id].obs) == ADone
    ensures WNext(w, ServerRun(id, ticks)) == WithTask(w, Next(w.sys, Commit(id, ticks)), id,
                                                       w.tasks[id].(side := Finished(CommitOutcome(w.sys, id, ticks))))
  {
  }

  lemma FinishCommits(w: World, id: nat, ticks: nat)
    requires WInv(w) && Committing(w, id, ticks)
    ensures var w' := WNext(w, Finish(w, id, ticks));
            && id in w'.tasks && w'.tasks[id].side == Finished(Committed)
            && w'.sys.table == Next(w.sys, Commit(id, ticks)).table
  {
    if w.tasks[id].side == Client {
      EndSends(w, id, ticks);
      CleanSendCommits(w, id, ticks);
    } else {
      ServerFinishes(w, id, ticks);
    }
  }

  /** Pushback is transparent: in every run, a task that commits, on the server or after a pushback with its server-side
      writes sent again beside the replay's own, leaves exactly the table that one atomic run of the extension at the
      commit point leaves, provided the keys it did not find are absent at the commit; in particular whenever it found
      every key it asked for. */
  lemma PushbackIsTransparent(steps: seq<WStep>, id: nat, ticks: nat)
    requires Committing(WRun(START, steps), id, ticks) && AbsentsStillHold(WRun(START, steps), id)
    ensures var w := WRun(START, steps);
            var w' := WNext(w, Finish(w, id, ticks));
            && id in w'.tasks && w'.tasks[id].side == Finished(Committed)
            && RunsAlone(w.tasks[id].prog, Values(w.sys.table.entries), |w.tasks[id].obs|, Values(w'.sys.table.entries))
  {
    var w := WRun(START, steps);
    WRunKeepsInv(START, steps);
    CommitIsAtomicRun(w, id, ticks);
    FinishCommits(w, id, ticks);
  }

  /** In every run, the commit request of a task that can send one, cut up and parsed by the server, is the task's own
      read and write sets. */
  lemma CommitRpcCarriesTheTask(steps: seq<WStep>, id: nat)
    requires var w := WRun(START, steps);
             && id in w.tasks && (w.tasks[id].side == Client || w.tasks[id].side == Doomed)
             && Sendable(w.tasks[id]) && w.tasks[id].sent != []
    ensures var w := WRun(START, steps);
            var rpc := CommitRequest(w.tasks[id].cache);
            rpc.Rpc? && ParsePayload(rpc.payload, rpc.keyLen, rpc.valLen) == Parsed(TxOf(w.sys, id))
  {
    var w := WRun(START, steps);
    WRunKeepsInv(START, steps);
    SendableIsClean(w.tasks[id]);
    assert TaskInv(w.tasks[id], TxOf(w.sys, id));
    CleanRequestParses(w.tasks[id], TxOf(w.sys, id));
  }
}
