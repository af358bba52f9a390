/** Where transparency ends: extensions that panic on the client, whose commit request is sent all the same, and reads
    that find nothing, which leave no record (splinter/src/container.rs, splinter/src/proxy.rs, db/src/context.rs). */
module Limits {
  import opened Bytes
  import opened Store
  import opened History
  import opened Wire
  import opened Proxies
  import opened Pushback

  // ---------------------------------------------------------------- when an extension panics on the client

  /** Everything loaded from a reply has a key of the configured length. */
  lemma {:induction false} LoadedKeys(cache: Cache, records: seq<Bytes>, keyLen: nat)
    requires LoadAll(cache, records, keyLen).Some?
    ensures var readset := LoadAll(cache, records, keyLen).value.readset;
            cache.readset <= readset && forall i | |cache.readset| <= i < |readset| :: |readset[i].key| == keyLen
    decreases |records|
  {
    if records != [] { LoadedKeys(Load(cache, records[0], keyLen), records[1..], keyLen); }
  }

  /** The first chunk of the reply carries the key if that has the configured length. */
  lemma ReplyStartsWithKey(cache: Cache, r: Record, config: Config)
    requires r.optype == Read && |r.key| == config.keyLen
    ensures var chunk := Chunks(EncodeRecord(r), config.Len())[0];
            && Loadable(chunk, config.keyLen) && |Load(cache, chunk, config.keyLen).readset| == |cache.readset| + 1
            && Load(cache, chunk, config.keyLen).readset[|cache.readset|].key == r.key
  {
    EncodeRecordShape(r);
    var e := EncodeRecord(r);
    var chunk := Chunks(e, config.Len())[0];
    assert chunk <= e && OPTYPE_SIZE + VERSION_SIZE + |r.key| <= |chunk|;
    assert chunk[OPTYPE_SIZE..][VERSION_SIZE..][..|r.key|] == e[OPTYPE_SIZE..][VERSION_SIZE..][..|r.key|];
  }

  /** A fetched key ends up in the cache exactly when it has the configured length. */
  lemma FetchedIsCachedIff(cache: Cache, r: Record, config: Config)
    requires r.optype == Read && !Cached(cache.readset, r.key)
    requires LoadAll(cache, Chunks(EncodeRecord(r), config.Len()), config.keyLen).Some?
    ensures Cached(LoadAll(cache, Chunks(EncodeRecord(r), config.Len()), config.keyLen).value.readset, r.key)
            <==> |r.key| == config.keyLen
  {
    var records := Chunks(EncodeRecord(r), config.Len());
    var readset := LoadAll(cache, records, config.keyLen).value.readset;
    LoadedKeys(cache, records, config.keyLen);
    if |r.key| == config.keyLen {
      ReplyStartsWithKey(cache, r, config);
      LoadedKeys(Load(cache, records[0], config.keyLen), records[1..], config.keyLen);
      assert readset[|cache.readset|].key == r.key;
    }
  }

  /** What the client's cache becomes by the reply to a get; the reply is empty if the key is absent. */
  function AfterReply(task: Task, s: Sys, k: Key): Option<Cache> {
    if k !in s.table.entries then Some(task.cache)
    else LoadAll(task.cache, Chunks(EncodeRecord(ReadRecordOf(s, k)), task.config.Len()), task.config.keyLen)
  }

  /** A get panics for a key that is not cached and that the server does not have, or that has not the configured
      length; a put panics for a buffer that is not 138 bytes. */
  ghost predicate PanicGuard(task: Task, s: Sys) {
    match task.prog(task.obs)
    case AGet(k) =>
      && !Cached(task.cache.readset, k)
      && (k !in s.table.entries || |k| != task.config.keyLen)
      && AfterReply(task, s, k).Some? && |AfterReply(task, s, k).value.readset| <= NOT_CACHED
    case APut(k, v) => VERSION_SIZE + |k| + |v| != PUT_SIZE
    case _ => false
  }

  lemma FetchPanicsIff(w: World, id: nat, k: Key)
    requires id in w.tasks && w.tasks[id].side == Client && w.tasks[id].prog(w.tasks[id].obs) == AGet(k)
    requires !Cached(w.tasks[id].cache.readset, k)
    ensures var w' := Fetch(w, id, k);
            id in w'.tasks && (w'.tasks[id].side == Doomed <==> PanicGuard(w.tasks[id], w.sys))
  {
    var task := w.tasks[id];
    if k in w.sys.table.entries && AfterReply(task, w.sys, k).Some? {
      FetchedIsCachedIff(task.cache, ReadRecordOf(w.sys, k), task.config);
    }
  }

  /** The next step of a task on the client is a panic of the extension exactly if the guard holds. */
  lemma ClientPanicsIff(w: World, id: nat, ticks: nat)
    requires WInv(w) && id in w.tasks && w.tasks[id].side == Client && Clean(w.tasks[id])
    ensures var w' := WNext(w, ClientRun(id, ticks));
            id in w'.tasks && (w'.tasks[id].side == Doomed <==> PanicGuard(w.tasks[id], w.sys))
  {
    ClientRuns(w, id, ticks);
    match w.tasks[id].prog(w.tasks[id].obs) {
      case AGet(k) => GetPanicsIff(w, id, ticks, k);
      case APut(k, v) => PutPanicsIff(w, id, ticks, k, v);
      case AYield => assert ClientStep(w, id, ticks).tasks[id] == Observe(w.tasks[id], Unit);
      case ADone => SendingIsNoPanic(w, id, ticks);
    }
  }

  lemma PutPanicsIff(w: World, id: nat, ticks: nat, k: Key, v: Value)
    requires id in w.tasks && w.tasks[id].side == Client && w.tasks[id].prog(w.tasks[id].obs) == APut(k, v)
    ensures var w' := ClientStep(w, id, ticks);
            id in w'.tasks && (w'.tasks[id].side == Doomed <==> PanicGuard(w.tasks[id], w.sys))
  {
    assert |PutBuffer(k, v)| == VERSION_SIZE + |k| + |v|;
  }

  lemma SendingIsNoPanic(w: World, id: nat, ticks: nat)
    requires id in w.tasks && w.tasks[id].side == Client
    ensures var w' := SendCommit(w, id, ticks); id in w'.tasks && w'.tasks[id].side != Doomed
  {
  }

  lemma GetPanicsIff(w: World, id: nat, ticks: nat, k: Key)
    requires WInv(w) && id in w.tasks && w.tasks[id].side == Client && Clean(w.tasks[id])
    requires w.tasks[id].prog(w.tasks[id].obs) == AGet(k)
    ensures var w' := ClientStep(w, id, ticks);
            id in w'.tasks && (w'.tasks[id].side == Doomed <==> PanicGuard(w.tasks[id], w.sys))
  {
    assert TaskInv(w.tasks[id], TxOf(w.sys, id));
    CleanSearch(w.tasks[id], TxOf(w.sys, id), k);
    if !Cached(w.tasks[id].cache.readset, k) { FetchPanicsIff(w, id, k); }
  }

  // ---------------------------------------------------------------- what the commit of a panicked extension leaves

  lemma {:induction false} ApplyConcat(m: map<Key, Value>, a: seq<Record>, b: seq<Record>)
    ensures ApplyWrites(m, a + b) == ApplyWrites(ApplyWrites(m, a), b)
    decreases |a|
  {
    if a == [] {
      assert a + b == b;
    } else {
      assert (a + b)[1..] == a[1..] + b;
      ApplyConcat(m[a[0].key := a[0].value], a[1..], b);
    }
  }

  /** The value that a key has after some writes to it. */
  function LastValue(writes: seq<Record>, k: Key): Value
    requires ForKey(writes, k) != []
  {
    ForKey(writes, k)[|ForKey(writes, k)| - 1].value
  }

  lemma {:induction false} ApplyAt(m: map<Key, Value>, writes: seq<Record>, k: Key)
    ensures Mentions(writes, k) <==> ForKey(writes, k) != []
    ensures k in ApplyWrites(m, writes) <==> k in m || Mentions(writes, k)
    ensures k in ApplyWrites(m, writes) ==>
              ApplyWrites(m, writes)[k] == if ForKey(writes, k) == [] then m[k] else LastValue(writes, k)
    decreases |writes|
  {
    ForKeyIff(writes, k);
    if writes != [] {
      ApplyAt(m[writes[0].key := writes[0].value], writes[1..], k);
    }
  }

  /** Every key written already has the last value written to it. */
  ghost predicate Settled(m: map<Key, Value>, writes: seq<Record>) {
    forall k | Mentions(writes, k) :: k in m && ForKey(writes, k) != [] && m[k] == LastValue(writes, k)
  }

  /** Writes leave a table as it is exactly if it is settled for them. */
  lemma SettledIff(m: map<Key, Value>, writes: seq<Record>)
    ensures ApplyWrites(m, writes) == m <==> Settled(m, writes)
  {
    forall k ensures Mentions(writes, k) <==> ForKey(writes, k) != [] { ApplyAt(m, writes, k); }
    if Settled(m, writes) {
      forall k ensures k in ApplyWrites(m, writes) <==> k in m { ApplyAt(m, writes, k); }
      forall k | k in m ensures ApplyWrites(m, writes)[k] == m[k] { ApplyAt(m, writes, k); }
    } else {
      var k :| Mentions(writes, k) && !(k in m && ForKey(writes, k) != [] && m[k] == LastValue(writes, k));
      ApplyAt(m, writes, k);
    }
  }

  /** A task that has panicked and whose request is about to be accepted. */
  ghost predicate CrashCommitting(w: World, id: nat, ticks: nat) {
    id in w.tasks && w.tasks[id].side == Doomed && Sendable(w.tasks[id]) && CommitOutcome(w.sys, id, ticks) == Committed
  }

  /** The writes of an atomic run that the panicked replay did not get to. */
  ghost function Missed(task: Task, m: map<Key, Value>, n: nat): seq<Record>
    requires |AtomicWrites(task.prog, m, |task.obs|)| <= |AtomicWrites(task.prog, m, n)|
  {
    AtomicWrites(task.prog, m, n)[|AtomicWrites(task.prog, m, |task.obs|)|..]
  }

  lemma CrashCommits(w: World, id: nat, ticks: nat)
    requires WInv(w) && CrashCommitting(w, id, ticks)
    ensures var w', task := WNext(w, ClientRun(id, ticks)), w.tasks[id];
            && id in w'.tasks && w'.tasks[id].side == Crashed
            && Values(w'.sys.table.entries) ==
                 ApplyWrites(Values(w.sys.table.entries),
                     Writes(task.prog, task.serverObs) + Writes(task.prog, task.obs))
  {
    SendableIsClean(w.tasks[id]);
    assert TaskInv(w.tasks[id], TxOf(w.sys, id));
    EndSends(w, id, ticks);
    CleanSendCommits(w, id, ticks);
    CommittedTable(w.sys, id, ticks);
  }

  lemma DoomedObsAreAtomic(w: World, id: nat, ticks: nat)
    requires WInv(w) && CrashCommitting(w, id, ticks) && AbsentsStillHold(w, id)
    ensures var task, m := w.tasks[id], Values(w.sys.table.entries);
            task.obs == AtomicObs(task.prog, m, |task.obs|)
                && task.serverObs == AtomicObs(task.prog, m, |task.serverObs|)
  {
    var task, tx, m := w.tasks[id], TxOf(w.sys, id), Values(w.sys.table.entries);
    SendableIsClean(task);
    assert TaskInv(task, tx);
    CommittedTable(w.sys, id, ticks);
    ObsAreAtomicIff(task.prog, task.obs, tx.readSet, m);
    ObsAreAtomicIff(task.prog, task.serverObs, tx.readSet, m);
  }

  /** What a panicked extension commits: in every run, the writes of the server's part of an atomic run at the commit
      point and then those of the replay's part. If the replay got as far as the server, that is the prefix of the
      atomic run up to the panicking action. */
  lemma CrashCommitsPrefix(steps: seq<WStep>, id: nat, ticks: nat)
    requires CrashCommitting(WRun(START, steps), id, ticks) && AbsentsStillHold(WRun(START, steps), id)
    ensures var w := WRun(START, steps);
            var task, m := w.tasks[id], Values(w.sys.table.entries);
            var after := Values(WNext(w, ClientRun(id, ticks)).sys.table.entries);
            var early, late := AtomicWrites(task.prog, m, |task.serverObs|), AtomicWrites(task.prog, m, |task.obs|);
            && after == ApplyWrites(m, early + late)
            && (|task.serverObs| <= |task.obs| ==> after == ApplyWrites(m, late))
  {
    var w := WRun(START, steps);
    WRunKeepsInv(START, steps);
    CrashCommits(w, id, ticks);
    DoomedObsAreAtomic(w, id, ticks);
    var task, m := w.tasks[id], Values(w.sys.table.entries);
    if |task.serverObs| <= |task.obs| {
      AtomicPrefix(task.prog, m, |task.serverObs|, |task.obs|);
      WritesPrefix(task.prog, task.obs, |task.serverObs|);
      PrefixVanishes(m, Writes(task.prog, task.serverObs), Writes(task.prog, task.obs));
    }
  }

  lemma PrefixVanishes(m: map<Key, Value>, early: seq<Record>, late: seq<Record>)
    requires early <= late
    ensures ApplyWrites(m, early + late) == ApplyWrites(m, late)
  {
    forall i | 0 <= i < |early| ensures Mentions(late, early[i].key) { assert late[i] == early[i]; }
    RepeatedWritesVanish(m, early, late);
  }

  /** Rejoining the atomic run: with the missed writes, the table is what the whole run leaves. */
  lemma MissedWritesComplete(m: map<Key, Value>, early: seq<Record>, late: seq<Record>, all: seq<Record>)
    requires early <= all && late <= all
    ensures ApplyWrites(ApplyWrites(m, early + late), all[|late|..]) == ApplyWrites(m, all)
  {
    var rest := all[|late|..];
    ApplyConcat(m, early + late, rest);
    Associative(early, late, rest);
    assert late + rest == all;
    PrefixVanishes(m, early, all);
  }

  /** A panicked extension has committed what its atomic run would have, exactly if the writes that the replay did not
      get to would change nothing any more. */
  lemma CrashIsWholeIff(steps: seq<WStep>, id: nat, ticks: nat, n: nat, m': map<Key, Value>)
    requires CrashCommitting(WRun(START, steps), id, ticks) && AbsentsStillHold(WRun(START, steps), id)
    requires var w := WRun(START, steps); RunsAlone(w.tasks[id].prog, Values(w.sys.table.entries), n, m')
    ensures var w := WRun(START, steps);
            var task, m := w.tasks[id], Values(w.sys.table.entries);
            var after := Values(WNext(w, ClientRun(id, ticks)).sys.table.entries);
            && |AtomicWrites(task.prog, m, |task.obs|)| <= |AtomicWrites(task.prog, m, n)|
            && (after == m' <==> Settled(after, Missed(task, m, n)))
  {
    var w := WRun(START, steps);
    WRunKeepsInv(START, steps);
    CrashCommitsPrefix(steps, id, ticks);
    DoomedObsAreAtomic(w, id, ticks);
    PartsOfTheRun(w, id, ticks, n);
    var task, m := w.tasks[id], Values(w.sys.table.entries);
    var early, late := Writes(task.prog, task.serverObs), Writes(task.prog, task.obs);
    MissedWritesComplete(m, early, late, AtomicWrites(task.prog, m, n));
    SettledIff(ApplyWrites(m, early + late), Missed(task, m, n));
  }

  /** Both the server's part and the replay's are parts of the atomic run. */
  lemma PartsOfTheRun(w: World, id: nat, ticks: nat, n: nat)
    requires WInv(w) && CrashCommitting(w, id, ticks) && AbsentsStillHold(w, id)
    requires var task, m := w.tasks[id], Values(w.sys.table.entries); task.prog(AtomicObs(task.prog, m, n)) == ADone
    ensures var task, all := w.tasks[id], AtomicWrites(w.tasks[id].prog, Values(w.sys.table.entries), n);
            Writes(task.prog, task.serverObs) <= all && Writes(task.prog, task.obs) <= all
  {
    var task, tx, m := w.tasks[id], TxOf(w.sys, id), Values(w.sys.table.entries);
    DoomedObsAreAtomic(w, id, ticks);
    SendableIsClean(task);
    assert TaskInv(task, tx);
    ServerWritesAreReplayed(task.prog, m, task.obs, AtomicObs(task.prog, m, n), tx.readSet);
    ServerWritesAreReplayed(task.prog, m, task.serverObs, AtomicObs(task.prog, m, n), tx.readSet);
  }

  // ---------------------------------------------------------------- a reachable panic

  lemma WRunOne(w: World, steps: seq<WStep>, step: WStep)
    ensures WRun(w, steps + [step]) == WNext(WRun(w, steps), step)
  {
    assert (steps + [step])[..|steps|] == steps;
  }

  /** Writes `b`, yields, looks for `a` and writes `b` again. */
  function PutLookPut(a: Key, b: Key, v: Value, v': Value): Program {
    (obs: seq<Obs>) =>
      if |obs| == 0 then APut(b, v) else if |obs| == 1 then AYield else if |obs| == 2 then AGet(a)
      else if |obs| == 3 then APut(b, v') else ADone
  }

  lemma PutLookPutActions(a: Key, b: Key, v: Value, v': Value)
    ensures forall obs: seq<Obs> :: PutLookPut(a, b, v, v')(obs) ==
              if |obs| == 0 then APut(b, v) else if |obs| == 1 then AYield else if |obs| == 2 then AGet(a)
              else if |obs| == 3 then APut(b, v') else ADone
  {
  }

  /** How far task 7 has come; the table holds `b` only. */
  ghost predicate At(w: World, prog: Program, b: Key, side: Side, obs: seq<Obs>, serverObs: seq<Obs>,
                     writes: seq<Record>, sent: seq<Record>)
  {
    && 7 in w.tasks && w.tasks[7] == Task(prog, STANDARD, side, obs, serverObs, sent, w.tasks[7].cache)
    && TxOf(w.sys, 7) == Tx([], writes) && w.sys.table.entries.Keys == {b}
  }

  lemma ServerWrites(w: World, a: Key, b: Key, v: Value, v': Value)
    requires At(w, PutLookPut(a, b, v, v'), b, Server, [], [], [], [])
    ensures At(WNext(w, ServerRun(7, 0)), PutLookPut(a, b, v, v'), b, Server, [Unit], [], [Record(Write, 0, b, v)], [])
  {
    PutLookPutActions(a, b, v, v');
    ServerPuts(w, 7, b, v);
    assert [] + [Unit] == [Unit];
    assert [] + [Record(Write, 0, b, v)] == [Record(Write, 0, b, v)];
  }

  lemma ServerYields(w: World, a: Key, b: Key, v: Value, v': Value, writes: seq<Record>)
    requires At(w, PutLookPut(a, b, v, v'), b, Server, [Unit], [], writes, [])
    ensures At(WNext(w, ServerRun(7, 0)), PutLookPut(a, b, v, v'), b, Server, [Unit, Unit], [], writes, [])
  {
    PutLookPutActions(a, b, v, v');
    assert [Unit] + [Unit] == [Unit, Unit];
  }

  lemma IsPushedBack(w: World, a: Key, b: Key, v: Value, v': Value, wb: Record)
    requires WInv(w) && At(w, PutLookPut(a, b, v, v'), b, Server, [Unit, Unit], [], [wb], [])
    requires wb.version == 0 && Standard(wb.key, wb.value)
    ensures At(WNext(w, PushBack(7)), PutLookPut(a, b, v, v'), b, Client, [], [Unit, Unit], [wb], [wb])
  {
    HasYielded(w.tasks[7], a, b, v, v');
    OneRecordIsUniform(wb);
    assert [] + [wb] == [wb];
    CleanPushBack(w, 7);
  }

  lemma HasYielded(task: Task, a: Key, b: Key, v: Value, v': Value)
    requires task.prog == PutLookPut(a, b, v, v') && task.obs == [Unit, Unit]
    ensures Yielded(task)
  {
    PutLookPutActions(a, b, v, v');
    assert task.obs[..|task.obs| - 1] == [Unit];
  }

  lemma OneRecordIsUniform(wb: Record)
    requires wb.version == 0 && Standard(wb.key, wb.value)
    ensures Uniform([wb], STANDARD.keyLen, STANDARD.valLen)
  {
  }

  lemma ServerPart(w: World, a: Key, b: Key, v: Value, v': Value)
    requires WInv(w) && At(w, PutLookPut(a, b, v, v'), b, Server, [], [], [], []) && Standard(b, v)
    ensures var w' := WNext(WNext(WNext(w, ServerRun(7, 0)), ServerRun(7, 0)), PushBack(7));
            var wb := Record(Write, 0, b, v);
            At(w', PutLookPut(a, b, v, v'), b, Client, [], [Unit, Unit], [wb], [wb])
  {
    var wb := Record(Write, 0, b, v);
    ServerWrites(w, a, b, v, v');
    var w1 := WNext(w, ServerRun(7, 0));
    ServerYields(w1, a, b, v, v', [wb]);
    WNextKeepsInv(w, ServerRun(7, 0));
    WNextKeepsInv(w1, ServerRun(7, 0));
    IsPushedBack(WNext(w1, ServerRun(7, 0)), a, b, v, v', wb);
  }

  lemma TwoRecordsAreClean(task: Task, wb: Record)
    requires task.config == STANDARD && Standard(wb.key, wb.value) && wb.version == 0
    requires task.sent == [wb] || task.sent == [wb, wb]
    ensures Clean(task) && Sendable(task)
  {
    PutSizedRecords(task.sent);
  }

  lemma ClientWrites(w: World, a: Key, b: Key, v: Value, v': Value)
    requires Standard(b, v)
    requires At(w, PutLookPut(a, b, v, v'), b, Client, [], [Unit, Unit], [Record(Write, 0, b, v)],
            [Record(Write, 0, b, v)])
    ensures var wb := Record(Write, 0, b, v);
            At(WNext(w, ClientRun(7, 0)), PutLookPut(a, b, v, v'), b, Client, [Unit], [Unit, Unit], [wb, wb], [wb, wb])
  {
    PutLookPutActions(a, b, v, v');
    ClientRuns(w, 7, 0);
    var wb := Record(Write, 0, b, v);
    assert [wb] + [wb] == [wb, wb];
    assert [] + [Unit] == [Unit];
  }

  lemma ClientYields(w: World, a: Key, b: Key, v: Value, v': Value, writes: seq<Record>)
    requires At(w, PutLookPut(a, b, v, v'), b, Client, [Unit], [Unit, Unit], writes, writes)
    ensures At(WNext(w, ClientRun(7, 0)), PutLookPut(a, b, v, v'), b, Client, [Unit, Unit], [Unit, Unit], writes,
            writes)
  {
    PutLookPutActions(a, b, v, v');
    ClientRuns(w, 7, 0);
    assert [Unit] + [Unit] == [Unit, Unit];
  }

  lemma ClientLooks(w: World, a: Key, b: Key, v: Value, v': Value, wb: Record)
    requires WInv(w) && Standard(wb.key, wb.value) && wb.version == 0 && a != b
    requires At(w, PutLookPut(a, b, v, v'), b, Client, [Unit, Unit], [Unit, Unit], [wb, wb], [wb, wb])
    ensures At(WNext(w, ClientRun(7, 0)), PutLookPut(a, b, v, v'), b, Doomed, [Unit, Unit], [Unit, Unit], [wb, wb],
            [wb, wb])
  {
    PutLookPutActions(a, b, v, v');
    TwoRecordsAreClean(w.tasks[7], wb);
    assert TxOf(w.sys, 7).readSet == [] && a !in w.sys.table.entries;
    CleanAbsent(w, 7, 0, a);
    assert w.tasks[7].(side := Doomed).cache == w.tasks[7].cache;
  }

  lemma ClientPart(w: World, a: Key, b: Key, v: Value, v': Value)
    requires WInv(w) && Standard(b, v) && a != b
    requires At(w, PutLookPut(a, b, v, v'), b, Client, [], [Unit, Unit], [Record(Write, 0, b, v)],
            [Record(Write, 0, b, v)])
    ensures var w' := WNext(WNext(WNext(w, ClientRun(7, 0)), ClientRun(7, 0)), ClientRun(7, 0));
            var wb := Record(Write, 0, b, v);
            At(w', PutLookPut(a, b, v, v'), b, Doomed, [Unit, Unit], [Unit, Unit], [wb, wb], [wb, wb])
  {
    var wb := Record(Write, 0, b, v);
    var w1 := WNext(w, ClientRun(7, 0));
    ClientWrites(w, a, b, v, v');
    ClientYields(w1, a, b, v, v', [wb, wb]);
    WNextKeepsInv(w, ClientRun(7, 0));
    WNextKeepsInv(w1, ClientRun(7, 0));
    ClientLooks(WNext(w1, ClientRun(7, 0)), a, b, v, v', wb);
  }

  /** A run from the start after which task 7 has panicked looking for `a` on the client. */
  lemma CrashIsReachable(a: Key, b: Key, v: Value, v': Value) returns (steps: seq<WStep>)
    requires Standard(b, v) && a != b
    ensures var wb := Record(Write, 0, b, v);
            At(WRun(START, steps), PutLookPut(a, b, v, v'), b, Doomed, [Unit, Unit], [Unit, Unit], [wb, wb], [wb, wb])
  {
    steps := TaskStarts(a, b, v, v');
    WRunKeepsInv(START, steps);
    ServerPart(WRun(START, steps), a, b, v, v');
    steps := ThreeMore(steps, ServerRun(7, 0), ServerRun(7, 0), PushBack(7));
    WRunKeepsInv(START, steps);
    ClientPart(WRun(START, steps), a, b, v, v');
    steps := ThreeMore(steps, ClientRun(7, 0), ClientRun(7, 0), ClientRun(7, 0));
  }

  lemma TaskStarts(a: Key, b: Key, v: Value, v': Value) returns (steps: seq<WStep>)
    ensures At(WRun(START, steps), PutLookPut(a, b, v, v'), b, Server, [], [], [], [])
  {
    var put, spawn := Env(NativePut(b, v, 0)), Spawn(7, PutLookPut(a, b, v, v'), STANDARD);
    steps := [] + [put] + [spawn];
    WRunOne(START, [], put);
    WRunOne(START, [] + [put], spawn);
    OnlyKeyLoaded(b, v);
    SpawnStarts(WNext(START, put), PutLookPut(a, b, v, v'), b);
  }

  lemma SpawnStarts(w: World, prog: Program, b: Key)
    requires w.tasks == map[] && w.sys.txs == map[] && w.sys.table.entries.Keys == {b}
    ensures At(WNext(w, Spawn(7, prog, STANDARD)), prog, b, Server, [], [], [], [])
  {
  }

  lemma OnlyKeyLoaded(b: Key, v: Value)
    ensures var w := WNext(START, Env(NativePut(b, v, 0)));
            w.tasks == map[] && w.sys.txs == map[] && w.sys.table.entries.Keys == {b}
  {
  }

  lemma ThreeMore(steps: seq<WStep>, s1: WStep, s2: WStep, s3: WStep) returns (longer: seq<WStep>)
    ensures WRun(START, longer) == WNext(WNext(WNext(WRun(START, steps), s1), s2), s3)
  {
    longer := steps + [s1] + [s2] + [s3];
    WRunOne(START, steps, s1);
    WRunOne(START, steps + [s1], s2);
    WRunOne(START, steps + [s1] + [s2], s3);
  }

  lemma {:induction false} PutLookPutAlone(a: Key, b: Key, v: Value, v': Value, m: map<Key, Value>, n: nat)
    ensures AtomicWrites(PutLookPut(a, b, v, v'), m, n) ==
            if n == 0 then []
            else if n < 4 then [Record(Write, 0, b, v)] else [Record(Write, 0, b, v), Record(Write, 0, b, v')]
  {
    if n > 0 {
      PutLookPutAlone(a, b, v, v', m, n - 1);
      AtomicWritesStep(PutLookPut(a, b, v, v'), m, n);
      PutLookPutAt(a, b, v, v', AtomicObs(PutLookPut(a, b, v, v'), m, n - 1));
    }
  }

  lemma PutLookPutAt(a: Key, b: Key, v: Value, v': Value, obs: seq<Obs>)
    ensures PutLookPut(a, b, v, v')(obs) ==
              if |obs| == 0 then APut(b, v) else if |obs| == 1 then AYield else if |obs| == 2 then AGet(a)
              else if |obs| == 3 then APut(b, v') else ADone
  {
    PutLookPutActions(a, b, v, v');
  }

  ghost predicate CouldRunAlone(prog: Program, m: map<Key, Value>, m': map<Key, Value>) {
    exists n :: RunsAlone(prog, m, n, m')
  }

  lemma WholeRunWritesLast(a: Key, b: Key, v: Value, v': Value, m: map<Key, Value>, m': map<Key, Value>)
    requires CouldRunAlone(PutLookPut(a, b, v, v'), m, m')
    ensures b in m' && m'[b] == v'
  {
    var n :| RunsAlone(PutLookPut(a, b, v, v'), m, n, m');
    PutLookPutAlone(a, b, v, v', m, n);
    PutLookPutAt(a, b, v, v', AtomicObs(PutLookPut(a, b, v, v'), m, n));
    var ws := [Record(Write, 0, b, v), Record(Write, 0, b, v')];
    assert ws[1..] == [ws[1]] && ws[1..][1..] == [];
    var m1: map<Key, Value> := m[b := v];
    assert ApplyWrites(m, ws) == ApplyWrites(m1, ws[1..]) == m1[b := v'];
  }

  /** The commit of that panicked task succeeds, and no atomic run of the extension leaves the table that it leaves. */
  lemma CrashIsNoAtomicRun(w: World, a: Key, b: Key, v: Value, v': Value)
    requires WInv(w) && Standard(b, v) && v != v'
    requires var wb := Record(Write, 0, b, v);
             At(w, PutLookPut(a, b, v, v'), b, Doomed, [Unit, Unit], [Unit, Unit], [wb, wb], [wb, wb])
    ensures CrashCommitting(w, 7, 0) && AbsentsStillHold(w, 7)
    ensures !CouldRunAlone(PutLookPut(a, b, v, v'), Values(w.sys.table.entries),
                           Values(WNext(w, ClientRun(7, 0)).sys.table.entries))
  {
    var m, after := Values(w.sys.table.entries), Values(WNext(w, ClientRun(7, 0)).sys.table.entries);
    CrashIsAccepted(w, a, b, v, v');
    CrashLeavesFirst(w, a, b, v, v');
    if CouldRunAlone(PutLookPut(a, b, v, v'), m, after) { WholeRunWritesLast(a, b, v, v', m, after); }
  }

  lemma CrashIsAccepted(w: World, a: Key, b: Key, v: Value, v': Value)
    requires Standard(b, v)
    requires var wb := Record(Write, 0, b, v);
             At(w, PutLookPut(a, b, v, v'), b, Doomed, [Unit, Unit], [Unit, Unit], [wb, wb], [wb, wb])
    ensures CrashCommitting(w, 7, 0) && AbsentsStillHold(w, 7)
  {
    TwoRecordsAreClean(w.tasks[7], Record(Write, 0, b, v));
    ValidatePanicsIff(w.sys.table, TxOf(w.sys, 7), w.sys.clock + 1);
  }

  lemma CrashLeavesFirst(w: World, a: Key, b: Key, v: Value, v': Value)
    requires WInv(w) && CrashCommitting(w, 7, 0)
    requires var wb := Record(Write, 0, b, v);
             At(w, PutLookPut(a, b, v, v'), b, Doomed, [Unit, Unit], [Unit, Unit], [wb, wb], [wb, wb])
    ensures var after := Values(WNext(w, ClientRun(7, 0)).sys.table.entries); b in after && after[b] == v
  {
    var wb, m := Record(Write, 0, b, v), Values(w.sys.table.entries);
    assert TaskInv(w.tasks[7], TxOf(w.sys, 7));
    CrashCommits(w, 7, 0);
    var m1: map<Key, Value> := m[b := v];
    assert [wb, wb][1..] == [wb] && [wb][1..] == [];
    assert ApplyWrites(m, [wb, wb]) == ApplyWrites(m1, [wb]) == m1[b := v];
  }

  // ---------------------------------------------------------------- reads that find nothing

  /** Looks for `a` and, if it is not there, writes `b`. */
  function IfAbsent(a: Key, b: Key, v: Value): Program {
    obs => if |obs| == 0 then AGet(a) else if obs == [Absent] then APut(b, v) else ADone
  }

  lemma IfAbsentActions(a: Key, b: Key, v: Value)
    ensures IfAbsent(a, b, v)([]) == AGet(a)
    ensures IfAbsent(a, b, v)([Absent]) == APut(b, v)
    ensures IfAbsent(a, b, v)([Absent, Unit]) == ADone
    ensures forall obs: seq<Obs> | |obs| > 0 && obs[0].Found? :: IfAbsent(a, b, v)(obs) == ADone
  {
  }

  lemma ServerGetMisses(w: World, id: nat, k: Key)
    requires id in w.tasks && w.tasks[id].side == Server && w.tasks[id].prog(w.tasks[id].obs) == AGet(k)
    requires k !in w.sys.table.entries
    ensures WNext(w, ServerRun(id, 0)) == World(w.sys, w.tasks[id := Observe(w.tasks[id], Absent)])
  {
  }

  lemma ServerPuts(w: World, id: nat, k: Key, v: Value)
    requires id in w.tasks && w.tasks[id].side == Server && w.tasks[id].prog(w.tasks[id].obs) == APut(k, v)
    ensures WNext(w, ServerRun(id, 0)) == World(Next(w.sys, TxPut(id, k, v)), w.tasks[id := Observe(w.tasks[id], Unit)])
  {
  }

  /** The task has looked for `a` in vain and recorded its write to `b`; meanwhile `a` has appeared. */
  ghost predicate Phantom(w: World, a: Key, b: Key, v: Value) {
    && 7 in w.tasks && w.tasks[7] == Task(IfAbsent(a, b, v), STANDARD, Server, [Absent, Unit], [], [], EMPTY)
    && TxOf(w.sys, 7) == Tx([], [Record(Write, 0, b, v)])
    && a in w.sys.table.entries && b in w.sys.table.entries && w.sys.table.entries[b].value != v
  }

  lemma PhantomMidway(w: World, a: Key, b: Key, v: Value, v0: Value)
    requires w == WNext(WNext(START, Env(NativePut(b, v0, 0))), Spawn(7, IfAbsent(a, b, v), STANDARD)) && a != b
    ensures var w' := WNext(w, ServerRun(7, 0));
            && 7 in w'.tasks && w'.tasks[7] == Task(IfAbsent(a, b, v), STANDARD, Server, [Absent], [], [], EMPTY)
            && TxOf(w'.sys, 7) == Tx([], []) && b in w'.sys.table.entries && w'.sys.table.entries[b].value == v0
  {
    IfAbsentActions(a, b, v);
    assert [] + [Absent] == [Absent];
    ServerGetMisses(w, 7, a);
  }

  lemma PhantomIsReachable(a: Key, b: Key, v: Value, v0: Value) returns (steps: seq<WStep>)
    requires a != b && v != v0
    ensures Phantom(WRun(START, steps), a, b, v)
  {
    var s1, s2, s3, s5 := Env(NativePut(b, v0, 0)), Spawn(7, IfAbsent(a, b, v), STANDARD), ServerRun(7, 0),
        Env(NativePut(a, v, 0));
    steps := [] + [s1] + [s2] + [s3] + [s3] + [s5];
    RunFive(s1, s2, s3, s3, s5);
    var w2 := WNext(WNext(START, s1), s2);
    PhantomMidway(w2, a, b, v, v0);
    PhantomWrites(WNext(w2, s3), a, b, v);
  }

  lemma PhantomWrites(w: World, a: Key, b: Key, v: Value)
    requires 7 in w.tasks && w.tasks[7] == Task(IfAbsent(a, b, v), STANDARD, Server, [Absent], [], [], EMPTY)
    requires TxOf(w.sys, 7) == Tx([], []) && b in w.sys.table.entries && w.sys.table.entries[b].value != v && a != b
    ensures Phantom(WNext(WNext(w, ServerRun(7, 0)), Env(NativePut(a, v, 0))), a, b, v)
  {
    IfAbsentActions(a, b, v);
    assert [Absent] + [Unit] == [Absent, Unit];
    ServerPuts(w, 7, b, v);
    PutBeside(WNext(w, ServerRun(7, 0)), a, v);
  }

  lemma PutBeside(w: World, a: Key, v: Value)
    ensures WNext(w, Env(NativePut(a, v, 0))) == w.(sys := Next(w.sys, NativePut(a, v, 0)))
  {
  }

  lemma BlindCommit(m: map<Key, Value>, s: Sys, r: Record)
    requires History.Inv(s) && TxOf(s, 7) == Tx([], [r]) && r.key in s.table.entries && m == Values(s.table.entries)
    ensures CommitOutcome(s, 7, 0) == Committed
    ensures Values(Next(s, Commit(7, 0)).table.entries) == m[r.key := r.value]
  {
    SortKeepsPresence(s.table.entries, [r]);
    CommittedTable(s, 7, 0);
    assert ApplyWrites(m, [r]) == ApplyWrites(m[r.key := r.value], [r][1..]) == m[r.key := r.value];
  }

  lemma NoSuchRun(a: Key, b: Key, v: Value, m: map<Key, Value>)
    requires a in m && b in m && m[b] != v
    ensures !CouldRunAlone(IfAbsent(a, b, v), m, m[b := v])
  {
    var m' := m[b := v];
    assert m'[b] != m[b];
    forall n ensures !RunsAlone(IfAbsent(a, b, v), m, n, m') { NeverWrites(a, b, v, m, n); }
  }

  lemma PhantomCommits(w: World, a: Key, b: Key, v: Value)
    requires WInv(w) && Phantom(w, a, b, v)
    ensures Committing(w, 7, 0)
    ensures Values(Next(w.sys, Commit(7, 0)).table.entries) == Values(w.sys.table.entries)[b := v]
  {
    IfAbsentActions(a, b, v);
    BlindCommit(Values(w.sys.table.entries), w.sys, Record(Write, 0, b, v));
  }

  lemma PhantomWasMissed(w: World, a: Key, b: Key, v: Value)
    requires Phantom(w, a, b, v)
    ensures !AbsentsStillHold(w, 7)
  {
    IfAbsentActions(a, b, v);
    var obs := w.tasks[7].obs;
    assert obs[0] == Absent && obs[..0] == [];
  }

  /** A read that finds nothing is not validated: the commit succeeds, and the table is not what any run of the
      extension alone would leave. */
  lemma AbsentReadIsNotValidated(w: World, a: Key, b: Key, v: Value)
    requires WInv(w) && Phantom(w, a, b, v)
    ensures Committing(w, 7, 0) && !AbsentsStillHold(w, 7)
    ensures !CouldRunAlone(IfAbsent(a, b, v), Values(w.sys.table.entries),
            Values(Next(w.sys, Commit(7, 0)).table.entries))
  {
    PhantomCommits(w, a, b, v);
    PhantomWasMissed(w, a, b, v);
    NoSuchRun(a, b, v, Values(w.sys.table.entries));
  }

  lemma RunFive(s1: WStep, s2: WStep, s3: WStep, s4: WStep, s5: WStep)
    ensures WRun(START, [] + [s1] + [s2] + [s3] + [s4] + [s5])
            == WNext(WNext(WNext(WNext(WNext(START, s1), s2), s3), s4), s5)
  {
    WRunOne(START, [], s1);
    WRunOne(START, [] + [s1], s2);
    WRunOne(START, [] + [s1] + [s2], s3);
    WRunOne(START, [] + [s1] + [s2] + [s3], s4);
    WRunOne(START, [] + [s1] + [s2] + [s3] + [s4], s5);
  }

  lemma {:induction false} NeverWrites(a: Key, b: Key, v: Value, m: map<Key, Value>, n: nat)
    requires a in m
    ensures Writes(IfAbsent(a, b, v), AtomicObs(IfAbsent(a, b, v), m, n)) == []
    ensures n > 0 ==> AtomicObs(IfAbsent(a, b, v), m, n)[0] == Found(m[a])
  {
    if n > 0 {
      NeverWrites(a, b, v, m, n - 1);
      var obs := AtomicObs(IfAbsent(a, b, v), m, n);
      assert obs[..n - 1] == AtomicObs(IfAbsent(a, b, v), m, n - 1);
    }
  }
}
