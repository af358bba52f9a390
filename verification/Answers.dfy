/** What extensions observe, on the server and after a pushback, was really in the table while they ran
    (db/src/context.rs, splinter/src/proxy.rs, sandstorm/src/macros.rs). */
module Answers {
  import opened Bytes
  import opened Store
  import opened History
  import opened Proxies
  import opened Pushback

  /** What a `get` of `k` should observe. */
  predicate Tells(entries: map<Key, Entry>, k: Key, o: Obs) {
    o == if k in entries then Found(entries[k].value) else Absent
  }

  /** At some moment of the run at which task `id` existed, `o` was the right observation for `k`. */
  ghost predicate WasTrue(steps: seq<WStep>, id: nat, k: Key, o: Obs) {
    exists n: nat :: n <= |steps| && TrueAt(WRun(START, steps[..n]), id, k, o)
  }

  ghost predicate TrueAt(w: World, id: nat, k: Key, o: Obs) { id in w.tasks && Tells(w.sys.table.entries, k, o) }

  lemma WasTrueStays(front: seq<WStep>, last: WStep, id: nat, k: Key, o: Obs)
    requires WasTrue(front, id, k, o)
    ensures WasTrue(front + [last], id, k, o)
  {
    var n: nat :| n <= |front| && TrueAt(WRun(START, front[..n]), id, k, o);
    assert (front + [last])[..n] == front[..n];
  }

  lemma TrueNow(front: seq<WStep>, last: WStep, id: nat, k: Key, o: Obs)
    requires TrueAt(WRun(START, front), id, k, o)
    ensures WasTrue(front + [last], id, k, o)
  {
    assert (front + [last])[..|front|] == front;
  }

  // ---------------------------------------------------------------- recorded reads

  /** A read set stays, starts over or gets a record of what is in the table now. */
  predicate Reads(entries: map<Key, Entry>, rs: seq<Record>, rs': seq<Record>) {
    || rs' == rs
    || rs' == []
    || (|rs'| == |rs| + 1 && rs'[..|rs|] == rs && Tells(entries, rs'[|rs|].key, Found(rs'[|rs|].value)))
  }

  lemma NextReads(s: Sys, step: Step, id: nat)
    ensures Reads(s.table.entries, TxOf(s, id).readSet, TxOf(Next(s, step), id).readSet)
    ensures !Touches(step, id) ==> TxOf(Next(s, step), id) == TxOf(s, id)
  {
    match step {
      case Commit(who, ticks) => CommitClears(s, who, ticks, id);
      case _ =>
    }
  }

  lemma RequestReads(s: Sys, who: nat, tx: Tx, ticks: nat, id: nat)
    ensures TxOf(Requested(s, who, tx, ticks), id) == if who == id then Tx([], []) else TxOf(s, id)
  {
    CommitClears(s.(txs := s.txs[who := tx]), who, ticks, id);
  }

  lemma SendReads(w: World, who: nat, ticks: nat, id: nat)
    requires who in w.tasks
    ensures Reads(w.sys.table.entries, TxOf(w.sys, id).readSet, TxOf(SendCommit(w, who, ticks).sys, id).readSet)
  {
    forall tx: Tx
      ensures TxOf(Requested(w.sys, who, tx, ticks), id) == if who == id then Tx([], []) else TxOf(w.sys, id)
    {
      RequestReads(w.sys, who, tx, ticks, id);
    }
  }

  lemma ClientReads(w: World, who: nat, ticks: nat, id: nat)
    requires who in w.tasks
    ensures Reads(w.sys.table.entries, TxOf(w.sys, id).readSet, TxOf(ClientStep(w, who, ticks).sys, id).readSet)
  {
    match w.tasks[who].prog(w.tasks[who].obs) {
      case AGet(k) => NextReads(w.sys, TxGet(who, k), id);
      case APut(k, v) => NextReads(w.sys, TxPut(who, k, v), id);
      case AYield =>
      case ADone => SendReads(w, who, ticks, id);
    }
  }

  lemma ServerReads(w: World, who: nat, ticks: nat, id: nat)
    requires who in w.tasks
    ensures Reads(w.sys.table.entries, TxOf(w.sys, id).readSet, TxOf(ServerStep(w, who, ticks).sys, id).readSet)
  {
    match w.tasks[who].prog(w.tasks[who].obs) {
      case AGet(k) => NextReads(w.sys, TxGet(who, k), id);
      case APut(k, v) => NextReads(w.sys, TxPut(who, k, v), id);
      case AYield =>
      case ADone => NextReads(w.sys, Commit(who, ticks), id);
    }
  }

  lemma WNextReads(w: World, step: WStep, id: nat)
    ensures Reads(w.sys.table.entries, TxOf(w.sys, id).readSet, TxOf(WNext(w, step).sys, id).readSet)
  {
    match step {
      case Spawn(_, _, _) =>
      case PushBack(_) =>
      case ServerRun(who, ticks) => if who in w.tasks { ServerReads(w, who, ticks, id); }
      case ClientRun(who, ticks) =>
        if who in w.tasks {
          ClientReads(w, who, ticks, id);
          SendReads(w, who, ticks, id);
        }
      case Env(s) => NextReads(w.sys, s, id);
    }
  }

  ghost predicate ReadsTrue(steps: seq<WStep>, id: nat, rs: seq<Record>) {
    forall j | 0 <= j < |rs| :: WasTrue(steps, id, rs[j].key, Found(rs[j].value))
  }

  lemma ReadsStayTrue(front: seq<WStep>, last: WStep, id: nat, rs: seq<Record>, rs': seq<Record>)
    requires id in WRun(START, front).tasks && ReadsTrue(front, id, rs)
    requires Reads(WRun(START, front).sys.table.entries, rs, rs')
    ensures ReadsTrue(front + [last], id, rs')
  {
    forall j | 0 <= j < |rs'| ensures WasTrue(front + [last], id, rs'[j].key, Found(rs'[j].value)) {
      if j < |rs| {
        assert rs'[j] == rs[j] by { if rs' != rs { assert rs'[..|rs|][j] == rs'[j]; } }
        WasTrueStays(front, last, id, rs[j].key, Found(rs[j].value));
      } else {
        TrueNow(front, last, id, rs'[j].key, Found(rs'[j].value));
      }
    }
  }

  /** Every read on record for a task was in the table while the task existed. */
  lemma {:induction false} RecordsWereTrue(steps: seq<WStep>, id: nat)
    requires id in WRun(START, steps).tasks
    ensures ReadsTrue(steps, id, TxOf(WRun(START, steps).sys, id).readSet)
  {
    if steps != [] {
      var front, last := steps[..|steps| - 1], steps[|steps| - 1];
      var w := WRun(START, front);
      assert steps == front + [last];
      WNextReads(w, last, id);
      if id in w.tasks {
        RecordsWereTrue(front, id);
        ReadsStayTrue(front, last, id, TxOf(w.sys, id).readSet, TxOf(WNext(w, last).sys, id).readSet);
      } else {
        StartsEmpty(w, last, id);
      }
    }
  }

  lemma StartsEmpty(w: World, step: WStep, id: nat)
    requires id !in w.tasks && id in WNext(w, step).tasks
    ensures var task := WNext(w, step).tasks[id]; task.side == Server && task.obs == []
    ensures TxOf(WNext(w, step).sys, id).readSet == []
  {
  }

  // ---------------------------------------------------------------- keys that were not found

  predicate OnClient(side: Side) { side == Client || side == Doomed }

  /** One step of a task: it observes that a key is absent only if it is, and only on the server. */
  ghost predicate Observes(entries: map<Key, Entry>, task: Task, task': Task) {
    && task'.prog == task.prog
    && (task'.side == Server ==>
          && task.side == Server
          && (task'.obs == task.obs
                || exists o :: task'.obs == task.obs + [o]
                     && (o == Absent ==> task.prog(task.obs).AGet? && task.prog(task.obs).key !in entries)))
    && (OnClient(task'.side) ==>
          || (task.side == Server && task'.obs == [] && task'.serverObs == task.obs)
          || (OnClient(task.side) && task'.serverObs == task.serverObs
              && (task'.obs == task.obs || exists o :: task'.obs == task.obs + [o] && o != Absent)))
  }

  /** Every step of the world is at most one step of each task. */
  lemma WNextObserves(w: World, step: WStep, id: nat)
    requires id in w.tasks
    ensures id in WNext(w, step).tasks && Observes(w.sys.table.entries, w.tasks[id], WNext(w, step).tasks[id])
  {
    match step {
      case Spawn(_, _, _) =>
      case PushBack(who) => PushObserves(w, who, id);
      case ServerRun(who, ticks) => ServerObserves(w, who, ticks, id);
      case ClientRun(who, ticks) => ClientObserves(w, who, ticks, id);
      case Env(_) =>
    }
  }

  lemma PushObserves(w: World, who: nat, id: nat)
    requires id in w.tasks
    ensures var w' := WNext(w, PushBack(who));
            id in w'.tasks && Observes(w.sys.table.entries, w.tasks[id], w'.tasks[id])
  {
  }

  lemma ServerObserves(w: World, who: nat, ticks: nat, id: nat)
    requires id in w.tasks
    ensures var w' := WNext(w, ServerRun(who, ticks));
            id in w'.tasks && Observes(w.sys.table.entries, w.tasks[id], w'.tasks[id])
  {
  }

  lemma ClientObserves(w: World, who: nat, ticks: nat, id: nat)
    requires id in w.tasks
    ensures var w' := WNext(w, ClientRun(who, ticks));
            id in w'.tasks && Observes(w.sys.table.entries, w.tasks[id], w'.tasks[id])
  {
    if who in w.tasks && OnClient(w.tasks[who].side) {
      ClientRuns(w, who, ticks);
      if w.tasks[who].side == Client { ClientChanges(w, who, ticks); }
      SendChanges(w, who, ticks);
    }
  }

  lemma SendChanges(w: World, who: nat, ticks: nat)
    requires who in w.tasks
    ensures var task' := SendCommit(w, who, ticks).tasks[who];
            && SendCommit(w, who, ticks).tasks == w.tasks[who := task']
            && task'.prog == w.tasks[who].prog && (task'.side.Finished? || task'.side == Crashed)
  {
  }

  lemma ClientChanges(w: World, who: nat, ticks: nat)
    requires who in w.tasks && w.tasks[who].side == Client
    ensures var task, task' := w.tasks[who], ClientStep(w, who, ticks).tasks[who];
            && ClientStep(w, who, ticks).tasks == w.tasks[who := task']
            && task'.prog == task.prog && task'.side != Server
            && (OnClient(task'.side) ==>
                  && task'.serverObs == task.serverObs
                  && (task'.obs == task.obs || exists o :: task'.obs == task.obs + [o] && o != Absent))
  {
    var task := w.tasks[who];
    match task.prog(task.obs) {
      case AGet(k) => FetchChanges(w, who, k);
      case ADone => SendChanges(w, who, ticks);
      case _ =>
    }
  }

  lemma FetchChanges(w: World, who: nat, k: Key)
    requires who in w.tasks && w.tasks[who].side == Client
    ensures var task, task' := w.tasks[who], Fetch(w, who, k).tasks[who];
            && Fetch(w, who, k).tasks == w.tasks[who := task']
            && task'.prog == task.prog && task'.side != Server && task'.serverObs == task.serverObs
            && (task'.obs == task.obs || exists o :: task'.obs == task.obs + [o] && o != Absent)
  {
  }

  ghost predicate AbsentsTrue(steps: seq<WStep>, id: nat, prog: Program, obs: seq<Obs>) {
    forall i | 0 <= i < |obs| && obs[i] == Absent ::
      prog(obs[..i]).AGet? && WasTrue(steps, id, prog(obs[..i]).key, Absent)
  }

  ghost predicate TaskTrue(steps: seq<WStep>, id: nat, task: Task) {
    && (task.side == Server ==> AbsentsTrue(steps, id, task.prog, task.obs))
    && (OnClient(task.side) ==> Absent !in task.obs && AbsentsTrue(steps, id, task.prog, task.serverObs))
  }

  lemma AbsentsStay(front: seq<WStep>, last: WStep, id: nat, prog: Program, obs: seq<Obs>)
    requires AbsentsTrue(front, id, prog, obs)
    ensures AbsentsTrue(front + [last], id, prog, obs)
  {
    forall i | 0 <= i < |obs| && obs[i] == Absent
      ensures prog(obs[..i]).AGet? && WasTrue(front + [last], id, prog(obs[..i]).key, Absent)
    {
      WasTrueStays(front, last, id, prog(obs[..i]).key, Absent);
    }
  }

  lemma AbsentsGrow(front: seq<WStep>, last: WStep, id: nat, prog: Program, obs: seq<Obs>, o: Obs)
    requires id in WRun(START, front).tasks && AbsentsTrue(front, id, prog, obs)
    requires o == Absent ==> prog(obs).AGet? && prog(obs).key !in WRun(START, front).sys.table.entries
    ensures AbsentsTrue(front + [last], id, prog, obs + [o])
  {
    AbsentsStay(front, last, id, prog, obs);
    var longer := obs + [o];
    forall i | 0 <= i < |longer| && longer[i] == Absent
      ensures prog(longer[..i]).AGet? && WasTrue(front + [last], id, prog(longer[..i]).key, Absent)
    {
      assert longer[..i] == obs[..i];
      if i == |obs| {
        assert longer[..i] == obs;
        TrueNow(front, last, id, prog(obs).key, Absent);
      }
    }
  }

  lemma TaskStaysTrue(front: seq<WStep>, last: WStep, id: nat, task: Task, task': Task)
    requires id in WRun(START, front).tasks && TaskTrue(front, id, task)
    requires Observes(WRun(START, front).sys.table.entries, task, task')
    ensures TaskTrue(front + [last], id, task')
  {
    if task'.side == Server {
      if task'.obs == task.obs {
        AbsentsStay(front, last, id, task.prog, task.obs);
      } else {
        AbsentsGrow(front, last, id, task.prog, task.obs, task'.obs[|task.obs|]);
      }
    } else if OnClient(task'.side) {
      AbsentsStay(front, last, id, task.prog, task'.serverObs);
    }
  }

  lemma {:induction false} TasksWereTrue(steps: seq<WStep>, id: nat)
    requires id in WRun(START, steps).tasks
    ensures TaskTrue(steps, id, WRun(START, steps).tasks[id])
  {
    if steps != [] {
      var front, last := steps[..|steps| - 1], steps[|steps| - 1];
      var w := WRun(START, front);
      assert steps == front + [last];
      if id in w.tasks {
        TasksWereTrue(front, id);
        WNextObserves(w, last, id);
        TaskStaysTrue(front, last, id, w.tasks[id], WNext(w, last).tasks[id]);
      } else {
        StartsEmpty(w, last, id);
      }
    }
  }

  // ---------------------------------------------------------------- runs

  /** In every run, whatever a running extension has observed for a `get`, on the server or from its cache after a
      pushback, is what the table held for that key at some moment since the extension was started. */
  lemma ObservationsWereTrue(steps: seq<WStep>, id: nat, i: nat)
    requires var w := WRun(START, steps);
             && id in w.tasks && (w.tasks[id].side == Server || (w.tasks[id].side == Client && Clean(w.tasks[id])))
             && i < |w.tasks[id].obs| && w.tasks[id].prog(w.tasks[id].obs[..i]).AGet?
    ensures var task := WRun(START, steps).tasks[id];
            var k := task.prog(task.obs[..i]).key;
            exists n: nat :: n <= |steps| &&
              var past := WRun(START, steps[..n]);
              && id in past.tasks
              && task.obs[i] == if k in past.sys.table.entries then Found(past.sys.table.entries[k].value) else Absent
  {
    var w := WRun(START, steps);
    var task, tx := w.tasks[id], TxOf(w.sys, id);
    WRunKeepsInv(START, steps);
    RecordsWereTrue(steps, id);
    TasksWereTrue(steps, id);
    assert TaskInv(task, tx);
    assert ObsOk(task.prog, task.obs, i, tx.readSet);
    var k := task.prog(task.obs[..i]).key;
    if task.obs[i].Found? {
      var j :| 0 <= j < |tx.readSet| && tx.readSet[j].key == k && tx.readSet[j].value == task.obs[i].value;
      assert WasTrue(steps, id, k, Found(tx.readSet[j].value));
    }
    var n: nat :| n <= |steps| && TrueAt(WRun(START, steps[..n]), id, k, task.obs[i]);
    assert id in WRun(START, steps[..n]).tasks;
  }
}
