/** The YCSB+T transfer extension (ext/ycsbt/src/lib.rs) and the balance check it must satisfy (db/src/context.rs). */
module Money {
  import opened Bytes
  import opened Store
  import opened History
  import opened Pushback
  import opened Wire
  import opened Proxies

  /** One unit from the first account to the second, or the other way round, or nothing. */
  function Move(v1: Value, v2: Value): (Value, Value)
    requires |v1| > 0 && |v2| > 0
  {
    if v1[0] > 0 && v2[0] < 255 then (v1[0 := v1[0] - 1], v2[0 := v2[0] + 1])
    else if v2[0] > 0 && v1[0] < 255 then (v1[0 := v1[0] + 1], v2[0 := v2[0] - 1])
    else (v1, v2)
  }

  /** Both reads found something to compute with. */
  predicate BothRead(obs: seq<Obs>) {
    |obs| >= 2 && obs[0].Found? && obs[1].Found? && |obs[0].value| > 0 && |obs[1].value| > 0
  }

  /** Read both accounts, up to the first that is missing, compute with `spin` yields, write both accounts. The
      extension reads with `multiget`, which on the server is one `get` after the other and on the client a lookup in
      the cache. */
  function TransferAction(k1: Key, k2: Key, spin: nat, obs: seq<Obs>): Action {
    if |obs| == 0 then AGet(k1)
    else if |obs| == 1 && obs[0] != Absent then AGet(k2)
    else if |obs| < spin + (if obs[0] == Absent then 1 else 2) then AYield
    else if !BothRead(obs) then ADone
    else if |obs| == 2 + spin then APut(k1, Move(obs[0].value, obs[1].value).0)
    else if |obs| == 3 + spin then APut(k2, Move(obs[0].value, obs[1].value).1)
    else ADone
  }

  function Transfer(k1: Key, k2: Key, spin: nat): Program { obs => TransferAction(k1, k2, spin, obs) }

  // ---------------------------------------------------------------- a transfer on its own

  predicate Funded(m: map<Key, Value>, k1: Key, k2: Key) {
    k1 in m && k2 in m && |m[k1]| > 0 && |m[k2]| > 0
  }

  function TransferWrites(m: map<Key, Value>, k1: Key, k2: Key, spin: nat, n: nat): seq<Record>
    requires Funded(m, k1, k2)
  {
    var (v1, v2) := Move(m[k1], m[k2]);
    if n <= 2 + spin then []
    else if n == 3 + spin then [Record(Write, 0, k1, v1)]
    else [Record(Write, 0, k1, v1), Record(Write, 0, k2, v2)]
  }

  lemma {:induction false} TransferReads(m: map<Key, Value>, k1: Key, k2: Key, spin: nat, n: nat)
    ensures var obs := AtomicObs(Transfer(k1, k2, spin), m, n);
            && (n > 0 ==> obs[0] == if k1 in m then Found(m[k1]) else Absent)
            && (n > 1 && k1 in m ==> obs[1] == if k2 in m then Found(m[k2]) else Absent)
            && (!Funded(m, k1, k2) ==> !BothRead(obs))
  {
    if n > 0 { TransferReads(m, k1, k2, spin, n - 1); }
  }

  /** What a transfer between existing accounts does next depends only on how far it is. */
  lemma ActionByLength(m: map<Key, Value>, k1: Key, k2: Key, spin: nat, n: nat)
    requires Funded(m, k1, k2)
    ensures var (v1, v2) := Move(m[k1], m[k2]);
            TransferAction(k1, k2, spin, AtomicObs(Transfer(k1, k2, spin), m, n)) ==
              if n == 0 then AGet(k1) else if n == 1 then AGet(k2) else if n < 2 + spin then AYield
              else if n == 2 + spin then APut(k1, v1) else if n == 3 + spin then APut(k2, v2) else ADone
  {
    TransferReads(m, k1, k2, spin, n);
  }

  lemma {:induction false} TransferAlone(m: map<Key, Value>, k1: Key, k2: Key, spin: nat, n: nat)
    requires Funded(m, k1, k2)
    ensures Writes(Transfer(k1, k2, spin), AtomicObs(Transfer(k1, k2, spin), m, n))
            == TransferWrites(m, k1, k2, spin, n)
  {
    if n > 0 {
      TransferAlone(m, k1, k2, spin, n - 1);
      ActionByLength(m, k1, k2, spin, n - 1);
      AtomicWritesStep(Transfer(k1, k2, spin), m, n);
    }
  }

  /** The whole effect of a transfer that runs alone. */
  function Transferred(m: map<Key, Value>, k1: Key, k2: Key): map<Key, Value>
    requires Funded(m, k1, k2)
  {
    var (v1, v2) := Move(m[k1], m[k2]);
    m[k1 := v1][k2 := v2]
  }

  lemma TransferRunsAlone(m: map<Key, Value>, k1: Key, k2: Key, spin: nat, n: nat, m': map<Key, Value>)
    requires Funded(m, k1, k2) && RunsAlone(Transfer(k1, k2, spin), m, n, m')
    ensures m' == Transferred(m, k1, k2)
  {
    TransferAlone(m, k1, k2, spin, n);
    ActionByLength(m, k1, k2, spin, n);
    var ws := TransferWrites(m, k1, k2, spin, n);
    assert ws[1..] == [ws[1]] && ws[1..][1..] == [];
    assert ApplyWrites(m, ws) == ApplyWrites(m[k1 := ws[0].value], ws[1..]) == m[k1 := ws[0].value][k2 := ws[1].value];
  }

  lemma {:induction false} UnfundedWrites(m: map<Key, Value>, k1: Key, k2: Key, spin: nat, n: nat)
    requires !Funded(m, k1, k2)
    ensures Writes(Transfer(k1, k2, spin), AtomicObs(Transfer(k1, k2, spin), m, n)) == []
  {
    if n > 0 {
      UnfundedWrites(m, k1, k2, spin, n - 1);
      TransferReads(m, k1, k2, spin, n - 1);
      AtomicWritesStep(Transfer(k1, k2, spin), m, n);
    }
  }

  /** Without two accounts that have a balance nothing moves. */
  lemma UnfundedMovesNothing(m: map<Key, Value>, k1: Key, k2: Key, spin: nat, n: nat, m': map<Key, Value>)
    requires !Funded(m, k1, k2) && RunsAlone(Transfer(k1, k2, spin), m, n, m')
    ensures m' == m
  {
    UnfundedWrites(m, k1, k2, spin, n);
  }

  // ---------------------------------------------------------------- the balance

  /** Every byte after the balance. */
  function Rest(m: map<Key, Value>, k: Key): Bytes { if k in m && |m[k]| > 0 then m[k][1..] else [] }

  /** What a transfer between two accounts does to any table: it moves one unit to the second account exactly if the
      first has one and the second has room; if not, one unit back exactly if that is possible; otherwise nothing. All
      other bytes and keys stay. */
  lemma TransferMoves(m: map<Key, Value>, k1: Key, k2: Key, spin: nat, n: nat, m': map<Key, Value>)
    requires Funded(m, k1, k2) && k1 != k2 && RunsAlone(Transfer(k1, k2, spin), m, n, m')
    ensures Balance(m', k1) == Balance(m, k1) - 1 && Balance(m', k2) == Balance(m, k2) + 1
            <==> Balance(m, k1) > 0 && Balance(m, k2) < 255
    ensures Balance(m', k1) == Balance(m, k1) + 1 && Balance(m', k2) == Balance(m, k2) - 1
            <==> !(Balance(m, k1) > 0 && Balance(m, k2) < 255) && Balance(m, k2) > 0 && Balance(m, k1) < 255
    ensures m' == m
            <==> !(Balance(m, k1) > 0 && Balance(m, k2) < 255) && !(Balance(m, k2) > 0 && Balance(m, k1) < 255)
    ensures m'.Keys == m.Keys && forall k | k in m && k != k1 && k != k2 :: m'[k] == m[k]
    ensures |m'[k1]| == |m[k1]| && |m'[k2]| == |m[k2]| && Rest(m', k1) == Rest(m, k1) && Rest(m', k2) == Rest(m, k2)
  {
    TransferRunsAlone(m, k1, k2, spin, n, m');
    var v1, v2 := m[k1], m[k2];
    var (w1, w2) := Move(v1, v2);
    assert w1[1..] == v1[1..] && w2[1..] == v2[1..];
    if !(v1[0] > 0 && v2[0] < 255) && !(v2[0] > 0 && v1[0] < 255) { assert m[k1 := v1][k2 := v2] == m; }
  }

  function Balance(m: map<Key, Value>, k: Key): nat {
    if k in m && |m[k]| > 0 then m[k][0] else 0
  }

  /** The sum of the first value bytes over a list of accounts. */
  function Sum(accounts: seq<Key>, m: map<Key, Value>): nat {
    if accounts == [] then 0 else Balance(m, accounts[0]) + Sum(accounts[1..], m)
  }

  ghost predicate Distinct(accounts: seq<Key>) {
    forall i, j | 0 <= i < j < |accounts| :: accounts[i] != accounts[j]
  }

  lemma {:induction false} SumUpdate(accounts: seq<Key>, m: map<Key, Value>, k: Key, v: Value)
    requires Distinct(accounts)
    ensures Sum(accounts, m[k := v]) ==
            if k in accounts then Sum(accounts, m) - Balance(m, k) + Balance(m[k := v], k) else Sum(accounts, m)
  {
    if accounts != [] {
      SumUpdate(accounts[1..], m, k, v);
      if accounts[0] == k { assert k !in accounts[1..]; }
    }
  }

  /** A transfer that runs alone keeps the total exactly when its two accounts differ, or the one account is empty or
      full: moving to itself, an account keeps only the second write and gains a unit. */
  lemma TransferConservesIff(accounts: seq<Key>, m: map<Key, Value>, k1: Key, k2: Key)
    requires Distinct(accounts) && k1 in accounts && k2 in accounts && Funded(m, k1, k2)
    ensures Sum(accounts, Transferred(m, k1, k2)) == Sum(accounts, m) <==>
            k1 != k2 || Balance(m, k1) == 0 || Balance(m, k1) == 255
  {
    var (v1, v2) := Move(m[k1], m[k2]);
    SumUpdate(accounts, m, k1, v1);
    SumUpdate(accounts, m[k1 := v1], k2, v2);
  }

  // ---------------------------------------------------------------- runs of transfers

  /** Key and value have the lengths that a client is configured with. */
  predicate Fits(config: Config, k: Key, v: Value) { |k| == config.keyLen && |v| == config.valLen }

  /** The client's `put` accepts such keys and values. */
  predicate PutSized(config: Config) { VERSION_SIZE + config.keyLen + config.valLen == PUT_SIZE }

  /** Every account has a balance, and all have the lengths `sized`, if that is given. */
  ghost predicate Open(entries: map<Key, Entry>, accounts: seq<Key>, sized: Option<Config>) {
    forall k | k in accounts ::
      k in entries && |entries[k].value| > 0 && (sized.Some? ==> Fits(sized.value, k, entries[k].value))
  }

  /** Concurrent transfers between distinct accounts and reads, and no other writers. Tasks are pushed back only if all
      keys and values have the lengths that the clients are configured with. */
  ghost predicate MoneyStep(step: WStep, accounts: seq<Key>, sized: Option<Config>) {
    match step
    case Spawn(_, prog, config) => IsTransfer(prog, accounts) && (sized.Some? ==> config == sized.value)
    case PushBack(_) => sized.Some?
    case Env(s) => s.NativeGet?
    case _ => true
  }

  ghost predicate IsTransfer(prog: Program, accounts: seq<Key>) {
    exists k1: Key, k2: Key, spin: nat :: prog == Transfer(k1, k2, spin) && k1 != k2 && k1 in accounts && k2 in accounts
  }

  ghost predicate AllFit(config: Config, rs: seq<Record>) {
    forall i | 0 <= i < |rs| :: Fits(config, rs[i].key, rs[i].value)
  }

  /** One record for each of the accounts that have been read. */
  ghost predicate ReadsOf(tx: Tx, k1: Key, k2: Key, n: nat) {
    && |tx.readSet| == (if n < 2 then n else 2)
    && (n > 0 ==> tx.readSet[0].key == k1 && tx.readSet[0].optype == Read) && (n > 1 ==> tx.readSet[1].key == k2)
  }

  /** A transfer on its way: nothing was missing, on the server it has read what it has seen, and on the client it has
      both accounts in its cache and no writes but its own. It panics only where `put` does not accept its values, and
      then before it has written anything. */
  ghost predicate Underway(task: Task, tx: Tx, k1: Key, k2: Key, sized: Option<Config>) {
    && Absent !in task.obs && Absent !in task.serverObs
    && (sized.Some? ==> task.config == sized.value)
    && match task.side
       case Server => ReadsOf(tx, k1, k2, |task.obs|) && (sized.Some? ==> AllFit(sized.value, tx.readSet))
       case Client => sized.Some? && Replaying(task, tx, k1, k2, sized.value)
       case Doomed =>
         sized.Some? && Replaying(task, tx, k1, k2, sized.value) && !PutSized(sized.value)
       case Finished(_) => true
       case Crashed => sized.Some? && !PutSized(sized.value)
  }

  ghost predicate Replaying(task: Task, tx: Tx, k1: Key, k2: Key, config: Config) {
    && ReadsOf(tx, k1, k2, 2) && Writes(task.prog, task.serverObs) == []
    && task.sent == tx.readSet + Writes(task.prog, task.obs) && AllFit(config, task.sent)
    && (!PutSized(config) ==> Writes(task.prog, task.obs) == [])
  }

  ghost predicate TransferTask(task: Task, tx: Tx, accounts: seq<Key>, sized: Option<Config>) {
    exists k1: Key, k2: Key, spin: nat ::
      && task.prog == Transfer(k1, k2, spin) && k1 != k2 && k1 in accounts && k2 in accounts
      && Underway(task, tx, k1, k2, sized)
  }

  lemma Parties(task: Task, tx: Tx, accounts: seq<Key>, sized: Option<Config>) returns (k1: Key, k2: Key, spin: nat)
    requires TransferTask(task, tx, accounts, sized)
    ensures task.prog == Transfer(k1, k2, spin) && k1 != k2 && k1 in accounts && k2 in accounts
    ensures Underway(task, tx, k1, k2, sized)
  {
    k1, k2, spin :| task.prog == Transfer(k1, k2, spin) && k1 != k2 && k1 in accounts && k2 in accounts
      && Underway(task, tx, k1, k2, sized);
  }

  ghost predicate MoneyInv(w: World, accounts: seq<Key>, sized: Option<Config>) {
    && WInv(w) && Distinct(accounts) && Open(w.sys.table.entries, accounts, sized)
    && forall id | id in w.tasks :: TransferTask(w.tasks[id], TxOf(w.sys, id), accounts, sized)
  }

  /** What a step may do to the money. */
  ghost predicate Conserves(w: World, w': World, accounts: seq<Key>, sized: Option<Config>) {
    && Open(w'.sys.table.entries, accounts, sized)
    && Sum(accounts, Values(w'.sys.table.entries)) == Sum(accounts, Values(w.sys.table.entries))
    && forall id | id in w'.tasks :: TransferTask(w'.tasks[id], TxOf(w'.sys, id), accounts, sized)
  }

  // ---------------------------------------------------------------- what a transfer writes

  /** A transfer writes its two accounts at the end, and nothing before it has computed. */
  lemma {:induction false} TransferWritesAccounts(k1: Key, k2: Key, spin: nat, obs: seq<Obs>)
    ensures var ws := Writes(Transfer(k1, k2, spin), obs);
            && (forall i | 0 <= i < |ws| :: ws[i].key == k1 || ws[i].key == k2)
            && |ws| <= (if |obs| <= 2 + spin then 0 else if |obs| == 3 + spin then 1 else 2)
  {
    if obs != [] {
      var front := obs[..|obs| - 1];
      TransferWritesAccounts(k1, k2, spin, front);
      assert Transfer(k1, k2, spin)(front) == TransferAction(k1, k2, spin, front);
    }
  }

  // ---------------------------------------------------------------- commits

  lemma TransferNeverPanics(w: World, accounts: seq<Key>, sized: Option<Config>, id: nat, ticks: nat)
    requires MoneyInv(w, accounts, sized) && id in w.tasks
    requires w.tasks[id].side == Server || (w.tasks[id].side == Client && Sendable(w.tasks[id]))
    ensures CommitOutcome(w.sys, id, ticks) != Panicked
  {
    var task, s, tx := w.tasks[id], w.sys, TxOf(w.sys, id);
    var k1: Key, k2: Key, spin: nat :| task.prog == Transfer(k1, k2, spin) && k1 in accounts && k2 in accounts;
    TransferWritesAccounts(k1, k2, spin, task.obs);
    TransferWritesAccounts(k1, k2, spin, task.serverObs);
    if task.side == Client { SendableIsClean(task); }
    assert TaskInv(task, tx);
    forall i | 0 <= i < |tx.writeSet| ensures tx.writeSet[i].key in s.table.entries {
      assert tx.writeSet[i].key == k1 || tx.writeSet[i].key == k2;
    }
    ValidatePanicsIff(s.table, tx, s.clock + 1 + ticks);
  }

  lemma NoAbsentHolds(prog: Program, obs: seq<Obs>, m: map<Key, Value>)
    requires Absent !in obs
    ensures AbsentsHold(prog, obs, m)
  {
    forall i | 0 <= i < |obs| ensures obs[i] != Absent {}
  }

  lemma CommittedTransferConserves(w: World, accounts: seq<Key>, sized: Option<Config>, id: nat, ticks: nat)
    requires MoneyInv(w, accounts, sized) && Committing(w, id, ticks)
    ensures var s' := Next(w.sys, Commit(id, ticks));
            && Open(s'.table.entries, accounts, sized)
            && Sum(accounts, Values(s'.table.entries)) == Sum(accounts, Values(w.sys.table.entries))
  {
    var task, entries := w.tasks[id], w.sys.table.entries;
    var k1, k2, spin := Parties(task, TxOf(w.sys, id), accounts, sized);
    var m := Values(entries);
    assert Funded(m, k1, k2);
    NoAbsentHolds(task.prog, task.obs, m);
    NoAbsentHolds(task.prog, task.serverObs, m);
    CommitIsAtomicRun(w, id, ticks);
    var entries' := Next(w.sys, Commit(id, ticks)).table.entries;
    TransferRunsAlone(m, k1, k2, spin, |task.obs|, Values(entries'));
    TransferConservesIff(accounts, m, k1, k2);
    OpenFromValues(entries, entries', accounts, sized, k1, k2);
  }

  /** The commit of a transfer task: all or nothing, and the total stays. */
  lemma CommitConserves(w: World, accounts: seq<Key>, sized: Option<Config>, id: nat, ticks: nat)
    requires MoneyInv(w, accounts, sized) && id in w.tasks && w.tasks[id].prog(w.tasks[id].obs) == ADone
    requires w.tasks[id].side == Server || (w.tasks[id].side == Client && Sendable(w.tasks[id]))
    ensures var s' := Next(w.sys, Commit(id, ticks));
            && Open(s'.table.entries, accounts, sized)
            && Sum(accounts, Values(s'.table.entries)) == Sum(accounts, Values(w.sys.table.entries))
  {
    TransferNeverPanics(w, accounts, sized, id, ticks);
    if CommitOutcome(w.sys, id, ticks) == Committed {
      CommittedTransferConserves(w, accounts, sized, id, ticks);
    } else {
      AbortChangesNothing(w.sys, id, ticks);
    }
  }

  lemma AbortChangesNothing(s: Sys, id: nat, ticks: nat)
    requires CommitOutcome(s, id, ticks) == Aborted
    ensures Next(s, Commit(id, ticks)).table == s.table
  {
  }

  lemma OpenFromValues(entries: map<Key, Entry>, entries': map<Key, Entry>, accounts: seq<Key>, sized: Option<Config>,
                       k1: Key, k2: Key)
    requires Open(entries, accounts, sized) && k1 in accounts && k2 in accounts && Funded(Values(entries), k1, k2)
    requires Values(entries') == Transferred(Values(entries), k1, k2)
    ensures Open(entries', accounts, sized)
  {
    forall k | k in accounts
      ensures k in entries' && |entries'[k].value| > 0 && (sized.Some? ==> Fits(sized.value, k, entries'[k].value))
    {
      assert k in Values(entries') && Values(entries')[k] == entries'[k].value;
      assert |Values(entries')[k]| == |Values(entries)[k]|;
    }
  }

  // ---------------------------------------------------------------- steps

  /** Task `id` changes and the table does not. */
  lemma QuietStepConserves(w: World, accounts: seq<Key>, sized: Option<Config>, sys: Sys, id: nat, task: Task)
    requires MoneyInv(w, accounts, sized) && id in w.tasks && sys.table == w.sys.table
    requires forall other | other != id :: TxOf(sys, other) == TxOf(w.sys, other)
    requires TransferTask(task, TxOf(sys, id), accounts, sized)
    ensures Conserves(w, WithTask(w, sys, id, task), accounts, sized)
  {
  }

  lemma OthersKeepTx(s: Sys, step: Step, id: nat)
    requires (step.TxGet? || step.TxPut? || step.Commit?) && step.id == id
    ensures forall other | other != id :: TxOf(Next(s, step), other) == TxOf(s, other)
  {
    forall other | other != id ensures TxOf(Next(s, step), other) == TxOf(s, other) {
      OtherStepsKeepTx(s, step, other);
    }
  }

  lemma EndConserves(w: World, accounts: seq<Key>, sized: Option<Config>, sys: Sys, id: nat, ticks: nat,
                     outcome: Outcome)
    requires MoneyInv(w, accounts, sized) && id in w.tasks && w.tasks[id].prog(w.tasks[id].obs) == ADone
    requires w.tasks[id].side == Server || (w.tasks[id].side == Client && Sendable(w.tasks[id]))
    requires sys.table == Next(w.sys, Commit(id, ticks)).table
    requires forall other | other != id :: TxOf(sys, other) == TxOf(w.sys, other)
    ensures Conserves(w, WithTask(w, sys, id, w.tasks[id].(side := Finished(outcome))), accounts, sized)
  {
    CommitConserves(w, accounts, sized, id, ticks);
    FinishedStays(w.tasks[id], TxOf(w.sys, id), TxOf(sys, id), accounts, sized, outcome);
  }

  lemma FinishedStays(task: Task, tx: Tx, tx': Tx, accounts: seq<Key>, sized: Option<Config>, outcome: Outcome)
    requires TransferTask(task, tx, accounts, sized)
    ensures TransferTask(task.(side := Finished(outcome)), tx', accounts, sized)
  {
    var k1, k2, spin := Parties(task, tx, accounts, sized);
    assert Underway(task.(side := Finished(outcome)), tx', k1, k2, sized);
  }

  /** A transfer on the server records the account that it reads. */
  lemma ServerGetStays(task: Task, tx: Tx, accounts: seq<Key>, sized: Option<Config>, r: Record)
    requires TransferTask(task, tx, accounts, sized) && task.side == Server
    requires task.prog(task.obs) == AGet(r.key) && r.optype == Read
    requires sized.Some? ==> Fits(sized.value, r.key, r.value)
    ensures TransferTask(Observe(task, Found(r.value)), tx.(readSet := tx.readSet + [r]), accounts, sized)
  {
    var k1, k2, spin := Parties(task, tx, accounts, sized);
    assert TransferAction(k1, k2, spin, task.obs) == AGet(r.key);
    assert Underway(Observe(task, Found(r.value)), tx.(readSet := tx.readSet + [r]), k1, k2, sized);
  }

  /** A transfer reads its accounts only. */
  lemma ReadsAccounts(task: Task, tx: Tx, accounts: seq<Key>, sized: Option<Config>, k: Key)
    requires TransferTask(task, tx, accounts, sized) && task.prog(task.obs) == AGet(k)
    ensures k in accounts
    ensures task.side == Client ==> exists j :: 0 <= j < |tx.readSet| && tx.readSet[j].key == k
  {
    var k1, k2, spin := Parties(task, tx, accounts, sized);
    assert TransferAction(k1, k2, spin, task.obs) == AGet(k);
    if task.side == Client { assert tx.readSet[if k == k1 then 0 else 1].key == k; }
  }

  lemma ServerGetConserves(w: World, accounts: seq<Key>, sized: Option<Config>, id: nat, ticks: nat, k: Key)
    requires MoneyInv(w, accounts, sized) && id in w.tasks && w.tasks[id].side == Server
    requires w.tasks[id].prog(w.tasks[id].obs) == AGet(k)
    ensures Conserves(w, ServerStep(w, id, ticks), accounts, sized)
  {
    var task, tx := w.tasks[id], TxOf(w.sys, id);
    ReadsAccounts(task, tx, accounts, sized, k);
    var r := ReadRecordOf(w.sys, k);
    ServerGetStays(task, tx, accounts, sized, r);
    QuietStepConserves(w, accounts, sized, Next(w.sys, TxGet(id, k)), id, Observe(task, Found(r.value)));
  }

  lemma ServerStepConserves(w: World, accounts: seq<Key>, sized: Option<Config>, id: nat, ticks: nat)
    requires MoneyInv(w, accounts, sized) && id in w.tasks && w.tasks[id].side == Server
    ensures Conserves(w, ServerStep(w, id, ticks), accounts, sized)
  {
    var task, s := w.tasks[id], w.sys;
    match task.prog(task.obs) {
      case AGet(k) => ServerGetConserves(w, accounts, sized, id, ticks, k);
      case APut(k, v) =>
        OthersKeepTx(s, TxPut(id, k, v), id);
        UnitStays(task, TxOf(s, id), TxOf(Next(s, TxPut(id, k, v)), id), accounts, sized);
        QuietStepConserves(w, accounts, sized, Next(s, TxPut(id, k, v)), id, Observe(task, Unit));
      case AYield =>
        UnitStays(task, TxOf(s, id), TxOf(s, id), accounts, sized);
        QuietStepConserves(w, accounts, sized, s, id, Observe(task, Unit));
      case ADone =>
        OthersKeepTx(s, Commit(id, ticks), id);
        EndConserves(w, accounts, sized, Next(s, Commit(id, ticks)), id, ticks, CommitOutcome(s, id, ticks));
    }
  }

  /** A put or a yield on the server comes after the reads. */
  lemma UnitStays(task: Task, tx: Tx, tx': Tx, accounts: seq<Key>, sized: Option<Config>)
    requires TransferTask(task, tx, accounts, sized) && task.side == Server && tx'.readSet == tx.readSet
    requires task.prog(task.obs).APut? || task.prog(task.obs) == AYield
    ensures TransferTask(Observe(task, Unit), tx', accounts, sized)
  {
    var k1, k2, spin := Parties(task, tx, accounts, sized);
    assert task.prog(task.obs) == TransferAction(k1, k2, spin, task.obs);
    assert |task.obs| >= 2;
    assert Underway(Observe(task, Unit), tx', k1, k2, sized);
  }

  // ---------------------------------------------------------------- a transfer on the client is clean

  lemma VersionsFit(s: Sys, id: nat)
    requires History.Inv(s) && s.clock < Pow256(VERSION_SIZE)
    ensures forall i | 0 <= i < |TxOf(s, id).readSet| :: TxOf(s, id).readSet[i].version < Pow256(VERSION_SIZE)
  {
    var tx := TxOf(s, id);
    assert Genuine(s.table, tx);
    forall i | 0 <= i < |tx.readSet| ensures tx.readSet[i].version <= s.clock {
      assert Superseded(tx.readSet[i].key, Entry(tx.readSet[i].version, tx.readSet[i].value), s.table);
    }
  }

  lemma {:induction false} WritesAreVersionZero(prog: Program, obs: seq<Obs>)
    ensures forall i | 0 <= i < |Writes(prog, obs)| :: Writes(prog, obs)[i].version == 0
  {
    if obs != [] { WritesAreVersionZero(prog, obs[..|obs| - 1]); }
  }

  /** A pushed-back transfer carries at most four records, all of the configured lengths. */
  lemma TransferIsClean(w: World, accounts: seq<Key>, sized: Option<Config>, id: nat)
    requires MoneyInv(w, accounts, sized) && id in w.tasks && (w.tasks[id].side == Client || w.tasks[id].side == Doomed)
    requires w.sys.clock < Pow256(VERSION_SIZE)
    ensures Clean(w.tasks[id]) && w.tasks[id].sent != []
    ensures |EncodeAll(w.tasks[id].sent)| <= MAX_COMMIT_PAYLOAD ==> Sendable(w.tasks[id])
    ensures sized.Some? && PutSized(sized.value) ==> Sendable(w.tasks[id])
  {
    var task, tx := w.tasks[id], TxOf(w.sys, id);
    var k1, k2, spin := Parties(task, tx, accounts, sized);
    TransferWritesAccounts(k1, k2, spin, task.obs);
    VersionsFit(w.sys, id);
    WritesAreVersionZero(task.prog, task.obs);
    ReadsComeFirst(tx.readSet, Writes(task.prog, task.obs));
    if PutSized(sized.value) { PutSizedRecords(task.sent); }
    VersionsConcat(tx.readSet, Writes(task.prog, task.obs));
  }

  lemma VersionsConcat(rs: seq<Record>, ws: seq<Record>)
    requires forall i | 0 <= i < |rs| :: rs[i].version < Pow256(VERSION_SIZE)
    requires forall i | 0 <= i < |ws| :: ws[i].version == 0
    ensures forall i | 0 <= i < |rs + ws| :: (rs + ws)[i].version < Pow256(VERSION_SIZE)
  {
  }

  lemma ReadsComeFirst(rs: seq<Record>, ws: seq<Record>)
    requires rs != [] && rs[0].optype == Read
    ensures OfType(rs + ws, Read) != []
  {
    assert (rs + ws)[0] == rs[0];
  }

  /** Every value that the replay has seen has the configured length. */
  lemma SeenFits(task: Task, tx: Tx, k1: Key, k2: Key, spin: nat, config: Config, i: nat)
    requires ReplayInv(task, tx) && task.prog == Transfer(k1, k2, spin) && AllFit(config, tx.readSet)
    requires i < |task.obs| && i < 2 && task.obs[i].Found?
    ensures |task.obs[i].value| == config.valLen
  {
    assert ObsOk(task.prog, task.obs, i, tx.readSet);
    var front := task.obs[..i];
    assert task.prog(front) == TransferAction(k1, k2, spin, front);
  }

  lemma ReplayStays(task: Task, tx: Tx, accounts: seq<Key>, sized: Option<Config>, o: Obs)
    requires TransferTask(task, tx, accounts, sized) && task.side == Client && !task.prog(task.obs).APut? && o != Absent
    ensures TransferTask(Observe(task, o), tx, accounts, sized)
  {
    var k1, k2, spin := Parties(task, tx, accounts, sized);
    WritesExtends(task.prog, task.obs, o);
    assert Underway(Observe(task, o), tx, k1, k2, sized);
  }

  lemma ClientGetConserves(w: World, accounts: seq<Key>, sized: Option<Config>, id: nat, ticks: nat, k: Key)
    requires MoneyInv(w, accounts, sized) && id in w.tasks && w.tasks[id].side == Client && Clean(w.tasks[id])
    requires w.tasks[id].prog(w.tasks[id].obs) == AGet(k)
    ensures Conserves(w, WNext(w, ClientRun(id, ticks)), accounts, sized)
  {
    var task, tx := w.tasks[id], TxOf(w.sys, id);
    ReadsAccounts(task, tx, accounts, sized, k);
    var i := CleanHit(w, id, ticks, k);
    ReplayStays(task, tx, accounts, sized, Found(tx.readSet[i].value));
    QuietStepConserves(w, accounts, sized, w.sys, id, Observe(task, Found(tx.readSet[i].value)));
  }

  /** Moving money keeps the lengths. */
  lemma PutKeepsLengths(task: Task, tx: Tx, k1: Key, k2: Key, spin: nat, config: Config, k: Key, v: Value)
    requires ReplayInv(task, tx) && task.prog == Transfer(k1, k2, spin) && Replaying(task, tx, k1, k2, config)
    requires task.prog(task.obs) == APut(k, v)
    ensures Fits(config, k, v)
    ensures PutFits(k, v) <==> PutSized(config)
  {
    assert TransferAction(k1, k2, spin, task.obs) == APut(k, v);
    forall i | 0 <= i < |tx.readSet| ensures Fits(config, tx.readSet[i].key, tx.readSet[i].value) {
      assert task.sent[i] == tx.readSet[i];
    }
    SeenFits(task, tx, k1, k2, spin, config, 0);
    SeenFits(task, tx, k1, k2, spin, config, 1);
  }

  lemma PutIsAcceptedIff(task: Task, tx: Tx, accounts: seq<Key>, sized: Option<Config>, k: Key, v: Value)
    requires TransferTask(task, tx, accounts, sized) && task.side == Client && ReplayInv(task, tx)
    requires task.prog(task.obs) == APut(k, v)
    ensures sized.Some? && (PutFits(k, v) <==> PutSized(sized.value))
  {
    var k1, k2, spin := Parties(task, tx, accounts, sized);
    PutKeepsLengths(task, tx, k1, k2, spin, sized.value, k, v);
  }

  lemma ClientPutStays(task: Task, tx: Tx, accounts: seq<Key>, sized: Option<Config>, k: Key, v: Value, cache: Cache)
    requires TransferTask(task, tx, accounts, sized) && task.side == Client && ReplayInv(task, tx)
    requires task.prog(task.obs) == APut(k, v) && PutFits(k, v)
    ensures var r := Record(Write, 0, k, v);
            TransferTask(Observe(task, Unit).(sent := task.sent + [r], cache := cache),
                         tx.(writeSet := tx.writeSet + [r]), accounts, sized)
  {
    var k1, k2, spin := Parties(task, tx, accounts, sized);
    PutKeepsLengths(task, tx, k1, k2, spin, sized.value, k, v);
    var r := Record(Write, 0, k, v);
    WritesExtends(task.prog, task.obs, Unit);
    Associative(tx.readSet, Writes(task.prog, task.obs), [r]);
    var task' := Observe(task, Unit).(sent := task.sent + [r], cache := cache);
    assert Replaying(task', tx.(writeSet := tx.writeSet + [r]), k1, k2, sized.value);
    assert Underway(task', tx.(writeSet := tx.writeSet + [r]), k1, k2, sized);
  }

  lemma PanicStays(task: Task, tx: Tx, accounts: seq<Key>, sized: Option<Config>)
    requires TransferTask(task, tx, accounts, sized) && task.side == Client && sized.Some? && !PutSized(sized.value)
    ensures TransferTask(task.(side := Doomed), tx, accounts, sized)
  {
    var k1, k2, spin := Parties(task, tx, accounts, sized);
    assert Underway(task.(side := Doomed), tx, k1, k2, sized);
  }

  lemma CrashStays(task: Task, tx: Tx, tx': Tx, accounts: seq<Key>, sized: Option<Config>)
    requires TransferTask(task, tx, accounts, sized) && sized.Some? && !PutSized(sized.value)
    ensures TransferTask(task.(side := Crashed), tx', accounts, sized)
  {
    var k1, k2, spin := Parties(task, tx, accounts, sized);
    assert Underway(task.(side := Crashed), tx', k1, k2, sized);
  }

  lemma ClientPutConserves(w: World, accounts: seq<Key>, sized: Option<Config>, id: nat, ticks: nat, k: Key, v: Value)
    requires MoneyInv(w, accounts, sized) && id in w.tasks && w.tasks[id].side == Client && Clean(w.tasks[id])
    requires w.tasks[id].prog(w.tasks[id].obs) == APut(k, v)
    ensures Conserves(w, WNext(w, ClientRun(id, ticks)), accounts, sized)
  {
    var task, tx := w.tasks[id], TxOf(w.sys, id);
    assert TaskInv(task, tx);
    ClientRuns(w, id, ticks);
    PutIsAcceptedIff(task, tx, accounts, sized, k, v);
    if PutFits(k, v) {
      var cache := SetRecord(task.cache, Write, PutBuffer(k, v), PUT_KEY_LEN);
      ClientPutStays(task, tx, accounts, sized, k, v, cache);
      OthersKeepTx(w.sys, TxPut(id, k, v), id);
      QuietStepConserves(w, accounts, sized, Next(w.sys, TxPut(id, k, v)), id,
                         Observe(task, Unit).(sent := task.sent + [Record(Write, 0, k, v)], cache := cache));
    } else {
      PanicStays(task, tx, accounts, sized);
      QuietStepConserves(w, accounts, sized, w.sys, id, task.(side := Doomed));
    }
  }

  lemma ClientStepConserves(w: World, accounts: seq<Key>, sized: Option<Config>, id: nat, ticks: nat)
    requires MoneyInv(w, accounts, sized) && id in w.tasks && w.tasks[id].side == Client && Clean(w.tasks[id])
    requires w.sys.clock < Pow256(VERSION_SIZE)
    ensures Conserves(w, WNext(w, ClientRun(id, ticks)), accounts, sized)
  {
    var task := w.tasks[id];
    match task.prog(task.obs) {
      case AGet(k) => ClientGetConserves(w, accounts, sized, id, ticks, k);
      case APut(k, v) => ClientPutConserves(w, accounts, sized, id, ticks, k, v);
      case AYield => ClientYieldConserves(w, accounts, sized, id, ticks);
      case ADone => SendingConserves(w, accounts, sized, id, ticks);
    }
  }

  lemma ClientYieldConserves(w: World, accounts: seq<Key>, sized: Option<Config>, id: nat, ticks: nat)
    requires MoneyInv(w, accounts, sized) && id in w.tasks && w.tasks[id].side == Client
    requires w.tasks[id].prog(w.tasks[id].obs) == AYield
    ensures Conserves(w, WNext(w, ClientRun(id, ticks)), accounts, sized)
  {
    ClientRuns(w, id, ticks);
    ReplayStays(w.tasks[id], TxOf(w.sys, id), accounts, sized, Unit);
    QuietStepConserves(w, accounts, sized, w.sys, id, Observe(w.tasks[id], Unit));
  }

  lemma ClientDoneConserves(w: World, accounts: seq<Key>, sized: Option<Config>, id: nat, ticks: nat)
    requires MoneyInv(w, accounts, sized) && id in w.tasks && w.tasks[id].side == Client && Sendable(w.tasks[id])
    requires w.tasks[id].prog(w.tasks[id].obs) == ADone && w.tasks[id].sent != []
    ensures Conserves(w, WNext(w, ClientRun(id, ticks)), accounts, sized)
  {
    CleanFinish(w, id, ticks);
    OthersKeepTx(w.sys, Commit(id, ticks), id);
    EndConserves(w, accounts, sized, Next(w.sys, Commit(id, ticks)), id, ticks, CommitOutcome(w.sys, id, ticks));
  }

  /** A request that is too long is lost with its panicking client, and nothing is committed. */
  lemma LostConserves(w: World, accounts: seq<Key>, sized: Option<Config>, id: nat, ticks: nat)
    requires MoneyInv(w, accounts, sized) && id in w.tasks && Clean(w.tasks[id])
    requires w.tasks[id].side == Client || w.tasks[id].side == Doomed
    requires |EncodeAll(w.tasks[id].sent)| > MAX_COMMIT_PAYLOAD && sized.Some? && !PutSized(sized.value)
    requires w.tasks[id].side == Client ==> w.tasks[id].prog(w.tasks[id].obs) == ADone
    ensures Conserves(w, WNext(w, ClientRun(id, ticks)), accounts, sized)
  {
    EndSends(w, id, ticks);
    TooLongIsNotSent(w, id, ticks);
    CrashStays(w.tasks[id], TxOf(w.sys, id), TxOf(w.sys, id), accounts, sized);
    QuietStepConserves(w, accounts, sized, w.sys, id, w.tasks[id].(side := Crashed));
  }

  lemma OnlyReads(s: Sys, id: nat, ticks: nat)
    requires TxOf(s, id).writeSet == []
    ensures Next(s, Commit(id, ticks)).table == s.table
  {
    assert SortByKey([]) == [];
  }

  /** The request of a transfer whose first `put` has panicked carries its reads only. */
  lemma DoomedConserves(w: World, accounts: seq<Key>, sized: Option<Config>, id: nat, ticks: nat)
    requires MoneyInv(w, accounts, sized) && id in w.tasks && w.tasks[id].side == Doomed && Sendable(w.tasks[id])
    requires w.tasks[id].sent != []
    ensures Conserves(w, WNext(w, ClientRun(id, ticks)), accounts, sized)
  {
    EndSends(w, id, ticks);
    CleanSendCommits(w, id, ticks);
    DoomedWroteNothing(w, accounts, sized, id);
    OnlyReads(w.sys, id, ticks);
    OthersKeepTx(w.sys, Commit(id, ticks), id);
    var sys := Next(w.sys, Commit(id, ticks));
    CrashStays(w.tasks[id], TxOf(w.sys, id), TxOf(sys, id), accounts, sized);
    QuietStepConserves(w, accounts, sized, sys, id, w.tasks[id].(side := Crashed));
  }

  lemma DoomedWroteNothing(w: World, accounts: seq<Key>, sized: Option<Config>, id: nat)
    requires MoneyInv(w, accounts, sized) && id in w.tasks && w.tasks[id].side == Doomed && Sendable(w.tasks[id])
    ensures TxOf(w.sys, id).writeSet == [] && sized.Some? && !PutSized(sized.value)
  {
    SendableIsClean(w.tasks[id]);
    assert TaskInv(w.tasks[id], TxOf(w.sys, id));
    var k1, k2, spin := Parties(w.tasks[id], TxOf(w.sys, id), accounts, sized);
  }

  /** The end of a transfer on the client: its request is sent, or is too long, which is possible only for values that
      `put` does not accept. */
  lemma SendingConserves(w: World, accounts: seq<Key>, sized: Option<Config>, id: nat, ticks: nat)
    requires MoneyInv(w, accounts, sized) && id in w.tasks && w.sys.clock < Pow256(VERSION_SIZE)
    requires w.tasks[id].side == Doomed || (w.tasks[id].side == Client && w.tasks[id].prog(w.tasks[id].obs) == ADone)
    ensures Conserves(w, WNext(w, ClientRun(id, ticks)), accounts, sized)
  {
    TransferIsClean(w, accounts, sized, id);
    if |EncodeAll(w.tasks[id].sent)| > MAX_COMMIT_PAYLOAD {
      IsSized(w.tasks[id], TxOf(w.sys, id), accounts, sized);
      LostConserves(w, accounts, sized, id, ticks);
    } else if w.tasks[id].side == Doomed {
      DoomedConserves(w, accounts, sized, id, ticks);
    } else {
      ClientDoneConserves(w, accounts, sized, id, ticks);
    }
  }

  lemma IsSized(task: Task, tx: Tx, accounts: seq<Key>, sized: Option<Config>)
    requires TransferTask(task, tx, accounts, sized) && (task.side == Client || task.side == Doomed)
    ensures sized.Some?
  {
  }

  /** A transfer yields only between its reads and its writes. */
  /** The task with which the client starts over. */
  function StartsOver(task: Task, tx: Tx, cache: Cache): Task {
    task.(side := Client, obs := [], serverObs := task.obs, sent := tx.readSet, cache := cache)
  }

  lemma YieldsBetween(task: Task, tx: Tx, accounts: seq<Key>, sized: Option<Config>, cache: Cache)
    requires TransferTask(task, tx, accounts, sized) && task.side == Server && TaskInv(task, tx) && Yielded(task)
    requires sized.Some?
    ensures tx.writeSet == [] && AllFit(sized.value, tx.readSet) && task.config == sized.value
    ensures TransferTask(StartsOver(task, tx, cache), tx, accounts, sized)
  {
    var k1, k2, spin := Parties(task, tx, accounts, sized);
    var front := task.obs[..|task.obs| - 1];
    assert TransferAction(k1, k2, spin, front) == AYield;
    assert front[0] in task.obs;
    TransferWritesAccounts(k1, k2, spin, task.obs);
    assert tx.readSet + Writes(task.prog, []) == tx.readSet;
    assert Replaying(StartsOver(task, tx, cache), tx, k1, k2, sized.value);
    assert Underway(StartsOver(task, tx, cache), tx, k1, k2, sized);
  }

  lemma PushBackConserves(w: World, accounts: seq<Key>, sized: Option<Config>, id: nat)
    requires MoneyInv(w, accounts, sized) && id in w.tasks && w.tasks[id].side == Server && Yielded(w.tasks[id])
    requires w.sys.clock < Pow256(VERSION_SIZE) && sized.Some?
    ensures Conserves(w, WNext(w, PushBack(id)), accounts, sized)
  {
    var task, tx := w.tasks[id], TxOf(w.sys, id);
    assert TaskInv(task, tx);
    YieldsBetween(task, tx, accounts, sized, Loaded(EMPTY, tx.readSet));
    VersionsFit(w.sys, id);
    assert tx.readSet + tx.writeSet == tx.readSet;
    CleanPushBack(w, id);
    QuietStepConserves(w, accounts, sized, w.sys, id, StartsOver(task, tx, Loaded(EMPTY, tx.readSet)));
  }

  lemma SpawnConserves(w: World, accounts: seq<Key>, sized: Option<Config>, id: nat, prog: Program, config: Config)
    requires MoneyInv(w, accounts, sized) && MoneyStep(Spawn(id, prog, config), accounts, sized)
    ensures Conserves(w, WNext(w, Spawn(id, prog, config)), accounts, sized)
  {
    if id !in w.tasks && id !in w.sys.txs {
      var task := Task(prog, config, Server, [], [], [], EMPTY);
      var k1: Key, k2: Key, spin: nat :| prog == Transfer(k1, k2, spin) && k1 != k2 && k1 in accounts && k2 in accounts;
      assert Underway(task, TxOf(w.sys, id), k1, k2, sized);
    }
  }

  /** Every step keeps the total, and no request is misread. */
  lemma StepConserves(w: World, accounts: seq<Key>, sized: Option<Config>, step: WStep)
    requires MoneyInv(w, accounts, sized) && MoneyStep(step, accounts, sized) && w.sys.clock < Pow256(VERSION_SIZE)
    ensures Conserves(w, WNext(w, step), accounts, sized)
  {
    match step {
      case Spawn(id, prog, config) => SpawnConserves(w, accounts, sized, id, prog, config);
      case ServerRun(id, ticks) =>
        if id in w.tasks && w.tasks[id].side == Server { ServerStepConserves(w, accounts, sized, id, ticks); }
      case PushBack(id) =>
        if id in w.tasks && w.tasks[id].side == Server && Yielded(w.tasks[id]) {
          PushBackConserves(w, accounts, sized, id);
        }
      case ClientRun(id, ticks) =>
        if id in w.tasks {
          if w.tasks[id].side == Client {
            TransferIsClean(w, accounts, sized, id);
            ClientStepConserves(w, accounts, sized, id, ticks);
          } else if w.tasks[id].side == Doomed {
            SendingConserves(w, accounts, sized, id, ticks);
          }
        }
      case Env(s) =>
        assert Next(w.sys, s).table == w.sys.table;
        assert forall id :: TxOf(Next(w.sys, s), id) == TxOf(w.sys, id);
    }
  }

  lemma NobodyPanics(w: World, accounts: seq<Key>, sized: Option<Config>)
    requires MoneyInv(w, accounts, sized) && (sized.Some? ==> PutSized(sized.value))
    ensures forall id | id in w.tasks :: w.tasks[id].side != Doomed && w.tasks[id].side != Crashed
  {
    forall id | id in w.tasks ensures w.tasks[id].side != Doomed && w.tasks[id].side != Crashed {
      assert TransferTask(w.tasks[id], TxOf(w.sys, id), accounts, sized);
    }
  }

  lemma SendOnlyGrows(w: World, id: nat, ticks: nat)
    requires id in w.tasks
    ensures w.sys.clock <= SendCommit(w, id, ticks).sys.clock
  {
  }

  lemma ClientOnlyGrows(w: World, id: nat, ticks: nat)
    requires id in w.tasks
    ensures w.sys.clock <= ClientStep(w, id, ticks).sys.clock
  {
    match w.tasks[id].prog(w.tasks[id].obs) {
      case ADone => SendOnlyGrows(w, id, ticks);
      case _ =>
    }
  }

  lemma ClockOnlyGrows(w: World, step: WStep)
    ensures w.sys.clock <= WNext(w, step).sys.clock
  {
    match step {
      case ClientRun(id, ticks) =>
        if id in w.tasks {
          SendOnlyGrows(w, id, ticks);
          ClientOnlyGrows(w, id, ticks);
        }
      case PushBack(id) => if id in w.tasks { assert Pushed(w, id).sys == w.sys; }
      case _ =>
    }
  }

  /** Money is conserved: over every run of concurrent transfers between distinct accounts, on the server or, where all
      keys and values have the lengths that the clients are configured with, pushed back, whatever commits, aborts or
      panics, the sum over all accounts is the sum at the start. No transfer panics on the client if `put` accepts these
      lengths. The versions fit their 64 bits. */
  lemma {:induction false} MoneyIsConserved(w: World, accounts: seq<Key>, sized: Option<Config>, steps: seq<WStep>)
    requires MoneyInv(w, accounts, sized) && forall i | 0 <= i < |steps| :: MoneyStep(steps[i], accounts, sized)
    requires WRun(w, steps).sys.clock < Pow256(VERSION_SIZE)
    ensures MoneyInv(WRun(w, steps), accounts, sized)
    ensures Sum(accounts, Values(WRun(w, steps).sys.table.entries)) == Sum(accounts, Values(w.sys.table.entries))
    ensures (sized.Some? ==> PutSized(sized.value)) ==>
              forall id | id in WRun(w, steps).tasks ::
                WRun(w, steps).tasks[id].side != Doomed && WRun(w, steps).tasks[id].side != Crashed
  {
    if steps != [] {
      var n := |steps| - 1;
      var mid := WRun(w, steps[..n]);
      ClockOnlyGrows(mid, steps[n]);
      MoneyIsConserved(w, accounts, sized, steps[..n]);
      StepConserves(mid, accounts, sized, steps[n]);
      WNextKeepsInv(mid, steps[n]);
    }
    if sized.Some? ==> PutSized(sized.value) { NobodyPanics(WRun(w, steps), accounts, sized); }
  }

  lemma LoadOneOpens(table: State, accounts: seq<Key>, sized: Option<Config>, k: Key, v: Value)
    requires Open(table.entries, accounts, sized) && |v| > 0 && (sized.Some? ==> Fits(sized.value, k, v))
    ensures Open(Put(table, k, v).entries, accounts + [k], sized)
  {
    var entries := Put(table, k, v).entries;
    forall a | a in accounts + [k]
      ensures a in entries && |entries[a].value| > 0 && (sized.Some? ==> Fits(sized.value, a, entries[a].value))
    {
      if a != k { assert a in accounts; }
    }
  }

  lemma LoadOneAdds(table: State, accounts: seq<Key>, k: Key, v: Value)
    requires Distinct(accounts) && k !in accounts && |v| > 0
    ensures Sum(accounts + [k], Values(Put(table, k, v).entries)) == Sum(accounts, Values(table.entries)) + v[0]
  {
    var m := Values(table.entries);
    assert Values(Put(table, k, v).entries) == m[k := v];
    SumUpdate(accounts, m, k, v);
    SumLast(accounts + [k], m[k := v]);
    assert (accounts + [k])[..|accounts|] == accounts;
  }

  function LoadSteps(accounts: seq<Key>, v: Value): seq<Step> {
    if accounts == [] then []
    else LoadSteps(accounts[..|accounts| - 1], v) + [NativePut(accounts[|accounts| - 1], v, 0)]
  }

  lemma LoadOne(accounts: seq<Key>, v: Value)
    requires accounts != []
    ensures var n := |accounts| - 1;
            Run(INIT, LoadSteps(accounts, v)).table == Put(Run(INIT, LoadSteps(accounts[..n], v)).table, accounts[n], v)
  {
    var n := |accounts| - 1;
    RunLast(INIT, LoadSteps(accounts, v), LoadSteps(accounts[..n], v), NativePut(accounts[n], v, 0));
  }

  lemma {:induction false} LoadedTable(accounts: seq<Key>, sized: Option<Config>, v: Value)
    requires Distinct(accounts) && |v| > 0 && v[0] == 255
    requires sized.Some? ==> forall k | k in accounts :: Fits(sized.value, k, v)
    ensures Open(Run(INIT, LoadSteps(accounts, v)).table.entries, accounts, sized)
    ensures Sum(accounts, Values(Run(INIT, LoadSteps(accounts, v)).table.entries)) == |accounts| * 255
  {
    if accounts != [] {
      var n := |accounts| - 1;
      var front, k := accounts[..n], accounts[n];
      LoadedTable(front, sized, v);
      var table := Run(INIT, LoadSteps(front, v)).table;
      LoadOne(accounts, v);
      LoadOneOpens(table, front, sized, k, v);
      LoadOneAdds(table, front, k, v);
      assert front + [k] == accounts;
    }
  }

  /** The check at the server: after loading every account with 255, the sum over the accounts is 255 for each of them
      at every later moment of every run of transfers. */
  lemma BalanceCheckHolds(accounts: seq<Key>, sized: Option<Config>, v: Value, steps: seq<WStep>)
    requires Distinct(accounts) && |v| > 0 && v[0] == 255
    requires sized.Some? ==> forall k | k in accounts :: Fits(sized.value, k, v)
    requires forall i | 0 <= i < |steps| :: MoneyStep(steps[i], accounts, sized)
    requires WRun(World(Run(INIT, LoadSteps(accounts, v)), map[]), steps).sys.clock < Pow256(VERSION_SIZE)
    ensures var start := World(Run(INIT, LoadSteps(accounts, v)), map[]);
            Sum(accounts, Values(WRun(start, steps).sys.table.entries)) == |accounts| * 255
  {
    StartIsOpen(accounts, sized, v);
    LoadedTable(accounts, sized, v);
    MoneyIsConserved(World(Run(INIT, LoadSteps(accounts, v)), map[]), accounts, sized, steps);
  }

  lemma StartIsOpen(accounts: seq<Key>, sized: Option<Config>, v: Value)
    requires Distinct(accounts) && |v| > 0 && v[0] == 255
    requires sized.Some? ==> forall k | k in accounts :: Fits(sized.value, k, v)
    ensures MoneyInv(World(Run(INIT, LoadSteps(accounts, v)), map[]), accounts, sized)
  {
    RunKeepsInv(INIT, LoadSteps(accounts, v));
    LoadedTable(accounts, sized, v);
  }

  lemma {:induction false} SumLast(accounts: seq<Key>, m: map<Key, Value>)
    requires accounts != []
    ensures Sum(accounts, m) == Sum(accounts[..|accounts| - 1], m) + Balance(m, accounts[|accounts| - 1])
  {
    if |accounts| > 1 {
      SumLast(accounts[1..], m);
      assert accounts[1..][..|accounts| - 2] == accounts[..|accounts| - 1][1..];
    }
  }
}
