/** Why transfers that are pushed back need values of the length that the client is made for: a run in which a transfer
    between accounts of 100 and 50 bytes changes the total (splinter/src/proxy.rs, db/src/master.rs). */
module Misfits {
  import opened Bytes
  import opened Store
  import opened History
  import opened Wire
  import opened Proxies
  import opened Pushback
  import opened Money

  /** The second value is too short for `put`, and the tail of the first reads like a write to the first account. */
  predicate Misfit(k1: Key, k2: Key, v1: Value, v2: Value) {
    && |k1| == 30 && |k2| == 30 && k1 != k2 && |v1| == 100 && |v2| == 50
    && v1[0] == 1 && v2[0] == 0 && v1[11] == OpByte(Write) && v1[20..50] == k1 && v1[50] == 7
  }

  lemma MisfitExists() returns (k1: Key, k2: Key, v1: Value, v2: Value)
    ensures Misfit(k1, k2, v1, v2)
  {
    var zero: byte, one: byte, seven: byte := 0, 1, 7;
    k1, k2 := seq(30, _ => one), seq(30, _ => seven);
    v1 := [1] + seq(10, _ => zero) + [2] + seq(8, _ => zero) + k1 + seq(50, _ => seven);
    v2 := seq(50, _ => zero);
    assert k1[0] != k2[0];
  }

  function FirstRead(k1: Key, v1: Value): Record { Record(Read, 1, k1, v1) }
  function SecondRead(k2: Key, v2: Value): Record { Record(Read, 1, k2, v2) }
  function OnlyWrite(k1: Key, v1: Value): Record
    requires |v1| > 0
  {
    Record(Write, 0, k1, v1[0 := 0])
  }

  // ---------------------------------------------------------------- the request is misread

  /** The second record is 50 bytes short, so the server's second chunk takes 50 bytes of the third record. */
  lemma ShiftedChunks(a: Bytes, b: Bytes, c: Bytes)
    requires |a| == 139 && |b| == 89 && |c| == 139
    ensures Chunks((a + b) + c, 139) == [a, b + c[..50], c[50..]]
  {
    assert (a + b) + c == a + ((b + c[..50]) + c[50..]);
    ChunksOfConcat(a, (b + c[..50]) + c[50..]);
    ChunksOfConcat(b + c[..50], c[50..]);
  }

  lemma TailReadsAsWrite(k1: Key, v1: Value)
    requires |k1| == 30 && |v1| == 100 && v1[11] == OpByte(Write) && v1[20..50] == k1
    ensures var tail := EncodeRecord(OnlyWrite(k1, v1))[50..];
            && Splittable(tail, 30) && tail[0] == OpByte(Write) && |tail| == 89
            && ParseRecord(Write, tail, 30).key == k1 && ParseRecord(Write, tail, 30).value == v1[50..]
  {
    var w := OnlyWrite(k1, v1);
    EncodeRecordShape(w);
    var e := EncodeRecord(w);
    assert e[OPTYPE_SIZE..][VERSION_SIZE..][30..] == w.value;
    assert forall i | 0 <= i < 100 :: e[39 + i] == w.value[i];
    assert forall i | 1 <= i < 100 :: w.value[i] == v1[i];
    assert e[50..][OPTYPE_SIZE..][VERSION_SIZE..][..30] == v1[20..50];
    assert e[50..][OPTYPE_SIZE..][VERSION_SIZE..][30..] == v1[50..];
  }

  lemma LongerEncoding(r: Record, more: Bytes)
    ensures EncodeRecord(r) + more == EncodeRecord(r.(value := r.value + more))
  {
  }

  lemma VersionsFitHere()
    ensures 1 < Pow256(VERSION_SIZE)
  {
    var width := VERSION_SIZE - 1;
    assert Pow256(VERSION_SIZE) == 256 * Pow256(width);
  }

  /** What the server reads: both reads are still valid, and there is one write that nobody has made. */
  lemma RequestIsMisread(k1: Key, k2: Key, v1: Value, v2: Value) returns (second: Record, forged: Record)
    requires Misfit(k1, k2, v1, v2)
    ensures var payload := (EncodeRecord(FirstRead(k1, v1)) + EncodeRecord(SecondRead(k2, v2)))
            + EncodeRecord(OnlyWrite(k1, v1));
            ParsePayload(payload, 30, 100) == Parsed(Tx([FirstRead(k1, v1), second], [forged]))
    ensures second.key == k2 && second.version == 1 && forged.key == k1 && forged.value == v1[50..]
  {
    var r1, r2, w := FirstRead(k1, v1), SecondRead(k2, v2), OnlyWrite(k1, v1);
    var a, b, c := EncodeRecord(r1), EncodeRecord(r2), EncodeRecord(w);
    EncodeRecordShape(r1);
    EncodeRecordShape(r2);
    EncodeRecordShape(w);
    VersionsFitHere();
    ShiftedChunks(a, b, c);
    LongerEncoding(r2, c[..50]);
    second := r2.(value := v2 + c[..50]);
    TailReadsAsWrite(k1, v1);
    forged := ParseRecord(Write, c[50..], 30);
    ParseOfEncoding(Tx([], []), r1, 100);
    ParseOfEncoding(Tx([r1], []), second, 100);
    assert [] + [r1] == [r1] && [r1] + [second] == [r1, second] && [] + [forged] == [forged];
    ThreeChunks([a, b + c[..50], c[50..]], Tx([], []), Tx([r1], []), Tx([r1, second], []), Tx([r1, second], [forged]));
  }

  lemma ThreeChunks(cs: seq<Bytes>, t0: Tx, t1: Tx, t2: Tx, t3: Tx)
    requires |cs| == 3 && Splittable(cs[0], 30) && Splittable(cs[1], 30) && Splittable(cs[2], 30)
    requires AddParsed(t0, cs[0], 30) == t1 && AddParsed(t1, cs[1], 30) == t2 && AddParsed(t2, cs[2], 30) == t3
    ensures ParseAll(t0, cs, 30) == Some(t3)
  {
    assert cs[1..][0] == cs[1] && cs[2..][0] == cs[2] && cs[1..][1..] == cs[2..] && cs[2..][1..] == [];
    assert ParseAll(t3, [], 30) == Some(t3);
    assert ParseAll(t2, cs[2..], 30) == Some(t3);
    assert ParseAll(t1, cs[1..], 30) == Some(t3);
  }

  // ---------------------------------------------------------------- the run

  datatype Case = Case(k1: Key, k2: Key, v1: Value, v2: Value)

  predicate Bad(c: Case) { Misfit(c.k1, c.k2, c.v1, c.v2) }

  function Prog(c: Case): Program { Transfer(c.k1, c.k2, 1) }

  function R1(c: Case): Record { FirstRead(c.k1, c.v1) }
  function R2(c: Case): Record { SecondRead(c.k2, c.v2) }
  function W1(c: Case): Record
    requires Bad(c)
  {
    OnlyWrite(c.k1, c.v1)
  }

  function Accounts(c: Case): map<Key, Entry> { map[c.k1 := Entry(1, c.v1), c.k2 := Entry(1, c.v2)] }

  /** Both reads are in the cache, and then the one write that `put` accepts. */
  function AfterReads(c: Case): Cache { AddRecord(AddRecord(EMPTY, R1(c)), R2(c)) }

  /** How far task 7 has come; the table is as it was loaded. */
  ghost predicate Stage(w: World, c: Case, side: Side, obs: seq<Obs>, got: seq<Record>, cache: Cache) {
    && 7 in w.tasks && w.tasks[7].prog == Prog(c) && w.tasks[7].config == STANDARD && w.tasks[7].side == side
    && w.tasks[7].obs == obs && w.tasks[7].cache == cache
    && TxOf(w.sys, 7).readSet == got && (side == Server ==> TxOf(w.sys, 7).writeSet == [])
    && w.sys.table.entries == Accounts(c)
  }

  /** What the transfer does after the first few observations. */
  lemma Actions(c: Case)
    requires Bad(c)
    ensures Prog(c)([]) == AGet(c.k1)
    ensures Prog(c)([Found(c.v1)]) == AGet(c.k2)
    ensures Prog(c)([Found(c.v1), Found(c.v2)]) == AYield
    ensures Prog(c)([Found(c.v1), Found(c.v2), Unit]) == APut(c.k1, c.v1[0 := 0])
    ensures Prog(c)([Found(c.v1), Found(c.v2), Unit, Unit]) == APut(c.k2, c.v2[0 := 1])
  {
    var obs := [Found(c.v1), Found(c.v2), Unit, Unit];
    assert BothRead(obs) && BothRead(obs[..3]);
    assert obs[..3] == [Found(c.v1), Found(c.v2), Unit] && obs[..2] == [Found(c.v1), Found(c.v2)];
  }

  lemma ServerGets(w: World, c: Case, obs: seq<Obs>, got: seq<Record>, r: Record)
    requires Bad(c) && Stage(w, c, Server, obs, got, EMPTY) && Prog(c)(obs) == AGet(r.key)
    requires r == R1(c) || r == R2(c)
    ensures Stage(WNext(w, ServerRun(7, 0)), c, Server, obs + [Found(r.value)], got + [r], EMPTY)
  {
    assert ReadRecordOf(w.sys, r.key) == r;
  }

  lemma Yields(w: World, c: Case, side: Side, obs: seq<Obs>, got: seq<Record>, cache: Cache)
    requires Stage(w, c, side, obs, got, cache) && Prog(c)(obs) == AYield && (side == Server || side == Client)
    ensures Stage(WNext(w, if side == Server then ServerRun(7, 0) else ClientRun(7, 0)), c, side, obs + [Unit], got,
            cache)
  {
  }

  lemma ReadsLoad(c: Case)
    requires Bad(c)
    ensures LoadAll(EMPTY, Chunks(EncodeAll([R1(c), R2(c)]) + [], STANDARD.Len()), STANDARD.keyLen)
            == Some(AfterReads(c))
  {
    var a, b := EncodeRecord(R1(c)), EncodeRecord(R2(c));
    EncodeRecordShape(R1(c));
    EncodeRecordShape(R2(c));
    assert EncodeAll([R1(c), R2(c)]) == a + b by {
      assert [R1(c), R2(c)][1..] == [R2(c)] && [R2(c)][1..] == [];
      assert EncodeAll([R2(c)]) == b + [] == b;
    }
    assert (a + b) + [] == a + b;
    ChunksOfConcat(a, b);
    var cs := Chunks(a + b, 139);
    var rest := cs[1..];
    assert cs == [a, b] && rest == [b] && rest[1..] == [];
    LoadOfEncoding(EMPTY, R1(c));
    LoadOfEncoding(AddRecord(EMPTY, R1(c)), R2(c));
    assert LoadAll(AfterReads(c), [], STANDARD.keyLen) == Some(AfterReads(c));
    assert LoadAll(AddRecord(EMPTY, R1(c)), cs[1..], STANDARD.keyLen) == Some(AfterReads(c));
  }

  lemma IsPushedBack(w: World, c: Case)
    requires Bad(c) && Stage(w, c, Server, [Found(c.v1), Found(c.v2), Unit], [R1(c), R2(c)], EMPTY)
    ensures Stage(WNext(w, PushBack(7)), c, Client, [], [R1(c), R2(c)], AfterReads(c))
  {
    Actions(c);
    ReadsLoad(c);
    assert w.tasks[7].obs[..2] == [Found(c.v1), Found(c.v2)];
    assert WNext(w, PushBack(7)) == Pushed(w, 7);
  }

  lemma ClientGets(w: World, c: Case, obs: seq<Obs>, r: Record)
    requires Bad(c) && Stage(w, c, Client, obs, [R1(c), R2(c)], AfterReads(c)) && Prog(c)(obs) == AGet(r.key)
    requires r == R1(c) || r == R2(c)
    ensures Stage(WNext(w, ClientRun(7, 0)), c, Client, obs + [Found(r.value)], [R1(c), R2(c)], AfterReads(c))
  {
    ClientRuns(w, 7, 0);
    var list := AfterReads(c).readset;
    assert list == [ToKV(R1(c)), ToKV(R2(c))];
    assert list[if r == R1(c) then 0 else 1].key == r.key;
  }

  lemma ClientWrites(w: World, c: Case)
    requires Bad(c) && Stage(w, c, Client, [Found(c.v1), Found(c.v2), Unit], [R1(c), R2(c)], AfterReads(c))
    ensures Stage(WNext(w, ClientRun(7, 0)), c, Client, [Found(c.v1), Found(c.v2), Unit, Unit], [R1(c), R2(c)],
                  AddRecord(AfterReads(c), W1(c)))
  {
    Actions(c);
    ClientRuns(w, 7, 0);
    PutLoads(AfterReads(c), c.k1, c.v1[0 := 0]);
    assert [Found(c.v1), Found(c.v2), Unit] + [Unit] == [Found(c.v1), Found(c.v2), Unit, Unit];
  }

  lemma ClientPanics(w: World, c: Case, cache: Cache)
    requires Bad(c) && Stage(w, c, Client, [Found(c.v1), Found(c.v2), Unit, Unit], [R1(c), R2(c)], cache)
    ensures Stage(WNext(w, ClientRun(7, 0)), c, Doomed, [Found(c.v1), Found(c.v2), Unit, Unit], [R1(c), R2(c)], cache)
  {
    Actions(c);
    ClientRuns(w, 7, 0);
  }

  /** The request of the panicked transfer is accepted, and the first account now has the tail of its old value. */
  lemma ForgedWriteCommits(w: World, c: Case)
    requires Bad(c)
    requires Stage(w, c, Doomed, [Found(c.v1), Found(c.v2), Unit, Unit], [R1(c), R2(c)],
            AddRecord(AfterReads(c), W1(c)))
    ensures var m := Values(WNext(w, ClientRun(7, 0)).sys.table.entries);
            c.k1 in m && m[c.k1] == c.v1[50..] && c.k2 in m && m[c.k2] == c.v2
  {
    ClientRuns(w, 7, 0);
    var second, forged := RequestIsMisread(c.k1, c.k2, c.v1, c.v2);
    RequestOf(c);
    var tx := Tx([R1(c), second], [forged]);
    ForgedIsInstalled(w.sys.table, c, second, forged, w.sys.clock + 1);
    RequestIsServed(w, tx);
  }

  lemma RequestIsServed(w: World, tx: Tx)
    requires 7 in w.tasks && CommitRequest(w.tasks[7].cache).Rpc?
    requires var rpc := CommitRequest(w.tasks[7].cache); ParsePayload(rpc.payload, rpc.keyLen, rpc.valLen) == Parsed(tx)
    requires Validate(w.sys.table, tx, w.sys.clock + 1).0 == Committed
    ensures SendCommit(w, 7, 0).sys.table == Validate(w.sys.table, tx, w.sys.clock + 1).1
  {
    var sys := w.sys.(txs := w.sys.txs[7 := tx]);
    assert Next(sys, Commit(7, 0)).table == Validate(w.sys.table, tx, w.sys.clock + 1).1;
    assert SendCommit(w, 7, 0).sys == Requested(w.sys, 7, tx, 0);
  }

  lemma RequestShape(cache: Cache, first: KV)
    requires cache.readset != [] && cache.readset[0] == first && |first.key| == 30 && |first.value| == 100
    requires |cache.commitPayload| <= MAX_COMMIT_PAYLOAD
    ensures CommitRequest(cache) == Rpc(cache.commitPayload, 30, 100)
  {
  }

  lemma RequestOf(c: Case)
    requires Bad(c)
    ensures CommitRequest(AddRecord(AfterReads(c), W1(c)))
            == Rpc((EncodeRecord(R1(c)) + EncodeRecord(R2(c))) + EncodeRecord(W1(c)), 30, 100)
  {
    var a, b, e := EncodeRecord(R1(c)), EncodeRecord(R2(c)), EncodeRecord(W1(c));
    assert |a| == 139 && |b| == 89 && |e| == 139 by {
      EncodeRecordShape(R1(c));
      EncodeRecordShape(R2(c));
      EncodeRecordShape(W1(c));
    }
    PayloadOf(c, a, b, e);
    CachedReads(c);
    RequestShape(AddRecord(AfterReads(c), W1(c)), ToKV(R1(c)));
  }

  lemma CachedReads(c: Case)
    requires Bad(c)
    ensures AddRecord(AfterReads(c), W1(c)).readset == [ToKV(R1(c)), ToKV(R2(c))]
  {
  }

  lemma PayloadOf(c: Case, a: Bytes, b: Bytes, e: Bytes)
    requires Bad(c) && a == EncodeRecord(R1(c)) && b == EncodeRecord(R2(c)) && e == EncodeRecord(W1(c))
    ensures AddRecord(AfterReads(c), W1(c)).commitPayload == (a + b) + e
  {
    assert [] + a == a;
  }

  lemma ForgedIsInstalled(table: State, c: Case, second: Record, forged: Record, now: nat)
    requires Bad(c) && table.entries == Accounts(c)
    requires second.key == c.k2 && second.version == 1 && forged.key == c.k1 && forged.value == c.v1[50..]
    ensures var (outcome, table') := Validate(table, Tx([R1(c), second], [forged]), now);
            outcome == Committed && Values(table'.entries) == Values(Accounts(c))[c.k1 := c.v1[50..]]
  {
    var tx := Tx([R1(c), second], [forged]);
    ValidatePanicsIff(table, tx, now);
    assert tx.writeSet[0].key in table.entries;
    CommitAppliesWrites(table, tx, now);
    assert [forged][1..] == [];
    var m: map<Key, Value> := Values(Accounts(c))[c.k1 := c.v1[50..]];
    assert ApplyWrites(Values(Accounts(c)), [forged]) == ApplyWrites(m, []) == m;
  }

  // ---------------------------------------------------------------- all together

  lemma OneMore(start: World, steps: seq<WStep>, step: WStep)
    ensures WRun(start, steps + [step]) == WNext(WRun(start, steps), step)
  {
    assert (steps + [step])[..|steps|] == steps;
  }

  function LoadAccounts(c: Case): seq<WStep> { [Env(NativePut(c.k1, c.v1, 0)), Env(NativePut(c.k2, c.v2, 0))] }

  lemma AccountsAreLoaded(c: Case)
    requires Bad(c)
    ensures WRun(START, LoadAccounts(c)).tasks == map[] && WRun(START, LoadAccounts(c)).sys.txs == map[]
    ensures WRun(START, LoadAccounts(c)).sys.table.entries == Accounts(c)
  {
    var s1, s2 := LoadAccounts(c)[0], LoadAccounts(c)[1];
    OneMore(START, [], s1);
    OneMore(START, [s1], s2);
    assert [] + [s1] == [s1] && [s1] + [s2] == LoadAccounts(c);
  }

  lemma ServerPart(w: World, c: Case) returns (w': World)
    requires Bad(c) && Stage(w, c, Server, [], [], EMPTY)
    ensures w' == WNext(WNext(WNext(WNext(w, ServerRun(7, 0)), ServerRun(7, 0)), ServerRun(7, 0)), PushBack(7))
    ensures Stage(w', c, Client, [], [R1(c), R2(c)], AfterReads(c))
  {
    Actions(c);
    assert [] + [Found(c.v1)] == [Found(c.v1)] && [Found(c.v1)] + [Found(c.v2)] == [Found(c.v1), Found(c.v2)];
    assert [] + [R1(c)] == [R1(c)] && [R1(c)] + [R2(c)] == [R1(c), R2(c)];
    assert [Found(c.v1), Found(c.v2)] + [Unit] == [Found(c.v1), Found(c.v2), Unit];
    ServerGets(w, c, [], [], R1(c));
    var w1 := WNext(w, ServerRun(7, 0));
    ServerGets(w1, c, [Found(c.v1)], [R1(c)], R2(c));
    var w2 := WNext(w1, ServerRun(7, 0));
    Yields(w2, c, Server, [Found(c.v1), Found(c.v2)], [R1(c), R2(c)], EMPTY);
    var w3 := WNext(w2, ServerRun(7, 0));
    IsPushedBack(w3, c);
    w' := WNext(w3, PushBack(7));
  }

  lemma ClientPart(w: World, c: Case) returns (w': World)
    requires Bad(c) && Stage(w, c, Client, [], [R1(c), R2(c)], AfterReads(c))
    ensures var run := ClientRun(7, 0); w' == WNext(WNext(WNext(WNext(WNext(w, run), run), run), run), run)
    ensures Stage(w', c, Doomed, [Found(c.v1), Found(c.v2), Unit, Unit], [R1(c), R2(c)],
            AddRecord(AfterReads(c), W1(c)))
  {
    Actions(c);
    assert [] + [Found(c.v1)] == [Found(c.v1)] && [Found(c.v1)] + [Found(c.v2)] == [Found(c.v1), Found(c.v2)];
    assert [Found(c.v1), Found(c.v2)] + [Unit] == [Found(c.v1), Found(c.v2), Unit];
    ClientGets(w, c, [], R1(c));
    var w1 := WNext(w, ClientRun(7, 0));
    ClientGets(w1, c, [Found(c.v1)], R2(c));
    var w2 := WNext(w1, ClientRun(7, 0));
    Yields(w2, c, Client, [Found(c.v1), Found(c.v2)], [R1(c), R2(c)], AfterReads(c));
    var w3 := WNext(w2, ClientRun(7, 0));
    ClientWrites(w3, c);
    var w4 := WNext(w3, ClientRun(7, 0));
    ClientPanics(w4, c, AddRecord(AfterReads(c), W1(c)));
    w' := WNext(w4, ClientRun(7, 0));
  }

  /** Starts a transfer, runs it to its yield, pushes it back and lets the client run it to the end. */
  function TransferSteps(c: Case): seq<WStep> {
    var server, client := ServerRun(7, 0), ClientRun(7, 0);
    [Spawn(7, Prog(c), STANDARD), server, server, server, PushBack(7), client, client, client, client, client, client]
  }

  lemma {:induction false} RunFrom(start: World, steps: seq<WStep>)
    requires steps != []
    ensures WRun(start, steps) == WRun(WNext(start, steps[0]), steps[1..])
  {
    var n := |steps| - 1;
    if n > 0 {
      RunFrom(start, steps[..n]);
      assert steps[..n][1..] == steps[1..][..n - 1] && steps[..n][0] == steps[0];
    }
  }

  lemma RunFour(w: World, s: seq<WStep>)
    requires |s| >= 4
    ensures WRun(w, s) == WRun(WNext(WNext(WNext(WNext(w, s[0]), s[1]), s[2]), s[3]), s[4..])
  {
    RunFrom(w, s);
    RunFrom(WNext(w, s[0]), s[1..]);
    RunFrom(WNext(WNext(w, s[0]), s[1]), s[2..]);
    RunFrom(WNext(WNext(WNext(w, s[0]), s[1]), s[2]), s[3..]);
    assert s[1..][1..] == s[2..] && s[2..][1..] == s[3..] && s[3..][1..] == s[4..];
  }

  lemma TransferStarts(w: World, c: Case)
    requires Bad(c) && w.tasks == map[] && w.sys.txs == map[] && w.sys.table.entries == Accounts(c)
    ensures Stage(WNext(w, Spawn(7, Prog(c), STANDARD)), c, Server, [], [], EMPTY)
  {
  }

  lemma TransferRuns(w: World, c: Case) returns (w': World)
    requires Bad(c) && Stage(w, c, Server, [], [], EMPTY)
    ensures WRun(w, TransferSteps(c)[1..]) == WNext(w', ClientRun(7, 0))
    ensures Stage(w', c, Doomed, [Found(c.v1), Found(c.v2), Unit, Unit], [R1(c), R2(c)],
            AddRecord(AfterReads(c), W1(c)))
  {
    var steps, run := TransferSteps(c), ClientRun(7, 0);
    var w5 := ServerPart(w, c);
    RunFour(w, steps[1..]);
    w' := ClientPart(w5, c);
    RunFour(w5, steps[5..]);
    var w9 := WNext(WNext(WNext(WNext(w5, run), run), run), run);
    RunFrom(w9, steps[9..]);
    RunFrom(w', steps[10..]);
    assert steps[1..][4..] == steps[5..] && steps[5..][4..] == steps[9..];
    assert steps[9..][1..] == steps[10..] && steps[10..][1..] == [];
  }

  lemma LastStep(c: Case) returns (w: World)
    requires Bad(c)
    ensures WRun(WRun(START, LoadAccounts(c)), TransferSteps(c)) == WNext(w, ClientRun(7, 0))
    ensures Stage(w, c, Doomed, [Found(c.v1), Found(c.v2), Unit, Unit], [R1(c), R2(c)], AddRecord(AfterReads(c), W1(c)))
  {
    AccountsAreLoaded(c);
    var start := WRun(START, LoadAccounts(c));
    RunFrom(start, TransferSteps(c));
    TransferStarts(start, c);
    w := TransferRuns(WNext(start, TransferSteps(c)[0]), c);
  }

  /** Every step is one that `MoneyIsConserved` allows, and the accounts are open; only their lengths are wrong. The
      total changes. */
  lemma MisfitChangesTheTotal(c: Case)
    requires Bad(c)
    ensures var start := WRun(START, LoadAccounts(c));
            var accounts := [c.k1, c.k2];
            && Open(start.sys.table.entries, accounts, None)
            && (forall i | 0 <= i < |TransferSteps(c)| :: MoneyStep(TransferSteps(c)[i], accounts, Some(STANDARD)))
            && Sum(accounts, Values(WRun(start, TransferSteps(c)).sys.table.entries))
               != Sum(accounts, Values(start.sys.table.entries))
  {
    AccountsAreLoaded(c);
    StepsAreAllowed(c);
    OpenAccounts(c);
    TotalChanges(c);
  }

  lemma StepsAreAllowed(c: Case)
    requires Bad(c)
    ensures forall i | 0 <= i < |TransferSteps(c)| :: MoneyStep(TransferSteps(c)[i], [c.k1, c.k2], Some(STANDARD))
  {
    assert IsTransfer(Prog(c), [c.k1, c.k2]);
  }

  lemma OpenAccounts(c: Case)
    requires Bad(c)
    ensures Open(Accounts(c), [c.k1, c.k2], None)
    ensures Balance(Values(Accounts(c)), c.k1) == 1 && Balance(Values(Accounts(c)), c.k2) == 0
  {
  }

  lemma TotalChanges(c: Case)
    requires Bad(c)
    ensures Sum([c.k1, c.k2], Values(WRun(WRun(START, LoadAccounts(c)), TransferSteps(c)).sys.table.entries)) == 7
    ensures Sum([c.k1, c.k2], Values(Accounts(c))) == 1
  {
    var w := LastStep(c);
    ForgedWriteCommits(w, c);
    OpenAccounts(c);
    TotalOf(c, Values(Accounts(c)));
    TotalOf(c, Values(WNext(w, ClientRun(7, 0)).sys.table.entries));
  }

  lemma TotalOf(c: Case, m: map<Key, Value>)
    ensures Sum([c.k1, c.k2], m) == Balance(m, c.k1) + Balance(m, c.k2)
  {
    assert [c.k1, c.k2][1..] == [c.k2];
    assert Sum([c.k2], m) == Balance(m, c.k2) + Sum([], m);
  }
}
