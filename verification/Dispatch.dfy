/** The dispatcher: three parsing stages and a dispatch loop over a batch of packets, each of which pops from the back
    of one vector and pushes onto another (db/src/dispatch.rs). */
module Dispatches {
  const PACKET_ETYPE: nat := 0x0800
  const PACKET_IP_LEN: nat := 28
  const PACKET_UDP_LEN: nat := 8
  const MASTER_SERVICE: nat := 1

  datatype Address = Address(mac: nat, ip: nat, port: nat)

  /** A received packet with the header fields that the dispatcher looks at; `buffer` identifies its memory buffer. */
  datatype Packet = Packet(buffer: nat, src: Address, dst: Address, etype: nat, version: nat, ttl: nat, ipLength: nat,
                           udpLength: nat, service: nat)

  datatype Response = Response(src: Address, dst: Address)
  datatype Task = Task(request: Packet, response: Response)

  /** The packet buffers that can be freed: received ones and ones allocated for a response. */
  datatype Buffer = Received(packet: Packet) | Allocated(response: Response)

  predicate MacOk(p: Packet) { p.etype == PACKET_ETYPE }

  predicate IpOk(ip: nat, p: Packet) {
    p.version == 4 && p.ttl > 0 && p.ipLength >= PACKET_IP_LEN + 2 && p.dst.ip == ip
  }

  predicate UdpOk(p: Packet) { p.udpLength >= PACKET_UDP_LEN + 2 }

  /** A request that the dispatcher at address `ip` understands. */
  predicate Valid(ip: nat, p: Packet) { MacOk(p) && IpOk(ip, p) && UdpOk(p) }

  /** The checks of single stages and of several together. */
  datatype Stage = Mac | Ip(ip: nat) | Udp | MacAndIp(ip: nat) | All(ip: nat)

  predicate Passes(stage: Stage, p: Packet) {
    match stage
    case Mac => MacOk(p)
    case Ip(ip) => IpOk(ip, p)
    case Udp => UdpOk(p)
    case MacAndIp(ip) => MacOk(p) && IpOk(ip, p)
    case All(ip) => Valid(ip, p)
  }

  /** The requests for which a response can be allocated and those that the master service accepts. */
  datatype Fates = Fates(allocates: set<Packet>, accepts: set<Packet>)

  predicate Taken(f: Fates, p: Packet) { p in f.allocates && p.service == MASTER_SERVICE && p in f.accepts }

  predicate Refuses(f: Fates, p: Packet) { p in f.allocates && !(p.service == MASTER_SERVICE && p in f.accepts) }

  /** The response goes back to where the request came from. */
  function ResponseTo(p: Packet): Response { Response(p.dst, p.src) }

  // ---------------------------------------------------------------- vectors from the back

  function Filter(s: seq<Packet>, stage: Stage): seq<Packet> {
    if s == [] then []
    else
      var init, last := s[..|s| - 1], s[|s| - 1];
      Filter(init, stage) + if Passes(stage, last) then [last] else []
  }

  function Reverse(s: seq<Packet>): seq<Packet> {
    if s == [] then [] else [s[|s| - 1]] + Reverse(s[..|s| - 1])
  }

  /** The tasks made of a vector of requests, popped from the back. */
  function Popped(s: seq<Packet>, f: Fates): seq<Task> {
    if s == [] then []
    else
      var last := s[|s| - 1];
      (if Taken(f, last) then [Task(last, ResponseTo(last))] else []) + Popped(s[..|s| - 1], f)
  }

  lemma {:induction false} ReversePrepend(x: Packet, s: seq<Packet>)
    ensures Reverse([x] + s) == Reverse(s) + [x]
  {
    if s != [] {
      var n := |s| - 1;
      assert ([x] + s)[..n + 1] == [x] + s[..n];
      ReversePrepend(x, s[..n]);
    }
  }

  lemma {:induction false} ReverseTwice(s: seq<Packet>)
    ensures Reverse(Reverse(s)) == s
  {
    if s != [] {
      var n := |s| - 1;
      ReverseTwice(s[..n]);
      ReversePrepend(s[n], Reverse(s[..n]));
    }
  }

  lemma {:induction false} FilterPrepend(x: Packet, s: seq<Packet>, stage: Stage)
    ensures Filter([x] + s, stage) == (if Passes(stage, x) then [x] else []) + Filter(s, stage)
  {
    if s != [] {
      var n := |s| - 1;
      assert ([x] + s)[..n + 1] == [x] + s[..n];
      FilterPrepend(x, s[..n], stage);
    }
  }

  lemma FilterLast(s: seq<Packet>, stage: Stage)
    requires s != []
    ensures var f, g := Filter(s, stage), Filter(s[..|s| - 1], stage);
            if Passes(stage, s[|s| - 1]) then |f| == |g| + 1 && f[..|g|] == g && f[|g|] == s[|s| - 1] else f == g
  {
  }

  lemma {:induction false} FilterReverse(s: seq<Packet>, stage: Stage)
    ensures Filter(Reverse(s), stage) == Reverse(Filter(s, stage))
  {
    if s != [] {
      var n := |s| - 1;
      FilterReverse(s[..n], stage);
      FilterPrepend(s[n], Reverse(s[..n]), stage);
      FilterLast(s, stage);
    }
  }

  /** Two filters in a row are one. */
  lemma {:induction false} FilterTwice(s: seq<Packet>, p: Stage, q: Stage, both: Stage)
    requires forall x :: Passes(both, x) <==> Passes(p, x) && Passes(q, x)
    ensures Filter(Filter(s, p), q) == Filter(s, both)
  {
    if s != [] {
      FilterTwice(s[..|s| - 1], p, q, both);
      FilterLast(s, p);
    }
  }

  // ---------------------------------------------------------------- counting buffers

  /** Which buffers one packet contributes to some account. */
  datatype Account =
    | RejectedBy(stage: Stage)
    | RefusedBy(f: Fates)
    | Among(stage: Stage, inner: Account)
    | Plus(a: Account, b: Account)
    | Brought(ip: nat, f: Fates)
    | Queued(ip: nat, f: Fates)
    | Freed(ip: nat, f: Fates)
    | Leaked(ip: nat, f: Fates)

  function Both(p: Packet): seq<Buffer> { [Received(p), Allocated(ResponseTo(p))] }

  /** A packet brings its own buffer, and that of its response if it is valid and one is allocated. What a stage rejects
      is freed; what the service refuses is freed with its response; a valid request without response is leaked. */
  function Of(account: Account, p: Packet): seq<Buffer> {
    match account
    case RejectedBy(stage) => if Passes(stage, p) then [] else [Received(p)]
    case RefusedBy(f) => if Refuses(f, p) then Both(p) else []
    case Among(stage, inner) => if Passes(stage, p) then Of(inner, p) else []
    case Plus(a, b) => Of(a, p) + Of(b, p)
    case Brought(ip, f) => if Valid(ip, p) && p in f.allocates then Both(p) else [Received(p)]
    case Queued(ip, f) => if Valid(ip, p) && Taken(f, p) then Both(p) else []
    case Freed(ip, f) => if !Valid(ip, p) then [Received(p)] else if Refuses(f, p) then Both(p) else []
    case Leaked(ip, f) => if Valid(ip, p) && p !in f.allocates then [Received(p)] else []
  }

  function Sum(s: seq<Packet>, account: Account): multiset<Buffer> {
    if s == [] then multiset{} else Sum(s[..|s| - 1], account) + One(account, s[|s| - 1])
  }

  function One(account: Account, p: Packet): multiset<Buffer> { multiset(Of(account, p)) }

  lemma SumsShift(a: multiset<Buffer>, b: multiset<Buffer>, c: multiset<Buffer>)
    ensures (a + b) + c == a + (c + b) && (a + b) + c == a + (b + c)
  {
  }

  lemma SumsInterleave(x: multiset<Buffer>, y: multiset<Buffer>, a: multiset<Buffer>, b: multiset<Buffer>)
    ensures (x + y) + (a + b) == (x + a) + (y + b)
  {
  }

  lemma SumLast(s: seq<Packet>, y: Packet, account: Account)
    ensures Sum(s + [y], account) == Sum(s, account) + One(account, y)
  {
    assert (s + [y])[..|s|] == s;
  }

  lemma SumOne(x: Packet, account: Account)
    ensures Sum([x], account) == One(account, x)
  {
    SumLast([], x, account);
    assert [x] == [] + [x];
  }

  lemma {:induction false} SumPrepend(x: Packet, s: seq<Packet>, account: Account)
    ensures Sum([x] + s, account) == One(account, x) + Sum(s, account)
  {
    if s == [] {
      SumOne(x, account);
      assert [x] + s == [x];
    } else {
      var t, y := s[..|s| - 1], s[|s| - 1];
      assert s == t + [y] && [x] + s == ([x] + t) + [y];
      SumPrepend(x, t, account);
      SumLast([x] + t, y, account);
      SumLast(t, y, account);
      SumsShift(One(account, x), Sum(t, account), One(account, y));
    }
  }

  lemma {:induction false} SumReverse(s: seq<Packet>, account: Account)
    ensures Sum(Reverse(s), account) == Sum(s, account)
  {
    if s != [] {
      SumReverse(s[..|s| - 1], account);
      SumPrepend(s[|s| - 1], Reverse(s[..|s| - 1]), account);
    }
  }

  lemma {:induction false} SumFilter(s: seq<Packet>, stage: Stage, account: Account)
    ensures Sum(Filter(s, stage), account) == Sum(s, Among(stage, account))
  {
    if s != [] {
      SumFilter(s[..|s| - 1], stage, account);
      FilterLast(s, stage);
    }
  }

  lemma OnePlus(a: Account, b: Account, p: Packet)
    ensures One(Plus(a, b), p) == One(a, p) + One(b, p)
  {
  }

  lemma {:induction false} SumPlus(s: seq<Packet>, a: Account, b: Account)
    ensures Sum(s, Plus(a, b)) == Sum(s, a) + Sum(s, b)
  {
    if s != [] {
      var n := |s| - 1;
      SumPlus(s[..n], a, b);
      SumsInterleave(Sum(s[..n], a), Sum(s[..n], b), One(a, s[n]), One(b, s[n]));
      OnePlus(a, b, s[n]);
    }
  }

  lemma {:induction false} SumSame(s: seq<Packet>, a: Account, b: Account)
    requires forall p :: Of(a, p) == Of(b, p)
    ensures Sum(s, a) == Sum(s, b)
  {
    if s != [] { SumSame(s[..|s| - 1], a, b); }
  }

  // ---------------------------------------------------------------- the loops

  /** Popping one packet keeps what has been collected and what is left together. */
  lemma PopSum(ignore: seq<Buffer>, s: seq<Packet>, account: Account)
    requires s != []
    ensures multiset(ignore + Of(account, s[|s| - 1])) + Sum(s[..|s| - 1], account)
            == multiset(ignore) + Sum(s, account)
  {
    SumsShift(multiset(ignore), One(account, s[|s| - 1]), Sum(s[..|s| - 1], account));
  }

  lemma PopFilter(parsed: seq<Packet>, s: seq<Packet>, stage: Stage)
    requires s != []
    ensures var last := s[|s| - 1];
            Filter(s[..|s| - 1], stage) + Reverse(if Passes(stage, last) then parsed + [last] else parsed)
            == Filter(s, stage) + Reverse(parsed)
  {
    var last := s[|s| - 1];
    FilterLast(s, stage);
    if Passes(stage, last) { assert (parsed + [last])[..|parsed|] == parsed; }
  }

  lemma PopTasks(queue: seq<Task>, s: seq<Packet>, f: Fates)
    requires s != []
    ensures var last := s[|s| - 1];
            (if Taken(f, last) then queue + [Task(last, ResponseTo(last))] else queue) + Popped(s[..|s| - 1], f)
            == queue + Popped(s, f)
  {
  }

  class Dispatch {
    const networkIp: nat
    var respIpSrc: nat
    var respIpDst: nat
    var respMacSrc: nat
    var respMacDst: nat
    /** The scheduler's queue. */
    var queue: seq<Task>
    /** Every buffer freed so far. */
    var freed: multiset<Buffer>

    constructor (ip: nat)
      ensures networkIp == ip && queue == [] && freed == multiset{}
    {
      networkIp := ip;
      respIpSrc, respIpDst, respMacSrc, respMacDst := ip, 0, 0, 0;
      queue, freed := [], multiset{};
    }

    method FreePackets(buffers: seq<Buffer>)
      modifies this`freed
      ensures freed == old(freed) + multiset(buffers)
    {
      var rest := buffers;
      while rest != []
        invariant freed + multiset(rest) == old(freed) + multiset(buffers)
      {
        var n := |rest| - 1;
        assert rest == rest[..n] + [rest[n]];
        freed := freed + multiset{rest[n]};
        rest := rest[..n];
      }
    }

    /** The loop that the three parsing stages share. */
    method ParseHeaders(packets: seq<Packet>, stage: Stage) returns (parsed: seq<Packet>)
      modifies this`freed
      ensures parsed == Reverse(Filter(packets, stage))
      ensures freed == old(freed) + Sum(packets, RejectedBy(stage))
    {
      parsed := [];
      var rest, ignore := packets, [];
      while rest != []
        invariant Filter(rest, stage) + Reverse(parsed) == Filter(packets, stage)
        invariant multiset(ignore) + Sum(rest, RejectedBy(stage)) == Sum(packets, RejectedBy(stage))
        invariant freed == old(freed)
      {
        var n := |rest| - 1;
        var packet := rest[n];
        PopFilter(parsed, rest, stage);
        PopSum(ignore, rest, RejectedBy(stage));
        ghost var ignored := ignore + Of(RejectedBy(stage), packet);
        rest := rest[..n];
        if Passes(stage, packet) {
          parsed := parsed + [packet];
        } else {
          ignore := ignore + [Received(packet)];
        }
        assert ignore == ignored;
      }
      assert multiset(ignore) == Sum(packets, RejectedBy(stage));
      FreePackets(ignore);
      assert Reverse(parsed) == Filter(packets, stage);
      ReverseTwice(parsed);
    }

    method ParseMacHeaders(packets: seq<Packet>) returns (parsed: seq<Packet>)
      modifies this`freed
      ensures parsed == Reverse(Filter(packets, Mac))
      ensures freed == old(freed) + Sum(packets, RejectedBy(Mac))
    {
      parsed := ParseHeaders(packets, Mac);
    }

    method ParseIpHeaders(packets: seq<Packet>) returns (parsed: seq<Packet>)
      modifies this`freed
      ensures parsed == Reverse(Filter(packets, Ip(networkIp)))
      ensures freed == old(freed) + Sum(packets, RejectedBy(Ip(networkIp)))
    {
      parsed := ParseHeaders(packets, Ip(networkIp));
    }

    method ParseUdpHeaders(packets: seq<Packet>) returns (parsed: seq<Packet>)
      modifies this`freed
      ensures parsed == Reverse(Filter(packets, Udp))
      ensures freed == old(freed) + Sum(packets, RejectedBy(Udp))
    {
      parsed := ParseHeaders(packets, Udp);
    }

    /** One request: the response headers are fields that every request overwrites. */
    method DispatchOne(request: Packet, f: Fates) returns (ignore: seq<Buffer>)
      modifies this`respIpSrc, this`respIpDst, this`respMacSrc, this`respMacDst, this`queue
      ensures queue == if Taken(f, request) then old(queue) + [Task(request, ResponseTo(request))] else old(queue)
      ensures ignore == Of(RefusedBy(f), request)
    {
      ignore := [];
      respIpSrc := request.dst.ip;
      respIpDst := request.src.ip;
      respMacSrc := request.dst.mac;
      respMacDst := request.src.mac;
      if request in f.allocates {
        var response := Response(Address(respMacSrc, respIpSrc, request.dst.port),
            Address(respMacDst, respIpDst, request.src.port));
        if request.service == MASTER_SERVICE && request in f.accepts {
          queue := queue + [Task(request, response)];
        } else {
          ignore := [Received(request), Allocated(response)];
        }
      }
    }

    /** `dispatch_requests` without the fast path. */
    method DispatchRequests(requests: seq<Packet>, f: Fates)
      modifies this
      ensures queue == old(queue) + Popped(requests, f)
      ensures freed == old(freed) + Sum(requests, RefusedBy(f))
    {
      var rest, ignore := requests, [];
      while rest != []
        invariant queue + Popped(rest, f) == old(queue) + Popped(requests, f)
        invariant multiset(ignore) + Sum(rest, RefusedBy(f)) == Sum(requests, RefusedBy(f))
        invariant freed == old(freed)
      {
        var n := |rest| - 1;
        var request := rest[n];
        PopSum(ignore, rest, RefusedBy(f));
        PopTasks(queue, rest, f);
        rest := rest[..n];
        var refused := DispatchOne(request, f);
        ignore := ignore + refused;
      }
      assert multiset(ignore) == Sum(requests, RefusedBy(f));
      FreePackets(ignore);
    }

    /** The receiving half of `poll`: the tasks are those of the valid requests, in the order of arrival. */
    method Receive(packets: seq<Packet>, f: Fates)
      modifies this
      ensures queue == old(queue) + InOrder(packets, networkIp, f)
      ensures freed == old(freed) + Sum(packets, Freed(networkIp, f))
    {
      var mac := ParseMacHeaders(packets);
      var ip := ParseIpHeaders(mac);
      var udp := ParseUdpHeaders(ip);
      DispatchRequests(udp, f);
      StagesAreOneFilter(packets, networkIp);
      PoppedInOrder(packets, networkIp, f);
      StagesFree(packets, networkIp, f);
    }
  }

  /** The tasks of the valid and accepted requests of a batch, first come first. */
  function InOrder(s: seq<Packet>, ip: nat, f: Fates): seq<Task> {
    if s == [] then []
    else
      (if Valid(ip, s[0]) && Taken(f, s[0]) then [Task(s[0], ResponseTo(s[0]))] else []) + InOrder(s[1..], ip, f)
  }

  // ---------------------------------------------------------------- what becomes of a packet

  /** A packet on its own: it becomes a task, whose response goes from the packet's destination to its source, exactly
      if it is an IPv4 packet for this address that is alive and long enough, a response can be allocated, and the
      master service accepts it. If it is not such a packet, it is freed; if it is and the service refuses it, it is
      freed with its response; if it is and there is no response, nothing frees it. */
  lemma OnePacket(p: Packet, ip: nat, f: Fates)
    ensures var understood := && p.etype == 0x0800 && p.version == 4 && p.ttl > 0 && p.ipLength >= 30
                              && p.dst.ip == ip && p.udpLength >= 10;
            var response := Response(p.dst, p.src);
            var accepted := p.service == 1 && p in f.accepts;
            && InOrder([p], ip, f)
               == (if understood && p in f.allocates && accepted then [Task(p, response)] else [])
            && Sum([p], Freed(ip, f))
               == (if !understood then multiset{Received(p)}
                   else if p in f.allocates && !accepted then multiset{Received(p), Allocated(response)}
                   else multiset{})
            && Sum([p], Leaked(ip, f)) == (if understood
                && p !in f.allocates then multiset{Received(p)} else multiset{})
            && Sum([p], Brought(ip, f))
               == (if understood && p in f.allocates then multiset{Received(p), Allocated(response)}
                   else multiset{Received(p)})
  {
    assert [p][1..] == [];
    SumOne(p, Freed(ip, f));
    SumOne(p, Leaked(ip, f));
    SumOne(p, Brought(ip, f));
  }

  /** A batch is handled packet by packet: what was received first is queued first. */
  lemma {:induction false} QueuedPacketByPacket(a: seq<Packet>, b: seq<Packet>, ip: nat, f: Fates)
    ensures InOrder(a + b, ip, f) == InOrder(a, ip, f) + InOrder(b, ip, f)
    decreases |a|
  {
    if a == [] {
      assert a + b == b;
    } else {
      QueuedPacketByPacket(a[1..], b, ip, f);
      assert (a + b)[1..] == a[1..] + b;
    }
  }

  lemma {:induction false} CountedPacketByPacket(a: seq<Packet>, b: seq<Packet>, account: Account)
    ensures Sum(a + b, account) == Sum(a, account) + Sum(b, account)
    decreases |b|
  {
    if b == [] {
      assert a + b == a;
    } else {
      var n := |b| - 1;
      calc {
        Sum(a + b, account);
        { assert a + b == (a + b[..n]) + [b[n]]; SumLast(a + b[..n], b[n], account); }
        Sum(a + b[..n], account) + One(account, b[n]);
        { CountedPacketByPacket(a, b[..n], account); }
        (Sum(a, account) + Sum(b[..n], account)) + One(account, b[n]);
        { SumsShift(Sum(a, account), Sum(b[..n], account), One(account, b[n])); }
        Sum(a, account) + (Sum(b[..n], account) + One(account, b[n]));
        { assert b == b[..n] + [b[n]]; SumLast(b[..n], b[n], account); }
        Sum(a, account) + Sum(b, account);
      }
    }
  }

  // ---------------------------------------------------------------- four reversals are the order of arrival

  function AfterMac(s: seq<Packet>): seq<Packet> { Reverse(Filter(s, Mac)) }
  function AfterIp(s: seq<Packet>, ip: nat): seq<Packet> { Reverse(Filter(AfterMac(s), Ip(ip))) }
  function AfterUdp(s: seq<Packet>, ip: nat): seq<Packet> { Reverse(Filter(AfterIp(s, ip), Udp)) }

  /** The three reversing stages leave the valid packets, in reverse. */
  lemma StagesAreOneFilter(s: seq<Packet>, ip: nat)
    ensures AfterIp(s, ip) == Filter(s, MacAndIp(ip))
    ensures AfterUdp(s, ip) == Reverse(Filter(s, All(ip)))
  {
    var first := Filter(s, Mac);
    FilterReverse(first, Ip(ip));
    ReverseTwice(Filter(first, Ip(ip)));
    FilterTwice(s, Mac, Ip(ip), MacAndIp(ip));
    FilterTwice(s, MacAndIp(ip), Udp, All(ip));
  }

  /** Popping them from the back gives the order of arrival. */
  lemma {:induction false} PoppedInOrder(s: seq<Packet>, ip: nat, f: Fates)
    ensures Popped(Reverse(Filter(s, All(ip))), f) == InOrder(s, ip, f)
  {
    if s != [] {
      var x, rest := s[0], Filter(s[1..], All(ip));
      PoppedInOrder(s[1..], ip, f);
      assert s == [x] + s[1..];
      FilterPrepend(x, s[1..], All(ip));
      if Valid(ip, x) {
        ReversePrepend(x, rest);
        assert (Reverse(rest) + [x])[..|Reverse(rest)|] == Reverse(rest);
      } else {
        assert Filter(s, All(ip)) == rest;
      }
    }
  }

  /** What the three stages and the dispatch loop free, packet by packet. */
  lemma StagesFree(s: seq<Packet>, ip: nat, f: Fates)
    ensures Sum(s, RejectedBy(Mac)) + Sum(AfterMac(s), RejectedBy(Ip(ip))) + Sum(AfterIp(s, ip), RejectedBy(Udp))
            + Sum(AfterUdp(s, ip), RefusedBy(f)) == Sum(s, Freed(ip, f))
  {
    StagesAreOneFilter(s, ip);
    var mac, ips, udp := RejectedBy(Mac), Among(Mac, RejectedBy(Ip(ip))), Among(MacAndIp(ip), RejectedBy(Udp));
    var refused := Among(All(ip), RefusedBy(f));
    SumReverse(Filter(s, Mac), RejectedBy(Ip(ip)));
    SumFilter(s, Mac, RejectedBy(Ip(ip)));
    SumFilter(s, MacAndIp(ip), RejectedBy(Udp));
    SumReverse(Filter(s, All(ip)), RefusedBy(f));
    SumFilter(s, All(ip), RefusedBy(f));
    SumPlus(s, mac, ips);
    SumPlus(s, Plus(mac, ips), udp);
    SumPlus(s, Plus(Plus(mac, ips), udp), refused);
    forall p ensures Of(Plus(Plus(Plus(mac, ips), udp), refused), p) == Of(Freed(ip, f), p) { FreedOnce(ip, f, p); }
    SumSame(s, Plus(Plus(Plus(mac, ips), udp), refused), Freed(ip, f));
  }

  /** No packet is rejected twice, or rejected and refused. */
  lemma FreedOnce(ip: nat, f: Fates, p: Packet)
    ensures Of(Plus(Plus(Plus(RejectedBy(Mac), Among(Mac, RejectedBy(Ip(ip)))), Among(MacAndIp(ip), RejectedBy(Udp))),
                    Among(All(ip), RefusedBy(f))), p) == Of(Freed(ip, f), p)
  {
    var mac, ips, udp := RejectedBy(Mac), Among(Mac, RejectedBy(Ip(ip))), Among(MacAndIp(ip), RejectedBy(Udp));
    var refused := Among(All(ip), RefusedBy(f));
    assert Of(ips, p) == if MacOk(p) then Of(RejectedBy(Ip(ip)), p) else [];
    assert Of(udp, p) == if MacOk(p) && IpOk(ip, p) then Of(RejectedBy(Udp), p) else [];
    assert Of(refused, p) == if Valid(ip, p) then Of(RefusedBy(f), p) else [];
    assert Of(Plus(mac, ips), p) == Of(mac, p) + Of(ips, p);
    assert Of(Plus(Plus(mac, ips), udp), p) == Of(Plus(mac, ips), p) + Of(udp, p);
  }

  // ---------------------------------------------------------------- every buffer is somewhere, once

  function TaskBuffers(tasks: seq<Task>): multiset<Buffer> {
    if tasks == [] then multiset{}
    else multiset{Received(tasks[0].request), Allocated(tasks[0].response)} + TaskBuffers(tasks[1..])
  }

  lemma TaskBuffersPrepend(p: Packet, tasks: seq<Task>)
    ensures TaskBuffers([Task(p, ResponseTo(p))] + tasks) == multiset(Both(p)) + TaskBuffers(tasks)
  {
    assert ([Task(p, ResponseTo(p))] + tasks)[1..] == tasks;
  }

  lemma QueuedFirst(p: Packet, ip: nat, f: Fates, rest: seq<Task>)
    ensures TaskBuffers((if Valid(ip, p) && Taken(f, p) then [Task(p, ResponseTo(p))] else []) + rest)
            == One(Queued(ip, f), p) + TaskBuffers(rest)
  {
    if Valid(ip, p) && Taken(f, p) {
      TaskBuffersPrepend(p, rest);
    } else {
      assert [] + rest == rest;
    }
  }

  lemma {:induction false} QueuedBuffers(s: seq<Packet>, ip: nat, f: Fates)
    ensures TaskBuffers(InOrder(s, ip, f)) == Sum(s, Queued(ip, f))
  {
    if s != [] {
      QueuedBuffers(s[1..], ip, f);
      SumPrepend(s[0], s[1..], Queued(ip, f));
      assert s == [s[0]] + s[1..];
      QueuedFirst(s[0], ip, f, InOrder(s[1..], ip, f));
    }
  }

  lemma AccountedOnce(ip: nat, f: Fates, p: Packet)
    ensures Of(Plus(Plus(Queued(ip, f), Freed(ip, f)), Leaked(ip, f)), p) == Of(Brought(ip, f), p)
  {
    assert Of(Plus(Queued(ip, f), Freed(ip, f)), p)
        == if Valid(ip, p) && p !in f.allocates then [] else Of(Brought(ip, f), p);
  }

  /** Every buffer of a batch ends up in exactly one of the queue, the free pool and the leak, and exactly once. */
  lemma BuffersAreConserved(s: seq<Packet>, ip: nat, f: Fates)
    ensures Sum(s, Brought(ip, f)) == TaskBuffers(InOrder(s, ip, f)) + Sum(s, Freed(ip, f)) + Sum(s, Leaked(ip, f))
  {
    QueuedBuffers(s, ip, f);
    var kept := Plus(Queued(ip, f), Freed(ip, f));
    SumPlus(s, Queued(ip, f), Freed(ip, f));
    SumPlus(s, kept, Leaked(ip, f));
    forall p ensures Of(Plus(kept, Leaked(ip, f)), p) == Of(Brought(ip, f), p) { AccountedOnce(ip, f, p); }
    SumSame(s, Plus(kept, Leaked(ip, f)), Brought(ip, f));
  }

  /** Nothing leaks exactly when a response can be allocated for every valid request. */
  lemma {:induction false} NoLeakIff(s: seq<Packet>, ip: nat, f: Fates)
    ensures Sum(s, Leaked(ip, f)) == multiset{} <==> forall p | p in s :: Valid(ip, p) ==> p in f.allocates
  {
    if s != [] {
      var n := |s| - 1;
      NoLeakIff(s[..n], ip, f);
      assert s == s[..n] + [s[n]];
      assert |Sum(s, Leaked(ip, f))| == |Sum(s[..n], Leaked(ip, f))| + |Of(Leaked(ip, f), s[n])|;
    }
  }
}
