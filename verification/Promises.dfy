/** What the handshake promises, for every run of server, channels and SDK clients from an
    empty table of any size: any interleaving, any admin switches, any forced evictions,
    liveness timeouts, broken connections, departing and crashing clients. */
module Promises {
  import opened Messages
  import opened Sessions
  import opened ControlSpec
  import opened ClientSdk
  import opened Links
  import opened Handshake

  /** The server's next message from slot i. */
  ghost predicate Arriving(y: Sys, i: int, m: ToServer) {
    && Occupied(y.server, i)
    && OnConn(y, FdOf(y, i))
    && y.conns[FdOf(y, i)].up != []
    && y.conns[FdOf(y, i)].up[0] == m
  }

  /** Stale acknowledgements are harmless: a STOPPED the server acts on answers the eviction
      now in flight, never an earlier one that timed out. */
  lemma StoppedIsNeverStale(n: nat, steps: seq<Step>, y: Sys, i: int, k: nat)
    requires Reachable(Start(n), steps, y) && Arriving(y, i, Stopped(k))
    ensures y.server.table.slots[i].state == EvictingCooperative ==> k == y.server.evictions && y.server.evicting == i
    ensures InBounds(y.server) && (y.server.table.slots[i].state != EvictingCooperative ==> HandleStopped(y.server, i) == y.server)
  {
    InvOfRuns(n, steps, y);
    assert LinkAt(y, i);
    var f := FdOf(y, i);
    TakeStopped(y.server.table.slots[i], y.server.evictions, y.server.down[f], y.conns[f]);
  }

  /** A READY_FOR_RT always finds its slot in warm-up under the grant it answers, so no
      grant is ever "already superseded". */
  lemma ReadyIsNeverStray(n: nat, steps: seq<Step>, y: Sys, i: int, g: nat)
    requires Reachable(Start(n), steps, y) && Arriving(y, i, ReadyForRt(g))
    ensures y.server.table.slots[i].state == GrantedWarmup
    ensures g == y.server.table.slots[i].grantedEpoch == y.server.epoch
  {
    InvOfRuns(n, steps, y);
    assert LinkAt(y, i);
    var f := FdOf(y, i);
    TakeReady(y.server.table.slots[i], y.server.evictions, y.server.down[f], y.conns[f]);
    assert HoldsRt(y.server.table.slots[i]);
  }

  /** SDK clients deliver CONNECT only to CONNECTED slots: the assumption handle_connect()
      needs is met. */
  lemma ConnectComesFirst(n: nat, steps: seq<Step>, y: Sys, i: int, id: string, verdict: Verdict)
    requires Reachable(Start(n), steps, y) && Arriving(y, i, Connect(id, verdict))
    ensures y.server.table.slots[i].state == Connected
  {
    InvOfRuns(n, steps, y);
    assert LinkAt(y, i);
    var f := FdOf(y, i);
    TakeConnect(y.server.table.slots[i], y.server.evictions, y.server.down[f], y.conns[f], id);
  }

  // Handshake conservation.

  function Count<T>(s: seq<T>, p: T -> bool): nat {
    if s == [] then 0 else (if p(s[0]) then 1 else 0) + Count(s[1..], p)
  }

  predicate IsReady(m: ToServer) { m.ReadyForRt? }
  predicate IsStopped(m: ToServer) { m.Stopped? }
  predicate IsGrant(m: ToClient) { m.ActivateGrant? }
  predicate IsEvict(m: ToClient) { m.EvictPending? }

  /** GRANTs and READY_FOR_RTs in flight between slot i and its client. */
  ghost function GrantsInFlight(y: Sys, i: int): nat
    requires Occupied(y.server, i) && OnConn(y, FdOf(y, i))
  {
    Count(y.conns[FdOf(y, i)].up, IsReady)
    + Count(y.server.down[FdOf(y, i)], IsGrant)
  }

  /** EVICT_PENDINGs and STOPPEDs in flight between slot i and its client. */
  ghost function EvictionsInFlight(y: Sys, i: int): nat
    requires Occupied(y.server, i) && OnConn(y, FdOf(y, i))
  {
    Count(y.conns[FdOf(y, i)].up, IsStopped)
    + Count(y.server.down[FdOf(y, i)], IsEvict)
  }

  function CountR(t: seq<Token>): nat {
    if t == [] then 0 else (if t[0].R? then 1 else 0) + CountR(t[1..])
  }

  lemma {:induction false} CountRAppend(a: seq<Token>, b: seq<Token>)
    ensures CountR(a + b) == CountR(a) + CountR(b)
    decreases |a|
  {
    if a == [] {
      assert a + b == b;
    } else {
      CountRAppend(a[1..], b);
      assert (a + b)[1..] == a[1..] + b;
    }
  }

  lemma {:induction false} CountUp(up: seq<ToServer>)
    ensures Count(up, IsReady) == CountR(UpTokens(up))
    ensures Count(up, IsStopped) == |UpTokens(up)| - CountR(UpTokens(up))
    decreases |up|
  {
    if up != [] {
      CountUp(up[1..]);
      CountRAppend(UpTokens([up[0]]), UpTokens(up[1..]));
      assert [up[0]][1..] == [];
      assert UpTokens(up) == UpTokens([up[0]]) + UpTokens(up[1..]);
      if UpTokens([up[0]]) != [] { assert UpTokens([up[0]])[1..] == []; }
    }
  }

  lemma {:induction false} CountDown(down: seq<ToClient>)
    ensures Count(down, IsGrant) == CountR(DownTokens(down))
    ensures Count(down, IsEvict) == |DownTokens(down)| - CountR(DownTokens(down))
    decreases |down|
  {
    if down != [] {
      CountDown(down[1..]);
      CountRAppend(DownTokens([down[0]]), DownTokens(down[1..]));
      assert [down[0]][1..] == [];
      assert DownTokens(down) == DownTokens([down[0]]) + DownTokens(down[1..]);
      if DownTokens([down[0]]) != [] { assert DownTokens([down[0]])[1..] == []; }
    }
  }

  /** A slot is in warm-up exactly when one GRANT or one READY_FOR_RT of its connection is
      in flight; during its eviction exactly one EVICT_PENDING or STOPPED is; there is never
      more than one of either pair. So no RT state waits on a message nobody will send. */
  lemma HandshakeConservation(n: nat, steps: seq<Step>, y: Sys, i: int)
    requires Reachable(Start(n), steps, y) && Occupied(y.server, i)
    ensures OnConn(y, FdOf(y, i))
    ensures GrantsInFlight(y, i) == if y.server.table.slots[i].state == GrantedWarmup then 1 else 0
    ensures EvictionsInFlight(y, i) <= 1
    ensures y.server.table.slots[i].state == EvictingCooperative ==> EvictionsInFlight(y, i) == 1
    ensures y.server.table.slots[i].state == ActiveRt ==> EvictionsInFlight(y, i) == 0
  {
    InvOfRuns(n, steps, y);
    assert LinkAt(y, i);
    var f := FdOf(y, i);
    var up, down := y.conns[f].up, y.server.down[f];
    CountUp(up);
    CountDown(down);
    CountRAppend(UpTokens(up), DownTokens(down));
    var t := Tokens(down, y.conns[f]);
    if |t| == 2 { assert t[1..][0] == t[1] && t[1..][1..] == []; }
    if |t| == 1 { assert t[1..] == []; }
  }

  lemma {:induction false} CountAppend<T>(s: seq<T>, t: seq<T>, p: T -> bool)
    ensures Count(s + t, p) == Count(s, p) + Count(t, p)
    decreases |s|
  {
    if s == [] {
      assert s + t == t;
    } else {
      CountAppend(s[1..], t, p);
      assert (s + t)[1..] == s[1..] + t;
    }
  }

  /** The client at connection f reads its oldest message, a GRANT, which finds its ring and
      frame fd or does not. */
  ghost function AfterGrantRead(y: Sys, f: int, attaches: bool): Sys
    requires OnConn(y, f) && y.server.down[f] != []
  {
    var r := Receive(y.conns[f].client, y.server.down[f][0], attaches);
    WithConn(y, f, Conn(y.conns[f].up + r.replies, r.client))
      .(server := y.server.(down := y.server.down[f := y.server.down[f][1..]]))
  }

  /** Reading the GRANT must end in an answer: it leaves the slot in warm-up with one in flight
      if the client can attach, and with nothing in flight if it cannot. */
  lemma WarmupAnsweredExactly(n: nat, steps: seq<Step>, y: Sys, i: int, attaches: bool)
    requires Reachable(Start(n), steps, y) && Occupied(y.server, i) && OnConn(y, FdOf(y, i))
    requires y.conns[FdOf(y, i)].client.phase in {AwaitFirst, Running}
    requires y.server.down[FdOf(y, i)] != [] && y.server.down[FdOf(y, i)][0].ActivateGrant?
    ensures var z := AfterGrantRead(y, FdOf(y, i), attaches);
            && Occupied(z.server, i) && z.server.table.slots[i].state == GrantedWarmup
            && OnConn(z, FdOf(z, i))
            && GrantsInFlight(z, i) == if attaches then 1 else 0
  {
    HandshakeConservation(n, steps, y, i);
    var f := FdOf(y, i);
    var up, down := y.conns[f].up, y.server.down[f];
    var replies := Receive(y.conns[f].client, down[0], attaches).replies;
    CountAppend(up, replies, IsReady);
    if attaches { assert replies[1..] == []; }
    assert Count(down, IsGrant) == 1 + Count(down[1..], IsGrant);
  }

  /** Both ends agree once nothing is in flight: a live client believes itself active exactly
      when the server has it ACTIVE_RT. */
  lemma QuiescentAgreement(n: nat, steps: seq<Step>, y: Sys, i: int)
    requires Reachable(Start(n), steps, y) && Occupied(y.server, i) && OnConn(y, FdOf(y, i))
    requires y.conns[FdOf(y, i)].client.phase != Gone
    requires y.conns[FdOf(y, i)].up == [] && y.server.down[FdOf(y, i)] == []
    ensures y.conns[FdOf(y, i)].client.active <==> y.server.table.slots[i].state == ActiveRt
    ensures y.server.table.slots[i].state != GrantedWarmup && y.server.table.slots[i].state != EvictingCooperative
  {
    InvOfRuns(n, steps, y);
    assert LinkAt(y, i);
  }

  /** Even before that: once the client has read what is in flight, its flag will say
      whether the server has fielded it. */
  lemma FlagConverges(n: nat, steps: seq<Step>, y: Sys, i: int)
    requires Reachable(Start(n), steps, y) && Occupied(y.server, i) && OnConn(y, FdOf(y, i))
    requires y.conns[FdOf(y, i)].client.phase != Gone
    ensures Settled(y.conns[FdOf(y, i)].client.active, y.server.down[FdOf(y, i)])
            <==> y.server.table.slots[i].state == GrantedWarmup || y.server.table.slots[i].state == ActiveRt
  {
    InvOfRuns(n, steps, y);
    assert LinkAt(y, i);
    var f := FdOf(y, i);
    SettledIsFielded(y.server.table.slots[i], y.server.evictions, y.server.down[f], y.conns[f]);
  }

  // At most one publisher.

  /** Two clients can only both pass the check in wispc_publish() if their grants are at
      least a full turn of the 32-bit generation word apart. */
  lemma RivalPublishersAreAgesApart(n: nat, steps: seq<Step>, y: Sys, f: int, g: int)
    requires Reachable(Start(n), steps, y) && OnConn(y, f) && OnConn(y, g) && f != g
    requires MayPublish(y.conns[f].client, y.server.epoch) && MayPublish(y.conns[g].client, y.server.epoch)
    ensures var a, b := y.conns[f].client.granted, y.conns[g].client.granted;
            a != b && (a - b) % 0x1_0000_0000 == 0 && (a - b >= 0x1_0000_0000 || b - a >= 0x1_0000_0000)
  {
    InvOfRuns(n, steps, y);
    var a, b := y.conns[f].client.granted, y.conns[g].client.granted;
    assert ClaimsOn(y, f, a) && ClaimsOn(y, g, b);
    assert a != b;
  }

  /** At most one publisher, until the generation word has wrapped. Clients whose connection
      the server has dropped are included. */
  lemma AtMostOnePublisher(n: nat, steps: seq<Step>, y: Sys, f: int, g: int)
    requires Reachable(Start(n), steps, y) && OnConn(y, f) && OnConn(y, g)
    requires y.server.epoch < 0x1_0000_0000
    requires MayPublish(y.conns[f].client, y.server.epoch) && MayPublish(y.conns[g].client, y.server.epoch)
    ensures f == g
  {
    InvOfRuns(n, steps, y);
    if f != g {
      RivalPublishersAreAgesApart(n, steps, y, f, g);
      assert ClaimsOn(y, f, y.conns[f].client.granted) && ClaimsOn(y, g, y.conns[g].client.granted);
    }
  }

  /** While a live client is ACTIVE_RT, it may publish and nobody else may. */
  lemma ActiveClientIsThePublisher(n: nat, steps: seq<Step>, y: Sys, i: int, g: int)
    requires Reachable(Start(n), steps, y) && Occupied(y.server, i) && OnConn(y, FdOf(y, i)) && OnConn(y, g)
    requires y.server.table.slots[i].state == ActiveRt && y.conns[FdOf(y, i)].client.phase != Gone
    requires y.server.epoch < 0x1_0000_0000
    ensures MayPublish(y.conns[g].client, y.server.epoch) <==> g == FdOf(y, i)
  {
    InvOfRuns(n, steps, y);
    assert LinkAt(y, i) && HoldsRt(y.server.table.slots[i]);
    if MayPublish(y.conns[g].client, y.server.epoch) { AtMostOnePublisher(n, steps, y, FdOf(y, i), g); }
  }
}
