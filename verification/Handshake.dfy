/** The whole system: one server, any number of SDK clients over its lifetime, and a FIFO
    byte stream each way between each of them. Connections are numbered in order of accept;
    a slot's `fd` is the number of the connection it serves, and a connection the server has
    closed keeps whatever its client has not read yet.

    The one invariant proved here, over every interleaving, yields the protocol's promises:
    answers are never stale, no RT state waits for a message nobody will send, both ends
    agree once the channels are empty, and at most one client may publish. */
module Handshake {
  import opened Timespecs
  import opened Messages
  import opened Sessions
  import opened ControlSpec
  import opened RtSafety
  import opened ClientSdk
  import opened Links
  import F = Fairness

  datatype Sys = Sys(server: Server, conns: seq<Conn>)

  function Start(n: nat): Sys {
    Sys(Init(n), [])
  }

  /** Epoch e has reached, or is on its way to, this client. */
  predicate Claims(down: seq<ToClient>, conn: Conn, e: nat) {
    || (e > 0 && conn.client.granted == e)
    || (exists k :: 0 <= k < |down| && down[k] == ActivateGrant(e))
  }

  predicate ClaimsOn(y: Sys, f: int, e: nat) {
    0 <= f < |y.conns| && f < |y.server.down| && Claims(y.server.down[f], y.conns[f], e)
  }

  ghost predicate Wired(y: Sys) {
    var slots := y.server.table.slots;
    && |y.server.down| == |y.conns|
    && (forall i :: 0 <= i < |slots| && slots[i].inUse ==> 0 <= slots[i].fd < |y.conns|)
    && (forall i, j :: 0 <= i < j < |slots| && slots[i].inUse && slots[j].inUse ==> slots[i].fd != slots[j].fd)
  }

  ghost predicate LinkAt(y: Sys, i: int)
    requires Wired(y) && Occupied(y.server, i)
  {
    var f := y.server.table.slots[i].fd;
    LinkOk(y.server.table.slots[i], y.server.evictions, y.server.down[f], y.conns[f])
  }

  /** Every occupied slot, except possibly `skip`, agrees with its connection. */
  ghost predicate LinksBut(y: Sys, skip: int)
    requires Wired(y)
  {
    forall i :: 0 <= i < |y.server.table.slots| && y.server.table.slots[i].inUse && i != skip ==> LinkAt(y, i)
  }

  /** No epoch is claimed on two connections, none is ahead of the ring, and nobody is active
      without one. */
  ghost predicate ClaimsApart(y: Sys)
    requires Wired(y)
  {
    && (forall f, e: nat :: 0 <= f < |y.conns| && ClaimsOn(y, f, e) ==> 1 <= e <= y.server.epoch)
    && (forall f, g, e: nat :: ClaimsOn(y, f, e) && ClaimsOn(y, g, e) ==> f == g)
    && (forall f :: 0 <= f < |y.conns| ==> (y.conns[f].client.active ==> y.conns[f].client.granted > 0))
  }

  /** What every client, connected or dropped, has been told and not yet read. */
  ghost predicate Said(y: Sys)
    requires Wired(y)
  {
    forall f :: 0 <= f < |y.conns| ==> Told(y.server.epoch, y.server.down[f], y.conns[f].client)
  }

  ghost predicate Inv(y: Sys) {
    Safe(y.server) && Wired(y) && LinksBut(y, -1) && ClaimsApart(y) && Said(y)
  }

  // Steps.

  datatype Step =
    | Connects
    | Delivers(idx: int, now: Timespec)
    | Breaks(idx: int, now: Timespec)
    | Switches(id: string, now: Timespec)
    | HeartbeatTicks(now: Timespec)
    | GraceTicks(now: Timespec)
    | ClientIntroduces(f: int, id: string, verdict: Verdict)
    | ClientReads(f: int)
    | ClientReadFails(f: int)
    | ClientRequests(f: int)
    | ClientBeats(f: int)
    | ClientAnnounces(f: int)
    | ClientPublishes(f: int)
    | ClientLeaves(f: int)
    | ClientCrashes(f: int)

  predicate OnConn(y: Sys, f: int) {
    0 <= f < |y.conns| && f < |y.server.down|
  }

  function FdOf(y: Sys, idx: int): int
    requires Occupied(y.server, idx)
  {
    y.server.table.slots[idx].fd
  }

  ghost predicate Closed(y: Sys, f: int) {
    forall i :: 0 <= i < |y.server.table.slots| && y.server.table.slots[i].inUse ==> y.server.table.slots[i].fd != f
  }

  ghost predicate Can(y: Sys, t: Step) {
    match t
    case Delivers(idx, _) => Occupied(y.server, idx) && OnConn(y, FdOf(y, idx)) && y.conns[FdOf(y, idx)].up != []
    case Breaks(idx, _) => Occupied(y.server, idx)
    case ClientIntroduces(f, _, _) => OnConn(y, f) && y.conns[f].client.phase == Fresh
    case ClientReads(f) => OnConn(y, f) && y.server.down[f] != [] && y.conns[f].client.phase in {AwaitMode, AwaitFirst, Running}
    case ClientReadFails(f) => OnConn(y, f) && y.server.down[f] == [] && Closed(y, f)
    case ClientRequests(f) => OnConn(y, f) && y.conns[f].client.phase == Running && !y.conns[f].client.active
    case ClientBeats(f) => OnConn(y, f) && y.conns[f].client.phase == Running && y.conns[f].client.active
    case ClientAnnounces(f) => OnConn(y, f) && y.conns[f].client.phase == Running
    case ClientPublishes(f) => OnConn(y, f)
    case ClientLeaves(f) => OnConn(y, f) && y.conns[f].client.phase == Running
    case ClientCrashes(f) => OnConn(y, f)
    case _ => true
  }

  /** The connection with the server's oldest message taken. */
  function Popped(y: Sys, f: int): Sys
    requires OnConn(y, f) && y.conns[f].up != []
  {
    y.(conns := y.conns[f := y.conns[f].(up := y.conns[f].up[1..])])
  }

  function WithConn(y: Sys, f: int, conn: Conn): Sys
    requires OnConn(y, f)
  {
    y.(conns := y.conns[f := conn])
  }

  function Sends(y: Sys, f: int, m: ToServer, c: Client): Sys
    requires OnConn(y, f)
  {
    WithConn(y, f, Conn(y.conns[f].up + [m], c))
  }

  /** A step of the server alone. */
  ghost function Serve(y: Sys, e: Event): Sys
    requires InBounds(y.server) && Enabled(y.server, e)
  {
    y.(server := Next(y.server, e))
  }

  ghost function Do(y: Sys, t: Step): Sys
    requires InBounds(y.server) && Can(y, t)
  {
    match t
    case Connects => Sys(Accept(y.server), y.conns + [Conn([], NEW_CLIENT)])
    case Delivers(idx, now) =>
      var f := FdOf(y, idx);
      Popped(y, f).(server := Next(y.server, Received(idx, y.conns[f].up[0], now)))
    case Breaks(idx, now) => Serve(y, Hangup(idx, now))
    case Switches(id, now) => Serve(y, Event.Switch(id, now))
    case HeartbeatTicks(now) => Serve(y, HeartbeatTick(now))
    case GraceTicks(now) => Serve(y, GraceTick(now))
    case ClientIntroduces(f, id, verdict) =>
      Sends(y, f, Connect(id, verdict), y.conns[f].client.(phase := AwaitMode))
    case ClientReads(f) =>
      var r := Receive(y.conns[f].client, y.server.down[f][0]);
      WithConn(y, f, Conn(y.conns[f].up + r.replies, r.client))
        .(server := y.server.(down := y.server.down[f := y.server.down[f][1..]]))
    case ClientReadFails(f) =>
      var r := ReceiveFails(y.conns[f].client);
      WithConn(y, f, Conn(y.conns[f].up + r.replies, r.client))
    case ClientRequests(f) => Sends(y, f, ActivateRequest, y.conns[f].client)
    case ClientBeats(f) => Sends(y, f, ToServer.Heartbeat, y.conns[f].client)
    case ClientAnnounces(f) => Sends(y, f, DmabufAnnounce, y.conns[f].client)
    case ClientPublishes(f) => WithConn(y, f, y.conns[f].(client := Publish(y.conns[f].client, y.server.epoch)))
    case ClientLeaves(f) => Sends(y, f, Disconnect, y.conns[f].client.(phase := Gone, active := false))
    case ClientCrashes(f) => WithConn(y, f, y.conns[f].(client := y.conns[f].client.(phase := Gone, active := false)))
  }

  // The server's moves.

  /** Slot i, its connection, or both have changed; nothing else has. */
  lemma SlotMoves(y: Sys, s1: Server, i: int)
    requires Wired(y) && LinksBut(y, i) && ClaimsApart(y) && Said(y) && Occupied(y.server, i) && Safe(s1)
    requires |s1.table.slots| == |y.server.table.slots| && |s1.down| == |y.server.down| && s1.epoch >= y.server.epoch
    requires forall j :: 0 <= j < |s1.table.slots| && j != i ==> s1.table.slots[j] == y.server.table.slots[j]
    requires var f := FdOf(y, i);
             && (forall g :: 0 <= g < |s1.down| && g != f ==> s1.down[g] == y.server.down[g])
             && Told(s1.epoch, s1.down[f], y.conns[f].client)
             && (s1.table.slots[i].inUse ==>
                   s1.table.slots[i].fd == f && LinkOk(s1.table.slots[i], s1.evictions, s1.down[f], y.conns[f]))
             && (forall e :: Claims(s1.down[f], y.conns[f], e) ==>
                   Claims(y.server.down[f], y.conns[f], e) || e == s1.epoch > y.server.epoch)
    requires s1.evictions == y.server.evictions || y.server.evicting == -1
    requires y.server.evicting == -1 ==>
               forall j :: 0 <= j < |s1.table.slots| && s1.table.slots[j].inUse && j != i ==> s1.table.slots[j].state != EvictingCooperative
    ensures Inv(y.(server := s1))
  {
    var z := y.(server := s1);
    var f := FdOf(y, i);
    assert Wired(z);
    forall j | 0 <= j < |s1.table.slots| && s1.table.slots[j].inUse ensures LinkAt(z, j) {
      if j != i {
        assert LinkAt(y, j);
        assert s1.table.slots[j].fd != f;
      }
    }
    forall g | 0 <= g < |z.conns| ensures Told(s1.epoch, s1.down[g], z.conns[g].client) {
      if g != f { assert Told(y.server.epoch, y.server.down[g], y.conns[g].client); }
    }
    forall g, e: nat | ClaimsOn(z, g, e)
      ensures 1 <= e <= s1.epoch
      ensures ClaimsOn(y, g, e) || (g == f && e > y.server.epoch)
    {
      assert g != f ==> ClaimsOn(y, g, e);
      assert Claims(y.server.down[f], y.conns[f], e) ==> ClaimsOn(y, f, e);
    }
  }

  lemma ClaimsAppend(down: seq<ToClient>, conn: Conn, m: ToClient, e: nat)
    ensures Claims(down + [m], conn, e) <==> Claims(down, conn, e) || m == ActivateGrant(e)
  {
    if m == ActivateGrant(e) { assert (down + [m])[|down|] == m; }
    if k :| 0 <= k < |down| && down[k] == ActivateGrant(e) { assert (down + [m])[k] == down[k]; }
  }

  lemma SaysGrant(y: Sys, i: int)
    requires Inv(y) && InRange(y.server.table, i) && Grantable(y.server.table.slots[i])
    ensures var f := FdOf(y, i);
            Told(y.server.epoch + 1, y.server.down[f] + [ActivateGrant(y.server.epoch + 1)], y.conns[f].client)
  {
    var f := FdOf(y, i);
    var down, c := y.server.down[f], y.conns[f].client;
    assert LinkAt(y, i);
    GrantsAreTokens(down, y.conns[f]);
    if c.granted > y.server.epoch { assert ClaimsOn(y, f, c.granted); }
    ToldGrant(y.server.epoch, down, c, y.server.epoch + 1);
  }

  lemma GrantMove(y: Sys, i: int)
    requires Inv(y) && !RtSlotTaken(y.server.table.slots)
    requires InRange(y.server.table, i) && Grantable(y.server.table.slots[i])
    ensures Inv(y.(server := DoGrant(y.server, i)))
  {
    var s, f := y.server, FdOf(y, i);
    DoGrantSafe(s, i);
    FreeMeansNoCache(s);
    assert LinkAt(y, i);
    GrantLink(s.table.slots[i], s.evictions, s.down[f], y.conns[f], s.epoch + 1);
    SaysGrant(y, i);
    forall e ensures Claims(s.down[f] + [ActivateGrant(s.epoch + 1)], y.conns[f], e) ==>
                       Claims(s.down[f], y.conns[f], e) || e == s.epoch + 1 {
      ClaimsAppend(s.down[f], y.conns[f], ActivateGrant(s.epoch + 1), e);
    }
    SlotMoves(y, DoGrant(s, i), i);
  }

  lemma SaysEvict(y: Sys, i: int)
    requires Inv(y) && Occupied(y.server, i) && y.server.table.slots[i].state == ActiveRt
    ensures var s, f := y.server, FdOf(y, i);
            var k := s.evictions + 1;
            && LinkOk(s.table.slots[i].(state := EvictingCooperative), k, s.down[f] + [EvictPending(k)], y.conns[f])
            && Told(s.epoch, s.down[f] + [EvictPending(k)], y.conns[f].client)
  {
    var s, f := y.server, FdOf(y, i);
    assert LinkAt(y, i);
    EvictLink(s.table.slots[i], s.evictions, s.down[f], y.conns[f], s.evictions + 1);
    ToldEvict(s.epoch, s.down[f], y.conns[f].client, s.evictions + 1);
  }

  lemma ActiveHoldsAlone(s: Server)
    requires Safe(s) && s.table.activeSlot >= 0
    ensures s.evicting == -1
    ensures forall j :: 0 <= j < |s.table.slots| && s.table.slots[j].inUse ==> s.table.slots[j].state != EvictingCooperative
  {
    assert HoldsRt(s.table.slots[s.table.activeSlot]);
    if s.evicting >= 0 { assert HoldsRt(s.table.slots[s.evicting]); }
  }

  lemma EvictMove(y: Sys, target: int, now: Timespec)
    requires Inv(y) && y.server.table.activeSlot >= 0
    requires InRange(y.server.table, target) && Grantable(y.server.table.slots[target])
    ensures Inv(y.(server := EvictInFavourOf(y.server, y.server.table.activeSlot, target, now)))
  {
    var s, i := y.server, y.server.table.activeSlot;
    EvictSafe(s, target, now);
    ActiveHoldsAlone(s);
    SaysEvict(y, i);
    EvictedMove(y, EvictInFavourOf(s, i, target, now), i);
  }

  lemma EvictedMove(y: Sys, s1: Server, i: int)
    requires Inv(y) && Occupied(y.server, i) && Safe(s1) && y.server.evicting == -1
    requires forall j :: 0 <= j < |y.server.table.slots| && y.server.table.slots[j].inUse ==>
               y.server.table.slots[j].state != EvictingCooperative
    requires s1.table.slots == y.server.table.slots[i := y.server.table.slots[i].(state := EvictingCooperative)]
    requires s1.epoch == y.server.epoch
    requires var f, m := FdOf(y, i), EvictPending(s1.evictions);
             && s1.down == y.server.down[f := y.server.down[f] + [m]]
             && LinkOk(s1.table.slots[i], s1.evictions, s1.down[f], y.conns[f])
             && Told(s1.epoch, s1.down[f], y.conns[f].client)
    ensures Inv(y.(server := s1))
  {
    var f := FdOf(y, i);
    forall e ensures Claims(s1.down[f], y.conns[f], e) ==> Claims(y.server.down[f], y.conns[f], e) {
      ClaimsAppend(y.server.down[f], y.conns[f], EvictPending(s1.evictions), e);
    }
    SlotMoves(y, s1, i);
  }

  lemma GrantSlotMove(y: Sys, i: int, now: Timespec)
    requires Inv(y) && InRange(y.server.table, i) && Grantable(y.server.table.slots[i])
    ensures Inv(y.(server := GrantSlot(y.server, i, now)))
  {
    if y.server.table.activeSlot >= 0 {
      EvictMove(y, i, now);
    } else if !RtSlotTaken(y.server.table.slots) {
      GrantMove(y, i);
    } else {
      PendingMove(y, i);
    }
  }

  /** Re-aiming the pending grant touches no connection. */
  lemma PendingMove(y: Sys, pending: int)
    requires Inv(y) && Safe(y.server.(pending := pending))
    ensures Inv(y.(server := y.server.(pending := pending)))
  {
    var z := y.(server := y.server.(pending := pending));
    forall f | 0 <= f < |z.conns| ensures Told(z.server.epoch, z.server.down[f], z.conns[f].client) {
      assert Told(y.server.epoch, y.server.down[f], y.conns[f].client);
    }
    forall j | 0 <= j < |z.server.table.slots| && z.server.table.slots[j].inUse ensures LinkAt(z, j) {
      assert LinkAt(y, j);
    }
    forall g, e: nat | ClaimsOn(z, g, e) ensures ClaimsOn(y, g, e) {}
  }

  lemma FinishMove(y: Sys)
    requires Inv(y) && !RtSlotTaken(y.server.table.slots)
    ensures Inv(y.(server := FinishPendingGrant(y.server)))
  {
    PendingMove(y, -1);
    if y.server.pending >= 0 && Grantable(y.server.table.slots[y.server.pending]) {
      GrantMove(y.(server := y.server.(pending := -1)), y.server.pending);
    }
  }

  lemma OfferMove(y: Sys, now: Timespec)
    requires Inv(y)
    ensures Inv(y.(server := MaybeGrantNextQueued(y.server, now)))
  {
    F.OfferEffect(y.server, now);
    var h := FindNextQueued(y.server.table);
    if !RtSlotTaken(y.server.table.slots) && h >= 0 { GrantMove(y, h); }
  }

  lemma HandoverMove(y: Sys, now: Timespec)
    requires Inv(y) && !RtSlotTaken(y.server.table.slots)
    ensures InBounds(FinishPendingGrant(y.server))
    ensures Inv(y.(server := MaybeGrantNextQueued(FinishPendingGrant(y.server), now)))
  {
    FinishMove(y);
    OfferMove(y.(server := FinishPendingGrant(y.server)), now);
  }

  /** A slot whose connection may already have lost a message is freed. */
  lemma DropMove(y: Sys, i: int, now: Timespec)
    requires Safe(y.server) && Wired(y) && LinksBut(y, i) && ClaimsApart(y) && Said(y) && Occupied(y.server, i)
    ensures Inv(y.(server := HandleDisconnect(y.server, i, now)))
  {
    var s := y.server;
    var s1 := Drop(s, i);
    DropSafe(s, i);
    F.DropShape(s, i);
    assert s.evicting == -1 ==> forall j :: 0 <= j < |s.table.slots| && s.table.slots[j].inUse ==> s.table.slots[j].state != EvictingCooperative;
    assert Told(s.epoch, s.down[FdOf(y, i)], y.conns[FdOf(y, i)].client);
    SlotMoves(y, s1, i);
    if RtState(s.table.slots[i].state) { HandoverMove(y.(server := s1), now); }
  }

  lemma TimeOutSlotMove(y: Sys, i: int)
    requires Inv(y) && Occupied(y.server, i) && y.server.table.slots[i].state == ActiveRt
    ensures Inv(y.(server := TimeOut(y.server, i)))
  {
    var s, f := y.server, FdOf(y, i);
    TimeOutSafe(s, i);
    assert HoldsRt(s.table.slots[i]);
    assert s.evicting == -1 by { if s.evicting >= 0 { assert HoldsRt(s.table.slots[s.evicting]); } }
    assert LinkAt(y, i);
    TimeOutLink(s.table.slots[i], s.evictions, s.down[f], y.conns[f]);
    if y.conns[f].client.granted > s.epoch { assert ClaimsOn(y, f, y.conns[f].client.granted); }
    ToldTimeOut(s.epoch + 1, s.down[f], y.conns[f].client);
    forall e ensures Claims(s.down[f] + [LivenessTimeout] + [Messages.Deactivate], y.conns[f], e) ==> Claims(s.down[f], y.conns[f], e) {
      ClaimsAppend(s.down[f], y.conns[f], LivenessTimeout, e);
      ClaimsAppend(s.down[f] + [LivenessTimeout], y.conns[f], Messages.Deactivate, e);
    }
    SlotMoves(y, TimeOut(s, i), i);
  }

  lemma TimeOutMove(y: Sys, now: Timespec)
    requires Inv(y)
    ensures Inv(Serve(y, HeartbeatTick(now)))
  {
    HeartbeatOutcomes(y.server, now);
    HeartbeatOutcomeMove(y, CheckHeartbeats(y.server, now), now);
    assert Serve(y, HeartbeatTick(now)) == y.(server := CheckHeartbeats(y.server, now));
  }

  lemma HeartbeatOutcomeMove(y: Sys, s1: Server, now: Timespec)
    requires Inv(y)
    requires var i := y.server.table.activeSlot;
             s1 == y.server || (i >= 0 && InBounds(TimeOut(y.server, i)) && s1 == MaybeGrantNextQueued(TimeOut(y.server, i), now))
    ensures Inv(y.(server := s1))
  {
    if s1 == y.server {
      assert y.(server := s1) == y;
    } else {
      TimeOutAndOffer(y, y.server.table.activeSlot, now);
    }
  }

  lemma TimeOutAndOffer(y: Sys, i: int, now: Timespec)
    requires Inv(y) && Occupied(y.server, i) && y.server.table.slots[i].state == ActiveRt
    ensures InBounds(TimeOut(y.server, i)) && Inv(y.(server := MaybeGrantNextQueued(TimeOut(y.server, i), now)))
  {
    TimeOutSlotMove(y, i);
    OfferMove(y.(server := TimeOut(y.server, i)), now);
  }

  lemma GraceMove(y: Sys, now: Timespec)
    requires Inv(y)
    ensures Inv(Serve(y, GraceTick(now)))
  {
    var s := y.server;
    if s.evicting >= 0 && GraceElapsed(now, s.deadline) {
      var i := s.evicting;
      var f := FdOf(y, i);
      ForceOutSafe(s);
      assert LinkAt(y, i);
      ReclaimLink(s.table.slots[i], s.evictions, s.down[f], y.conns[f]);
      assert Told(s.epoch, s.down[f], y.conns[f].client);
      SlotMoves(y, ForceOut(s), i);
      HandoverMove(y.(server := ForceOut(s)), now);
    }
  }

  lemma NewLink(fd: int, evictions: nat)
    ensures LinkOk(NewSession(fd), evictions, [], Conn([], NEW_CLIENT))
  {}

  lemma AcceptWired(y: Sys)
    requires Inv(y)
    ensures Wired(Do(y, Connects)) && Safe(Accept(y.server))
  {
    AcceptSafe(y.server);
  }

  lemma AcceptLinks(y: Sys)
    requires Inv(y)
    ensures Wired(Do(y, Connects)) && Safe(Accept(y.server)) && LinksBut(Do(y, Connects), -1)
  {
    var z := Do(y, Connects);
    AcceptWired(y);
    NewLink(|y.conns|, y.server.evictions);
    forall j | 0 <= j < |z.server.table.slots| && z.server.table.slots[j].inUse ensures LinkAt(z, j) {
      if j != FirstFree(y.server.table.slots) { assert LinkAt(y, j); }
    }
  }

  lemma AcceptSays(y: Sys)
    requires Inv(y)
    ensures Wired(Do(y, Connects)) && Said(Do(y, Connects))
  {
    var z := Do(y, Connects);
    AcceptWired(y);
    forall f | 0 <= f < |z.conns| ensures Told(z.server.epoch, z.server.down[f], z.conns[f].client) {
      if f < |y.conns| { assert Told(y.server.epoch, y.server.down[f], y.conns[f].client); }
    }
  }

  lemma AcceptMove(y: Sys)
    requires Inv(y)
    ensures Inv(Do(y, Connects))
  {
    var z := Do(y, Connects);
    AcceptLinks(y);
    AcceptSays(y);
    forall g, e: nat | ClaimsOn(z, g, e) ensures ClaimsOn(y, g, e) {}
  }

  // The server's moves on a message.

  /** All that is left to restore after a message has been taken. */
  ghost predicate Opened(y: Sys, i: int) {
    Safe(y.server) && Wired(y) && LinksBut(y, i) && ClaimsApart(y) && Said(y) && Occupied(y.server, i)
  }

  lemma PopOpens(y: Sys, i: int)
    requires Inv(y) && Occupied(y.server, i) && y.conns[FdOf(y, i)].up != []
    ensures Opened(Popped(y, FdOf(y, i)), i)
  {
    var f := FdOf(y, i);
    var z := Popped(y, f);
    assert Wired(z);
    forall j | 0 <= j < |z.server.table.slots| && z.server.table.slots[j].inUse && j != i ensures LinkAt(z, j) {
      assert LinkAt(y, j);
      assert y.server.table.slots[j].fd != f;
    }
    forall g | 0 <= g < |z.conns| ensures Told(z.server.epoch, z.server.down[g], z.conns[g].client) {
      assert Told(y.server.epoch, y.server.down[g], y.conns[g].client);
    }
    forall g, e: nat | ClaimsOn(z, g, e) ensures ClaimsOn(y, g, e) {}
  }

  lemma Closes(y: Sys, i: int)
    requires Opened(y, i) && LinkAt(y, i)
    ensures Inv(y)
  {}

  /** Slot i changes state and is sent at most a notice; the epoch stands. */
  lemma PlainMove(y: Sys, s1: Server, i: int, notice: seq<ToClient>)
    requires Opened(y, i) && Safe(s1)
    requires |notice| <= 1 && forall k :: 0 <= k < |notice| ==> !Decides(notice[k])
    requires |s1.table.slots| == |y.server.table.slots| && s1.table.slots == y.server.table.slots[i := s1.table.slots[i]]
    requires var f := FdOf(y, i); s1.down == y.server.down[f := y.server.down[f] + notice]
    requires s1.epoch == y.server.epoch && s1.evictions == y.server.evictions
    requires s1.table.slots[i].inUse ==>
               var f := FdOf(y, i);
               s1.table.slots[i].fd == f && LinkOk(s1.table.slots[i], s1.evictions, s1.down[f], y.conns[f])
    ensures Inv(y.(server := s1))
  {
    var f := FdOf(y, i);
    forall e: nat ensures Claims(s1.down[f], y.conns[f], e) ==> Claims(y.server.down[f], y.conns[f], e) {
      if notice != [] {
        assert notice == [notice[0]];
        ClaimsAppend(y.server.down[f], y.conns[f], notice[0], e);
      }
    }
    assert Told(y.server.epoch, y.server.down[f], y.conns[f].client);
    if notice != [] {
      assert notice == [notice[0]];
      ToldNotice(y.server.epoch, y.server.down[f], y.conns[f].client, notice[0]);
    } else {
      assert s1.down[f] == y.server.down[f];
    }
    SlotMoves(y, s1, i);
  }

  lemma ConnectMove(y: Sys, i: int, now: Timespec)
    requires Inv(y) && Occupied(y.server, i) && y.conns[FdOf(y, i)].up != []
    requires y.conns[FdOf(y, i)].up[0].Connect?
    ensures Legal(y.server, Received(i, y.conns[FdOf(y, i)].up[0], now))
    ensures Inv(Do(y, Delivers(i, now)))
  {
    var s, f := y.server, FdOf(y, i);
    var m := y.conns[f].up[0];
    assert LinkAt(y, i);
    TakeConnect(s.table.slots[i], s.evictions, s.down[f], y.conns[f], m.clientId);
    PopOpens(y, i);
    IntroducedMove(Popped(y, f), i, m.clientId, m.verdict, now);
  }

  lemma IntroducedMove(z: Sys, i: int, id: string, verdict: Verdict, now: Timespec)
    requires Opened(z, i) && z.server.table.slots[i].state == Connected
    requires var s, f := z.server, FdOf(z, i);
             LinkOk(s.table.slots[i].(clientId := CString(id), state := Negotiated), s.evictions, s.down[f] + [Mode(true)], z.conns[f])
    ensures Inv(z.(server := HandleConnect(z.server, i, id, verdict, now)))
  {
    ConnectResult(z.server, i, id, verdict, now);
    ConnectKeepsSafetyExactly(z.server, i, id, verdict, now);
    var reply := match verdict
      case VersionMismatched => VersionMismatch
      case NoCommonMode => Mode(false)
      case ModeChosen => Mode(true);
    PlainMove(z, HandleConnect(z.server, i, id, verdict, now), i, [reply]);
  }

  /** Messages that carry no token leave the link as it was. */
  lemma IdlePop(y: Sys, i: int)
    requires Inv(y) && Occupied(y.server, i) && y.conns[FdOf(y, i)].up != []
    requires var m := y.conns[FdOf(y, i)].up[0]; !m.ReadyForRt? && !m.Stopped? && !m.Connect?
    ensures y.server.table.slots[i].state != Connected
    ensures Inv(Popped(y, FdOf(y, i)))
  {
    var f := FdOf(y, i);
    assert LinkAt(y, i);
    TakeIdle(y.server.table.slots[i], y.server.evictions, y.server.down[f], y.conns[f]);
    PopOpens(y, i);
    Closes(Popped(y, f), i);
  }

  lemma RequestMove(y: Sys, i: int, now: Timespec)
    requires Inv(y) && Occupied(y.server, i)
    ensures Inv(y.(server := HandleActivateRequest(y.server, i, now)))
  {
    var s, f := y.server, FdOf(y, i);
    var slot := s.table.slots[i];
    if slot.state == Negotiated {
      if RtSlotTaken(s.table.slots) {
        var s1 := HandleActivateRequest(s, i, now);
        var notice := ActivateQueued(QueuePosition(Enqueue(s.table, i, now).slots, i));
        ActivateRequestSafe(s, i, now);
        assert LinkAt(y, i);
        QueueLink(slot, s.evictions, s.down[f], y.conns[f], s1.table.slots[i], notice);
        PlainMove(y, s1, i, [notice]);
      } else {
        GrantSlotMove(y, i, now);
      }
    }
  }

  lemma HeartbeatMove(y: Sys, i: int, now: Timespec)
    requires Inv(y) && Occupied(y.server, i)
    ensures Inv(y.(server := HandleHeartbeat(y.server, i, now)))
  {
    var s, f := y.server, FdOf(y, i);
    if s.table.slots[i].state == ActiveRt {
      HeartbeatSafe(s, i, now);
      assert LinkAt(y, i);
      assert s.down[f] + [] == s.down[f];
      PlainMove(y, HandleHeartbeat(s, i, now), i, []);
    }
  }

  lemma AckMove(y: Sys, i: int)
    requires Inv(y) && Occupied(y.server, i) && y.server.table.slots[i].state != Connected
    ensures Inv(y.(server := Send(y.server, i, DmabufAck)))
  {
    var s, f := y.server, FdOf(y, i);
    var s1 := Send(s, i, DmabufAck);
    SafeIgnoresDown(s, s1.down);
    assert LinkAt(y, i);
    NoticeLink(s.table.slots[i], s.evictions, s.down[f], y.conns[f], DmabufAck);
    PlainMove(y, s1, i, [DmabufAck]);
  }

  lemma ReadyMove(y: Sys, i: int, now: Timespec)
    requires Inv(y) && Occupied(y.server, i) && y.conns[FdOf(y, i)].up != []
    requires y.conns[FdOf(y, i)].up[0].ReadyForRt?
    ensures Inv(Do(y, Delivers(i, now)))
  {
    var s, f := y.server, FdOf(y, i);
    assert LinkAt(y, i);
    TakeReady(s.table.slots[i], s.evictions, s.down[f], y.conns[f]);
    PopOpens(y, i);
    ReadySafe(s, i, now);
    var s1 := HandleReadyForRt(s, i, now);
    assert HoldsRt(s.table.slots[i]);
    assert s.down[f] + [] == s.down[f];
    PlainMove(Popped(y, f), s1, i, []);
  }

  lemma StoppedMove(y: Sys, i: int, now: Timespec)
    requires Inv(y) && Occupied(y.server, i) && y.conns[FdOf(y, i)].up != []
    requires y.conns[FdOf(y, i)].up[0].Stopped?
    ensures Inv(Do(y, Delivers(i, now)))
  {
    var s, f := y.server, FdOf(y, i);
    assert LinkAt(y, i);
    TakeStopped(s.table.slots[i], s.evictions, s.down[f], y.conns[f]);
    PopOpens(y, i);
    var z := Popped(y, f);
    if s.table.slots[i].state == EvictingCooperative {
      ReclaimMove(z, i);
    } else {
      Closes(z, i);
    }
  }

  lemma ReclaimMove(z: Sys, i: int)
    requires Opened(z, i) && Safe(z.server) && z.server.table.slots[i].state == EvictingCooperative
    requires var s1 := Reclaimed(z.server, i); var f := FdOf(z, i);
             LinkOk(s1.table.slots[i], s1.evictions, s1.down[f], z.conns[f])
    ensures Inv(z.(server := FinishPendingGrant(Reclaimed(z.server, i))))
  {
    var f := FdOf(z, i);
    ReclaimSafe(z.server, i);
    assert z.server.down[f] + [] == z.server.down[f];
    PlainMove(z, Reclaimed(z.server, i), i, []);
    FinishMove(z.(server := Reclaimed(z.server, i)));
  }

  ghost function Reclaimed(s: Server, i: int): Server
    requires InRange(s.table, i)
  {
    s.(table := ReclaimEviction(s.table, i), evicting := -1)
  }

  lemma DeliverMove(y: Sys, i: int, now: Timespec)
    requires Inv(y) && Can(y, Delivers(i, now))
    ensures Legal(y.server, Received(i, y.conns[FdOf(y, i)].up[0], now))
    ensures Inv(Do(y, Delivers(i, now)))
  {
    var f := FdOf(y, i);
    var m := y.conns[f].up[0];
    assert LinkAt(y, i);
    match m
    case Connect(_, _) => ConnectMove(y, i, now);
    case ReadyForRt(_) => ReadyMove(y, i, now);
    case Stopped(_) => StoppedMove(y, i, now);
    case ActivateRequest => IdlePop(y, i); RequestMove(Popped(y, f), i, now);
    case Heartbeat => IdlePop(y, i); HeartbeatMove(Popped(y, f), i, now);
    case DmabufAnnounce => IdlePop(y, i); AckMove(Popped(y, f), i);
    case Other => IdlePop(y, i);
    case GrantDecline => assert false;
    case Disconnect => PopOpens(y, i); DropMove(Popped(y, f), i, now);
  }

  // The clients' moves.

  /** Only connection f has changed, and only at the client's end. */
  lemma ClientMoves(y: Sys, z: Sys, f: int)
    requires Inv(y) && OnConn(y, f)
    requires z.server == y.server.(down := z.server.down) && |z.server.down| == |y.server.down| && |z.conns| == |y.conns|
    requires forall g :: 0 <= g < |y.conns| && g != f ==> z.conns[g] == y.conns[g] && z.server.down[g] == y.server.down[g]
    requires forall i :: 0 <= i < |y.server.table.slots| && y.server.table.slots[i].inUse && y.server.table.slots[i].fd == f ==>
               LinkOk(y.server.table.slots[i], y.server.evictions, z.server.down[f], z.conns[f])
    requires forall e: nat :: Claims(z.server.down[f], z.conns[f], e) ==> Claims(y.server.down[f], y.conns[f], e)
    requires z.conns[f].client.active ==> z.conns[f].client.granted > 0
    requires Told(y.server.epoch, z.server.down[f], z.conns[f].client)
    ensures Inv(z)
  {
    forall g | 0 <= g < |z.conns| ensures Told(z.server.epoch, z.server.down[g], z.conns[g].client) {
      if g != f { assert Told(y.server.epoch, y.server.down[g], y.conns[g].client); }
    }
    SafeIgnoresDown(y.server, z.server.down);
    assert Wired(z);
    forall i | 0 <= i < |y.server.table.slots| && y.server.table.slots[i].inUse ensures LinkAt(z, i) {
      assert LinkAt(y, i);
    }
    forall g, e: nat | ClaimsOn(z, g, e) ensures ClaimsOn(y, g, e) {}
  }

  lemma ClaimsAfterRead(down: seq<ToClient>, conn: Conn, e: nat)
    requires down != [] && (forall k :: 0 <= k < |down| && down[k].ActivateGrant? ==> down[k].epoch > 0)
    ensures var r := Receive(conn.client, down[0]);
            Claims(down[1..], Conn(conn.up + r.replies, r.client), e) ==> Claims(down, conn, e)
  {
    if k :| 0 <= k < |down[1..]| && down[1..][k] == ActivateGrant(e) { assert down[k + 1] == ActivateGrant(e); }
  }

  lemma ReadMove(y: Sys, f: int)
    requires Inv(y) && Can(y, ClientReads(f))
    ensures Inv(Do(y, ClientReads(f)))
  {
    var z := Do(y, ClientReads(f));
    var down := y.server.down[f];
    forall i | 0 <= i < |y.server.table.slots| && y.server.table.slots[i].inUse && y.server.table.slots[i].fd == f
      ensures LinkOk(y.server.table.slots[i], y.server.evictions, z.server.down[f], z.conns[f])
    {
      assert LinkAt(y, i);
      ReceiveLink(y.server.table.slots[i], y.server.evictions, down, y.conns[f]);
    }
    forall k | 0 <= k < |down| && down[k].ActivateGrant? ensures down[k].epoch > 0 {
      assert ClaimsOn(y, f, down[k].epoch);
    }
    forall e: nat ensures Claims(z.server.down[f], z.conns[f], e) ==> Claims(down, y.conns[f], e) {
      ClaimsAfterRead(down, y.conns[f], e);
    }
    ToldRead(y.server.epoch, down, y.conns[f].client);
    ClientMoves(y, z, f);
  }

  lemma SendMove(y: Sys, f: int, m: ToServer, c: Client)
    requires Inv(y) && OnConn(y, f) && y.conns[f].client.phase == Running
    requires !m.ReadyForRt? && !m.Stopped? && !m.Connect? && m != GrantDecline
    requires c == y.conns[f].client || c == y.conns[f].client.(phase := Gone, active := false)
    ensures Inv(Sends(y, f, m, c))
  {
    forall i | 0 <= i < |y.server.table.slots| && y.server.table.slots[i].inUse && y.server.table.slots[i].fd == f
      ensures LinkOk(y.server.table.slots[i], y.server.evictions, y.server.down[f], Conn(y.conns[f].up + [m], c))
    {
      assert LinkAt(y, i);
      SendLink(y.server.table.slots[i], y.server.evictions, y.server.down[f], y.conns[f], m, c);
    }
    assert Told(y.server.epoch, y.server.down[f], y.conns[f].client);
    ClientMoves(y, Sends(y, f, m, c), f);
  }

  lemma IntroduceMove(y: Sys, f: int, id: string, verdict: Verdict)
    requires Inv(y) && Can(y, ClientIntroduces(f, id, verdict))
    ensures Inv(Do(y, ClientIntroduces(f, id, verdict)))
  {
    var z := Do(y, ClientIntroduces(f, id, verdict));
    forall i | 0 <= i < |y.server.table.slots| && y.server.table.slots[i].inUse && y.server.table.slots[i].fd == f
      ensures LinkOk(y.server.table.slots[i], y.server.evictions, y.server.down[f], z.conns[f])
    {
      assert LinkAt(y, i);
      ConnectLink(y.server.table.slots[i], y.server.evictions, y.server.down[f], y.conns[f], Connect(id, verdict));
    }
    assert Told(y.server.epoch, y.server.down[f], y.conns[f].client);
    ClientMoves(y, z, f);
  }

  lemma PublishMove(y: Sys, f: int)
    requires Inv(y) && OnConn(y, f)
    ensures Inv(Do(y, ClientPublishes(f)))
  {
    var z := Do(y, ClientPublishes(f));
    forall i | 0 <= i < |y.server.table.slots| && y.server.table.slots[i].inUse && y.server.table.slots[i].fd == f
      ensures LinkOk(y.server.table.slots[i], y.server.evictions, y.server.down[f], z.conns[f])
    {
      assert LinkAt(y, i);
      if Fielded(y.server.table.slots[i].state) { assert HoldsRt(y.server.table.slots[i]); }
      PublishLink(y.server.table.slots[i], y.server.evictions, y.server.down[f], y.conns[f], y.server.epoch);
    }
    assert Told(y.server.epoch, y.server.down[f], y.conns[f].client);
    if y.conns[f].client.active { assert ClaimsOn(y, f, y.conns[f].client.granted); }
    ClientMoves(y, z, f);
  }

  lemma CrashMove(y: Sys, f: int)
    requires Inv(y) && OnConn(y, f)
    ensures Inv(Do(y, ClientCrashes(f)))
  {
    var z := Do(y, ClientCrashes(f));
    forall i | 0 <= i < |y.server.table.slots| && y.server.table.slots[i].inUse && y.server.table.slots[i].fd == f
      ensures LinkOk(y.server.table.slots[i], y.server.evictions, y.server.down[f], z.conns[f])
    {
      assert LinkAt(y, i);
      CrashLink(y.server.table.slots[i], y.server.evictions, y.server.down[f], y.conns[f]);
    }
    assert Told(y.server.epoch, y.server.down[f], y.conns[f].client);
    ClientMoves(y, z, f);
  }

  lemma ClientStep(y: Sys, t: Step)
    requires Inv(y) && Can(y, t)
    requires !t.Connects? && !t.Delivers? && !t.Breaks? && !t.Switches? && !t.HeartbeatTicks? && !t.GraceTicks?
    ensures Inv(Do(y, t))
  {
    match t
    case ClientIntroduces(f, id, verdict) => IntroduceMove(y, f, id, verdict);
    case ClientReads(f) => ReadMove(y, f);
    case ClientReadFails(f) =>
      assert Told(y.server.epoch, y.server.down[f], y.conns[f].client);
      ClientMoves(y, Do(y, t), f);
    case ClientRequests(f) => SendMove(y, f, ActivateRequest, y.conns[f].client);
    case ClientBeats(f) => SendMove(y, f, ToServer.Heartbeat, y.conns[f].client);
    case ClientAnnounces(f) => SendMove(y, f, DmabufAnnounce, y.conns[f].client);
    case ClientPublishes(f) => PublishMove(y, f);
    case ClientLeaves(f) => SendMove(y, f, Disconnect, y.conns[f].client.(phase := Gone, active := false));
    case ClientCrashes(f) => CrashMove(y, f);
  }

  lemma SwitchMove(y: Sys, id: string, now: Timespec)
    requires Inv(y)
    ensures Inv(Serve(y, Event.Switch(id, now)))
  {
    SwitchOutcomes(y.server, id, now);
    if HandleSwitch(y.server, id, now) != y.server {
      var idx :| InRange(y.server.table, idx) && Grantable(y.server.table.slots[idx])
                 && HandleSwitch(y.server, id, now) == GrantSlot(y.server, idx, now);
      GrantSlotMove(y, idx, now);
    }
  }

  lemma BreakMove(y: Sys, i: int, now: Timespec)
    requires Inv(y) && Occupied(y.server, i)
    ensures Inv(Serve(y, Hangup(i, now)))
  {
    DropMove(y, i, now);
  }

  /** Every step of either end keeps the system invariant. */
  lemma StepKeepsInv(y: Sys, t: Step)
    requires Inv(y) && Can(y, t)
    ensures Inv(Do(y, t))
  {
    match t
    case Connects => AcceptMove(y);
    case Delivers(idx, now) => DeliverMove(y, idx, now);
    case Breaks(idx, now) => BreakMove(y, idx, now);
    case Switches(id, now) => SwitchMove(y, id, now);
    case HeartbeatTicks(now) => TimeOutMove(y, now);
    case GraceTicks(now) => GraceMove(y, now);
    case _ => ClientStep(y, t);
  }

  ghost predicate Reachable(y: Sys, steps: seq<Step>, z: Sys)
    decreases |steps|
  {
    if steps == [] then y == z
    else InBounds(y.server) && Can(y, steps[0]) && Reachable(Do(y, steps[0]), steps[1..], z)
  }

  lemma {:induction false} InvFrom(y: Sys, steps: seq<Step>, z: Sys)
    requires Inv(y) && Reachable(y, steps, z)
    ensures Inv(z)
    decreases |steps|
  {
    if steps != [] {
      StepKeepsInv(y, steps[0]);
      InvFrom(Do(y, steps[0]), steps[1..], z);
    }
  }

  lemma InvOfRuns(n: nat, steps: seq<Step>, z: Sys)
    requires Reachable(Start(n), steps, z)
    ensures Inv(z)
  {
    InitSafe(n);
    InvFrom(Start(n), steps, z);
  }
}
