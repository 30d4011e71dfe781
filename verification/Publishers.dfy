/** Who can publish, at any moment of any run: the generation check in wispc_publish() seen from
    the server's side. */
module Publishers {
  import opened Timespecs
  import opened Messages
  import opened Sessions
  import opened ControlSpec
  import opened RtSafety
  import opened ClientSdk
  import opened Links
  import opened Handshake
  import F = Fairness

  /** An EVICT_PENDING is on its way to the client. */
  predicate EvictUnread(down: seq<ToClient>) {
    exists k :: 0 <= k < |down| && down[k].EvictPending?
  }

  lemma EvictUnreadAppend(a: seq<ToClient>, b: seq<ToClient>)
    ensures EvictUnread(a + b) <==> EvictUnread(a) || EvictUnread(b)
  {
    if k :| 0 <= k < |a| && a[k].EvictPending? { assert (a + b)[k].EvictPending?; }
    if k :| 0 <= k < |b| && b[k].EvictPending? { assert (a + b)[|a| + k].EvictPending?; }
  }

  lemma {:induction false} EvictUnreadIsDecision(down: seq<ToClient>)
    ensures EvictUnread(down) <==> EvictUnread(Decisions(down))
    decreases |down|
  {
    if down != [] {
      var own := if Decides(down[0]) then [down[0]] else [];
      EvictUnreadIsDecision(down[1..]);
      EvictUnreadAppend(own, Decisions(down[1..]));
      EvictUnreadAppend([down[0]], down[1..]);
      assert down == [down[0]] + down[1..];
      assert EvictUnread([down[0]]) <==> EvictUnread(own) by {
        assert down[0].EvictPending? ==> own == [down[0]];
        if down[0].EvictPending? { assert own[0].EvictPending? && [down[0]][0].EvictPending?; }
      }
    }
  }

  lemma {:induction false} DecisionsDecide(down: seq<ToClient>)
    ensures forall k :: 0 <= k < |Decisions(down)| ==> Decides(Decisions(down)[k])
    decreases |down|
  {
    if down != [] { DecisionsDecide(down[1..]); }
  }

  lemma {:induction false} UndecidedSettles(active: bool, down: seq<ToClient>)
    requires Decisions(down) == []
    ensures Settled(active, down) == active
  {
    NothingDecided(down);
    CleanFacts(down, active);
  }

  /** A fielded client may publish exactly when its GRANT has been read. */
  lemma FieldedPublisher(slot: Session, evictions: nat, down: seq<ToClient>, conn: Conn, epoch: nat)
    requires LinkOk(slot, evictions, down, conn) && Told(epoch, down, conn.client) && conn.client.phase != Gone
    requires Fielded(slot.state) && slot.grantedEpoch == epoch
    ensures conn.client.active && conn.client.granted == epoch <==> Clean(down)
  {
    var c := conn.client;
    NothingDecided(down);
    if Clean(down) {
      if GrantLast(down, epoch) { GrantLastFacts(down, epoch, true); CleanFacts(down, true); }
    } else {
      GrantLastIsDecision(down, epoch);
    }
  }

  lemma {:induction false} GrantLastIsDecision(down: seq<ToClient>, g: nat)
    requires GrantLast(down, g)
    ensures exists k :: 0 <= k < |Decisions(down)| && Decisions(down)[k] == ActivateGrant(g)
    decreases |down|
  {
    var own := if Decides(down[0]) then [down[0]] else [];
    assert Decisions(down) == own + Decisions(down[1..]);
    if down[0] == ActivateGrant(g) {
      assert Decisions(down)[0] == ActivateGrant(g);
    } else {
      GrantLastIsDecision(down[1..], g);
      var k :| 0 <= k < |Decisions(down[1..])| && Decisions(down[1..])[k] == ActivateGrant(g);
      assert Decisions(down)[|own| + k] == ActivateGrant(g);
    }
  }

  /** Any other client may exactly when it was the last to be granted, the ring has not been
      evicted since, and it has not yet read its EVICT_PENDING. */
  lemma SidelinedPublisher(slot: Session, evictions: nat, down: seq<ToClient>, conn: Conn, epoch: nat)
    requires LinkOk(slot, evictions, down, conn) && Told(epoch, down, conn.client) && conn.client.phase != Gone
    requires !Fielded(slot.state)
    requires conn.client.active ==> conn.client.granted > 0
    ensures conn.client.active && conn.client.granted == epoch <==> slot.grantedEpoch == epoch && EvictUnread(down)
  {
    var c, ds := conn.client, Decisions(down);
    EvictUnreadIsDecision(down);
    GrantsAreTokens(down, conn);
    if ds == [] { UndecidedSettles(c.active, down); }
    if c.active && c.granted == epoch {
      DecisionsDecide(down);
      assert ds != [] && Decides(ds[0]);
      assert ds[0].EvictPending?;
      assert EvictUnread(ds);
    }
  }

  /** The generation word has not wrapped: the check compares epochs. */
  lemma CheckComparesEpochs(y: Sys, f: int)
    requires Inv(y) && OnConn(y, f) && y.server.epoch < 0x1_0000_0000
    ensures var c := y.conns[f].client;
            MayPublish(c, y.server.epoch) <==> c.active && c.granted == y.server.epoch
  {
    if y.conns[f].client.active { assert ClaimsOn(y, f, y.conns[f].client.granted); }
  }

  lemma PublisherAt(y: Sys, i: int)
    requires Inv(y) && Occupied(y.server, i) && y.server.epoch < 0x1_0000_0000
    requires OnConn(y, FdOf(y, i)) && y.conns[FdOf(y, i)].client.phase != Gone
    ensures var slot, f := y.server.table.slots[i], FdOf(y, i);
            MayPublish(y.conns[f].client, y.server.epoch) <==>
            slot.grantedEpoch == y.server.epoch &&
            if Fielded(slot.state) then Clean(y.server.down[f]) else EvictUnread(y.server.down[f])
  {
    var slot, f := y.server.table.slots[i], FdOf(y, i);
    assert LinkAt(y, i);
    assert Told(y.server.epoch, y.server.down[f], y.conns[f].client);
    CheckComparesEpochs(y, f);
    if Fielded(slot.state) {
      assert HoldsRt(slot);
      FieldedPublisher(slot, y.server.evictions, y.server.down[f], y.conns[f], y.server.epoch);
    } else {
      SidelinedPublisher(slot, y.server.evictions, y.server.down[f], y.conns[f], y.server.epoch);
    }
  }

  /** Whether a connected client passes the check, in every run and whatever its state: it was
      the last to be granted, the generation has not moved since, and, in warm-up or active,
      its GRANT has been read or, otherwise, its EVICT_PENDING has not. */
  lemma PublisherExactly(n: nat, steps: seq<Step>, y: Sys, i: int)
    requires Reachable(Start(n), steps, y) && Occupied(y.server, i) && y.server.epoch < 0x1_0000_0000
    requires OnConn(y, FdOf(y, i)) && y.conns[FdOf(y, i)].client.phase != Gone
    ensures var slot, f := y.server.table.slots[i], FdOf(y, i);
            MayPublish(y.conns[f].client, y.server.epoch) <==>
            slot.grantedEpoch == y.server.epoch &&
            if Fielded(slot.state) then Clean(y.server.down[f]) else EvictUnread(y.server.down[f])
  {
    InvOfRuns(n, steps, y);
    PublisherAt(y, i);
  }

  /** A grace period that runs out with no target and an empty queue does not touch the ring:
      the client forced out is NEGOTIATED and nobody holds the RT slot, yet it passes the
      check exactly until it reads its EVICT_PENDING. */
  lemma ForcedOutMayPublish(n: nat, steps: seq<Step>, y: Sys, i: int, now: Timespec)
    requires Reachable(Start(n), steps, y) && y.server.epoch < 0x1_0000_0000
    requires Occupied(y.server, i) && y.server.evicting == i && y.server.pending == -1
    requires !SomeoneWaits(y.server.table.slots) && GraceElapsed(now, y.server.deadline)
    requires OnConn(y, FdOf(y, i)) && y.conns[FdOf(y, i)].client.phase != Gone
    ensures InBounds(y.server)
    ensures var z := Do(y, GraceTicks(now));
            && Occupied(z.server, i) && z.server.table.slots[i].state == Negotiated
            && !RtSlotTaken(z.server.table.slots)
            && OnConn(z, FdOf(z, i)) && z.server.down == y.server.down && z.conns == y.conns
            && (MayPublish(z.conns[FdOf(z, i)].client, z.server.epoch) <==> EvictUnread(z.server.down[FdOf(z, i)]))
  {
    InvOfRuns(n, steps, y);
    var s := y.server;
    assert HoldsRt(s.table.slots[i]);
    ForceOutSafe(s);
    assert FindNextQueued(s.table) == -1;
    var mid := FinishPendingGrant(ForceOut(s));
    assert !SomeoneWaits(mid.table.slots);
    assert FindNextQueued(mid.table) == -1;
    StepKeepsInv(y, GraceTicks(now));
    PublisherAt(Do(y, GraceTicks(now)), i);
  }

  lemma TimeOutMovesEpoch(s: Server, i: int, now: Timespec)
    requires Safe(s) && s.table.activeSlot == i >= 0 && HeartbeatExpired(now, s.table.slots[i].lastHeartbeat)
    ensures s.epoch < ControlSpec.CheckHeartbeats(s, now).epoch <= s.epoch + 2
  {
    TimeOutSafe(s, i);
    F.OfferEffect(TimeOut(s, i), now);
  }

  /** What an evicted producer does next: a live client timed out still believes itself active, so
      it may claim a buffer, and the publish that would give it back is refused. */
  lemma TimedOutStillActive(n: nat, steps: seq<Step>, y: Sys, i: int, now: Timespec)
    requires Reachable(Start(n), steps, y) && Occupied(y.server, i) && y.server.table.activeSlot == i
    requires HeartbeatExpired(now, y.server.table.slots[i].lastHeartbeat)
    requires OnConn(y, FdOf(y, i)) && y.conns[FdOf(y, i)].client.phase != Gone
    requires y.server.epoch + 2 < 0x1_0000_0000
    ensures InBounds(y.server)
    ensures var c := y.conns[FdOf(y, i)].client;
            c.active && !MayPublish(c, ControlSpec.CheckHeartbeats(y.server, now).epoch)
  {
    InvOfRuns(n, steps, y);
    ActiveClientBelieves(y, i);
    TimeOutMovesEpoch(y.server, i, now);
    WordsDiffer(y.server.epoch, ControlSpec.CheckHeartbeats(y.server, now).epoch);
  }

  lemma ActiveClientBelieves(y: Sys, i: int)
    requires Inv(y) && Occupied(y.server, i) && y.server.table.slots[i].state == ActiveRt
    requires OnConn(y, FdOf(y, i)) && y.conns[FdOf(y, i)].client.phase != Gone
    ensures y.conns[FdOf(y, i)].client.active && y.conns[FdOf(y, i)].client.granted == y.server.epoch
  {
    assert LinkAt(y, i) && HoldsRt(y.server.table.slots[i]);
  }

  lemma WordsDiffer(a: nat, b: nat)
    requires a < b < 0x1_0000_0000
    ensures Word(a) != Word(b)
  {}
}
