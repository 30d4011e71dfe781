/** The control plane as it is written: one object whose handlers update the table, the
    ring and their own fields in place. Every method is proved to take the state to what
    ControlSpec says. */
module ControlPlane {
  import opened Timespecs
  import opened Messages
  import opened Sessions
  import opened Ring
  import C = ControlSpec
  import RtSafety

  class Plane {
    const table: SessionTable
    const ring: ShmRing
    var evictingSlot: int
    var pendingGrantTarget: int
    var evictionDeadline: Timespec
    var evictions: nat
    var down: seq<seq<ToClient>>

    function View(): C.Server
      reads this, table, table.slots, ring
    {
      C.Server(table.View(), evictingSlot, pendingGrantTarget, evictionDeadline, ring.epoch, evictions, down)
    }

    ghost predicate Valid()
      reads this, table, table.slots, ring
    {
      C.InBounds(View())
    }

    constructor (n: nat, ring: ShmRing)
      requires ring.epoch == 0
      ensures fresh(table) && fresh(table.slots) && this.ring == ring
      ensures View() == C.Init(n) && Valid()
    {
      table := new SessionTable(n);
      this.ring := ring;
      evictingSlot, pendingGrantTarget, evictionDeadline := -1, -1, ZERO;
      evictions, down := 0, [];
    }

    method SendTo(idx: int, m: ToClient)
      requires 0 <= idx < table.slots.Length
      modifies this`down
      ensures View() == C.Send(old(View()), idx, m)
    {
      var fd := table.slots[idx].fd;
      if 0 <= fd < |down| { down := down[fd := down[fd] + [m]]; }
    }

    method DoGrant(idx: int)
      requires 0 <= idx < table.slots.Length
      modifies this, table.slots, ring
      ensures View() == C.DoGrant(old(View()), idx)
    {
      ring.EvictClient();
      var epoch := ring.epoch;
      table.GrantAt(idx, epoch);
      SendTo(idx, ActivateGrant(epoch));
    }

    method EvictInFavourOf(prev: int, target: int, now: Timespec)
      requires 0 <= prev < table.slots.Length
      modifies this, table, table.slots
      ensures View() == C.EvictInFavourOf(old(View()), prev, target, now)
    {
      table.BeginEvictionAt(prev);
      evictions := evictions + 1;
      SendTo(prev, EvictPending(evictions));
      evictingSlot := prev;
      pendingGrantTarget := target;
      evictionDeadline := AddMillis(now, EVICT_GRACE_MS);
    }

    method FinishPendingGrant()
      requires pendingGrantTarget < table.slots.Length
      modifies this, table.slots, ring
      ensures View() == C.FinishPendingGrant(old(View()))
    {
      var target := pendingGrantTarget;
      pendingGrantTarget := -1;
      if target < 0 { return; }
      var slot := table.slots[target];
      if !slot.inUse || (slot.state != Negotiated && slot.state != Queued) { return; }
      DoGrant(target);
    }

    method GrantSlot(idx: int, now: Timespec)
      requires Valid() && 0 <= idx < table.slots.Length
      modifies this, table, table.slots, ring
      ensures View() == C.GrantSlot(old(View()), idx, now)
    {
      var prevActive := table.activeSlot;
      if prevActive >= 0 && prevActive != idx {
        EvictInFavourOf(prevActive, idx, now);
        return;
      }
      var taken := table.Taken();
      if taken {
        pendingGrantTarget := idx;
        return;
      }
      DoGrant(idx);
    }

    method MaybeGrantNextQueued(now: Timespec)
      requires Valid()
      modifies this, table, table.slots, ring
      ensures View() == C.MaybeGrantNextQueued(old(View()), now)
    {
      var taken := table.Taken();
      if taken { return; }
      var next := table.NextInLine();
      if next >= 0 { GrantSlot(next, now); }
    }

    /** The first half of a disconnect: settle the books and free the slot. */
    method DropSlot(idx: int)
      requires 0 <= idx < table.slots.Length
      modifies this, table, table.slots, ring
      ensures View() == C.Drop(old(View()), idx)
    {
      var state := table.slots[idx].state;
      if state == ActiveRt {
        ring.EvictClient();
      } else if state == EvictingCooperative || state == EvictingForced {
        table.ReclaimAt(idx);
        if evictingSlot == idx { evictingSlot := -1; }
      }
      if idx == pendingGrantTarget { pendingGrantTarget := -1; }
      table.RemoveAt(idx);
    }

    method HandleDisconnect(idx: int, now: Timespec)
      requires Valid() && 0 <= idx < table.slots.Length
      modifies this, table, table.slots, ring
      ensures View() == C.HandleDisconnect(old(View()), idx, now)
    {
      var heldRtSlot := RtState(table.slots[idx].state);
      DropSlot(idx);
      if heldRtSlot {
        FinishPendingGrant();
        MaybeGrantNextQueued(now);
      }
    }

    method HandleConnect(idx: int, id: string, verdict: Verdict, now: Timespec)
      requires Valid() && 0 <= idx < table.slots.Length
      modifies this, table, table.slots, ring
      ensures View() == C.HandleConnect(old(View()), idx, id, verdict, now)
    {
      if verdict == VersionMismatched {
        SendTo(idx, VersionMismatch);
        table.slots[idx] := table.slots[idx].(state := Rejected);
        HandleDisconnect(idx, now);
        return;
      }
      SendTo(idx, Mode(verdict == ModeChosen));
      if verdict == NoCommonMode {
        table.slots[idx] := table.slots[idx].(state := Rejected);
        HandleDisconnect(idx, now);
        return;
      }
      table.slots[idx] := table.slots[idx].(clientId := CString(id), state := Negotiated);
    }

    method HandleActivateRequest(idx: int, now: Timespec)
      requires Valid() && 0 <= idx < table.slots.Length
      modifies this, table, table.slots, ring
      ensures View() == C.HandleActivateRequest(old(View()), idx, now)
    {
      if table.slots[idx].state != Negotiated { return; }
      var taken := table.Taken();
      if !taken {
        GrantSlot(idx, now);
        return;
      }
      table.slots[idx] := table.slots[idx].(state := Queued, activateRequested := now);
      var position := table.PositionOf(idx);
      SendTo(idx, ActivateQueued(position));
    }

    method HandleReadyForRt(idx: int, now: Timespec)
      requires Valid() && 0 <= idx < table.slots.Length
      modifies table, table.slots
      ensures View() == C.HandleReadyForRt(old(View()), idx, now)
    {
      if table.slots[idx].state != GrantedWarmup { return; }
      table.ActivateAt(idx, now);
    }

    method HandleGrantDecline(idx: int, now: Timespec)
      requires Valid() && 0 <= idx < table.slots.Length
      modifies this, table, table.slots, ring
      ensures View() == C.HandleGrantDecline(old(View()), idx, now)
    {
      if table.slots[idx].state != GrantedWarmup { return; }
      table.slots[idx] := table.slots[idx].(state := Negotiated);
      MaybeGrantNextQueued(now);
    }

    method HandleStopped(idx: int)
      requires Valid() && 0 <= idx < table.slots.Length
      modifies this, table, table.slots, ring
      ensures View() == C.HandleStopped(old(View()), idx)
    {
      if table.slots[idx].state != EvictingCooperative { return; }
      table.ReclaimAt(idx);
      if evictingSlot == idx { evictingSlot := -1; }
      FinishPendingGrant();
    }

    method HandleHeartbeat(idx: int, now: Timespec)
      requires 0 <= idx < table.slots.Length
      modifies table.slots
      ensures View() == C.HandleHeartbeat(old(View()), idx, now)
    {
      if table.slots[idx].state != ActiveRt { return; }
      table.slots[idx] := table.slots[idx].(lastHeartbeat := now);
    }

    method HandleReadable(idx: int, m: ToServer, now: Timespec)
      requires Valid() && 0 <= idx < table.slots.Length
      modifies this, table, table.slots, ring
      ensures View() == C.HandleMessage(old(View()), idx, m, now)
    {
      match m
      case Connect(id, verdict) => HandleConnect(idx, id, verdict, now);
      case ActivateRequest => HandleActivateRequest(idx, now);
      case ReadyForRt(_) => HandleReadyForRt(idx, now);
      case GrantDecline => HandleGrantDecline(idx, now);
      case Stopped(_) => HandleStopped(idx);
      case Heartbeat => HandleHeartbeat(idx, now);
      case Disconnect => HandleDisconnect(idx, now);
      case DmabufAnnounce => SendTo(idx, DmabufAck);
      case Other =>
    }

    method HandleSwitchQuery(id: string, now: Timespec) returns (ok: bool)
      requires Valid()
      modifies this, table, table.slots, ring
      ensures View() == C.HandleSwitch(old(View()), id, now)
      ensures ok <==> C.SwitchOk(old(View()), id)
      ensures var c := FindByClientId(old(View()).table.slots, id);
              ok <==> c >= 0 && old(View()).table.slots[c].state in {ActiveRt, Negotiated, Queued}
    {
      var idx := table.LookupClientId(id);
      if idx < 0 { return false; }
      if table.slots[idx].state == ActiveRt { return true; }
      if table.slots[idx].state != Negotiated && table.slots[idx].state != Queued { return false; }
      GrantSlot(idx, now);
      return true;
    }

    method HeartbeatBranch(now: Timespec)
      requires Valid()
      modifies this, table, table.slots, ring
      ensures View() == C.CheckHeartbeats(old(View()), now)
    {
      ghost var s := View();
      var timedOut := table.CheckHeartbeats(now);
      if timedOut >= 0 {
        ring.EvictClient();
        SendTo(timedOut, LivenessTimeout);
        SendTo(timedOut, Messages.Deactivate);
        assert View() == C.TimeOut(s, timedOut);
        MaybeGrantNextQueued(now);
      }
    }

    method GraceBranch(now: Timespec)
      requires Valid()
      modifies this, table, table.slots, ring
      ensures View() == C.CheckGrace(old(View()), now)
    {
      if evictingSlot >= 0 && GraceElapsed(now, evictionDeadline) {
        var idx := evictingSlot;
        evictingSlot := -1;
        table.MarkForcedAt(idx);
        table.ReclaimAt(idx);
        FinishPendingGrant();
        MaybeGrantNextQueued(now);
      }
    }

    method AcceptClient()
      requires Valid()
      modifies this, table.slots
      ensures View() == C.Accept(old(View()))
    {
      var fd := |down|;
      down := down + [[]];
      var _ := table.Add(fd);
    }

    /** One wake-up's worth of work, one event at a time. */
    method Handle(e: C.Event)
      requires Valid() && C.Enabled(View(), e)
      modifies this, table, table.slots, ring
      ensures View() == C.Next(old(View()), e)
    {
      match e
      case Accepted => AcceptClient();
      case Received(idx, m, now) => HandleReadable(idx, m, now);
      case Hangup(idx, now) => HandleDisconnect(idx, now);
      case Switch(id, now) => var _ := HandleSwitchQuery(id, now);
      case HeartbeatTick(now) => HeartbeatBranch(now);
      case GraceTick(now) => GraceBranch(now);
    }

    /** The poll loop over any legal sequence of events, in place: the object ends where the
        run's specification does, and safe. */
    method Run(events: seq<C.Event>)
      requires RtSafety.Safe(View()) && RtSafety.LegalRun(View(), events)
      modifies this, table, table.slots, ring
      ensures View() == RtSafety.Exec(old(View()), events)
      ensures RtSafety.Safe(View())
    {
      var i := 0;
      assert events[0..] == events;
      while i < |events|
        invariant 0 <= i <= |events|
        invariant RtSafety.Safe(View())
        invariant RtSafety.LegalRun(View(), events[i..])
        invariant RtSafety.Exec(View(), events[i..]) == RtSafety.Exec(old(View()), events)
      {
        assert events[i..][0] == events[i] && events[i..][1..] == events[i + 1..];
        RtSafety.NextSafe(View(), events[i]);
        Handle(events[i]);
        i := i + 1;
      }
    }
  }
}
