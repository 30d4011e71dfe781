/** When the active client is taken for dead, and what becomes of it. */
module Liveness {
  import opened Timespecs
  import opened Messages
  import opened Sessions
  import opened ControlSpec
  import opened RtSafety
  import opened Fairness
  import H = Handshake

  /** A sign of life at `beat` covers every check in the following heartbeat timeout:
      READY_FOR_RT from the client in warm-up, or HEARTBEAT from the active one. */
  lemma SignOfLifeCovers(s: Server, idx: int, ready: bool, beat: Timespec, later: Timespec)
    requires Safe(s) && Occupied(s, idx)
    requires s.table.slots[idx].state == if ready then GrantedWarmup else ActiveRt
    requires Normalised(beat) && Normalised(later)
    requires Nanos(later) - Nanos(beat) <= HEARTBEAT_TIMEOUT_MS * NS_PER_MS
    ensures var s1 := if ready then HandleReadyForRt(s, idx, beat) else HandleHeartbeat(s, idx, beat);
            InBounds(s1) && s1.table.activeSlot == idx && ControlSpec.CheckHeartbeats(s1, later) == s1
  {
    assert HoldsRt(s.table.slots[idx]);
    HeartbeatWindow(later, beat);
  }

  /** A client silent for a millisecond more than that is out at the next check: back to
      NEGOTIATED, its epoch stale, and replaced by whoever heads the queue. */
  lemma SilenceIsNoticed(s: Server, idx: int, now: Timespec)
    requires Safe(s) && Occupied(s, idx) && s.table.slots[idx].state == ActiveRt
    requires Normalised(s.table.slots[idx].lastHeartbeat) && Normalised(now)
    requires Nanos(now) - Nanos(s.table.slots[idx].lastHeartbeat) >= (HEARTBEAT_TIMEOUT_MS + 1) * NS_PER_MS
    ensures var s1 := ControlSpec.CheckHeartbeats(s, now);
            var next := FindNextQueued(s.table);
            && |s1.table.slots| == |s.table.slots|
            && s1.table.slots[idx] == s.table.slots[idx].(state := Negotiated)
            && s1.table.activeSlot == -1
            && s1.epoch == s.epoch + (if next >= 0 then 2 else 1) > s.table.slots[idx].grantedEpoch
            && (next >= 0 ==> s1.table.slots[next].state == GrantedWarmup && s1.table.slots[next].grantedEpoch == s1.epoch)
  {
    HeartbeatWindow(now, s.table.slots[idx].lastHeartbeat);
    assert s.table.activeSlot == idx && HoldsRt(s.table.slots[idx]);
    TimeOutSafe(s, idx);
    var mid := TimeOut(s, idx);
    OfferEffect(mid, now);
    SameQueueSameNext(s.table, mid.table);
  }

  /** Slots in use have connections of their own. */
  ghost predicate OwnConnections(s: Server) {
    && (forall i :: 0 <= i < |s.table.slots| && s.table.slots[i].inUse ==> 0 <= s.table.slots[i].fd < |s.down|)
    && (forall i, j :: 0 <= i < j < |s.table.slots| && s.table.slots[i].inUse && s.table.slots[j].inUse ==>
          s.table.slots[i].fd != s.table.slots[j].fd)
  }

  /** What is sent when idx is timed out and `next` granted, -1 for nobody. */
  function Notices(s: Server, idx: int, next: int, epoch: nat, f: int): seq<ToClient>
    requires InRange(s.table, idx) && -1 <= next < |s.table.slots|
  {
    if f == s.table.slots[idx].fd then [LivenessTimeout, Messages.Deactivate]
    else if next >= 0 && f == s.table.slots[next].fd then [ActivateGrant(epoch)]
    else []
  }

  lemma TimeOutThenGrantSays(s: Server, idx: int, next: int, f: int)
    requires OwnConnections(s) && Occupied(s, idx) && -1 <= next < |s.table.slots| && 0 <= f < |s.down|
    requires next >= 0 ==> next != idx && s.table.slots[next].inUse
    ensures var mid := TimeOut(s, idx);
            var s1 := if next >= 0 then DoGrant(mid, next) else mid;
            |s1.down| == |s.down| && s1.down[f] == s.down[f] + Notices(s, idx, next, s1.epoch, f)
  {
    var fd := s.table.slots[idx].fd;
    var mid := TimeOut(s, idx);
    assert mid.table.slots[idx].fd == fd;
    assert mid.down == s.down[fd := s.down[fd] + [LivenessTimeout] + [Messages.Deactivate]];
    assert s.down[fd] + [LivenessTimeout] + [Messages.Deactivate] == s.down[fd] + [LivenessTimeout, Messages.Deactivate];
    if next >= 0 { assert s.table.slots[next].fd != fd; }
  }

  /** What the check that notices says, in every run of server and SDK clients: the silent
      client is sent LIVENESS_TIMEOUT and DEACTIVATE in that order, the head of the queue its
      GRANT, and nobody else anything. */
  lemma SilenceIsAnswered(n: nat, steps: seq<H.Step>, y: H.Sys, idx: int, now: Timespec)
    requires H.Reachable(H.Start(n), steps, y)
    requires Occupied(y.server, idx) && y.server.table.slots[idx].state == ActiveRt
    requires Normalised(y.server.table.slots[idx].lastHeartbeat) && Normalised(now)
    requires Nanos(now) - Nanos(y.server.table.slots[idx].lastHeartbeat) >= (HEARTBEAT_TIMEOUT_MS + 1) * NS_PER_MS
    ensures InBounds(y.server)
    ensures var s, s1 := y.server, ControlSpec.CheckHeartbeats(y.server, now);
            && |s1.down| == |s.down|
            && forall f :: 0 <= f < |s.down| ==>
                 s1.down[f] == s.down[f] + Notices(s, idx, FindNextQueued(s.table), s1.epoch, f)
  {
    H.InvOfRuns(n, steps, y);
    AnswerIs(y.server, idx, now);
    var next := FindNextQueued(y.server.table);
    forall f | 0 <= f < |y.server.down| ensures var s1 := ControlSpec.CheckHeartbeats(y.server, now);
      |s1.down| == |y.server.down| && s1.down[f] == y.server.down[f] + Notices(y.server, idx, next, s1.epoch, f)
    {
      TimeOutThenGrantSays(y.server, idx, next, f);
    }
  }

  lemma AnswerIs(s: Server, idx: int, now: Timespec)
    requires Safe(s) && Occupied(s, idx) && s.table.slots[idx].state == ActiveRt
    requires Normalised(s.table.slots[idx].lastHeartbeat) && Normalised(now)
    requires Nanos(now) - Nanos(s.table.slots[idx].lastHeartbeat) >= (HEARTBEAT_TIMEOUT_MS + 1) * NS_PER_MS
    ensures var next := FindNextQueued(s.table);
            ControlSpec.CheckHeartbeats(s, now) == if next >= 0 then DoGrant(TimeOut(s, idx), next) else TimeOut(s, idx)
  {
    HeartbeatWindow(now, s.table.slots[idx].lastHeartbeat);
    assert s.table.activeSlot == idx && HoldsRt(s.table.slots[idx]);
    TimeOutSafe(s, idx);
    OfferEffect(TimeOut(s, idx), now);
    SameQueueSameNext(s.table, TimeOut(s, idx).table);
  }
}
