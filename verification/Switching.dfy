/** What an admin SWITCH brings about: when the named client gets the RT slot, what happens to
    the client it takes it from and to those queueing, and when the switch is forgotten. */
module Switching {
  import opened Timespecs
  import opened Messages
  import opened Sessions
  import opened QueueOrder
  import opened ControlSpec
  import opened RtSafety
  import opened Fairness

  /** SWITCH names the client in slot c, which may be given the RT slot. */
  ghost predicate Names(s: Server, id: string, c: int) {
    FindByClientId(s.table.slots, id) == c && 0 <= c < |s.table.slots| && Grantable(s.table.slots[c])
  }

  /** The RT slot has passed from a to c: c is in warm-up under a fresh epoch, a is back to
      NEGOTIATED (not queued), and nobody else's slot has changed. */
  ghost predicate HandedOver(s: Server, s1: Server, a: int, c: int)
    requires InRange(s.table, a) && InRange(s.table, c)
  {
    && s1.epoch == s.epoch + 1
    && s1.pending == -1 && s1.evicting == -1 && s1.table.activeSlot == -1
    && s1.table.slots == s.table.slots[a := s.table.slots[a].(state := Negotiated)]
                                      [c := s.table.slots[c].(state := GrantedWarmup, grantedEpoch := s1.epoch)]
  }

  lemma SwitchBeginsEviction(s: Server, a: int, c: int, id: string, now: Timespec)
    requires Safe(s) && Occupied(s, a) && s.table.slots[a].state == ActiveRt && Names(s, id, c)
    ensures var s1 := HandleSwitch(s, id, now);
            && s1.table == Table(s.table.slots[a := s.table.slots[a].(state := EvictingCooperative)], -1)
            && s1.evicting == a && s1.pending == c && s1.epoch == s.epoch
            && s1.deadline == AddMillis(now, EVICT_GRACE_MS)
  {
    assert s.table.activeSlot == a;
  }

  // Over whole runs: what may happen between the switch and its outcome.

  /** The eviction of a in favour of c is under way. */
  ghost predicate UnderWay(s: Server, a: int, c: int, deadline: Timespec) {
    && Safe(s) && Occupied(s, a) && s.evicting == a && InRange(s.table, c) && s.pending == c
    && s.deadline == deadline
  }

  /** Another switch, the loss of either client, a repeated CONNECT of the named one, and the two
      outcomes: a's STOPPED, and a grace check that finds the deadline passed. */
  predicate Decisive(e: Event, a: int, c: int, deadline: Timespec) {
    match e
    case Switch(_, _) => true
    case Hangup(idx, _) => idx == a || idx == c
    case Received(idx, m, _) =>
      || ((idx == a || idx == c) && m.Disconnect?)
      || (idx == c && m.Connect?)
      || (idx == a && m.Stopped?)
    case GraceTick(now) => GraceElapsed(now, deadline)
    case _ => false
  }

  ghost predicate NothingDecisive(run: seq<Event>, a: int, c: int, deadline: Timespec) {
    forall k :: 0 <= k < |run| ==> !Decisive(run[k], a, c, deadline)
  }

  lemma NothingElseIsActive(s: Server, a: int)
    requires Safe(s) && Occupied(s, a) && s.evicting == a
    ensures RtSlotTaken(s.table.slots) && s.table.activeSlot == -1
    ensures forall j :: 0 <= j < |s.table.slots| && HoldsRt(s.table.slots[j]) ==> j == a
  {
    assert HoldsRt(s.table.slots[a]);
    if s.table.activeSlot >= 0 { assert HoldsRt(s.table.slots[s.table.activeSlot]); }
  }

  lemma MessageStaysUnderWay(s: Server, a: int, c: int, deadline: Timespec, idx: int, m: ToServer, now: Timespec)
    requires UnderWay(s, a, c, deadline) && Legal(s, Received(idx, m, now)) && !Decisive(Received(idx, m, now), a, c, deadline)
    ensures var s1 := HandleMessage(s, idx, m, now);
            s1.evicting == a && s1.pending == c && s1.deadline == deadline && s1.epoch == s.epoch
  {
    NothingElseIsActive(s, a);
    if m.Connect? { ConnectResult(s, idx, m.clientId, m.verdict, now); }
  }

  lemma StaysUnderWay(s: Server, a: int, c: int, deadline: Timespec, e: Event)
    requires UnderWay(s, a, c, deadline) && Legal(s, e) && !Decisive(e, a, c, deadline)
    ensures UnderWay(Next(s, e), a, c, deadline) && Next(s, e).epoch == s.epoch
  {
    NextSafe(s, e);
    NothingElseIsActive(s, a);
    match e
    case Received(idx, m, now) => MessageStaysUnderWay(s, a, c, deadline, idx, m, now);
    case _ =>
  }

  lemma {:induction false} RunStaysUnderWay(s: Server, a: int, c: int, deadline: Timespec, run: seq<Event>)
    requires UnderWay(s, a, c, deadline) && LegalRun(s, run) && NothingDecisive(run, a, c, deadline)
    ensures UnderWay(Exec(s, run), a, c, deadline) && Exec(s, run).epoch == s.epoch
    decreases |run|
  {
    if run != [] {
      assert !Decisive(run[0], a, c, deadline);
      StaysUnderWay(s, a, c, deadline, run[0]);
      RunStaysUnderWay(Next(s, run[0]), a, c, deadline, run[1..]);
    }
  }

  lemma StoppedHandsOver(s: Server, a: int, c: int, deadline: Timespec, k: nat, now: Timespec)
    requires UnderWay(s, a, c, deadline)
    ensures Legal(s, Received(a, Stopped(k), now)) && HandedOver(s, Next(s, Received(a, Stopped(k), now)), a, c)
  {
    NothingElseIsActive(s, a);
    assert Grantable(s.table.slots[c]);
  }

  lemma GraceHandsOver(s: Server, a: int, c: int, deadline: Timespec, now: Timespec)
    requires UnderWay(s, a, c, deadline) && GraceElapsed(now, deadline)
    ensures HandedOver(s, Next(s, GraceTick(now)), a, c)
  {
    NothingElseIsActive(s, a);
    ForceOutSafe(s);
    GrantTakes(ForceOut(s).(pending := -1), c);
    var s1 := FinishPendingGrant(ForceOut(s));
    assert MaybeGrantNextQueued(s1, now) == s1;
  }

  /** A switch away from the active client is honoured, whatever else happens in between: along
      any run with no other switch, neither client lost and the named one not introducing
      itself again, the eviction stays under way and the generation stands, and a's STOPPED,
      whenever it comes, hands the slot from a to c. */
  lemma SwitchThenStopped(s: Server, a: int, c: int, id: string, now: Timespec, run: seq<Event>, k: nat, later: Timespec)
    requires Safe(s) && Occupied(s, a) && s.table.slots[a].state == ActiveRt && Names(s, id, c)
    requires LegalRun(HandleSwitch(s, id, now), run)
    requires NothingDecisive(run, a, c, AddMillis(now, EVICT_GRACE_MS))
    ensures var mid := Exec(HandleSwitch(s, id, now), run);
            && UnderWay(mid, a, c, AddMillis(now, EVICT_GRACE_MS)) && mid.epoch == s.epoch
            && Legal(mid, Received(a, Stopped(k), later))
            && HandedOver(mid, Next(mid, Received(a, Stopped(k), later)), a, c)
  {
    SwitchSafe(s, id, now);
    SwitchBeginsEviction(s, a, c, id, now);
    RunStaysUnderWay(HandleSwitch(s, id, now), a, c, AddMillis(now, EVICT_GRACE_MS), run);
    StoppedHandsOver(Exec(HandleSwitch(s, id, now), run), a, c, AddMillis(now, EVICT_GRACE_MS), k, later);
  }

  /** If a never stops, the first check made once the grace period has passed does the same. */
  lemma SwitchThenGrace(s: Server, a: int, c: int, id: string, now: Timespec, run: seq<Event>, later: Timespec)
    requires Safe(s) && Occupied(s, a) && s.table.slots[a].state == ActiveRt && Names(s, id, c)
    requires LegalRun(HandleSwitch(s, id, now), run)
    requires NothingDecisive(run, a, c, AddMillis(now, EVICT_GRACE_MS))
    requires Normalised(now) && Normalised(later)
    requires Nanos(later) - Nanos(now) >= EVICT_GRACE_MS * NS_PER_MS
    ensures var mid := Exec(HandleSwitch(s, id, now), run);
            && UnderWay(mid, a, c, AddMillis(now, EVICT_GRACE_MS)) && mid.epoch == s.epoch
            && HandedOver(mid, Next(mid, GraceTick(later)), a, c)
  {
    SwitchSafe(s, id, now);
    SwitchBeginsEviction(s, a, c, id, now);
    RunStaysUnderWay(HandleSwitch(s, id, now), a, c, AddMillis(now, EVICT_GRACE_MS), run);
    GraceWindow(now, later);
    GraceHandsOver(Exec(HandleSwitch(s, id, now), run), a, c, AddMillis(now, EVICT_GRACE_MS), later);
  }

  /** Whoever else is queued keeps slot, state and request time; their place is what it was,
      or one better if the client named was ahead of them and was granted at once. */
  lemma SwitchLeavesTheQueueAlone(s: Server, id: string, c: int, j: int, now: Timespec)
    requires Safe(s) && Names(s, id, c)
    requires 0 <= j < |s.table.slots| && j != c && Waiting(s.table.slots[j])
    ensures var s1 := HandleSwitch(s, id, now);
            && |s1.table.slots| == |s.table.slots|
            && s1.table.slots[j] == s.table.slots[j]
            && QueuePosition(s1.table.slots, j) == QueuePosition(s.table.slots, j)
                 - (if !RtSlotTaken(s.table.slots) && Waiting(s.table.slots[c]) && Before(s.table.slots, c, j) then 1 else 0)
  {
    var s1 := HandleSwitch(s, id, now);
    if RtSlotTaken(s.table.slots) {
      SameQueueSamePositions(s.table.slots, s1.table.slots, j);
    } else {
      FreeMeansNoCache(s);
      if Waiting(s.table.slots[c]) {
        LeavingMovesUp(s.table.slots, c, s1.table.slots[c], j);
      } else {
        OutsidersDoNotCount(s.table.slots, c, s1.table.slots[c], j);
      }
    }
  }

  // A switch made during somebody's warm-up.

  /** It is only remembered. */
  lemma SwitchDuringWarmup(s: Server, h: int, id: string, c: int, now: Timespec)
    requires Safe(s) && Occupied(s, h) && s.table.slots[h].state == GrantedWarmup && Names(s, id, c)
    ensures HandleSwitch(s, id, now) == s.(pending := c)
  {
    assert HoldsRt(s.table.slots[h]);
  }

  /** READY_FOR_RT does not follow it up with an eviction: the target goes on waiting. */
  lemma ReadyForgetsSwitch(s: Server, h: int, now: Timespec)
    requires Safe(s) && Occupied(s, h) && s.table.slots[h].state == GrantedWarmup
    ensures var s1 := HandleReadyForRt(s, h, now);
            && s1.table.slots[h].state == ActiveRt && s1.evicting == -1
            && s1.pending == s.pending && s1.epoch == s.epoch
            && forall j :: 0 <= j < |s.table.slots| && j != h ==> s1.table.slots[j] == s.table.slots[j]
  {
    assert HoldsRt(s.table.slots[h]);
    if s.evicting >= 0 { assert HoldsRt(s.table.slots[s.evicting]); }
  }

  /** A declined warm-up passes the slot to the head of the queue, and to the remembered
      target exactly when that is the head. */
  lemma DeclineHonoursSwitchExactly(s: Server, h: int, now: Timespec)
    requires Safe(s) && Occupied(s, h) && s.table.slots[h].state == GrantedWarmup
    requires s.pending >= 0 && s.pending != h
    ensures var s1 := HandleGrantDecline(s, h, now);
            && |s1.table.slots| == |s.table.slots|
            && (HoldsRt(s1.table.slots[s.pending]) <==> FindNextQueued(s.table) == s.pending)
            && s1.pending == s.pending
  {
    var mid := s.(table := SetState(s.table, h, Negotiated));
    assert HoldsRt(s.table.slots[h]);
    WarmupBackSafe(s, h);
    OfferEffect(mid, now);
    SameQueueSameNext(s.table, mid.table);
  }

  /** A remembered target jumps the queue after all if the holder's connection is lost, in
      warm-up or later: it is granted exactly when it is still NEGOTIATED or QUEUED. */
  lemma LossHonoursSwitchExactly(s: Server, h: int, now: Timespec)
    requires Safe(s) && Occupied(s, h) && RtState(s.table.slots[h].state)
    requires s.pending >= 0 && s.pending != h
    ensures var s1 := HandleDisconnect(s, h, now);
            && |s1.table.slots| == |s.table.slots|
            && (HoldsRt(s1.table.slots[s.pending]) <==> Grantable(s.table.slots[s.pending]))
            && s1.pending == -1
  {
    var mid := Drop(s, h);
    DropShape(s, h);
    DropSafe(s, h);
    FinishSafe(mid);
    if Grantable(s.table.slots[s.pending]) {
      GrantTakes(mid.(pending := -1), s.pending);
    } else {
      OfferEffect(FinishPendingGrant(mid), now);
    }
  }

  /** But not if the holder is merely timed out: then the head of the queue is next again. */
  lemma TimeoutHonoursSwitchExactly(s: Server, h: int, now: Timespec)
    requires Safe(s) && Occupied(s, h) && s.table.slots[h].state == ActiveRt
    requires s.pending >= 0 && s.pending != h && TimedOut(s.table, now) == h
    ensures var s1 := ControlSpec.CheckHeartbeats(s, now);
            && |s1.table.slots| == |s.table.slots|
            && (HoldsRt(s1.table.slots[s.pending]) <==> FindNextQueued(s.table) == s.pending)
            && s1.pending == s.pending
  {
    assert HoldsRt(s.table.slots[h]);
    TimeOutSafe(s, h);
    var mid := TimeOut(s, h);
    OfferEffect(mid, now);
    SameQueueSameNext(s.table, mid.table);
  }
}
