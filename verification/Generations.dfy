/** Generation discipline: grants carry strictly increasing epochs, and from the start of
    an eviction the epoch stands still until the next grant moves it by exactly one. */
module Generations {
  import opened Timespecs
  import opened Messages
  import opened Sessions
  import opened ControlSpec
  import opened RtSafety
  import opened Fairness

  ghost predicate NoGrant(s: Server, s1: Server) {
    && |s1.table.slots| == |s.table.slots|
    && forall j :: !GrantedIn(s, s1, j)
  }

  /** s1 makes one grant, under its own epoch, which is `bump` above that of s. */
  ghost predicate OneGrant(s: Server, s1: Server, bump: nat) {
    && |s1.table.slots| == |s.table.slots|
    && s1.epoch == s.epoch + bump
    && (exists j :: GrantedIn(s, s1, j))
    && (forall j :: GrantedIn(s, s1, j) ==> s1.table.slots[j].state == GrantedWarmup && s1.table.slots[j].grantedEpoch == s1.epoch)
  }

  /** The active slot is in trouble: the only events that bump the epoch without a grant. */
  predicate LosesActive(s: Server, e: Event)
    requires InBounds(s) && Enabled(s, e)
  {
    || (e.Hangup? && s.table.slots[e.idx].state == ActiveRt)
    || (e.Received? && e.msg.Disconnect? && s.table.slots[e.idx].state == ActiveRt)
    || (e.HeartbeatTick? && TimedOut(s.table, e.now) >= 0)
  }

  /** What a step does to the epoch and the grants. */
  ghost predicate Disciplined(s: Server, e: Event, s1: Server)
    requires InBounds(s) && Enabled(s, e)
  {
    var base := if LosesActive(s, e) then 1 else 0;
    (NoGrant(s, s1) && s1.epoch == s.epoch + base) || OneGrant(s, s1, base + 1)
  }

  lemma AfterDoGrant(s: Server, mid: Server, idx: int)
    requires NoGrant(s, mid) && mid.epoch >= s.epoch && InRange(mid.table, idx) && mid.table.slots[idx].inUse
    ensures OneGrant(s, DoGrant(mid, idx), mid.epoch + 1 - s.epoch)
  {
    var s1 := DoGrant(mid, idx);
    assert GrantedIn(s, s1, idx);
    assert forall j :: 0 <= j < |s.table.slots| && j != idx && GrantedIn(s, s1, j) ==> GrantedIn(s, mid, j);
  }

  lemma AfterFinish(s: Server, mid: Server)
    requires NoGrant(s, mid) && mid.epoch >= s.epoch && InBounds(mid)
    ensures var s1 := FinishPendingGrant(mid);
            (NoGrant(s, s1) && s1.epoch == mid.epoch) || (OneGrant(s, s1, mid.epoch + 1 - s.epoch) && RtSlotTaken(s1.table.slots))
  {
    var m := mid.(pending := -1);
    assert forall j :: GrantedIn(s, m, j) ==> GrantedIn(s, mid, j);
    if mid.pending >= 0 && Grantable(mid.table.slots[mid.pending]) {
      AfterDoGrant(s, m, mid.pending);
      GrantTakes(m, mid.pending);
    }
  }

  lemma AfterOffer(s: Server, mid: Server, now: Timespec)
    requires NoGrant(s, mid) && mid.epoch >= s.epoch && Safe(mid)
    ensures var s1 := MaybeGrantNextQueued(mid, now);
            (NoGrant(s, s1) && s1.epoch == mid.epoch) || OneGrant(s, s1, mid.epoch + 1 - s.epoch)
  {
    OfferEffect(mid, now);
    var h := FindNextQueued(mid.table);
    if !RtSlotTaken(mid.table.slots) && h >= 0 { AfterDoGrant(s, mid, h); }
  }

  /** finish_pending_grant() followed by maybe_grant_next_queued() grants at most once. */
  lemma AfterHandover(s: Server, mid: Server, now: Timespec)
    requires NoGrant(s, mid) && mid.epoch >= s.epoch && Safe(mid) && !RtSlotTaken(mid.table.slots)
    ensures InBounds(FinishPendingGrant(mid))
    ensures var s1 := MaybeGrantNextQueued(FinishPendingGrant(mid), now);
            (NoGrant(s, s1) && s1.epoch == mid.epoch) || OneGrant(s, s1, mid.epoch + 1 - s.epoch)
  {
    FinishSafe(mid);
    AfterFinish(s, mid);
    if !RtSlotTaken(FinishPendingGrant(mid).table.slots) { AfterOffer(s, FinishPendingGrant(mid), now); }
  }

  lemma AfterGrantSlot(s: Server, idx: int, now: Timespec)
    requires Safe(s) && InRange(s.table, idx) && Grantable(s.table.slots[idx])
    ensures var s1 := GrantSlot(s, idx, now);
            (NoGrant(s, s1) && s1.epoch == s.epoch) || OneGrant(s, s1, 1)
  {
    if s.table.activeSlot < 0 && !RtSlotTaken(s.table.slots) { AfterDoGrant(s, s, idx); }
  }

  lemma DisconnectDisciplined(s: Server, idx: int, now: Timespec)
    requires Safe(s) && Occupied(s, idx)
    ensures Disciplined(s, Hangup(idx, now), HandleDisconnect(s, idx, now))
  {
    var mid := Drop(s, idx);
    DropShape(s, idx);
    assert NoGrant(s, mid);
    if RtState(s.table.slots[idx].state) {
      DropSafe(s, idx);
      AfterHandover(s, mid, now);
    }
  }

  lemma MessageDisciplined(s: Server, idx: int, m: ToServer, now: Timespec)
    requires Safe(s) && Legal(s, Received(idx, m, now))
    ensures Disciplined(s, Received(idx, m, now), HandleMessage(s, idx, m, now))
  {
    var slot := s.table.slots[idx];
    match m
    case Connect(id, verdict) => ConnectResult(s, idx, id, verdict, now);
    case ActivateRequest =>
      if slot.state == Negotiated && !RtSlotTaken(s.table.slots) { AfterGrantSlot(s, idx, now); }
    case ReadyForRt(_) =>
      if slot.state == GrantedWarmup { assert HoldsRt(slot); }
    case GrantDecline =>
      if slot.state == GrantedWarmup {
        WarmupBackSafe(s, idx);
        AfterOffer(s, s.(table := SetState(s.table, idx, Negotiated)), now);
      }
    case Stopped(_) =>
      if slot.state == EvictingCooperative {
        ReclaimSafe(s, idx);
        AfterFinish(s, s.(table := ReclaimEviction(s.table, idx), evicting := -1));
      }
    case Heartbeat =>
    case Disconnect => DisconnectDisciplined(s, idx, now);
    case DmabufAnnounce =>
    case Other =>
  }

  lemma TimersDisciplined(s: Server, now: Timespec)
    requires Safe(s)
    ensures Disciplined(s, HeartbeatTick(now), CheckHeartbeats(s, now))
    ensures Disciplined(s, GraceTick(now), CheckGrace(s, now))
  {
    var idx := TimedOut(s.table, now);
    if idx >= 0 {
      TimeOutSafe(s, idx);
      AfterOffer(s, TimeOut(s, idx), now);
    }
    if s.evicting >= 0 && GraceElapsed(now, s.deadline) {
      ForceOutSafe(s);
      AfterHandover(s, ForceOut(s), now);
    }
  }

  /** Every step makes at most one grant, under an epoch one above everything before it;
      without a grant the epoch moves only when the active client is lost. */
  lemma NextDisciplined(s: Server, e: Event)
    requires Safe(s) && Legal(s, e)
    ensures Disciplined(s, e, Next(s, e))
  {
    match e
    case Accepted =>
    case Received(idx, m, now) => MessageDisciplined(s, idx, m, now);
    case Hangup(idx, now) => DisconnectDisciplined(s, idx, now);
    case Switch(id, now) =>
      var idx := FindByClientId(s.table.slots, id);
      if idx >= 0 && Grantable(s.table.slots[idx]) { AfterGrantSlot(s, idx, now); }
    case HeartbeatTick(now) => TimersDisciplined(s, now);
    case GraceTick(now) => TimersDisciplined(s, now);
  }

  /** The epochs granted along a run, in order. */
  ghost function GrantLog(s: Server, run: seq<Event>): seq<nat>
    requires LegalRun(s, run)
    decreases |run|
  {
    if run == [] then []
    else
      var s1 := Next(s, run[0]);
      (if exists j :: GrantedIn(s, s1, j) then [s1.epoch] else []) + GrantLog(s1, run[1..])
  }

  ghost predicate Ascending(log: seq<nat>, low: nat, high: nat) {
    && (forall k :: 0 <= k < |log| ==> low < log[k] <= high)
    && (forall k, l :: 0 <= k < l < |log| ==> log[k] < log[l])
  }

  lemma AscendingCons(first: nat, rest: seq<nat>, low: nat, high: nat)
    requires low < first <= high && Ascending(rest, first, high)
    ensures Ascending([first] + rest, low, high)
  {
    var log := [first] + rest;
    assert forall k :: 1 <= k < |log| ==> log[k] == rest[k - 1];
  }

  /** Grants are made under strictly increasing epochs, all later than the run's start. */
  lemma {:induction false} GrantsIncrease(s: Server, run: seq<Event>)
    requires Safe(s) && LegalRun(s, run)
    ensures s.epoch <= Exec(s, run).epoch
    ensures Ascending(GrantLog(s, run), s.epoch, Exec(s, run).epoch)
    decreases |run|
  {
    if run != [] {
      var s1 := Next(s, run[0]);
      NextSafe(s, run[0]);
      NextDisciplined(s, run[0]);
      GrantsIncrease(s1, run[1..]);
      LogStep(s, run[0], s1, GrantLog(s1, run[1..]), Exec(s1, run[1..]).epoch);
    }
  }

  lemma LogStep(s: Server, e: Event, s1: Server, rest: seq<nat>, high: nat)
    requires InBounds(s) && Enabled(s, e) && Disciplined(s, e, s1)
    requires s1.epoch <= high && Ascending(rest, s1.epoch, high)
    ensures s.epoch <= high
    ensures Ascending((if exists j :: GrantedIn(s, s1, j) then [s1.epoch] else []) + rest, s.epoch, high)
  {
    if exists j :: GrantedIn(s, s1, j) {
      AscendingCons(s1.epoch, rest, s.epoch, high);
    } else {
      assert [] + rest == rest;
    }
  }

  predicate OnField(slot: Session) {
    slot.inUse && Fielded(slot.state)
  }

  /** No client is in warm-up or active, so nobody can make the epoch move but a grant. */
  ghost predicate Quiet(s: Server) {
    forall i :: 0 <= i < |s.table.slots| ==> !OnField(s.table.slots[i])
  }

  lemma EvictingIsQuiet(s: Server)
    requires Safe(s) && s.evicting >= 0
    ensures Quiet(s)
  {
    assert HoldsRt(s.table.slots[s.evicting]);
    assert forall i :: 0 <= i < |s.table.slots| && OnField(s.table.slots[i]) ==> HoldsRt(s.table.slots[i]);
  }

  /** A holder that was not there before has been granted the slot in this very step. */
  lemma NewHolderWasGranted(s: Server, e: Event)
    requires Safe(s) && Legal(s, e) && Quiet(s) && NoGrant(s, Next(s, e))
    ensures Quiet(Next(s, e))
  {
    var s1 := Next(s, e);
    NextSafe(s, e);
    NextDisciplined(s, e);
    if !Quiet(s1) {
      var i :| 0 <= i < |s1.table.slots| && OnField(s1.table.slots[i]);
      NoRtWithoutGrant(s, e, i);
    }
  }

  /** The only step into warm-up is a grant, and the only step into ACTIVE_RT starts there. */
  lemma NoRtWithoutGrant(s: Server, e: Event, i: int)
    requires Safe(s) && Legal(s, e) && Quiet(s)
    requires InRange(s.table, i) && |Next(s, e).table.slots| == |s.table.slots|
    requires OnField(Next(s, e).table.slots[i])
    ensures GrantedIn(s, Next(s, e), i)
  {
    match e
    case Accepted =>
    case Received(idx, m, now) => WarmByMessage(s, idx, m, now, i);
    case Hangup(idx, now) => WarmByDisconnect(s, idx, now, i);
    case Switch(id, now) =>
    case HeartbeatTick(now) =>
    case GraceTick(now) =>
      if s.evicting >= 0 && GraceElapsed(now, s.deadline) {
        ForceOutSafe(s);
        WarmByHandover(s, ForceOut(s), now, i);
      }
  }

  lemma WarmByHandover(s: Server, mid: Server, now: Timespec, i: int)
    requires Safe(mid) && Quiet(mid) && !RtSlotTaken(mid.table.slots) && mid.epoch >= s.epoch && InRange(mid.table, i)
    ensures InBounds(FinishPendingGrant(mid))
    ensures var s1 := MaybeGrantNextQueued(FinishPendingGrant(mid), now);
            && |s1.table.slots| == |mid.table.slots|
            && (OnField(s1.table.slots[i]) ==> GrantedIn(s, s1, i))
  {
    FinishSafe(mid);
    OfferEffect(FinishPendingGrant(mid), now);
  }

  lemma WarmByDisconnect(s: Server, idx: int, now: Timespec, i: int)
    requires Safe(s) && Occupied(s, idx) && Quiet(s) && InRange(s.table, i)
    ensures var s1 := HandleDisconnect(s, idx, now);
            && |s1.table.slots| == |s.table.slots|
            && (OnField(s1.table.slots[i]) ==> GrantedIn(s, s1, i))
  {
    DropShape(s, idx);
    if RtState(s.table.slots[idx].state) {
      DropSafe(s, idx);
      WarmByHandover(s, Drop(s, idx), now, i);
    }
  }

  lemma WarmByMessage(s: Server, idx: int, m: ToServer, now: Timespec, i: int)
    requires Safe(s) && Legal(s, Received(idx, m, now)) && Quiet(s) && InRange(s.table, i)
    ensures var s1 := HandleMessage(s, idx, m, now);
            && |s1.table.slots| == |s.table.slots|
            && (OnField(s1.table.slots[i]) ==> GrantedIn(s, s1, i))
  {
    match m
    case Connect(id, verdict) => ConnectResult(s, idx, id, verdict, now);
    case Disconnect => WarmByDisconnect(s, idx, now, i);
    case Stopped(_) =>
      if s.table.slots[idx].state == EvictingCooperative {
        ReclaimSafe(s, idx);
        var mid := s.(table := ReclaimEviction(s.table, idx), evicting := -1);
        assert HandleStopped(s, idx) == FinishPendingGrant(mid);
      }
    case _ =>
  }

  /** From the start of an eviction to the next grant the epoch stands still; that grant
      raises it by exactly one. */
  lemma {:induction false} EpochAcrossEviction(s: Server, run: seq<Event>)
    requires Safe(s) && Quiet(s) && LegalRun(s, run)
    ensures var log := GrantLog(s, run);
            if log == [] then Exec(s, run).epoch == s.epoch && Quiet(Exec(s, run)) else log[0] == s.epoch + 1
    decreases |run|
  {
    if run != [] {
      var s1 := Next(s, run[0]);
      NextSafe(s, run[0]);
      NextDisciplined(s, run[0]);
      assert s.table.activeSlot < 0;
      if NoGrant(s, s1) {
        NewHolderWasGranted(s, run[0]);
        EpochAcrossEviction(s1, run[1..]);
        assert GrantLog(s, run) == GrantLog(s1, run[1..]);
      }
    }
  }
}
