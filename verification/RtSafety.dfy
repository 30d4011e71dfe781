/** What every step of the control plane keeps, whatever the clients send: the RT slot has
    at most one holder, the cached indices agree with the states, and generations follow
    the grants. Runs are arbitrary sequences of poll-loop events; the one assumption is on
    CONNECT, and ConnectKeepsSafetyExactly shows it is the right one. */
module RtSafety {
  import opened Timespecs
  import opened Messages
  import opened Sessions
  import opened ControlSpec

  ghost predicate Safe(s: Server) {
    && InBounds(s)
    && OneHolder(s.table.slots)
    && CacheExact(s.table.slots, s.table.activeSlot, ActiveRt)
    && CacheExact(s.table.slots, s.evicting, EvictingCooperative)
    && (forall i :: 0 <= i < |s.table.slots| && s.table.slots[i].inUse ==>
          s.table.slots[i].state != EvictingForced && s.table.slots[i].state != Rejected)
    && (s.pending >= 0 ==> s.table.slots[s.pending].inUse)
    && (s.evicting >= 0 && s.pending >= 0 ==> Grantable(s.table.slots[s.pending]))
    && EpochsFollowGrants(s.table.slots, s.epoch)
  }

  ghost predicate OneHolder(slots: seq<Session>) {
    forall i, j :: 0 <= i < |slots| && 0 <= j < |slots| && HoldsRt(slots[i]) && HoldsRt(slots[j]) ==> i == j
  }

  /** `cached` is the index of the occupied slot in this state, -1 if there is none. */
  ghost predicate CacheExact(slots: seq<Session>, cached: int, state: SessionState)
    requires -1 <= cached < |slots|
  {
    && (cached >= 0 ==> slots[cached].inUse && slots[cached].state == state)
    && (forall i :: 0 <= i < |slots| && slots[i].inUse && slots[i].state == state ==> cached == i)
  }

  /** The holder was granted under the current epoch, nobody under a later one, and no two
      occupied slots were ever granted under the same one. */
  ghost predicate EpochsFollowGrants(slots: seq<Session>, epoch: nat) {
    && (forall i :: 0 <= i < |slots| && HoldsRt(slots[i]) ==> slots[i].grantedEpoch == epoch)
    && (forall i :: 0 <= i < |slots| && slots[i].inUse ==> slots[i].grantedEpoch <= epoch)
    && (forall i, j :: 0 <= i < j < |slots| && slots[i].inUse && slots[j].inUse ==>
          slots[i].grantedEpoch != slots[j].grantedEpoch || slots[i].grantedEpoch == 0)
  }

  /** CONNECT is not delivered to the slot that is active or being evicted. */
  predicate Legal(s: Server, e: Event) {
    && Enabled(s, e)
    && (e.Received? && e.msg.Connect? ==>
          s.table.slots[e.idx].state != ActiveRt && s.table.slots[e.idx].state != EvictingCooperative)
  }

  lemma InitSafe(n: nat)
    ensures Safe(Init(n))
  {}

  lemma FreeMeansNoCache(s: Server)
    requires Safe(s) && !RtSlotTaken(s.table.slots)
    ensures s.table.activeSlot == -1 && s.evicting == -1
  {
    if s.table.activeSlot >= 0 { assert HoldsRt(s.table.slots[s.table.activeSlot]); }
    if s.evicting >= 0 { assert HoldsRt(s.table.slots[s.evicting]); }
  }

  /** do_grant() relies on the RT slot being free; when it is, the grant is sound. */
  lemma DoGrantSafe(s: Server, idx: int)
    requires Safe(s) && !RtSlotTaken(s.table.slots)
    requires InRange(s.table, idx) && Grantable(s.table.slots[idx])
    ensures Safe(DoGrant(s, idx))
  {
    FreeMeansNoCache(s);
    assert forall i :: 0 <= i < |s.table.slots| ==> !HoldsRt(s.table.slots[i]);
  }

  lemma EvictSafe(s: Server, target: int, now: Timespec)
    requires Safe(s) && s.table.activeSlot >= 0
    requires InRange(s.table, target) && Grantable(s.table.slots[target])
    ensures Safe(EvictInFavourOf(s, s.table.activeSlot, target, now))
  {
    assert HoldsRt(s.table.slots[s.table.activeSlot]);
  }

  /** finish_pending_grant() never checks that the RT slot is free. It does not have to:
      every caller has just emptied it. */
  lemma FinishSafe(s: Server)
    requires Safe(s) && !RtSlotTaken(s.table.slots)
    ensures Safe(FinishPendingGrant(s))
  {
    if s.pending >= 0 && Grantable(s.table.slots[s.pending]) {
      DoGrantSafe(s.(pending := -1), s.pending);
    }
  }

  lemma GrantSlotSafe(s: Server, idx: int, now: Timespec)
    requires Safe(s) && InRange(s.table, idx) && Grantable(s.table.slots[idx])
    ensures Safe(GrantSlot(s, idx, now))
  {
    if s.table.activeSlot >= 0 {
      EvictSafe(s, idx, now);
    } else if !RtSlotTaken(s.table.slots) {
      DoGrantSafe(s, idx);
    }
  }

  lemma OfferSafe(s: Server, now: Timespec)
    requires Safe(s)
    ensures Safe(MaybeGrantNextQueued(s, now))
  {
    var next := FindNextQueued(s.table);
    if !RtSlotTaken(s.table.slots) && next >= 0 { GrantSlotSafe(s, next, now); }
  }

  lemma ReclaimSafe(s: Server, idx: int)
    requires Safe(s) && Occupied(s, idx) && s.table.slots[idx].state == EvictingCooperative
    ensures var s1 := s.(table := ReclaimEviction(s.table, idx), evicting := -1);
            Safe(s1) && !RtSlotTaken(s1.table.slots)
  {
    assert HoldsRt(s.table.slots[idx]);
  }

  lemma DropSafe(s: Server, idx: int)
    requires Safe(s) && Occupied(s, idx)
    ensures Safe(Drop(s, idx))
    ensures RtState(s.table.slots[idx].state) ==> !RtSlotTaken(Drop(s, idx).table.slots)
    ensures !RtState(s.table.slots[idx].state) ==> (RtSlotTaken(Drop(s, idx).table.slots) <==> RtSlotTaken(s.table.slots))
  {
    var s1 := Drop(s, idx);
    forall i | 0 <= i < |s.table.slots| && i != idx
      ensures s1.table.slots[i] == s.table.slots[i]
    {}
    if RtState(s.table.slots[idx].state) {
      assert HoldsRt(s.table.slots[idx]);
    } else if RtSlotTaken(s.table.slots) {
      var h :| 0 <= h < |s.table.slots| && HoldsRt(s.table.slots[h]);
      assert HoldsRt(s1.table.slots[h]);
    }
  }

  lemma DisconnectSafe(s: Server, idx: int, now: Timespec)
    requires Safe(s) && Occupied(s, idx)
    ensures Safe(HandleDisconnect(s, idx, now))
  {
    DropSafe(s, idx);
    if RtState(s.table.slots[idx].state) {
      FinishSafe(Drop(s, idx));
      OfferSafe(FinishPendingGrant(Drop(s, idx)), now);
    }
  }

  lemma TimeOutSafe(s: Server, idx: int)
    requires Safe(s) && Occupied(s, idx) && s.table.slots[idx].state == ActiveRt
    ensures Safe(TimeOut(s, idx)) && !RtSlotTaken(TimeOut(s, idx).table.slots)
  {
    assert HoldsRt(s.table.slots[idx]);
  }

  /** One slot changed to something that holds no RT role and has no newer grant. */
  lemma HarmlessChange(s: Server, idx: int, slot: Session, pending: int)
    requires Safe(s) && InRange(s.table, idx) && !HoldsRt(s.table.slots[idx])
    requires slot.inUse ==> s.table.slots[idx].inUse && slot.grantedEpoch == s.table.slots[idx].grantedEpoch
    requires slot.inUse ==> !RtState(slot.state) && slot.state != Rejected
    requires pending == s.pending || pending == -1
    requires pending == idx ==> slot.inUse && (Grantable(s.table.slots[idx]) ==> Grantable(slot))
    ensures Safe(s.(table := s.table.(slots := s.table.slots[idx := slot]), pending := pending))
  {
    assert !HoldsRt(slot);
  }

  /** What CONNECT leaves behind, whatever state it found the slot in. */
  lemma ConnectResult(s: Server, idx: int, id: string, verdict: Verdict, now: Timespec)
    requires InBounds(s) && Occupied(s, idx)
    ensures var s1 := HandleConnect(s, idx, id, verdict, now);
            var slot := s.table.slots[idx];
            && s1.down == Send(s, idx, match verdict
                 case VersionMismatched => VersionMismatch
                 case NoCommonMode => Mode(false)
                 case ModeChosen => Mode(true)).down
            && s1.(down := s.down) == (
                 if verdict == ModeChosen
                 then s.(table := s.table.(slots := s.table.slots[idx := slot.(clientId := CString(id), state := Negotiated)]))
                 else s.(table := s.table.(slots := s.table.slots[idx := slot.(state := Rejected, inUse := false, fd := -1)]),
                         pending := if s.pending == idx then -1 else s.pending))
  {
    if verdict != ModeChosen {
      var slots := s.table.slots;
      var slot := slots[idx].(state := Rejected);
      assert slots[idx := slot][idx := slot.(inUse := false, fd := -1)] == slots[idx := slot.(inUse := false, fd := -1)];
    }
  }

  lemma SafeIgnoresDown(s: Server, down: seq<seq<ToClient>>)
    ensures Safe(s) <==> Safe(s.(down := down))
  {}

  /** handle_connect() looks at nothing but the message. It keeps the invariant exactly
      when the slot is not the active or the evicting one. */
  lemma ConnectKeepsSafetyExactly(s: Server, idx: int, id: string, verdict: Verdict, now: Timespec)
    requires Safe(s) && Occupied(s, idx)
    ensures Safe(HandleConnect(s, idx, id, verdict, now))
            <==> s.table.slots[idx].state != ActiveRt && s.table.slots[idx].state != EvictingCooperative
  {
    var slot := s.table.slots[idx];
    var s1 := HandleConnect(s, idx, id, verdict, now);
    ConnectResult(s, idx, id, verdict, now);
    SafeIgnoresDown(s1, s.down);
    if slot.state == ActiveRt {
      assert s1.table.activeSlot == idx && !(s1.table.slots[idx].inUse && s1.table.slots[idx].state == ActiveRt);
    } else if slot.state == EvictingCooperative {
      assert s1.evicting == idx && !(s1.table.slots[idx].inUse && s1.table.slots[idx].state == EvictingCooperative);
    } else {
      var base := if slot.state == GrantedWarmup then s.(table := SetState(s.table, idx, Negotiated)) else s;
      if slot.state == GrantedWarmup { WarmupBackSafe(s, idx); }
      assert s1.table.slots == base.table.slots[idx := s1.table.slots[idx]];
      HarmlessChange(base, idx, s1.table.slots[idx], s1.pending);
    }
  }

  lemma WarmupBackSafe(s: Server, idx: int)
    requires Safe(s) && Occupied(s, idx) && s.table.slots[idx].state == GrantedWarmup
    ensures var s1 := s.(table := SetState(s.table, idx, Negotiated));
            Safe(s1) && !RtSlotTaken(s1.table.slots)
  {
    assert HoldsRt(s.table.slots[idx]);
  }

  lemma ActivateRequestSafe(s: Server, idx: int, now: Timespec)
    requires Safe(s) && Occupied(s, idx)
    ensures Safe(HandleActivateRequest(s, idx, now))
  {
    var slot := s.table.slots[idx];
    if slot.state == Negotiated {
      if RtSlotTaken(s.table.slots) {
        HarmlessChange(s, idx, slot.(state := Queued, activateRequested := now), s.pending);
        SafeIgnoresDown(s.(table := Enqueue(s.table, idx, now)), HandleActivateRequest(s, idx, now).down);
      } else {
        GrantSlotSafe(s, idx, now);
      }
    }
  }

  lemma ReadySafe(s: Server, idx: int, now: Timespec)
    requires Safe(s) && Occupied(s, idx)
    ensures Safe(HandleReadyForRt(s, idx, now))
  {
    if s.table.slots[idx].state == GrantedWarmup { assert HoldsRt(s.table.slots[idx]); }
  }

  lemma DeclineSafe(s: Server, idx: int, now: Timespec)
    requires Safe(s) && Occupied(s, idx)
    ensures Safe(HandleGrantDecline(s, idx, now))
  {
    if s.table.slots[idx].state == GrantedWarmup {
      WarmupBackSafe(s, idx);
      OfferSafe(s.(table := SetState(s.table, idx, Negotiated)), now);
    }
  }

  lemma StoppedSafe(s: Server, idx: int)
    requires Safe(s) && Occupied(s, idx)
    ensures Safe(HandleStopped(s, idx))
  {
    if s.table.slots[idx].state == EvictingCooperative {
      ReclaimSafe(s, idx);
      FinishSafe(s.(table := ReclaimEviction(s.table, idx), evicting := -1));
    }
  }

  lemma HeartbeatSafe(s: Server, idx: int, now: Timespec)
    requires Safe(s) && Occupied(s, idx)
    ensures Safe(HandleHeartbeat(s, idx, now))
  {}

  lemma AcceptSafe(s: Server)
    requires Safe(s)
    ensures Safe(Accept(s))
  {
    var idx := FirstFree(s.table.slots);
    var after := Accept(s).table.slots;
    if idx != -1 {
      assert !HoldsRt(after[idx]) && after[idx].grantedEpoch == 0;
      assert forall i :: 0 <= i < |after| && i != idx ==> after[i] == s.table.slots[i];
    }
  }

  lemma MessageSafe(s: Server, idx: int, m: ToServer, now: Timespec)
    requires Safe(s) && Legal(s, Received(idx, m, now))
    ensures Safe(HandleMessage(s, idx, m, now))
  {
    match m
    case Connect(id, verdict) => ConnectKeepsSafetyExactly(s, idx, id, verdict, now);
    case ActivateRequest => ActivateRequestSafe(s, idx, now);
    case ReadyForRt(_) => ReadySafe(s, idx, now);
    case GrantDecline => DeclineSafe(s, idx, now);
    case Stopped(_) => StoppedSafe(s, idx);
    case Heartbeat => HeartbeatSafe(s, idx, now);
    case Disconnect => DisconnectSafe(s, idx, now);
    case DmabufAnnounce => SafeIgnoresDown(s, Send(s, idx, DmabufAck).down);
    case Other =>
  }

  lemma SwitchSafe(s: Server, id: string, now: Timespec)
    requires Safe(s)
    ensures Safe(HandleSwitch(s, id, now))
  {
    var idx := FindByClientId(s.table.slots, id);
    if idx >= 0 && Grantable(s.table.slots[idx]) { GrantSlotSafe(s, idx, now); }
  }

  lemma HeartbeatCheckSafe(s: Server, now: Timespec)
    requires Safe(s)
    ensures Safe(CheckHeartbeats(s, now))
  {
    var idx := TimedOut(s.table, now);
    if idx >= 0 {
      TimeOutSafe(s, idx);
      OfferSafe(TimeOut(s, idx), now);
    }
  }

  lemma GraceCheckSafe(s: Server, now: Timespec)
    requires Safe(s)
    ensures Safe(CheckGrace(s, now))
  {
    if s.evicting >= 0 && GraceElapsed(now, s.deadline) {
      ForceOutSafe(s);
      FinishSafe(ForceOut(s));
      OfferSafe(FinishPendingGrant(ForceOut(s)), now);
    }
  }

  /** Every event keeps the invariant. */
  lemma NextSafe(s: Server, e: Event)
    requires Safe(s) && Legal(s, e)
    ensures Safe(Next(s, e))
  {
    match e
    case Accepted => AcceptSafe(s);
    case Received(idx, m, now) => MessageSafe(s, idx, m, now);
    case Hangup(idx, now) => DisconnectSafe(s, idx, now);
    case Switch(id, now) => SwitchSafe(s, id, now);
    case HeartbeatTick(now) => HeartbeatCheckSafe(s, now);
    case GraceTick(now) => GraceCheckSafe(s, now);
  }

  lemma ForceOutSafe(s: Server)
    requires Safe(s) && s.evicting >= 0
    ensures ForceOut(s) == s.(table := ReclaimEviction(s.table, s.evicting), evicting := -1)
    ensures Safe(ForceOut(s)) && !RtSlotTaken(ForceOut(s).table.slots)
  {
    ReclaimSafe(s, s.evicting);
  }

  // Runs.

  /** Each event of the run is legal where it happens. */
  ghost predicate LegalRun(s: Server, run: seq<Event>)
    decreases |run|
  {
    run == [] || (InBounds(s) && Legal(s, run[0]) && LegalRun(Next(s, run[0]), run[1..]))
  }

  ghost function Exec(s: Server, run: seq<Event>): Server
    requires LegalRun(s, run)
    decreases |run|
  {
    if run == [] then s else Exec(Next(s, run[0]), run[1..])
  }

  lemma {:induction false} RunSafeFrom(s: Server, run: seq<Event>)
    requires Safe(s) && LegalRun(s, run)
    ensures Safe(Exec(s, run))
    decreases |run|
  {
    if run != [] {
      NextSafe(s, run[0]);
      RunSafeFrom(Next(s, run[0]), run[1..]);
    }
  }

  /** RT slot safety over every run from an empty table of any size. */
  lemma RtSlotSafety(n: nat, run: seq<Event>)
    requires LegalRun(Init(n), run)
    ensures Safe(Exec(Init(n), run))
  {
    InitSafe(n);
    RunSafeFrom(Init(n), run);
  }

  lemma ThreeSteps(s: Server, e1: Event, e2: Event, e3: Event)
    requires InBounds(s) && Legal(s, e1)
    requires var s1 := Next(s, e1); InBounds(s1) && Legal(s1, e2)
    requires var s2 := Next(Next(s, e1), e2); InBounds(s2) && Legal(s2, e3)
    ensures LegalRun(s, [e1, e2, e3])
    ensures Exec(s, [e1, e2, e3]) == Next(Next(Next(s, e1), e2), e3)
  {
    var s1 := Next(s, e1);
    var s2 := Next(s1, e2);
    assert [e1, e2, e3][1..] == [e2, e3] && [e2, e3][1..] == [e3] && [e3][1..] == [];
    assert LegalRun(s2, [e3]) && LegalRun(s1, [e2, e3]);
    assert Exec(s2, [e3]) == Next(s2, e3) && Exec(s1, [e2, e3]) == Next(s2, e3);
  }
}
