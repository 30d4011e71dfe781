/** Who gets the RT slot next: when a free slot can be left unused although somebody waits,
    and how long a waiting client can be overtaken. */
module Fairness {
  import opened Timespecs
  import opened Messages
  import opened Sessions
  import opened QueueOrder
  import opened ControlSpec
  import opened RtSafety

  /** Work conservation: nobody waits for an unused RT slot. */
  ghost predicate Conserving(s: Server) {
    SomeoneWaits(s.table.slots) ==> RtSlotTaken(s.table.slots)
  }

  /** The two events that free the RT slot without offering it to the queue: a STOPPED that
      finds no pending target, and a CONNECT repeated by the client in warm-up. */
  ghost predicate Strands(s: Server, e: Event)
    requires InBounds(s) && Enabled(s, e)
  {
    && e.Received?
    && SomeoneWaits(s.table.slots)
    && ( (e.msg.Stopped? && s.table.slots[e.idx].state == EvictingCooperative && s.pending == -1)
      || (e.msg.Connect? && s.table.slots[e.idx].state == GrantedWarmup))
  }

  ghost predicate SameQueue(a: seq<Session>, b: seq<Session>) {
    && |a| == |b|
    && forall j :: 0 <= j < |a| ==>
         (Waiting(a[j]) <==> Waiting(b[j])) && (Waiting(a[j]) ==> a[j].activateRequested == b[j].activateRequested)
  }

  lemma SameQueueSamePositions(a: seq<Session>, b: seq<Session>, j: int)
    requires SameQueue(a, b) && 0 <= j < |a|
    ensures QueuePosition(a, j) == QueuePosition(b, j)
  {
    if Waiting(a[j]) { assert Ahead(a, j) == Ahead(b, j); }
  }

  lemma SameQueueSameNext(a: Table, b: Table)
    requires SameQueue(a.slots, b.slots)
    ensures FindNextQueued(a) == FindNextQueued(b)
  {
    var h := FindNextQueued(a);
    NextIsPositionOne(a);
    NextIsPositionOne(b);
    if h >= 0 {
      SameQueueSamePositions(a.slots, b.slots, h);
    } else if FindNextQueued(b) >= 0 {
      SameQueueSamePositions(a.slots, b.slots, FindNextQueued(b));
    }
  }

  /** Under the invariant the offer is simply a grant to the head of the queue. */
  lemma OfferEffect(s: Server, now: Timespec)
    requires Safe(s)
    ensures MaybeGrantNextQueued(s, now) ==
            if RtSlotTaken(s.table.slots) || FindNextQueued(s.table) < 0 then s
            else DoGrant(s, FindNextQueued(s.table))
  {
    if !RtSlotTaken(s.table.slots) { FreeMeansNoCache(s); }
  }

  lemma GrantTakes(s: Server, idx: int)
    requires InRange(s.table, idx) && s.table.slots[idx].inUse
    ensures RtSlotTaken(DoGrant(s, idx).table.slots)
  {
    assert HoldsRt(DoGrant(s, idx).table.slots[idx]);
  }

  lemma OfferConserves(s: Server, now: Timespec)
    requires Safe(s)
    ensures Conserving(MaybeGrantNextQueued(s, now))
  {
    OfferEffect(s, now);
    var next := FindNextQueued(s.table);
    if !RtSlotTaken(s.table.slots) && next >= 0 { GrantTakes(s, next); }
  }

  lemma StoppedConservesExactly(s: Server, idx: int)
    requires Safe(s) && Occupied(s, idx) && s.table.slots[idx].state == EvictingCooperative
    ensures Conserving(HandleStopped(s, idx)) <==> s.pending != -1 || !SomeoneWaits(s.table.slots)
  {
    var s1 := s.(table := ReclaimEviction(s.table, idx), evicting := -1);
    ReclaimSafe(s, idx);
    if s.pending >= 0 {
      assert Grantable(s1.table.slots[s.pending]);
      GrantTakes(s1.(pending := -1), s.pending);
    } else {
      WaitersRemain(s, s1, idx);
    }
  }

  /** A slot that was not waiting and still is not does not change whether someone waits. */
  lemma WaitersRemain(s: Server, s1: Server, idx: int)
    requires InRange(s.table, idx) && |s1.table.slots| == |s.table.slots|
    requires !Waiting(s.table.slots[idx]) && !Waiting(s1.table.slots[idx])
    requires forall i :: 0 <= i < |s.table.slots| && i != idx ==> s1.table.slots[i] == s.table.slots[i]
    ensures SomeoneWaits(s.table.slots) <==> SomeoneWaits(s1.table.slots)
  {
    if SomeoneWaits(s.table.slots) {
      var w :| 0 <= w < |s.table.slots| && Waiting(s.table.slots[w]);
      assert Waiting(s1.table.slots[w]);
    }
  }

  lemma ConnectConservesExactly(s: Server, idx: int, id: string, verdict: Verdict, now: Timespec)
    requires Safe(s) && Legal(s, Received(idx, Connect(id, verdict), now)) && Conserving(s)
    ensures Conserving(HandleConnect(s, idx, id, verdict, now))
            <==> !(s.table.slots[idx].state == GrantedWarmup && SomeoneWaits(s.table.slots))
  {
    var s1 := HandleConnect(s, idx, id, verdict, now);
    ConnectResult(s, idx, id, verdict, now);
    assert !HoldsRt(s1.table.slots[idx]);
    if s.table.slots[idx].state == GrantedWarmup {
      assert HoldsRt(s.table.slots[idx]);
      WaitersRemain(s, s1, idx);
    } else {
      HolderStays(s, s1, idx);
      if SomeoneWaits(s1.table.slots) {
        var w :| 0 <= w < |s.table.slots| && Waiting(s1.table.slots[w]);
        assert Waiting(s.table.slots[w]);
      }
    }
  }

  lemma HolderStays(s: Server, s1: Server, idx: int)
    requires InRange(s.table, idx) && |s1.table.slots| == |s.table.slots|
    requires !HoldsRt(s.table.slots[idx])
    requires forall i :: 0 <= i < |s.table.slots| && i != idx ==> s1.table.slots[i] == s.table.slots[i]
    ensures RtSlotTaken(s.table.slots) ==> RtSlotTaken(s1.table.slots)
  {
    if RtSlotTaken(s.table.slots) {
      var h :| 0 <= h < |s.table.slots| && HoldsRt(s.table.slots[h]);
      assert HoldsRt(s1.table.slots[h]);
    }
  }

  lemma DisconnectConserves(s: Server, idx: int, now: Timespec)
    requires Safe(s) && Occupied(s, idx) && Conserving(s)
    ensures Conserving(HandleDisconnect(s, idx, now))
  {
    DropSafe(s, idx);
    var s1 := Drop(s, idx);
    if RtState(s.table.slots[idx].state) {
      FinishSafe(s1);
      OfferConserves(FinishPendingGrant(s1), now);
    } else if SomeoneWaits(s1.table.slots) {
      var w :| 0 <= w < |s.table.slots| && Waiting(s1.table.slots[w]);
      assert Waiting(s.table.slots[w]);
    }
  }

  lemma GrantSlotConserves(s: Server, idx: int, now: Timespec)
    requires Safe(s) && InRange(s.table, idx) && Grantable(s.table.slots[idx])
    ensures RtSlotTaken(GrantSlot(s, idx, now).table.slots)
  {
    if s.table.activeSlot >= 0 {
      var s1 := EvictInFavourOf(s, s.table.activeSlot, idx, now);
      assert HoldsRt(s1.table.slots[s.table.activeSlot]);
    } else if !RtSlotTaken(s.table.slots) {
      GrantTakes(s, idx);
    }
  }

  lemma ActivateRequestConserves(s: Server, idx: int, now: Timespec)
    requires Safe(s) && Occupied(s, idx) && Conserving(s)
    ensures Conserving(HandleActivateRequest(s, idx, now))
  {
    if s.table.slots[idx].state == Negotiated {
      if RtSlotTaken(s.table.slots) {
        HolderStays(s, HandleActivateRequest(s, idx, now), idx);
      } else {
        GrantSlotConserves(s, idx, now);
      }
    }
  }

  lemma ReadyConserves(s: Server, idx: int, now: Timespec)
    requires Safe(s) && Occupied(s, idx) && Conserving(s)
    ensures Conserving(HandleReadyForRt(s, idx, now))
  {
    if s.table.slots[idx].state == GrantedWarmup {
      assert HoldsRt(HandleReadyForRt(s, idx, now).table.slots[idx]);
    }
  }

  lemma HeartbeatConserves(s: Server, idx: int, now: Timespec)
    requires Safe(s) && Occupied(s, idx) && Conserving(s)
    ensures Conserving(HandleHeartbeat(s, idx, now))
  {
    var s1 := HandleHeartbeat(s, idx, now);
    if s.table.slots[idx].state == ActiveRt { assert HoldsRt(s1.table.slots[idx]); }
  }

  lemma AcceptConserves(s: Server)
    requires Safe(s) && Conserving(s)
    ensures Conserving(Accept(s))
  {
    var idx := FirstFree(s.table.slots);
    if idx != -1 {
      HolderStays(s, Accept(s), idx);
      WaitersRemain(s, Accept(s), idx);
    }
  }

  lemma TimersConserve(s: Server, now: Timespec)
    requires Safe(s) && Conserving(s)
    ensures Conserving(CheckHeartbeats(s, now)) && Conserving(CheckGrace(s, now))
  {
    var idx := TimedOut(s.table, now);
    if idx >= 0 {
      TimeOutSafe(s, idx);
      OfferConserves(TimeOut(s, idx), now);
    }
    if s.evicting >= 0 && GraceElapsed(now, s.deadline) {
      ForceOutSafe(s);
      FinishSafe(ForceOut(s));
      OfferConserves(FinishPendingGrant(ForceOut(s)), now);
    }
  }

  /** Work conservation survives an event exactly when the event is not a stranding one. */
  lemma WorkConservedExactly(s: Server, e: Event)
    requires Safe(s) && Legal(s, e) && Conserving(s)
    ensures Conserving(Next(s, e)) <==> !Strands(s, e)
  {
    match e
    case Accepted => AcceptConserves(s);
    case Hangup(idx, now) => DisconnectConserves(s, idx, now);
    case Switch(id, now) =>
      var idx := FindByClientId(s.table.slots, id);
      if idx >= 0 && Grantable(s.table.slots[idx]) { GrantSlotConserves(s, idx, now); }
    case HeartbeatTick(now) => TimersConserve(s, now);
    case GraceTick(now) => TimersConserve(s, now);
    case Received(idx, m, now) =>
      match m {
        case Connect(id, verdict) => ConnectConservesExactly(s, idx, id, verdict, now);
        case ActivateRequest => ActivateRequestConserves(s, idx, now);
        case ReadyForRt(_) => ReadyConserves(s, idx, now);
        case GrantDecline =>
          if s.table.slots[idx].state == GrantedWarmup {
            WarmupBackSafe(s, idx);
            OfferConserves(s.(table := SetState(s.table, idx, Negotiated)), now);
          }
        case Stopped(_) =>
          if s.table.slots[idx].state == EvictingCooperative { StoppedConservesExactly(s, idx); }
        case Heartbeat => HeartbeatConserves(s, idx, now);
        case Disconnect => DisconnectConserves(s, idx, now);
        case DmabufAnnounce =>
        case Other =>
      }
  }

  ghost predicate NeverStrands(s: Server, run: seq<Event>)
    requires LegalRun(s, run)
    decreases |run|
  {
    run == [] || (!Strands(s, run[0]) && NeverStrands(Next(s, run[0]), run[1..]))
  }

  lemma {:induction false} ConservedFrom(s: Server, run: seq<Event>)
    requires Safe(s) && Conserving(s) && LegalRun(s, run) && NeverStrands(s, run)
    ensures Conserving(Exec(s, run))
    decreases |run|
  {
    if run != [] {
      NextSafe(s, run[0]);
      WorkConservedExactly(s, run[0]);
      ConservedFrom(Next(s, run[0]), run[1..]);
    }
  }

  /** Over every run in which no STOPPED finds its target gone (and no client repeats
      CONNECT in warm-up), the RT slot is never idle while a client is queued. */
  lemma WorkConservation(n: nat, run: seq<Event>)
    requires LegalRun(Init(n), run) && NeverStrands(Init(n), run)
    ensures Conserving(Exec(Init(n), run))
  {
    InitSafe(n);
    ConservedFrom(Init(n), run);
  }

  /** How clients get stranded: switch from the active client a to c, let c hang up, and let
      a stop. Whoever was queued then waits in front of an idle RT slot. */
  lemma SwitchThenHangupStrands(s: Server, a: int, b: int, c: int, eviction: nat, now: Timespec)
    requires Safe(s)
    requires Occupied(s, a) && s.table.slots[a].state == ActiveRt
    requires Occupied(s, b) && s.table.slots[b].state == Queued
    requires Occupied(s, c) && c != b && Grantable(s.table.slots[c])
    requires FindByClientId(s.table.slots, s.table.slots[c].clientId) == c
    ensures var run := [Switch(s.table.slots[c].clientId, now), Hangup(c, now), Received(a, Stopped(eviction), now)];
            && LegalRun(s, run)
            && SomeoneWaits(Exec(s, run).table.slots)
            && !RtSlotTaken(Exec(s, run).table.slots)
  {
    var e1, e2, e3 := Switch(s.table.slots[c].clientId, now), Hangup(c, now), Received(a, Stopped(eviction), now);
    AfterSwitch(s, a, c, now);
    AfterTargetHangup(Next(s, e1), a, b, c, now);
    AfterStopped(Next(Next(s, e1), e2), a, b, eviction, now);
    ThreeSteps(s, e1, e2, e3);
  }

  lemma AfterSwitch(s: Server, a: int, c: int, now: Timespec)
    requires Safe(s) && Occupied(s, a) && s.table.slots[a].state == ActiveRt
    requires Occupied(s, c) && Grantable(s.table.slots[c])
    requires FindByClientId(s.table.slots, s.table.slots[c].clientId) == c
    ensures var s1 := Next(s, Switch(s.table.slots[c].clientId, now));
            && Safe(s1)
            && s1.table.slots == s.table.slots[a := s.table.slots[a].(state := EvictingCooperative)]
            && s1.evicting == a && s1.pending == c
  {
    NextSafe(s, Switch(s.table.slots[c].clientId, now));
    assert s.table.activeSlot == a;
  }

  lemma AfterTargetHangup(s: Server, a: int, b: int, c: int, now: Timespec)
    requires Safe(s) && Occupied(s, a) && Occupied(s, b) && Occupied(s, c) && c != a && c != b
    requires Grantable(s.table.slots[c]) && s.pending == c && s.evicting == a
    ensures Legal(s, Hangup(c, now))
    ensures var s1 := Next(s, Hangup(c, now));
            && Safe(s1) && |s1.table.slots| == |s.table.slots|
            && s1.table.slots[a] == s.table.slots[a] && s1.table.slots[b] == s.table.slots[b]
            && s1.pending == -1 && s1.evicting == a
  {
    NextSafe(s, Hangup(c, now));
  }

  lemma AfterStopped(s: Server, a: int, b: int, eviction: nat, now: Timespec)
    requires Safe(s) && Occupied(s, a) && s.table.slots[a].state == EvictingCooperative && s.pending == -1
    requires Occupied(s, b) && s.table.slots[b].state == Queued
    ensures Legal(s, Received(a, Stopped(eviction), now))
    ensures var s1 := Next(s, Received(a, Stopped(eviction), now));
            SomeoneWaits(s1.table.slots) && !RtSlotTaken(s1.table.slots)
  {
    assert Waiting(s.table.slots[b]);
    StoppedConservesExactly(s, a);
    assert Waiting(HandleStopped(s, a).table.slots[b]);
  }

  /** A warm-up has no deadline: only a message from its own client, or the loss of its
      connection, ends it. */
  lemma OnlyItsClientEndsWarmup(s: Server, e: Event, i: int)
    requires Safe(s) && Legal(s, e) && Occupied(s, i) && s.table.slots[i].state == GrantedWarmup
    requires (e.Received? || e.Hangup?) ==> e.idx != i
    ensures |Next(s, e).table.slots| == |s.table.slots| && Next(s, e).table.slots[i] == s.table.slots[i]
  {
    assert HoldsRt(s.table.slots[i]);
    if s.table.activeSlot >= 0 { assert HoldsRt(s.table.slots[s.table.activeSlot]); }
    if s.evicting >= 0 { assert HoldsRt(s.table.slots[s.evicting]); }
    match e
    case Received(idx, m, now) =>
      assert !HoldsRt(s.table.slots[idx]);
      if m.Connect? { ConnectResult(s, idx, m.clientId, m.verdict, now); }
    case _ =>
  }

  // Bounded bypass.

  /** Nothing is being evicted and nothing is owed: the state of every run without SWITCH. */
  ghost predicate Calm(s: Server) {
    Safe(s) && Conserving(s) && s.pending == -1 && s.evicting == -1
  }

  /** No SWITCH; CONNECT not repeated by the slot's holder; requests carry later times than
      those still waiting. */
  ghost predicate Orderly(s: Server, e: Event) {
    && InBounds(s)
    && Legal(s, e)
    && !e.Switch?
    && (e.Received? && e.msg.Connect? ==> !RtState(s.table.slots[e.idx].state))
    && (e.Received? && e.msg.ActivateRequest? ==>
          forall i :: 0 <= i < |s.table.slots| && Waiting(s.table.slots[i]) ==>
            Earlier(s.table.slots[i].activateRequested, e.now))
  }

  /** Slot j received a grant in the step from s to s1. */
  predicate GrantedIn(s: Server, s1: Server, j: int) {
    0 <= j < |s1.table.slots| && s1.table.slots[j].inUse && s1.table.slots[j].grantedEpoch > s.epoch
  }

  ghost function Grants(s: Server, s1: Server): nat {
    if exists j :: GrantedIn(s, s1, j) then 1 else 0
  }

  /** What an orderly step may do to a client waiting at slot i. */
  ghost predicate FairStep(s: Server, s1: Server, i: int)
    requires |s1.table.slots| == |s.table.slots| && 0 <= i < |s.table.slots|
  {
    && Calm(s1)
    && (forall j :: GrantedIn(s, s1, j) ==> QueuePosition(s.table.slots, j) == 1 && s1.table.slots[j].state == GrantedWarmup)
    && (Waiting(s1.table.slots[i]) ==>
          QueuePosition(s1.table.slots, i) + Grants(s, s1) <= QueuePosition(s.table.slots, i))
  }

  /** A step that leaves the queue alone and grants nothing. */
  lemma FairIfQueueKept(s: Server, s1: Server, i: int)
    requires Calm(s) && Calm(s1) && SameQueue(s.table.slots, s1.table.slots)
    requires 0 <= i < |s.table.slots|
    requires forall j :: !GrantedIn(s, s1, j)
    ensures FairStep(s, s1, i)
  {
    SameQueueSamePositions(s.table.slots, s1.table.slots, i);
  }

  /** A step that frees the RT slot, leaves the queue alone, and then offers it. */
  lemma FairIfOffered(s: Server, mid: Server, i: int, now: Timespec)
    requires Calm(s) && Safe(mid) && mid.pending == -1 && mid.evicting == -1
    requires SameQueue(s.table.slots, mid.table.slots) && mid.epoch >= s.epoch
    requires 0 <= i < |s.table.slots| && Waiting(s.table.slots[i])
    requires forall j :: !GrantedIn(s, mid, j)
    ensures |MaybeGrantNextQueued(mid, now).table.slots| == |s.table.slots|
    ensures FairStep(s, MaybeGrantNextQueued(mid, now), i)
  {
    CalmOffer(mid, now);
    OfferEffect(mid, now);
    if !RtSlotTaken(mid.table.slots) && FindNextQueued(mid.table) >= 0 {
      FairGrantToHead(s, mid, i);
    } else {
      FairIfQueueKept(s, mid, i);
    }
  }

  lemma FairGrantToHead(s: Server, mid: Server, i: int)
    requires SameQueue(s.table.slots, mid.table.slots) && mid.epoch >= s.epoch
    requires 0 <= i < |s.table.slots| && Waiting(s.table.slots[i])
    requires forall j :: !GrantedIn(s, mid, j)
    requires FindNextQueued(mid.table) >= 0
    ensures var s1 := DoGrant(mid, FindNextQueued(mid.table));
            && |s1.table.slots| == |s.table.slots|
            && (forall j :: GrantedIn(s, s1, j) ==> QueuePosition(s.table.slots, j) == 1 && s1.table.slots[j].state == GrantedWarmup)
            && (Waiting(s1.table.slots[i]) ==>
                  QueuePosition(s1.table.slots, i) + 1 <= QueuePosition(s.table.slots, i))
  {
    var h := FindNextQueued(mid.table);
    var s1 := DoGrant(mid, h);
    NextIsPositionOne(mid.table);
    SameQueueSamePositions(s.table.slots, mid.table.slots, h);
    SameQueueSamePositions(s.table.slots, mid.table.slots, i);
    assert forall j :: 0 <= j < |s.table.slots| && j != h && GrantedIn(s, s1, j) ==> GrantedIn(s, mid, j);
    if i != h { GrantingTheHeadMovesAllUp(mid.table, mid.epoch + 1, i); }
  }

  /** A waiting client drops out; everyone else keeps or improves their place. */
  lemma FairIfOneLeaves(s: Server, s1: Server, x: int, i: int)
    requires Calm(s) && Calm(s1) && 0 <= i < |s.table.slots| && Waiting(s.table.slots[i])
    requires InRange(s.table, x) && InRange(s1.table, x)
    requires Waiting(s.table.slots[x]) && !Waiting(s1.table.slots[x])
    requires |s1.table.slots| == |s.table.slots| && s1.table.slots == s.table.slots[x := s1.table.slots[x]]
    requires s1.table.slots[x].inUse ==> s1.table.slots[x].grantedEpoch <= s.epoch
    ensures FairStep(s, s1, i)
  {
    if i != x { LeavingMovesUp(s.table.slots, x, s1.table.slots[x], i); }
  }

  lemma CalmOffer(mid: Server, now: Timespec)
    requires Safe(mid) && mid.pending == -1 && mid.evicting == -1
    ensures Calm(MaybeGrantNextQueued(mid, now))
  {
    OfferSafe(mid, now);
    OfferConserves(mid, now);
    OfferEffect(mid, now);
  }

  lemma CalmDisconnect(s: Server, idx: int, now: Timespec)
    requires Calm(s) && Occupied(s, idx)
    ensures Calm(HandleDisconnect(s, idx, now))
  {
    DropSafe(s, idx);
    DisconnectSafe(s, idx, now);
    DisconnectConserves(s, idx, now);
    if RtState(s.table.slots[idx].state) { CalmOffer(Drop(s, idx), now); }
  }

  /** Freeing a slot touches that slot alone. */
  lemma DropShape(s: Server, idx: int)
    requires InBounds(s) && Occupied(s, idx)
    ensures var s1 := Drop(s, idx);
            && |s1.table.slots| == |s.table.slots|
            && !s1.table.slots[idx].inUse
            && s1.table.slots == s.table.slots[idx := s1.table.slots[idx]]
            && s1.epoch >= s.epoch
  {}

  lemma FairDisconnect(s: Server, idx: int, now: Timespec, i: int)
    requires Calm(s) && Occupied(s, idx) && 0 <= i < |s.table.slots| && Waiting(s.table.slots[i])
    ensures |HandleDisconnect(s, idx, now).table.slots| == |s.table.slots|
    ensures FairStep(s, HandleDisconnect(s, idx, now), i)
  {
    var s1 := Drop(s, idx);
    DropShape(s, idx);
    if RtState(s.table.slots[idx].state) {
      DropSafe(s, idx);
      FairIfOffered(s, s1, i, now);
    } else {
      CalmDisconnect(s, idx, now);
      if Waiting(s.table.slots[idx]) {
        FairIfOneLeaves(s, s1, idx, i);
      } else {
        FairIfQueueKept(s, s1, i);
      }
    }
  }

  lemma FairConnect(s: Server, idx: int, id: string, verdict: Verdict, now: Timespec, i: int)
    requires Calm(s) && Occupied(s, idx) && !RtState(s.table.slots[idx].state)
    requires 0 <= i < |s.table.slots| && Waiting(s.table.slots[i])
    ensures |HandleConnect(s, idx, id, verdict, now).table.slots| == |s.table.slots|
    ensures FairStep(s, HandleConnect(s, idx, id, verdict, now), i)
  {
    var s1 := HandleConnect(s, idx, id, verdict, now);
    ConnectKeepsSafetyExactly(s, idx, id, verdict, now);
    ConnectConservesExactly(s, idx, id, verdict, now);
    ConnectResult(s, idx, id, verdict, now);
    if Waiting(s.table.slots[idx]) {
      FairIfOneLeaves(s, s1, idx, i);
    } else {
      FairIfQueueKept(s, s1, i);
    }
  }

  lemma FairRequest(s: Server, idx: int, now: Timespec, i: int)
    requires Calm(s) && Orderly(s, Received(idx, ActivateRequest, now))
    requires 0 <= i < |s.table.slots| && Waiting(s.table.slots[i])
    ensures |HandleActivateRequest(s, idx, now).table.slots| == |s.table.slots|
    ensures FairStep(s, HandleActivateRequest(s, idx, now), i)
  {
    var s1 := HandleActivateRequest(s, idx, now);
    ActivateRequestSafe(s, idx, now);
    ActivateRequestConserves(s, idx, now);
    if s.table.slots[idx].state == Negotiated {
      LatecomerIsLast(s.table.slots, idx, now);
    } else {
      FairIfQueueKept(s, s1, i);
    }
  }

  lemma FairDecline(s: Server, idx: int, now: Timespec, i: int)
    requires Calm(s) && Occupied(s, idx)
    requires 0 <= i < |s.table.slots| && Waiting(s.table.slots[i])
    ensures |HandleGrantDecline(s, idx, now).table.slots| == |s.table.slots|
    ensures FairStep(s, HandleGrantDecline(s, idx, now), i)
  {
    if s.table.slots[idx].state == GrantedWarmup {
      WarmupBackSafe(s, idx);
      FairIfOffered(s, s.(table := SetState(s.table, idx, Negotiated)), i, now);
    } else {
      FairIfQueueKept(s, s, i);
    }
  }

  lemma FairReady(s: Server, idx: int, now: Timespec, i: int)
    requires Calm(s) && Occupied(s, idx)
    requires 0 <= i < |s.table.slots| && Waiting(s.table.slots[i])
    ensures |HandleReadyForRt(s, idx, now).table.slots| == |s.table.slots|
    ensures FairStep(s, HandleReadyForRt(s, idx, now), i)
  {
    ReadySafe(s, idx, now);
    ReadyConserves(s, idx, now);
    if s.table.slots[idx].state == GrantedWarmup { assert HoldsRt(s.table.slots[idx]); }
    FairIfQueueKept(s, HandleReadyForRt(s, idx, now), i);
  }

  lemma FairMessage(s: Server, idx: int, m: ToServer, now: Timespec, i: int)
    requires Calm(s) && Orderly(s, Received(idx, m, now))
    requires 0 <= i < |s.table.slots| && Waiting(s.table.slots[i])
    ensures |HandleMessage(s, idx, m, now).table.slots| == |s.table.slots|
    ensures FairStep(s, HandleMessage(s, idx, m, now), i)
  {
    match m
    case Connect(id, verdict) => FairConnect(s, idx, id, verdict, now, i);
    case ActivateRequest => FairRequest(s, idx, now, i);
    case Disconnect => FairDisconnect(s, idx, now, i);
    case GrantDecline => FairDecline(s, idx, now, i);
    case ReadyForRt(_) => FairReady(s, idx, now, i);
    case Heartbeat =>
      HeartbeatSafe(s, idx, now);
      HeartbeatConserves(s, idx, now);
      FairIfQueueKept(s, HandleHeartbeat(s, idx, now), i);
    case Stopped(_) => FairIfQueueKept(s, HandleStopped(s, idx), i);
    case DmabufAnnounce => FairIfQueueKept(s, Send(s, idx, DmabufAck), i);
    case Other => FairIfQueueKept(s, s, i);
  }

  lemma FairAccept(s: Server, i: int)
    requires Calm(s) && 0 <= i < |s.table.slots| && Waiting(s.table.slots[i])
    ensures |Accept(s).table.slots| == |s.table.slots|
    ensures FairStep(s, Accept(s), i)
  {
    AcceptSafe(s);
    AcceptConserves(s);
    FairIfQueueKept(s, Accept(s), i);
  }

  lemma FairHeartbeatCheck(s: Server, i: int, now: Timespec)
    requires Calm(s) && 0 <= i < |s.table.slots| && Waiting(s.table.slots[i])
    ensures |ControlSpec.CheckHeartbeats(s, now).table.slots| == |s.table.slots|
    ensures FairStep(s, ControlSpec.CheckHeartbeats(s, now), i)
  {
    var idx := TimedOut(s.table, now);
    if idx >= 0 {
      TimeOutSafe(s, idx);
      FairIfOffered(s, TimeOut(s, idx), i, now);
    } else {
      FairIfQueueKept(s, s, i);
    }
  }

  /** Every grant made while slot i waits goes to the client at position 1, and costs i
      nothing: its position drops by at least one per grant and never rises. */
  lemma OrderlyStepIsFair(s: Server, e: Event, i: int)
    requires Calm(s) && Orderly(s, e)
    requires 0 <= i < |s.table.slots| && Waiting(s.table.slots[i])
    ensures |Next(s, e).table.slots| == |s.table.slots|
    ensures FairStep(s, Next(s, e), i)
  {
    match e
    case Accepted => FairAccept(s, i);
    case Received(idx, m, now) => FairMessage(s, idx, m, now, i);
    case Hangup(idx, now) => FairDisconnect(s, idx, now, i);
    case HeartbeatTick(now) => FairHeartbeatCheck(s, i, now);
    case GraceTick(now) => FairIfQueueKept(s, s, i);
  }

  /** An orderly run throughout which slot i stays QUEUED. */
  ghost predicate WaitsThrough(s: Server, run: seq<Event>, i: int)
    decreases |run|
  {
    && 0 <= i < |s.table.slots| && Waiting(s.table.slots[i])
    && (run != [] ==> Orderly(s, run[0]) && WaitsThrough(Next(s, run[0]), run[1..], i))
  }

  ghost function GrantsDuring(s: Server, run: seq<Event>, i: int): nat
    requires WaitsThrough(s, run, i)
    decreases |run|
  {
    if run == [] then 0
    else Grants(s, Next(s, run[0])) + GrantsDuring(Next(s, run[0]), run[1..], i)
  }

  ghost function After(s: Server, run: seq<Event>, i: int): Server
    requires WaitsThrough(s, run, i)
    decreases |run|
  {
    if run == [] then s else After(Next(s, run[0]), run[1..], i)
  }

  /** Bounded bypass: while slot i waits, others are granted at most position(i) - 1 times,
      and each such grant has moved i up. */
  lemma {:induction false} BoundedBypass(s: Server, run: seq<Event>, i: int)
    requires Calm(s) && WaitsThrough(s, run, i)
    ensures GrantsDuring(s, run, i) <= QueuePosition(s.table.slots, i) - 1
    ensures var end := After(s, run, i);
            && Calm(end) && 0 <= i < |end.table.slots|
            && 1 <= QueuePosition(end.table.slots, i)
            && QueuePosition(end.table.slots, i) + GrantsDuring(s, run, i) <= QueuePosition(s.table.slots, i)
    decreases |run|
  {
    if run != [] {
      OrderlyStepIsFair(s, run[0], i);
      BoundedBypass(Next(s, run[0]), run[1..], i);
    }
  }

  // Runs without SWITCH stay calm, so BoundedBypass applies at any point of them.

  lemma CalmMessage(s: Server, idx: int, m: ToServer, now: Timespec)
    requires Calm(s) && Orderly(s, Received(idx, m, now))
    ensures Calm(HandleMessage(s, idx, m, now))
  {
    NextSafe(s, Received(idx, m, now));
    WorkConservedExactly(s, Received(idx, m, now));
    match m
    case Connect(id, verdict) => ConnectResult(s, idx, id, verdict, now);
    case Disconnect => CalmDisconnect(s, idx, now);
    case GrantDecline =>
      if s.table.slots[idx].state == GrantedWarmup {
        WarmupBackSafe(s, idx);
        CalmOffer(s.(table := SetState(s.table, idx, Negotiated)), now);
      }
    case ActivateRequest =>
      if !RtSlotTaken(s.table.slots) { FreeMeansNoCache(s); }
    case _ =>
  }

  lemma OrderlyStepStaysCalm(s: Server, e: Event)
    requires Calm(s) && Orderly(s, e)
    ensures Calm(Next(s, e))
  {
    match e
    case Accepted =>
      AcceptSafe(s);
      AcceptConserves(s);
    case Received(idx, m, now) => CalmMessage(s, idx, m, now);
    case Hangup(idx, now) => CalmDisconnect(s, idx, now);
    case HeartbeatTick(now) =>
      var idx := TimedOut(s.table, now);
      if idx >= 0 {
        TimeOutSafe(s, idx);
        CalmOffer(TimeOut(s, idx), now);
      }
    case GraceTick(now) =>
  }

  ghost predicate OrderlyRun(s: Server, run: seq<Event>)
    decreases |run|
  {
    run != [] ==> Orderly(s, run[0]) && OrderlyRun(Next(s, run[0]), run[1..])
  }

  lemma {:induction false} OrderlyRunsAreCalm(s: Server, run: seq<Event>)
    requires Calm(s) && OrderlyRun(s, run)
    ensures LegalRun(s, run) && Calm(Exec(s, run))
    decreases |run|
  {
    if run != [] {
      OrderlyStepStaysCalm(s, run[0]);
      OrderlyRunsAreCalm(Next(s, run[0]), run[1..]);
    }
  }

  /** Bounded bypass for any run without SWITCH, from any moment of it at which i waits. */
  lemma BoundedBypassFromInit(n: nat, before: seq<Event>, run: seq<Event>, i: int)
    requires OrderlyRun(Init(n), before)
    requires LegalRun(Init(n), before) && WaitsThrough(Exec(Init(n), before), run, i)
    ensures var s := Exec(Init(n), before);
            0 <= i < |s.table.slots| && GrantsDuring(s, run, i) <= QueuePosition(s.table.slots, i) - 1
  {
    InitSafe(n);
    OrderlyRunsAreCalm(Init(n), before);
    BoundedBypass(Exec(Init(n), before), run, i);
  }
}
