/** What each message, each new connection and each admin request brings about: the table, the
    generation and the messages sent, in full and in the terms of the table alone. */
module Outcomes {
  import opened Timespecs
  import opened Messages
  import opened Sessions
  import opened QueueOrder
  import opened ControlSpec
  import opened RtSafety
  import opened Fairness

  /** The slot's connection exists. */
  predicate Connection(s: Server, idx: int) {
    InRange(s.table, idx) && s.table.slots[idx].inUse && 0 <= s.table.slots[idx].fd < |s.down|
  }

  /** Between s and s1 exactly these messages were sent, all to slot idx. */
  predicate SentTo(s: Server, s1: Server, idx: int, said: seq<ToClient>)
    requires Connection(s, idx)
  {
    s1.down == s.down[s.table.slots[idx].fd := s.down[s.table.slots[idx].fd] + said]
  }

  /** The channels after this was sent to slot idx, or to nobody. */
  function Mailed(s: Server, idx: int, m: ToClient): seq<seq<ToClient>>
    requires idx < |s.table.slots|
  {
    if idx < 0 || !(0 <= s.table.slots[idx].fd < |s.down|) then s.down
    else s.down[s.table.slots[idx].fd := s.down[s.table.slots[idx].fd] + [m]]
  }

  /** Slot idx is in warm-up under the next generation, has been sent its GRANT, and nothing else
      has changed but possibly the queue it left. */
  predicate GrantedTo(s: Server, s1: Server, idx: int)
    requires Connection(s, idx)
  {
    && s1.table.slots == s.table.slots[idx := s.table.slots[idx].(state := GrantedWarmup, grantedEpoch := s.epoch + 1)]
    && s1.table.activeSlot == s.table.activeSlot
    && s1.epoch == s.epoch + 1
    && s1.evicting == s.evicting && s1.pending == s.pending && s1.deadline == s.deadline && s1.evictions == s.evictions
    && SentTo(s, s1, idx, [ActivateGrant(s.epoch + 1)])
  }

  /** The server starts with n free slots, nobody connected and nothing granted. */
  lemma StartsEmpty(n: nat)
    ensures var s := Init(n);
            && |s.table.slots| == n && (forall i :: 0 <= i < n ==> !s.table.slots[i].inUse)
            && s.table.activeSlot == s.evicting == s.pending == -1 && s.epoch == s.evictions == 0 && s.down == []
  {}

  // Connections.

  /** A new connection gets the lowest free slot, wiped clean, and an empty channel. */
  lemma AcceptTakesLowestSlot(s: Server, i: int)
    requires InBounds(s) && 0 <= i < |s.table.slots| && !s.table.slots[i].inUse
    requires forall j :: 0 <= j < i ==> s.table.slots[j].inUse
    ensures var s1 := Next(s, Accepted);
            && s1.table == Table(s.table.slots[i := Session(true, |s.down|, "", Connected, 0, Timespec(0, 0), Timespec(0, 0))],
                                 s.table.activeSlot)
            && s1.down == s.down + [[]] && s1.(table := s.table, down := s.down) == s
  {}

  /** With every slot in use it gets none. */
  lemma AcceptOnFullTable(s: Server)
    requires InBounds(s) && forall j :: 0 <= j < |s.table.slots| ==> s.table.slots[j].inUse
    ensures Next(s, Accepted) == s.(down := s.down + [[]])
  {}

  /** A client that is turned away is told why and its slot is free again; one that is taken on is
      told so, named and NEGOTIATED. */
  lemma ConnectOutcome(s: Server, idx: int, id: string, verdict: Verdict, now: Timespec)
    requires InBounds(s) && Connection(s, idx) && s.table.slots[idx].state == Connected && s.pending != idx
    ensures var slot, s1 := s.table.slots[idx], Next(s, Received(idx, Connect(id, verdict), now));
            && SentTo(s, s1, idx, match verdict
                 case VersionMismatched => [VersionMismatch]
                 case NoCommonMode => [Mode(false)]
                 case ModeChosen => [Mode(true)])
            && s1.table.slots == s.table.slots[idx :=
                 if verdict == ModeChosen then slot.(clientId := CString(id), state := Negotiated)
                 else slot.(state := Rejected, inUse := false, fd := -1)]
            && s1.(table := s.table, down := s.down) == s && s1.table.activeSlot == s.table.activeSlot
  {
    ConnectResult(s, idx, id, verdict, now);
  }

  /** A client that leaves, or is lost, frees its slot and no other. If it was active, the ring
      is evicted; if it held the RT slot, the slot goes to the pending target if that may
      still be granted, and else to the head of the queue. */
  lemma DisconnectOutcome(s: Server, idx: int, now: Timespec)
    requires Safe(s) && Occupied(s, idx)
    ensures Next(s, Received(idx, Disconnect, now)) == Next(s, Hangup(idx, now))
    ensures var s1 := Next(s, Hangup(idx, now));
            && |s1.table.slots| == |s.table.slots|
            && !s1.table.slots[idx].inUse && s1.table.slots[idx].fd == -1
            && (!RtState(s.table.slots[idx].state) ==>
                  && s1.epoch == s.epoch && s1.down == s.down
                  && forall j :: 0 <= j < |s.table.slots| && j != idx ==> s1.table.slots[j] == s.table.slots[j])
            && (RtState(s.table.slots[idx].state) ==> Inherits(s, s1, idx, Heir(s, idx)))
  {
    if RtState(s.table.slots[idx].state) {
      HolderLost(s, idx, now);
    } else {
      BystanderLost(s, idx);
    }
  }

  lemma BystanderLost(s: Server, idx: int)
    requires Safe(s) && Occupied(s, idx) && !RtState(s.table.slots[idx].state)
    ensures var s1 := Drop(s, idx);
            && |s1.table.slots| == |s.table.slots|
            && !s1.table.slots[idx].inUse && s1.table.slots[idx].fd == -1
            && s1.epoch == s.epoch && s1.down == s.down
            && forall j :: 0 <= j < |s.table.slots| && j != idx ==> s1.table.slots[j] == s.table.slots[j]
  {}

  /** Who gets the RT slot when its holder is lost, -1 for nobody. */
  ghost function Heir(s: Server, idx: int): (heir: int)
    requires InBounds(s)
    ensures -1 <= heir < |s.table.slots|
  {
    if s.pending >= 0 && s.pending != idx && Grantable(s.table.slots[s.pending]) then s.pending else FindNextQueued(s.table)
  }

  /** The heir is in warm-up under the newest generation; an active holder's loss moved it once. */
  predicate Inherits(s: Server, s1: Server, idx: int, heir: int)
    requires InRange(s.table, idx) && -1 <= heir < |s.table.slots| == |s1.table.slots|
  {
    var base := if s.table.slots[idx].state == ActiveRt then s.epoch + 1 else s.epoch;
    && s1.epoch == (if heir >= 0 then base + 1 else base)
    && s1.down == Mailed(s, heir, ActivateGrant(s1.epoch))
    && (heir >= 0 ==> s1.table.slots[heir] == s.table.slots[heir].(state := GrantedWarmup, grantedEpoch := s1.epoch))
    && (forall j :: 0 <= j < |s.table.slots| && j != idx && j != heir ==> s1.table.slots[j] == s.table.slots[j])
  }

  lemma HolderLost(s: Server, idx: int, now: Timespec)
    requires Safe(s) && Occupied(s, idx) && RtState(s.table.slots[idx].state)
    ensures var s1 := HandleDisconnect(s, idx, now);
            && |s1.table.slots| == |s.table.slots|
            && !s1.table.slots[idx].inUse && s1.table.slots[idx].fd == -1
            && Inherits(s, s1, idx, Heir(s, idx))
  {
    var mid := Drop(s, idx);
    DropSafe(s, idx);
    HolderDropped(s, idx);
    SameQueueSameNext(s.table, mid.table);
    PassedOn(mid, now);
    InheritsThrough(s, mid, MaybeGrantNextQueued(FinishPendingGrant(mid), now), idx, Heir(s, idx));
  }

  /** What happens to the table without slot idx happens to the whole of it. */
  lemma InheritsThrough(s: Server, mid: Server, s1: Server, idx: int, heir: int)
    requires InRange(s.table, idx) && -1 <= heir < |s.table.slots| == |mid.table.slots| == |s1.table.slots| && heir != idx
    requires forall j :: 0 <= j < |s.table.slots| && j != idx ==> mid.table.slots[j] == s.table.slots[j]
    requires mid.down == s.down && mid.epoch == if s.table.slots[idx].state == ActiveRt then s.epoch + 1 else s.epoch
    requires s1.epoch == (if heir >= 0 then mid.epoch + 1 else mid.epoch)
    requires s1.down == Mailed(mid, heir, ActivateGrant(s1.epoch))
    requires heir >= 0 ==> s1.table.slots[heir] == mid.table.slots[heir].(state := GrantedWarmup, grantedEpoch := s1.epoch)
    requires forall j :: 0 <= j < |s.table.slots| && j != heir ==> s1.table.slots[j] == mid.table.slots[j]
    ensures Inherits(s, s1, idx, heir)
  {}

  /** What a lost holder leaves behind. */
  lemma HolderDropped(s: Server, idx: int)
    requires Safe(s) && Occupied(s, idx) && RtState(s.table.slots[idx].state)
    ensures var mid := Drop(s, idx);
            && |mid.table.slots| == |s.table.slots| && SameQueue(s.table.slots, mid.table.slots)
            && !mid.table.slots[idx].inUse && mid.table.slots[idx].fd == -1
            && (forall j :: 0 <= j < |s.table.slots| && j != idx ==> mid.table.slots[j] == s.table.slots[j])
            && mid.epoch == (if s.table.slots[idx].state == ActiveRt then s.epoch + 1 else s.epoch)
            && mid.down == s.down
            && mid.pending == if s.pending == idx then -1 else s.pending
  {}

  /** A free RT slot goes to the pending target, or else to the head of the queue. */
  lemma PassedOn(s: Server, now: Timespec)
    requires Safe(s) && !RtSlotTaken(s.table.slots)
    ensures InBounds(FinishPendingGrant(s))
    ensures var s1 := MaybeGrantNextQueued(FinishPendingGrant(s), now);
            var heir := if s.pending >= 0 && Grantable(s.table.slots[s.pending]) then s.pending else FindNextQueued(s.table);
            && |s1.table.slots| == |s.table.slots|
            && s1.epoch == (if heir >= 0 then s.epoch + 1 else s.epoch)
            && s1.down == Mailed(s, heir, ActivateGrant(s1.epoch)) && s1.evicting == s.evicting
            && (heir >= 0 ==> s1.table.slots[heir] == s.table.slots[heir].(state := GrantedWarmup, grantedEpoch := s1.epoch))
            && (forall j :: 0 <= j < |s.table.slots| && j != heir ==> s1.table.slots[j] == s.table.slots[j])
  {
    if s.pending >= 0 && Grantable(s.table.slots[s.pending]) {
      PassedToTarget(s, now);
    } else {
      PassedToQueue(s, now);
    }
  }

  lemma PassedToTarget(s: Server, now: Timespec)
    requires Safe(s) && !RtSlotTaken(s.table.slots) && s.pending >= 0 && Grantable(s.table.slots[s.pending])
    ensures InBounds(FinishPendingGrant(s))
    ensures MaybeGrantNextQueued(FinishPendingGrant(s), now) == DoGrant(s.(pending := -1), s.pending)
  {
    FinishSafe(s);
    GrantTakes(s.(pending := -1), s.pending);
  }

  lemma PassedToQueue(s: Server, now: Timespec)
    requires Safe(s) && !RtSlotTaken(s.table.slots) && (s.pending < 0 || !Grantable(s.table.slots[s.pending]))
    ensures InBounds(FinishPendingGrant(s))
    ensures var head := FindNextQueued(s.table);
            MaybeGrantNextQueued(FinishPendingGrant(s), now) ==
            if head >= 0 then DoGrant(s.(pending := -1), head) else s.(pending := -1)
  {
    FinishSafe(s);
    OfferEffect(FinishPendingGrant(s), now);
  }

  // Requests.

  /** A request finding the RT slot free is granted at once. */
  lemma RequestGranted(s: Server, idx: int, now: Timespec)
    requires Safe(s) && Connection(s, idx) && s.table.slots[idx].state == Negotiated && !RtSlotTaken(s.table.slots)
    ensures GrantedTo(s, Next(s, Received(idx, ActivateRequest, now)), idx)
  {
    FreeMeansNoCache(s);
  }

  /** One finding it taken is queued as of now and told how many are served before it, plus one. */
  lemma RequestQueued(s: Server, idx: int, now: Timespec)
    requires Safe(s) && Connection(s, idx) && s.table.slots[idx].state == Negotiated && RtSlotTaken(s.table.slots)
    ensures var s1 := Next(s, Received(idx, ActivateRequest, now));
            && s1.table == Table(s.table.slots[idx := s.table.slots[idx].(state := Queued, activateRequested := now)], s.table.activeSlot)
            && s1.(table := s.table, down := s.down) == s
            && SentTo(s, s1, idx, [ActivateQueued(1 + |Ahead(s1.table.slots, idx)|)])
  {}

  /** Any other is ignored. */
  lemma RequestIgnored(s: Server, idx: int, now: Timespec)
    requires InBounds(s) && Occupied(s, idx) && s.table.slots[idx].state != Negotiated
    ensures Next(s, Received(idx, ActivateRequest, now)) == s
  {}

  // The holder's messages.

  /** READY_FOR_RT makes the client in warm-up the active one, alive as of now. */
  lemma ReadyOutcome(s: Server, idx: int, g: nat, now: Timespec)
    requires Safe(s) && Occupied(s, idx)
    ensures Next(s, Received(idx, ReadyForRt(g), now)) ==
            if s.table.slots[idx].state != GrantedWarmup then s
            else s.(table := Table(s.table.slots[idx := s.table.slots[idx].(state := ActiveRt, lastHeartbeat := now)], idx))
  {
    if s.table.slots[idx].state == GrantedWarmup { assert HoldsRt(s.table.slots[idx]); }
  }

  lemma HeartbeatOutcome(s: Server, idx: int, now: Timespec)
    requires Safe(s) && Occupied(s, idx)
    ensures Next(s, Received(idx, Heartbeat, now)) ==
            if s.table.slots[idx].state != ActiveRt then s
            else s.(table := Table(s.table.slots[idx := s.table.slots[idx].(lastHeartbeat := now)], s.table.activeSlot))
  {}

  /** A client that declines is NEGOTIATED, and the RT slot goes to the head of the queue. */
  lemma DeclineOutcome(s: Server, idx: int, now: Timespec)
    requires Safe(s) && Occupied(s, idx)
    ensures s.table.slots[idx].state != GrantedWarmup ==> Next(s, Received(idx, GrantDecline, now)) == s
    ensures s.table.slots[idx].state == GrantedWarmup ==>
              var s1 := Next(s, Received(idx, GrantDecline, now));
              var head := FindNextQueued(s.table);
              && |s1.table.slots| == |s.table.slots|
              && s1.table.slots[idx] == s.table.slots[idx].(state := Negotiated)
              && s1.epoch == (if head >= 0 then s.epoch + 1 else s.epoch)
              && s1.down == Mailed(s, head, ActivateGrant(s.epoch + 1))
              && (head >= 0 ==> s1.table.slots[head] == s.table.slots[head].(state := GrantedWarmup, grantedEpoch := s.epoch + 1))
              && forall j :: 0 <= j < |s.table.slots| && j != idx && j != head ==> s1.table.slots[j] == s.table.slots[j]
  {
    if s.table.slots[idx].state == GrantedWarmup {
      var mid := s.(table := SetState(s.table, idx, Negotiated));
      WarmupBackSafe(s, idx);
      SameQueueSameNext(s.table, mid.table);
      Offered(mid, now);
      assert Next(s, Received(idx, GrantDecline, now)) == MaybeGrantNextQueued(mid, now);
    }
  }

  /** A free RT slot offered to the queue goes to its head. */
  lemma Offered(s: Server, now: Timespec)
    requires Safe(s) && !RtSlotTaken(s.table.slots)
    ensures var s1, head := MaybeGrantNextQueued(s, now), FindNextQueued(s.table);
            && |s1.table.slots| == |s.table.slots|
            && s1.epoch == (if head >= 0 then s.epoch + 1 else s.epoch)
            && s1.down == Mailed(s, head, ActivateGrant(s.epoch + 1))
            && (head >= 0 ==> s1.table.slots[head] == s.table.slots[head].(state := GrantedWarmup, grantedEpoch := s.epoch + 1))
            && forall j :: 0 <= j < |s.table.slots| && j != head ==> s1.table.slots[j] == s.table.slots[j]
  {
    OfferEffect(s, now);
  }

  /** STOPPED from the client being evicted makes it NEGOTIATED and hands the RT slot to the
      pending target, or to nobody. */
  lemma StoppedOutcome(s: Server, idx: int, k: nat, now: Timespec)
    requires Safe(s) && Occupied(s, idx)
    ensures s.table.slots[idx].state != EvictingCooperative ==> Next(s, Received(idx, Stopped(k), now)) == s
    ensures s.table.slots[idx].state == EvictingCooperative ==>
              var s1 := Next(s, Received(idx, Stopped(k), now));
              && |s1.table.slots| == |s.table.slots| && s1.evicting == -1 && s1.pending == -1
              && s1.table.slots[idx] == s.table.slots[idx].(state := Negotiated)
              && s1.epoch == (if s.pending >= 0 then s.epoch + 1 else s.epoch)
              && s1.down == Mailed(s, s.pending, ActivateGrant(s.epoch + 1))
              && (s.pending >= 0 ==>
                    s1.table.slots[s.pending] == s.table.slots[s.pending].(state := GrantedWarmup, grantedEpoch := s.epoch + 1))
              && forall j :: 0 <= j < |s.table.slots| && j != idx && j != s.pending ==> s1.table.slots[j] == s.table.slots[j]
  {}

  /** DMABUF_ANNOUNCE is answered, in any state, and changes nothing; so does anything unknown,
      unanswered. */
  lemma AnnounceOutcome(s: Server, idx: int, now: Timespec)
    requires InBounds(s) && Connection(s, idx)
    ensures var s1 := Next(s, Received(idx, DmabufAnnounce, now));
            SentTo(s, s1, idx, [DmabufAck]) && s1.(down := s.down) == s
    ensures Next(s, Received(idx, Other, now)) == s
  {}

  // The admin's SWITCH.

  /** A switch to a client that may be granted, with the RT slot free: it is granted at once. */
  lemma SwitchGrantsFreeSlot(s: Server, id: string, c: int, now: Timespec)
    requires Safe(s) && FindByClientId(s.table.slots, id) == c && Connection(s, c) && Grantable(s.table.slots[c])
    requires !RtSlotTaken(s.table.slots)
    ensures GrantedTo(s, Next(s, Switch(id, now)), c)
  {
    FreeMeansNoCache(s);
  }

  /** With a client active it is told to go, and the target and the deadline are set. */
  lemma SwitchEvicts(s: Server, id: string, c: int, now: Timespec)
    requires Safe(s) && FindByClientId(s.table.slots, id) == c && 0 <= c < |s.table.slots| && Grantable(s.table.slots[c])
    requires s.table.activeSlot >= 0 && Connection(s, s.table.activeSlot)
    ensures var a, s1 := s.table.activeSlot, Next(s, Switch(id, now));
            && s1.table == Table(s.table.slots[a := s.table.slots[a].(state := EvictingCooperative)], -1)
            && s1.evicting == a && s1.pending == c && s1.epoch == s.epoch && s1.evictions == s.evictions + 1
            && s1.deadline == AddMillis(now, EVICT_GRACE_MS)
            && SentTo(s, s1, a, [EvictPending(s.evictions + 1)])
  {}

  /** With the RT slot held by a client in warm-up or being evicted, only the target changes. */
  lemma SwitchRetargets(s: Server, id: string, c: int, now: Timespec)
    requires Safe(s) && FindByClientId(s.table.slots, id) == c && 0 <= c < |s.table.slots| && Grantable(s.table.slots[c])
    requires s.table.activeSlot < 0 && RtSlotTaken(s.table.slots)
    ensures Next(s, Switch(id, now)) == s.(pending := c)
  {}

  /** A switch to anybody else does nothing. */
  lemma SwitchIgnored(s: Server, id: string, now: Timespec)
    requires Safe(s)
    requires var c := FindByClientId(s.table.slots, id); c < 0 || !Grantable(s.table.slots[c])
    ensures Next(s, Switch(id, now)) == s
  {}

  /** The answer is ok exactly when some connected client has the id, and the first that does is
      active, negotiated or queued. */
  lemma SwitchAnswer(s: Server, id: string)
    ensures SwitchOk(s, id) <==>
            exists c :: 0 <= c < |s.table.slots| && FirstNamed(s.table.slots, id, c)
                        && s.table.slots[c].state in {ActiveRt, Negotiated, Queued}
  {
    var c := FindByClientId(s.table.slots, id);
    if c >= 0 {
      assert FirstNamed(s.table.slots, id, c);
      forall d | 0 <= d < |s.table.slots| && FirstNamed(s.table.slots, id, d) ensures d == c {}
    }
  }

  ghost predicate FirstNamed(slots: seq<Session>, id: string, c: int)
    requires 0 <= c < |slots|
  {
    && slots[c].inUse && SameId(slots[c].clientId, id)
    && forall j :: 0 <= j < c && slots[j].inUse ==> !SameId(slots[j].clientId, id)
  }

  // The timers.

  lemma HeartbeatCheckIdle(s: Server, now: Timespec)
    requires InBounds(s)
    requires s.table.activeSlot < 0 || !HeartbeatExpired(now, s.table.slots[s.table.activeSlot].lastHeartbeat)
    ensures Next(s, HeartbeatTick(now)) == s
  {}

  /** The grace check does nothing before its time; then it makes the client being evicted
      NEGOTIATED and passes the RT slot on as if it had been lost. */
  lemma GraceOutcome(s: Server, now: Timespec)
    requires Safe(s)
    ensures s.evicting < 0 || !GraceElapsed(now, s.deadline) ==> Next(s, GraceTick(now)) == s
    ensures s.evicting >= 0 && GraceElapsed(now, s.deadline) ==>
              var s1 := Next(s, GraceTick(now));
              var a, heir := s.evicting, Heir(s, s.evicting);
              && |s1.table.slots| == |s.table.slots| && s1.evicting == -1
              && s1.table.slots[a] == s.table.slots[a].(state := Negotiated)
              && Inherits(s, s1, a, heir)
  {
    if s.evicting >= 0 && GraceElapsed(now, s.deadline) {
      ForcedOut(s, now);
      assert Next(s, GraceTick(now)) == MaybeGrantNextQueued(FinishPendingGrant(ForceOut(s)), now);
    }
  }

  lemma ForcedOut(s: Server, now: Timespec)
    requires Safe(s) && s.evicting >= 0
    ensures InBounds(FinishPendingGrant(ForceOut(s)))
    ensures var s1 := MaybeGrantNextQueued(FinishPendingGrant(ForceOut(s)), now);
            var a := s.evicting;
            && |s1.table.slots| == |s.table.slots| && s1.evicting == -1
            && s1.table.slots[a] == s.table.slots[a].(state := Negotiated)
            && Inherits(s, s1, a, Heir(s, a))
  {
    var mid := ForceOut(s);
    ForceOutSafe(s);
    SameQueueSameNext(s.table, mid.table);
    PassedOn(mid, now);
    InheritsThrough(s, mid, MaybeGrantNextQueued(FinishPendingGrant(mid), now), s.evicting, Heir(s, s.evicting));
  }

  // The table's own operations, beyond what the protocol exercises.

  /** Activating a slot makes whichever other one was active NEGOTIATED. */
  lemma ActivateDisplaces(t: Table, idx: int, now: Timespec)
    requires InRange(t, idx) && -1 <= t.activeSlot < |t.slots| && t.activeSlot != idx
    requires t.activeSlot >= 0 ==> t.slots[t.activeSlot].state == ActiveRt
    ensures var t1 := Activate(t, idx, now);
            && |t1.slots| == |t.slots| && t1.activeSlot == idx
            && t1.slots[idx] == t.slots[idx].(state := ActiveRt, lastHeartbeat := now)
            && (t.activeSlot >= 0 ==> t1.slots[t.activeSlot] == t.slots[t.activeSlot].(state := Negotiated))
            && forall j :: 0 <= j < |t.slots| && j != idx && j != t.activeSlot ==> t1.slots[j] == t.slots[j]
  {}

  /** Removing the active slot clears the cache; removing a free one does nothing. */
  lemma RemoveOutcome(t: Table, idx: int)
    requires InRange(t, idx)
    ensures !t.slots[idx].inUse ==> Remove(t, idx) == t
    ensures t.slots[idx].inUse ==>
              var t1 := Remove(t, idx);
              && |t1.slots| == |t.slots| && !t1.slots[idx].inUse && t1.slots[idx].fd == -1
              && t1.activeSlot == (if t.activeSlot == idx && t.slots[idx].state == ActiveRt then -1 else t.activeSlot)
              && forall j :: 0 <= j < |t.slots| && j != idx ==> t1.slots[j] == t.slots[j]
  {}

  /** An eviction is begun only of the active slot, forced only once begun, and reclaimed either way. */
  lemma EvictionOperations(t: Table, idx: int)
    requires InRange(t, idx)
    ensures var state := t.slots[idx].state;
            && BeginEviction(t, idx).slots == t.slots[idx := t.slots[idx].(state := if state == ActiveRt then EvictingCooperative else state)]
            && BeginEviction(t, idx).activeSlot == (if state == ActiveRt && t.activeSlot == idx then -1 else t.activeSlot)
            && MarkEvictionForced(t, idx) == Table(t.slots[idx := t.slots[idx].(state :=
                 if state == EvictingCooperative then EvictingForced else state)], t.activeSlot)
            && ReclaimEviction(t, idx) == Table(t.slots[idx := t.slots[idx].(state :=
                 if state == EvictingCooperative || state == EvictingForced then Negotiated else state)], t.activeSlot)
  {
    assert t.slots[idx := t.slots[idx]] == t.slots;
  }
}
