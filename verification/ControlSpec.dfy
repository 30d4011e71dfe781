/** What each control-plane handler does to the server's state, as functions. The class in
    ControlPlane.dfy is proved to compute them; the protocol theorems are about them. */
module ControlSpec {
  import opened Timespecs
  import opened Messages
  import opened Sessions

  /** `down[fd]` is what has been written to connection fd and not yet read by its client.
      `evictions` counts the cooperative evictions begun so far. */
  datatype Server = Server(
    table: Table,
    evicting: int,
    pending: int,
    deadline: Timespec,
    epoch: nat,
    evictions: nat,
    down: seq<seq<ToClient>>)

  function Init(n: nat): Server {
    Server(Table(seq(n, _ => FREE_SLOT), -1), -1, -1, ZERO, 0, 0, [])
  }

  /** Indices the handlers follow stay inside the table. */
  predicate InBounds(s: Server) {
    && -1 <= s.table.activeSlot < |s.table.slots|
    && -1 <= s.evicting < |s.table.slots|
    && -1 <= s.pending < |s.table.slots|
  }

  predicate Occupied(s: Server, idx: int) {
    InRange(s.table, idx) && s.table.slots[idx].inUse
  }

  predicate Grantable(slot: Session) {
    slot.inUse && (slot.state == Negotiated || slot.state == Queued)
  }

  function Send(s: Server, idx: int, m: ToClient): Server
    requires InRange(s.table, idx)
  {
    var fd := s.table.slots[idx].fd;
    if 0 <= fd < |s.down| then s.(down := s.down[fd := s.down[fd] + [m]]) else s
  }

  function DoGrant(s: Server, idx: int): Server
    requires InRange(s.table, idx)
  {
    var epoch := s.epoch + 1;
    Send(s.(epoch := epoch, table := Grant(s.table, idx, epoch)), idx, ActivateGrant(epoch))
  }

  function EvictInFavourOf(s: Server, prev: int, target: int, now: Timespec): Server
    requires InRange(s.table, prev)
  {
    var s1 := s.(table := BeginEviction(s.table, prev), evictions := s.evictions + 1,
                 evicting := prev, pending := target, deadline := AddMillis(now, EVICT_GRACE_MS));
    Send(s1, prev, EvictPending(s1.evictions))
  }

  function FinishPendingGrant(s: Server): Server
    requires s.pending < |s.table.slots|
  {
    var s1 := s.(pending := -1);
    if s.pending < 0 || !Grantable(s.table.slots[s.pending]) then s1 else DoGrant(s1, s.pending)
  }

  ghost function GrantSlot(s: Server, idx: int, now: Timespec): Server
    requires InBounds(s) && InRange(s.table, idx)
  {
    if s.table.activeSlot >= 0 && s.table.activeSlot != idx then EvictInFavourOf(s, s.table.activeSlot, idx, now)
    else if RtSlotTaken(s.table.slots) then s.(pending := idx)
    else DoGrant(s, idx)
  }

  ghost function MaybeGrantNextQueued(s: Server, now: Timespec): Server
    requires InBounds(s)
  {
    if RtSlotTaken(s.table.slots) then s
    else
      var next := FindNextQueued(s.table);
      if next >= 0 then GrantSlot(s, next, now) else s
  }

  /** The part of a disconnect that runs before the RT slot is offered onward. */
  function Drop(s: Server, idx: int): Server
    requires InRange(s.table, idx)
  {
    var state := s.table.slots[idx].state;
    var s1 :=
      if state == ActiveRt then s.(epoch := s.epoch + 1)
      else if state == EvictingCooperative || state == EvictingForced then
        s.(table := ReclaimEviction(s.table, idx), evicting := if s.evicting == idx then -1 else s.evicting)
      else s;
    var s2 := s1.(pending := if s1.pending == idx then -1 else s1.pending);
    s2.(table := Remove(s2.table, idx))
  }

  ghost function HandleDisconnect(s: Server, idx: int, now: Timespec): Server
    requires InBounds(s) && InRange(s.table, idx)
  {
    var s1 := Drop(s, idx);
    if RtState(s.table.slots[idx].state) then MaybeGrantNextQueued(FinishPendingGrant(s1), now) else s1
  }

  ghost function HandleConnect(s: Server, idx: int, id: string, verdict: Verdict, now: Timespec): Server
    requires InBounds(s) && InRange(s.table, idx)
  {
    match verdict
    case VersionMismatched =>
      var s1 := Send(s, idx, VersionMismatch);
      HandleDisconnect(s1.(table := SetState(s1.table, idx, Rejected)), idx, now)
    case NoCommonMode =>
      var s1 := Send(s, idx, Mode(false));
      HandleDisconnect(s1.(table := SetState(s1.table, idx, Rejected)), idx, now)
    case ModeChosen =>
      var s1 := Send(s, idx, Mode(true));
      s1.(table := s1.table.(slots := s1.table.slots[idx := s1.table.slots[idx].(clientId := CString(id), state := Negotiated)]))
  }

  function Enqueue(t: Table, idx: int, now: Timespec): Table
    requires InRange(t, idx)
  {
    t.(slots := t.slots[idx := t.slots[idx].(state := Queued, activateRequested := now)])
  }

  ghost function HandleActivateRequest(s: Server, idx: int, now: Timespec): Server
    requires InBounds(s) && InRange(s.table, idx)
  {
    if s.table.slots[idx].state != Negotiated then s
    else if !RtSlotTaken(s.table.slots) then GrantSlot(s, idx, now)
    else
      var s1 := s.(table := Enqueue(s.table, idx, now));
      Send(s1, idx, ActivateQueued(QueuePosition(s1.table.slots, idx)))
  }

  function HandleReadyForRt(s: Server, idx: int, now: Timespec): Server
    requires InBounds(s) && InRange(s.table, idx)
  {
    if s.table.slots[idx].state != GrantedWarmup then s
    else s.(table := Activate(s.table, idx, now))
  }

  ghost function HandleGrantDecline(s: Server, idx: int, now: Timespec): Server
    requires InBounds(s) && InRange(s.table, idx)
  {
    if s.table.slots[idx].state != GrantedWarmup then s
    else MaybeGrantNextQueued(s.(table := SetState(s.table, idx, Negotiated)), now)
  }

  function HandleStopped(s: Server, idx: int): Server
    requires InBounds(s) && InRange(s.table, idx)
  {
    if s.table.slots[idx].state != EvictingCooperative then s
    else FinishPendingGrant(
      s.(table := ReclaimEviction(s.table, idx), evicting := if s.evicting == idx then -1 else s.evicting))
  }

  function HandleHeartbeat(s: Server, idx: int, now: Timespec): Server
    requires InRange(s.table, idx)
  {
    if s.table.slots[idx].state != ActiveRt then s
    else s.(table := s.table.(slots := s.table.slots[idx := s.table.slots[idx].(lastHeartbeat := now)]))
  }

  ghost function HandleMessage(s: Server, idx: int, m: ToServer, now: Timespec): Server
    requires InBounds(s) && InRange(s.table, idx)
  {
    match m
    case Connect(id, verdict) => HandleConnect(s, idx, id, verdict, now)
    case ActivateRequest => HandleActivateRequest(s, idx, now)
    case ReadyForRt(_) => HandleReadyForRt(s, idx, now)
    case GrantDecline => HandleGrantDecline(s, idx, now)
    case Stopped(_) => HandleStopped(s, idx)
    case Heartbeat => HandleHeartbeat(s, idx, now)
    case Disconnect => HandleDisconnect(s, idx, now)
    case DmabufAnnounce => Send(s, idx, DmabufAck)
    case Other => s
  }

  /** SWITCH: whether the admin is told ok, and what happens. */
  function SwitchOk(s: Server, id: string): bool {
    var idx := FindByClientId(s.table.slots, id);
    idx >= 0 && (s.table.slots[idx].state == ActiveRt || Grantable(s.table.slots[idx]))
  }

  ghost function HandleSwitch(s: Server, id: string, now: Timespec): Server
    requires InBounds(s)
  {
    var idx := FindByClientId(s.table.slots, id);
    if idx < 0 || !Grantable(s.table.slots[idx]) then s else GrantSlot(s, idx, now)
  }

  /** A switch does nothing, or what granting to some client does. */
  lemma SwitchOutcomes(s: Server, id: string, now: Timespec)
    requires InBounds(s)
    ensures HandleSwitch(s, id, now) == s
         || exists idx :: InRange(s.table, idx) && Grantable(s.table.slots[idx]) && HandleSwitch(s, id, now) == GrantSlot(s, idx, now)
  {
    var idx := FindByClientId(s.table.slots, id);
    if idx >= 0 && Grantable(s.table.slots[idx]) { assert HandleSwitch(s, id, now) == GrantSlot(s, idx, now); }
  }

  /** The liveness branch of the poll loop. */
  ghost function CheckHeartbeats(s: Server, now: Timespec): Server
    requires InBounds(s)
  {
    var idx := TimedOut(s.table, now);
    if idx < 0 then s else MaybeGrantNextQueued(TimeOut(s, idx), now)
  }

  function TimeOut(s: Server, idx: int): Server
    requires InRange(s.table, idx)
  {
    var s1 := s.(table := Sessions.Deactivate(s.table, idx), epoch := s.epoch + 1);
    Send(Send(s1, idx, LivenessTimeout), idx, Messages.Deactivate)
  }

  /** The two ways the liveness check can come out, without the clock arithmetic. */
  lemma HeartbeatOutcomes(s: Server, now: Timespec)
    requires InBounds(s)
    ensures CheckHeartbeats(s, now) == s
         || (s.table.activeSlot >= 0 && InBounds(TimeOut(s, s.table.activeSlot))
             && CheckHeartbeats(s, now) == MaybeGrantNextQueued(TimeOut(s, s.table.activeSlot), now))
  {}

  /** The grace-period branch of the poll loop. */
  ghost function CheckGrace(s: Server, now: Timespec): Server
    requires InBounds(s)
  {
    if s.evicting < 0 || !GraceElapsed(now, s.deadline) then s
    else MaybeGrantNextQueued(FinishPendingGrant(ForceOut(s)), now)
  }

  function ForceOut(s: Server): Server
    requires 0 <= s.evicting < |s.table.slots|
  {
    s.(evicting := -1, table := ReclaimEviction(MarkEvictionForced(s.table, s.evicting), s.evicting))
  }

  /** accept(): the new connection gets the next fd; with a full table it is closed at once. */
  function Accept(s: Server): Server {
    var fd := |s.down|;
    var s1 := s.(down := s.down + [[]]);
    var idx := FirstFree(s.table.slots);
    if idx == -1 then s1 else s1.(table := s1.table.(slots := s1.table.slots[idx := NewSession(fd)]))
  }

  /** Everything the poll loop does atomically. `Hangup` is a failed read or POLLHUP. */
  datatype Event =
    | Accepted
    | Received(idx: int, msg: ToServer, now: Timespec)
    | Hangup(idx: int, now: Timespec)
    | Switch(id: string, now: Timespec)
    | HeartbeatTick(now: Timespec)
    | GraceTick(now: Timespec)

  predicate Enabled(s: Server, e: Event) {
    match e
    case Received(idx, _, _) => Occupied(s, idx)
    case Hangup(idx, _) => Occupied(s, idx)
    case _ => true
  }

  ghost function Next(s: Server, e: Event): Server
    requires InBounds(s) && Enabled(s, e)
  {
    match e
    case Accepted => Accept(s)
    case Received(idx, m, now) => HandleMessage(s, idx, m, now)
    case Hangup(idx, now) => HandleDisconnect(s, idx, now)
    case Switch(id, now) => HandleSwitch(s, id, now)
    case HeartbeatTick(now) => CheckHeartbeats(s, now)
    case GraceTick(now) => CheckGrace(s, now)
  }
}
