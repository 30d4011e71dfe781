/** The server's session table: a fixed array of client slots with a cached index of the
    ACTIVE_RT one. Each operation appears twice: as a function on table values, which the
    protocol lemmas reason about, and as a method of `SessionTable` that updates the array
    in place and is proved to compute that function.

    The ring's 32-bit generation word is represented by the unbounded number of bumps so
    far (the epoch); `Word` gives the value a process actually reads. */
module Sessions {
  import opened Timespecs

  datatype SessionState =
    | Connected
    | Negotiated
    | Queued
    | GrantedWarmup
    | ActiveRt
    | EvictingCooperative
    | EvictingForced
    | Rejected

  /** `fd` is the slot's control connection, -1 when the slot is free. */
  datatype Session = Session(inUse: bool, fd: int, clientId: string, state: SessionState,
                             grantedEpoch: nat, lastHeartbeat: Timespec, activateRequested: Timespec)

  datatype Table = Table(slots: seq<Session>, activeSlot: int)

  const ZERO := Timespec(0, 0)
  const FREE_SLOT := Session(false, -1, "", Connected, 0, ZERO, ZERO)

  /** The generation word after `epoch` bumps. */
  function Word(epoch: nat): nat {
    epoch % 0x1_0000_0000
  }

  predicate RtState(state: SessionState) {
    state == GrantedWarmup || state == ActiveRt || state == EvictingCooperative || state == EvictingForced
  }

  /** The slot is occupied by a client that has, is about to get, or is being eased out of
      the single RT slot. */
  predicate HoldsRt(s: Session) {
    s.inUse && RtState(s.state)
  }

  /** The client has been granted the RT slot and not been asked to leave it. */
  predicate Fielded(state: SessionState) {
    state == GrantedWarmup || state == ActiveRt
  }

  predicate Waiting(s: Session) {
    s.inUse && s.state == Queued
  }

  ghost predicate RtSlotTaken(slots: seq<Session>) {
    exists i :: 0 <= i < |slots| && HoldsRt(slots[i])
  }

  ghost predicate SomeoneWaits(slots: seq<Session>) {
    exists i :: 0 <= i < |slots| && Waiting(slots[i])
  }

  /** Slot i is served before slot j: older request, ties to the lower index. */
  predicate Before(slots: seq<Session>, i: int, j: int)
    requires 0 <= i < |slots| && 0 <= j < |slots|
  {
    Earlier(slots[i].activateRequested, slots[j].activateRequested)
    || (slots[i].activateRequested == slots[j].activateRequested && i < j)
  }

  /** The waiting slots served before slot j. */
  ghost function Ahead(slots: seq<Session>, j: int): set<int>
    requires 0 <= j < |slots|
  {
    set i | 0 <= i < |slots| && i != j && Waiting(slots[i]) && Before(slots, i, j)
  }

  /** The first free slot at or after `from`, -1 if there is none. */
  function FirstFree(slots: seq<Session>, from: nat := 0): (r: int)
    requires from <= |slots|
    ensures r == -1 ==> forall i :: from <= i < |slots| ==> slots[i].inUse
    ensures r != -1 ==> from <= r < |slots| && !slots[r].inUse && forall i :: from <= i < r ==> slots[i].inUse
    decreases |slots| - from
  {
    if from == |slots| then -1 else if !slots[from].inUse then from else FirstFree(slots, from + 1)
  }

  const CLIENT_ID_LEN := 32

  /** What is left of an id in a NUL-terminated buffer of n bytes. */
  function CString(id: string, n: nat := CLIENT_ID_LEN): (r: string)
    ensures |r| <= |id| && (n > 0 ==> |r| < n) && r == id[..|r|]
    ensures forall i :: 0 <= i < |r| ==> r[i] != '\0'
    ensures |r| == |id| || |r| + 1 >= n || id[|r|] == '\0'
  {
    if n <= 1 || id == "" || id[0] == '\0' then "" else [id[0]] + CString(id[1..], n - 1)
  }

  /** What strncmp() sees of two ids. */
  predicate SameId(a: string, b: string) {
    CString(a) == CString(b)
  }

  /** Ids that fit, and hold no NUL, are the same only if they are equal. */
  lemma SameIdExactly(a: string, b: string)
    requires |a| < 32 && |b| < 32
    requires (forall i :: 0 <= i < |a| ==> a[i] != '\0') && (forall i :: 0 <= i < |b| ==> b[i] != '\0')
    ensures SameId(a, b) <==> a == b
  {
    assert CString(a) == a && CString(b) == b;
  }

  /** Longer ones are cut to the same length, and told apart by their first 31 characters. */
  lemma LongIdsAreCut(a: string)
    requires |a| >= 31 && forall i :: 0 <= i < |a| ==> a[i] != '\0'
    ensures CString(a) == a[..31]
  {}

  /** A stored id is found under the full one it was cut from, and under no other but those
      cut to the same. */
  lemma {:induction false} StoredIdIsFound(id: string, n: nat)
    ensures CString(CString(id, n), n) == CString(id, n)
    decreases n
  {
    if n > 1 && id != "" && id[0] != '\0' {
      StoredIdIsFound(id[1..], n - 1);
      assert CString(id, n)[1..] == CString(id[1..], n - 1);
    }
  }

  /** The first occupied slot at or after `from` with this client id, -1 if there is none. */
  function FindByClientId(slots: seq<Session>, id: string, from: nat := 0): (r: int)
    requires from <= |slots|
    ensures r == -1 ==> forall i :: from <= i < |slots| && slots[i].inUse ==> !SameId(slots[i].clientId, id)
    ensures r != -1 ==> from <= r < |slots| && slots[r].inUse && SameId(slots[r].clientId, id)
    ensures r != -1 ==> forall i :: from <= i < r && slots[i].inUse ==> !SameId(slots[i].clientId, id)
    decreases |slots| - from
  {
    if from == |slots| then -1
    else if slots[from].inUse && SameId(slots[from].clientId, id) then from
    else FindByClientId(slots, id, from + 1)
  }

  /** The waiting slot among the first k that is served before every other one of them. */
  function NextQueued(slots: seq<Session>, k: nat): (best: int)
    requires k <= |slots|
    ensures best == -1 || 0 <= best < k
    ensures best == -1 <==> forall i :: 0 <= i < k ==> !Waiting(slots[i])
    ensures best != -1 ==> Waiting(slots[best])
    ensures best != -1 ==> forall j :: 0 <= j < k && j != best && Waiting(slots[j]) ==> Before(slots, best, j)
  {
    if k == 0 then -1
    else
      var best := NextQueued(slots, k - 1);
      if !Waiting(slots[k - 1]) then best
      else if best < 0 || Earlier(slots[k - 1].activateRequested, slots[best].activateRequested) then k - 1
      else best
  }

  function FindNextQueued(t: Table): int {
    NextQueued(t.slots, |t.slots|)
  }

  ghost function QueuePosition(slots: seq<Session>, idx: int): nat
    requires 0 <= idx < |slots|
  {
    if Waiting(slots[idx]) then 1 + |Ahead(slots, idx)| else 0
  }

  // Table updates.

  predicate InRange(t: Table, idx: int) {
    0 <= idx < |t.slots|
  }

  function SetState(t: Table, idx: int, state: SessionState): Table
    requires InRange(t, idx)
  {
    t.(slots := t.slots[idx := t.slots[idx].(state := state)])
  }

  function NewSession(fd: int): Session {
    Session(true, fd, "", Connected, 0, ZERO, ZERO)
  }

  function Grant(t: Table, idx: int, epoch: nat): Table
    requires InRange(t, idx)
  {
    t.(slots := t.slots[idx := t.slots[idx].(state := GrantedWarmup, grantedEpoch := epoch)])
  }

  function Deactivate(t: Table, idx: int): Table
    requires InRange(t, idx)
  {
    if t.slots[idx].state != ActiveRt then t
    else SetState(t, idx, Negotiated).(activeSlot := if t.activeSlot == idx then -1 else t.activeSlot)
  }

  function Activate(t: Table, idx: int, now: Timespec): Table
    requires InRange(t, idx) && t.activeSlot < |t.slots|
  {
    var t1 := if t.activeSlot >= 0 && t.activeSlot != idx then Deactivate(t, t.activeSlot) else t;
    Table(t1.slots[idx := t1.slots[idx].(state := ActiveRt, lastHeartbeat := now)], idx)
  }

  function BeginEviction(t: Table, idx: int): Table
    requires InRange(t, idx)
  {
    if t.slots[idx].state != ActiveRt then t
    else SetState(t, idx, EvictingCooperative).(activeSlot := if t.activeSlot == idx then -1 else t.activeSlot)
  }

  function MarkEvictionForced(t: Table, idx: int): Table
    requires InRange(t, idx)
  {
    if t.slots[idx].state == EvictingCooperative then SetState(t, idx, EvictingForced) else t
  }

  function ReclaimEviction(t: Table, idx: int): Table
    requires InRange(t, idx)
  {
    if t.slots[idx].state == EvictingCooperative || t.slots[idx].state == EvictingForced
    then SetState(t, idx, Negotiated) else t
  }

  function Remove(t: Table, idx: int): Table
    requires InRange(t, idx)
  {
    if !t.slots[idx].inUse then t
    else
      var t1 := Deactivate(t, idx);
      t1.(slots := t1.slots[idx := t1.slots[idx].(inUse := false, fd := -1)])
  }

  /** The slot the liveness check times out, -1 if none. */
  function TimedOut(t: Table, now: Timespec): int
    requires t.activeSlot < |t.slots|
  {
    if t.activeSlot >= 0 && HeartbeatExpired(now, t.slots[t.activeSlot].lastHeartbeat) then t.activeSlot else -1
  }

  /** The table itself: a fixed array updated in place. */
  class SessionTable {
    const slots: array<Session>
    var activeSlot: int

    function View(): Table
      reads this, slots
    {
      Table(slots[..], activeSlot)
    }

    predicate Valid()
      reads this
    {
      -1 <= activeSlot < slots.Length
    }

    constructor (n: nat)
      ensures fresh(slots) && Valid()
      ensures View() == Table(seq(n, _ => FREE_SLOT), -1)
    {
      slots := new Session[n](_ => FREE_SLOT);
      activeSlot := -1;
    }

    method Add(fd: int) returns (idx: int)
      modifies slots
      ensures idx == FirstFree(old(slots[..]))
      ensures slots[..] == if idx == -1 then old(slots[..]) else old(slots[..])[idx := NewSession(fd)]
    {
      var i := 0;
      while i < slots.Length
        invariant 0 <= i <= slots.Length
        invariant slots[..] == old(slots[..])
        invariant FirstFree(slots[..], i) == FirstFree(slots[..])
      {
        if !slots[i].inUse {
          slots[i] := NewSession(fd);
          return i;
        }
        i := i + 1;
      }
      return -1;
    }

    method LookupClientId(id: string) returns (idx: int)
      ensures idx == FindByClientId(slots[..], id)
    {
      for i := 0 to slots.Length
        invariant FindByClientId(slots[..], id, i) == FindByClientId(slots[..], id)
      {
        if slots[i].inUse && SameId(slots[i].clientId, id) { return i; }
      }
      return -1;
    }

    method Taken() returns (taken: bool)
      ensures taken <==> RtSlotTaken(slots[..])
      ensures taken <==> exists i :: 0 <= i < slots.Length && slots[i].inUse &&
                           slots[i].state in {GrantedWarmup, ActiveRt, EvictingCooperative, EvictingForced}
    {
      for i := 0 to slots.Length
        invariant forall j :: 0 <= j < i ==> !HoldsRt(slots[j])
      {
        if HoldsRt(slots[i]) {
          assert HoldsRt(slots[..][i]);
          return true;
        }
      }
      return false;
    }

    method NextInLine() returns (best: int)
      ensures best == FindNextQueued(View())
    {
      best := -1;
      for i := 0 to slots.Length
        invariant best == NextQueued(slots[..], i)
      {
        if Waiting(slots[i])
           && (best < 0 || Earlier(slots[i].activateRequested, slots[best].activateRequested)) {
          best := i;
        }
      }
    }

    method PositionOf(idx: int) returns (position: nat)
      requires 0 <= idx < slots.Length
      ensures position == QueuePosition(slots[..], idx)
    {
      if !Waiting(slots[idx]) { return 0; }
      position := 1;
      ghost var seen: set<int> := {};
      for i := 0 to slots.Length
        invariant seen == set j | 0 <= j < i && j != idx && Waiting(slots[j]) && Before(slots[..], j, idx)
        invariant position == 1 + |seen|
      {
        if i != idx && Waiting(slots[i]) && Before(slots[..], i, idx) {
          seen := seen + {i};
          position := position + 1;
        }
      }
      assert seen == Ahead(slots[..], idx);
    }

    method GrantAt(idx: int, epoch: nat)
      requires 0 <= idx < slots.Length
      modifies slots
      ensures View() == Grant(old(View()), idx, epoch)
    {
      slots[idx] := slots[idx].(state := GrantedWarmup, grantedEpoch := epoch);
    }

    method DeactivateAt(idx: int)
      requires 0 <= idx < slots.Length
      modifies this, slots
      ensures View() == Deactivate(old(View()), idx)
    {
      if slots[idx].state != ActiveRt { return; }
      slots[idx] := slots[idx].(state := Negotiated);
      if activeSlot == idx { activeSlot := -1; }
    }

    method ActivateAt(idx: int, now: Timespec)
      requires Valid() && 0 <= idx < slots.Length
      modifies this, slots
      ensures Valid() && View() == Activate(old(View()), idx, now)
    {
      if activeSlot >= 0 && activeSlot != idx { DeactivateAt(activeSlot); }
      slots[idx] := slots[idx].(state := ActiveRt, lastHeartbeat := now);
      activeSlot := idx;
    }

    method BeginEvictionAt(idx: int)
      requires 0 <= idx < slots.Length
      modifies this, slots
      ensures View() == BeginEviction(old(View()), idx)
    {
      if slots[idx].state != ActiveRt { return; }
      slots[idx] := slots[idx].(state := EvictingCooperative);
      if activeSlot == idx { activeSlot := -1; }
    }

    method MarkForcedAt(idx: int)
      requires 0 <= idx < slots.Length
      modifies slots
      ensures View() == MarkEvictionForced(old(View()), idx)
    {
      if slots[idx].state == EvictingCooperative { slots[idx] := slots[idx].(state := EvictingForced); }
    }

    method ReclaimAt(idx: int)
      requires 0 <= idx < slots.Length
      modifies slots
      ensures View() == ReclaimEviction(old(View()), idx)
    {
      if slots[idx].state != EvictingCooperative && slots[idx].state != EvictingForced { return; }
      slots[idx] := slots[idx].(state := Negotiated);
    }

    method RemoveAt(idx: int)
      requires 0 <= idx < slots.Length
      modifies this, slots
      ensures View() == Remove(old(View()), idx)
    {
      if !slots[idx].inUse { return; }
      DeactivateAt(idx);
      slots[idx] := slots[idx].(inUse := false, fd := -1);
    }

    method CheckHeartbeats(now: Timespec) returns (idx: int)
      requires Valid()
      modifies this, slots
      ensures idx == TimedOut(old(View()), now)
      ensures View() == if idx >= 0 then Deactivate(old(View()), idx) else old(View())
    {
      if activeSlot < 0 { return -1; }
      idx := activeSlot;
      if HeartbeatExpired(now, slots[idx].lastHeartbeat) {
        DeactivateAt(idx);
      } else {
        idx := -1;
      }
    }
  }
}
