/** What the system brings about when its clients do their part: runs that exist from every
    reachable state, step by step through both ends. */
module Served {
  import opened Timespecs
  import opened Messages
  import opened Sessions
  import opened ControlSpec
  import opened RtSafety
  import opened ClientSdk
  import opened Links
  import opened Handshake
  import O = Outcomes

  /** Slot i, its connection and its client. */
  predicate Stage(y: Sys, i: int, slot: Session, up: seq<ToServer>, down: seq<ToClient>, c: Client) {
    && Occupied(y.server, i) && y.server.table.slots[i] == slot
    && OnConn(y, slot.fd) && y.conns[slot.fd] == Conn(up, c) && y.server.down[slot.fd] == down
  }

  /** Every slot but i is as it was. */
  predicate SlotsKept(y: Sys, z: Sys, i: int) {
    && |z.server.table.slots| == |y.server.table.slots|
    && forall j :: 0 <= j < |y.server.table.slots| && j != i ==> z.server.table.slots[j] == y.server.table.slots[j]
  }

  /** One step from y to z. */
  ghost predicate Leads(y: Sys, t: Step, z: Sys) {
    InBounds(y.server) && Can(y, t) && z == Do(y, t)
  }

  lemma Then(y: Sys, t: Step, w: Sys, rest: seq<Step>, z: Sys)
    requires Leads(y, t, w) && Reachable(w, rest, z)
    ensures Reachable(y, [t] + rest, z)
  {
    assert ([t] + rest)[1..] == rest;
  }

  lemma Once(y: Sys, t: Step, z: Sys)
    requires Leads(y, t, z)
    ensures Reachable(y, [t], z)
  {
    Then(y, t, z, [], z);
    assert [t] + [] == [t];
  }

  lemma Twice(y: Sys, t: Step, w: Sys, u: Step, z: Sys)
    requires Leads(y, t, w) && Leads(w, u, z)
    ensures Reachable(y, [t, u], z)
  {
    Once(w, u, z);
    Then(y, t, w, [u], z);
    assert [t] + [u] == [t, u];
  }

  lemma Thrice(y: Sys, t: Step, w: Sys, u: Step, x: Sys, v: Step, z: Sys)
    requires Leads(y, t, w) && Leads(w, u, x) && Leads(x, v, z)
    ensures Reachable(y, [t, u, v], z)
  {
    Twice(w, u, x, v, z);
    Then(y, t, w, [u, v], z);
    assert [t] + [u, v] == [t, u, v];
  }

  lemma FreedomKept(y: Sys, z: Sys, i: int)
    requires SlotsKept(y, z, i) && 0 <= i < |y.server.table.slots|
    requires !HoldsRt(y.server.table.slots[i]) && !HoldsRt(z.server.table.slots[i])
    ensures RtSlotTaken(y.server.table.slots) <==> RtSlotTaken(z.server.table.slots)
  {
    if h :| 0 <= h < |y.server.table.slots| && HoldsRt(y.server.table.slots[h]) { assert HoldsRt(z.server.table.slots[h]); }
    if h :| 0 <= h < |z.server.table.slots| && HoldsRt(z.server.table.slots[h]) { assert HoldsRt(y.server.table.slots[h]); }
  }

  // One step each.

  /** The server takes the one message in flight. */
  lemma DeliversOnly(y: Sys, i: int, now: Timespec, slot: Session, m: ToServer, c: Client) returns (z: Sys)
    requires InBounds(y.server) && Occupied(y.server, i) && slot == y.server.table.slots[i] && OnConn(y, slot.fd)
    requires y.conns[slot.fd] == Conn([m], c)
    ensures Leads(y, Delivers(i, now), z)
    ensures z == Sys(Next(y.server, Received(i, m, now)), y.conns[slot.fd := Conn([], c)])
  {
    z := Do(y, Delivers(i, now));
    assert [m][1..] == [];
  }

  lemma Arrives(y: Sys, i: int) returns (z: Sys)
    requires Inv(y) && 0 <= i < |y.server.table.slots| && !y.server.table.slots[i].inUse
    requires forall j :: 0 <= j < i ==> y.server.table.slots[j].inUse
    ensures Leads(y, Connects, z) && Inv(z) && SlotsKept(y, z, i) && z.server.epoch == y.server.epoch
    ensures Stage(z, i, NewSession(|y.conns|), [], [], NEW_CLIENT)
  {
    z := Do(y, Connects);
    StepKeepsInv(y, Connects);
    O.AcceptTakesLowestSlot(y.server, i);
  }

  lemma Introduces(y: Sys, i: int, slot: Session, id: string) returns (z: Sys)
    requires Inv(y) && Stage(y, i, slot, [], [], NEW_CLIENT)
    ensures Leads(y, ClientIntroduces(slot.fd, id, ModeChosen), z) && Inv(z) && z.server == y.server
    ensures Stage(z, i, slot, [Connect(id, ModeChosen)], [], NEW_CLIENT.(phase := AwaitMode))
  {
    var t := ClientIntroduces(slot.fd, id, ModeChosen);
    z := Do(y, t);
    StepKeepsInv(y, t);
  }

  lemma IsTakenOn(y: Sys, i: int, slot: Session, id: string, now: Timespec) returns (z: Sys)
    requires Inv(y) && Stage(y, i, slot, [Connect(id, ModeChosen)], [], NEW_CLIENT.(phase := AwaitMode))
    ensures Leads(y, Delivers(i, now), z) && Inv(z) && SlotsKept(y, z, i)
    ensures z.server.epoch == y.server.epoch && slot.state == Connected
    ensures Stage(z, i, slot.(clientId := CString(id), state := Negotiated), [], [Mode(true)], NEW_CLIENT.(phase := AwaitMode))
  {
    z := Do(y, Delivers(i, now));
    assert LinkAt(y, i);
    StepKeepsInv(y, Delivers(i, now));
    TakeConnect(slot, y.server.evictions, [], y.conns[slot.fd], id);
    ConnectResult(y.server, i, id, ModeChosen, now);
  }

  /** A client reads what is next for it and answers as it does. */
  lemma Reads(y: Sys, i: int, slot: Session, m: ToClient, c: Client) returns (z: Sys)
    requires Inv(y) && Stage(y, i, slot, [], [m], c) && c.phase in {AwaitMode, AwaitFirst, Running}
    ensures Leads(y, ClientReads(slot.fd), z) && Inv(z)
    ensures z.server == y.server.(down := z.server.down)
    ensures |z.conns| == |y.conns| == |z.server.down|
    ensures forall g :: 0 <= g < |y.conns| && g != slot.fd ==> z.conns[g] == y.conns[g] && z.server.down[g] == y.server.down[g]
    ensures Stage(z, i, slot, Receive(c, m).replies, [], Receive(c, m).client)
  {
    z := Do(y, ClientReads(slot.fd));
    StepKeepsInv(y, ClientReads(slot.fd));
    assert [m][1..] == [] && [] + Receive(c, m).replies == Receive(c, m).replies;
  }

  lemma StageGranted(y: Sys, s1: Server, i: int, slot: Session, c: Client)
    requires Stage(y, i, slot, [ActivateRequest], [], c) && O.Connection(y.server, i) && O.GrantedTo(y.server, s1, i)
    ensures var z, e := Sys(s1, y.conns[slot.fd := Conn([], c)]), y.server.epoch + 1;
            && SlotsKept(y, z, i) && z.server.epoch == e
            && Stage(z, i, slot.(state := GrantedWarmup, grantedEpoch := e), [], [ActivateGrant(e)], c)
  {
    assert [] + [ActivateGrant(y.server.epoch + 1)] == [ActivateGrant(y.server.epoch + 1)];
  }

  lemma IsGranted(y: Sys, i: int, slot: Session, c: Client, now: Timespec) returns (z: Sys)
    requires Inv(y) && Stage(y, i, slot, [ActivateRequest], [], c) && slot.state == Negotiated
    requires !RtSlotTaken(y.server.table.slots)
    ensures Leads(y, Delivers(i, now), z) && Inv(z) && SlotsKept(y, z, i)
    ensures var e := y.server.epoch + 1;
            z.server.epoch == e && Stage(z, i, slot.(state := GrantedWarmup, grantedEpoch := e), [], [ActivateGrant(e)], c)
  {
    z := DeliversOnly(y, i, now, slot, ActivateRequest, c);
    O.RequestGranted(y.server, i, now);
    StageGranted(y, z.server, i, slot, c);
    StepKeepsInv(y, Delivers(i, now));
  }

  lemma IsQueued(y: Sys, i: int, slot: Session, c: Client, now: Timespec) returns (z: Sys)
    requires Inv(y) && Stage(y, i, slot, [ActivateRequest], [], c) && slot.state == Negotiated
    requires RtSlotTaken(y.server.table.slots)
    ensures Leads(y, Delivers(i, now), z) && Inv(z) && SlotsKept(y, z, i)
    ensures z.server.epoch == y.server.epoch
    ensures Stage(z, i, slot.(state := Queued, activateRequested := now), [],
                  [ActivateQueued(1 + |Ahead(z.server.table.slots, i)|)], c)
  {
    z := Do(y, Delivers(i, now));
    StepKeepsInv(y, Delivers(i, now));
    O.RequestQueued(y.server, i, now);
    var said := [ActivateQueued(1 + |Ahead(z.server.table.slots, i)|)];
    assert [] + said == said;
  }

  lemma IsActivated(y: Sys, i: int, slot: Session, g: nat, c: Client, now: Timespec) returns (z: Sys)
    requires Inv(y) && Stage(y, i, slot, [ReadyForRt(g)], [], c)
    ensures Leads(y, Delivers(i, now), z) && Inv(z) && SlotsKept(y, z, i)
    ensures z.server.epoch == y.server.epoch && z.server.table.activeSlot == i
    ensures Stage(z, i, slot.(state := ActiveRt, lastHeartbeat := now), [], [], c)
  {
    z := Do(y, Delivers(i, now));
    assert LinkAt(y, i);
    StepKeepsInv(y, Delivers(i, now));
    TakeReady(slot, y.server.evictions, [], y.conns[slot.fd]);
    O.ReadyOutcome(y.server, i, g, now);
  }

  // Whole courses.

  lemma FirstOf(y: Sys, run: seq<Step>, z: Sys) returns (t: Step, rest: seq<Step>, w: Sys)
    requires run != [] && Reachable(y, run, z)
    ensures run == [t] + rest && Leads(y, t, w) && Reachable(w, rest, z)
  {
    t, rest, w := run[0], run[1..], Do(y, run[0]);
  }

  lemma {:induction false} RunsJoin(y: Sys, a: seq<Step>, w: Sys, b: seq<Step>, z: Sys)
    requires Reachable(y, a, w) && Reachable(w, b, z)
    ensures Reachable(y, a + b, z)
    decreases |a|
  {
    if a == [] {
      assert a + b == b;
    } else {
      var t, rest, x := FirstOf(y, a, w);
      RunsJoin(x, rest, w, b, z);
      Then(y, t, x, rest + b, z);
      assert [t] + (rest + b) == a + b;
    }
  }

  lemma Enters(y: Sys, i: int, id: string) returns (w: Sys, z: Sys)
    requires Inv(y) && 0 <= i < |y.server.table.slots| && !y.server.table.slots[i].inUse
    requires forall j :: 0 <= j < i ==> y.server.table.slots[j].inUse
    ensures Leads(y, Connects, w) && Leads(w, ClientIntroduces(|y.conns|, id, ModeChosen), z)
    ensures Inv(z) && SlotsKept(y, z, i) && z.server.epoch == y.server.epoch
    ensures Stage(z, i, NewSession(|y.conns|), [Connect(id, ModeChosen)], [], NEW_CLIENT.(phase := AwaitMode))
  {
    w := Arrives(y, i);
    z := Introduces(w, i, NewSession(|y.conns|), id);
  }

  lemma Asks(y: Sys, i: int, slot: Session, id: string, now: Timespec) returns (w: Sys, z: Sys)
    requires Inv(y) && Stage(y, i, slot, [Connect(id, ModeChosen)], [], NEW_CLIENT.(phase := AwaitMode))
    ensures Leads(y, Delivers(i, now), w) && Leads(w, ClientReads(slot.fd), z)
    ensures Inv(z) && SlotsKept(y, z, i) && z.server.epoch == y.server.epoch
    ensures Stage(z, i, slot.(clientId := CString(id), state := Negotiated), [ActivateRequest], [], NEW_CLIENT.(phase := AwaitFirst))
  {
    w := IsTakenOn(y, i, slot, id, now);
    z := Reads(w, i, slot.(clientId := CString(id), state := Negotiated), Mode(true), NEW_CLIENT.(phase := AwaitMode));
  }

  /** A client connects, is taken on and asks. */
  lemma ConnectsAndAsks(y: Sys, i: int, id: string, now: Timespec) returns (steps: seq<Step>, z: Sys)
    requires Inv(y) && 0 <= i < |y.server.table.slots| && !y.server.table.slots[i].inUse
    requires forall j :: 0 <= j < i ==> y.server.table.slots[j].inUse
    ensures |steps| == 4 && Reachable(y, steps, z) && Inv(z) && SlotsKept(y, z, i) && z.server.epoch == y.server.epoch
    ensures Stage(z, i, NewSession(|y.conns|).(clientId := CString(id), state := Negotiated),
                  [ActivateRequest], [], NEW_CLIENT.(phase := AwaitFirst))
  {
    var f := |y.conns|;
    var y1, y2 := Enters(y, i, id);
    var y3;
    y3, z := Asks(y2, i, NewSession(f), id, now);
    var entering, asking := [Connects, ClientIntroduces(f, id, ModeChosen)], [Delivers(i, now), ClientReads(f)];
    Twice(y, Connects, y1, ClientIntroduces(f, id, ModeChosen), y2);
    Twice(y2, Delivers(i, now), y3, ClientReads(f), z);
    RunsJoin(y, entering, y2, asking, z);
    steps := entering + asking;
  }

  /** With the RT slot free, a request leads to the control loop and ACTIVE_RT. */
  lemma Obtains(y: Sys, i: int, slot: Session, c: Client, now: Timespec) returns (steps: seq<Step>, z: Sys)
    requires Inv(y) && Stage(y, i, slot, [ActivateRequest], [], c) && slot.state == Negotiated
    requires !RtSlotTaken(y.server.table.slots) && c.phase in {AwaitFirst, Running}
    ensures |steps| == 3 && Reachable(y, steps, z) && Inv(z) && SlotsKept(y, z, i) && z.server.epoch == y.server.epoch + 1
    ensures var e := y.server.epoch + 1;
            Stage(z, i, slot.(state := ActiveRt, grantedEpoch := e, lastHeartbeat := now), [], [], Client(Running, true, e))
  {
    var e := y.server.epoch + 1;
    var warm := slot.(state := GrantedWarmup, grantedEpoch := e);
    var y1 := IsGranted(y, i, slot, c, now);
    var y2 := Reads(y1, i, warm, ActivateGrant(e), c);
    z := IsActivated(y2, i, warm, e, Client(Running, true, e), now);
    steps := [Delivers(i, now), ClientReads(slot.fd), Delivers(i, now)];
    Thrice(y, Delivers(i, now), y1, ClientReads(slot.fd), y2, Delivers(i, now), z);
  }

  /** From every reachable state with the RT slot and some other slot free, a client can connect
      and ask, and seven steps later it is ACTIVE_RT and may publish. Nobody else's slot has
      changed. */
  lemma NewcomerIsServed(n: nat, before: seq<Step>, y: Sys, i: int, id: string, now: Timespec)
    returns (steps: seq<Step>, z: Sys)
    requires Reachable(Start(n), before, y) && !RtSlotTaken(y.server.table.slots)
    requires 0 <= i < |y.server.table.slots| && !y.server.table.slots[i].inUse
    requires forall j :: 0 <= j < i ==> y.server.table.slots[j].inUse
    ensures |steps| == 7 && Reachable(y, steps, z) && SlotsKept(y, z, i)
    ensures var e := y.server.epoch + 1;
            && z.server.epoch == e
            && Stage(z, i, Session(true, |y.conns|, CString(id), ActiveRt, e, now, ZERO), [], [], Client(Running, true, e))
            && MayPublish(Client(Running, true, e), z.server.epoch)
  {
    InvOfRuns(n, before, y);
    var slot := NewSession(|y.conns|).(clientId := CString(id), state := Negotiated);
    var asking, w := ConnectsAndAsks(y, i, id, now);
    FreedomKept(y, w, i);
    var served;
    served, z := Obtains(w, i, slot, NEW_CLIENT.(phase := AwaitFirst), now);
    RunsJoin(y, asking, w, served, z);
    steps := asking + served;
  }

  /** So the first client of a server with any room is served. */
  lemma FirstClientIsServed(n: nat, id: string, now: Timespec) returns (steps: seq<Step>, z: Sys)
    requires n > 0
    ensures |steps| == 7 && Reachable(Start(n), steps, z)
    ensures Stage(z, 0, Session(true, 0, CString(id), ActiveRt, 1, now, ZERO), [], [], Client(Running, true, 1))
    ensures z.server.epoch == 1 && forall j :: 1 <= j < |z.server.table.slots| ==> !z.server.table.slots[j].inUse
  {
    O.StartsEmpty(n);
    assert !RtSlotTaken(Start(n).server.table.slots);
    steps, z := NewcomerIsServed(n, [], Start(n), 0, id, now);
  }

  /** With the RT slot taken it is queued after five, and about to read its position. */
  lemma NewcomerIsQueued(n: nat, before: seq<Step>, y: Sys, i: int, id: string, now: Timespec)
    returns (steps: seq<Step>, z: Sys)
    requires Reachable(Start(n), before, y) && RtSlotTaken(y.server.table.slots)
    requires 0 <= i < |y.server.table.slots| && !y.server.table.slots[i].inUse
    requires forall j :: 0 <= j < i ==> y.server.table.slots[j].inUse
    ensures |steps| == 5 && Reachable(y, steps, z) && SlotsKept(y, z, i) && z.server.epoch == y.server.epoch
    ensures Stage(z, i, Session(true, |y.conns|, CString(id), Queued, 0, ZERO, now), [],
                  [ActivateQueued(1 + |Ahead(z.server.table.slots, i)|)], NEW_CLIENT.(phase := AwaitFirst))
  {
    InvOfRuns(n, before, y);
    var slot := NewSession(|y.conns|).(clientId := CString(id), state := Negotiated);
    var asking, w := ConnectsAndAsks(y, i, id, now);
    FreedomKept(y, w, i);
    z := IsQueued(w, i, slot, NEW_CLIENT.(phase := AwaitFirst), now);
    var last := [Delivers(i, now)];
    Once(w, Delivers(i, now), z);
    RunsJoin(y, asking, w, last, z);
    steps := asking + last;
  }

  // A switch, end to end.

  /** Two slots at once: i has moved on, j has not. */
  lemma StageKept(y: Sys, z: Sys, i: int, j: int, slot: Session, up: seq<ToServer>, down: seq<ToClient>, c: Client)
    requires Wired(y) && Stage(y, j, slot, up, down, c) && i != j && Occupied(y.server, i)
    requires SlotsKept(y, z, i) && |z.conns| == |y.conns| == |z.server.down|
    requires forall g :: 0 <= g < |y.conns| && g != FdOf(y, i) ==> z.conns[g] == y.conns[g] && z.server.down[g] == y.server.down[g]
    ensures Stage(z, j, slot, up, down, c)
  {}

  lemma IsToldToGo(y: Sys, a: int, c: int, id: string, now: Timespec, slotA: Session, clientA: Client, slotC: Session, clientC: Client)
    returns (z: Sys)
    requires Inv(y) && Stage(y, a, slotA, [], [], clientA) && slotA.state == ActiveRt
    requires Stage(y, c, slotC, [], [], clientC) && Grantable(slotC) && FindByClientId(y.server.table.slots, id) == c
    ensures Leads(y, Switches(id, now), z) && Inv(z) && SlotsKept(y, z, a) && z.server.epoch == y.server.epoch
    ensures z.server.pending == c && z.server.evicting == a
    ensures Stage(z, a, slotA.(state := EvictingCooperative), [], [EvictPending(z.server.evictions)], clientA)
    ensures Stage(z, c, slotC, [], [], clientC)
  {
    z := EvictionStarts(y, a, c, id, now, slotA, clientA, slotC);
    StageKept(y, z, a, c, slotC, [], [], clientC);
    StepKeepsInv(y, Switches(id, now));
  }

  lemma EvictionStarts(y: Sys, a: int, c: int, id: string, now: Timespec, slotA: Session, clientA: Client, slotC: Session)
    returns (z: Sys)
    requires Safe(y.server) && Wired(y) && Stage(y, a, slotA, [], [], clientA) && slotA.state == ActiveRt
    requires Occupied(y.server, c) && slotC == y.server.table.slots[c] && Grantable(slotC)
    requires FindByClientId(y.server.table.slots, id) == c
    ensures Leads(y, Switches(id, now), z) && SlotsKept(y, z, a) && z.server.epoch == y.server.epoch
    ensures z.server.pending == c && z.server.evicting == a && z.conns == y.conns && |z.server.down| == |y.server.down|
    ensures forall g :: 0 <= g < |y.conns| && g != slotA.fd ==> z.server.down[g] == y.server.down[g]
    ensures Stage(z, a, slotA.(state := EvictingCooperative), [], [EvictPending(z.server.evictions)], clientA)
  {
    z := Do(y, Switches(id, now));
    assert y.server.table.activeSlot == a;
    O.SwitchEvicts(y.server, id, c, now);
    var said := [EvictPending(y.server.evictions + 1)];
    assert [] + said == said;
  }

  /** What the server does on the STOPPED. */
  lemma HandsOver(s: Server, a: int, c: int, now: Timespec, k: nat)
    requires Safe(s) && Occupied(s, a) && s.table.slots[a].state == EvictingCooperative
    requires s.pending == c != a && O.Connection(s, c)
    ensures var s1, e := Next(s, Received(a, Stopped(k), now)), s.epoch + 1;
            && s1.epoch == e && |s1.table.slots| == |s.table.slots|
            && s1.table.slots[a] == s.table.slots[a].(state := Negotiated)
            && s1.table.slots[c] == s.table.slots[c].(state := GrantedWarmup, grantedEpoch := e)
            && (forall j :: 0 <= j < |s.table.slots| && j != a && j != c ==> s1.table.slots[j] == s.table.slots[j])
            && s1.down == s.down[s.table.slots[c].fd := s.down[s.table.slots[c].fd] + [ActivateGrant(e)]]
  {
    O.StoppedOutcome(s, a, k, now);
  }

  lemma Stops(y: Sys, a: int, c: int, now: Timespec, slotA: Session, k: nat, clientA: Client, slotC: Session, clientC: Client)
    returns (z: Sys)
    requires Inv(y) && Stage(y, a, slotA, [Stopped(k)], [], clientA) && slotA.state == EvictingCooperative
    requires Stage(y, c, slotC, [], [], clientC) && y.server.pending == c != a
    ensures Leads(y, Delivers(a, now), z) && Inv(z) && HandedOver(y, z, a, c, slotA, clientA, slotC, clientC)
  {
    z := StopTaken(y, a, c, now, slotA, k, clientA, slotC, clientC);
    StepKeepsInv(y, Delivers(a, now));
  }

  /** a is NEGOTIATED, c in warm-up under the next generation with its GRANT ahead, no other slot has changed. */
  predicate HandedOver(y: Sys, z: Sys, a: int, c: int, slotA: Session, clientA: Client, slotC: Session, clientC: Client) {
    var e := y.server.epoch + 1;
    && |z.server.table.slots| == |y.server.table.slots|
    && (forall j :: 0 <= j < |y.server.table.slots| && j != a && j != c ==> z.server.table.slots[j] == y.server.table.slots[j])
    && z.server.epoch == e
    && Stage(z, a, slotA.(state := Negotiated), [], [], clientA)
    && Stage(z, c, slotC.(state := GrantedWarmup, grantedEpoch := e), [], [ActivateGrant(e)], clientC)
  }

  lemma StopTaken(y: Sys, a: int, c: int, now: Timespec, slotA: Session, k: nat, clientA: Client, slotC: Session, clientC: Client)
    returns (z: Sys)
    requires Safe(y.server) && Wired(y) && Stage(y, a, slotA, [Stopped(k)], [], clientA) && slotA.state == EvictingCooperative
    requires Stage(y, c, slotC, [], [], clientC) && y.server.pending == c != a
    ensures Leads(y, Delivers(a, now), z) && HandedOver(y, z, a, c, slotA, clientA, slotC, clientC)
  {
    z := DeliversOnly(y, a, now, slotA, Stopped(k), clientA);
    HandsOver(y.server, a, c, now, k);
    StagesAfterHandover(y, z.server, a, c, slotA, k, clientA, slotC, clientC, y.server.epoch + 1);
  }

  lemma StagesAfterHandover(y: Sys, s1: Server, a: int, c: int, slotA: Session, k: nat, clientA: Client, slotC: Session, clientC: Client, e: nat)
    requires Wired(y) && a != c && Stage(y, a, slotA, [Stopped(k)], [], clientA) && Stage(y, c, slotC, [], [], clientC)
    requires |s1.table.slots| == |y.server.table.slots|
    requires s1.table.slots[a] == slotA.(state := Negotiated)
    requires s1.table.slots[c] == slotC.(state := GrantedWarmup, grantedEpoch := e)
    requires s1.down == y.server.down[slotC.fd := y.server.down[slotC.fd] + [ActivateGrant(e)]]
    ensures var z := Sys(s1, y.conns[slotA.fd := Conn([], clientA)]);
            && Stage(z, a, slotA.(state := Negotiated), [], [], clientA)
            && Stage(z, c, slotC.(state := GrantedWarmup, grantedEpoch := e), [], [ActivateGrant(e)], clientC)
  {
    assert slotA.fd != slotC.fd;
    assert [] + [ActivateGrant(e)] == [ActivateGrant(e)];
  }

  /** From every reachable state: a switch away from an active client to one that is idle, both
      with nothing in flight, is over when each has read its message and the server the
      answers. The one is then NEGOTIATED and stood down, the other ACTIVE_RT, active, and
      under the next generation; nobody else's slot has changed. */
  lemma SwitchIsServed(n: nat, before: seq<Step>, y: Sys, a: int, c: int, id: string, now: Timespec)
    returns (steps: seq<Step>, z: Sys)
    requires Reachable(Start(n), before, y) && Occupied(y.server, a) && Occupied(y.server, c)
    requires OnConn(y, FdOf(y, a)) && OnConn(y, FdOf(y, c))
    requires y.conns[FdOf(y, a)].up == y.conns[FdOf(y, c)].up == []
    requires y.server.down[FdOf(y, a)] == y.server.down[FdOf(y, c)] == []
    requires y.conns[FdOf(y, a)].client.phase == y.conns[FdOf(y, c)].client.phase == Running
    requires y.server.table.slots[a].state == ActiveRt && Grantable(y.server.table.slots[c])
    requires FindByClientId(y.server.table.slots, id) == c
    ensures |steps| == 5 && Reachable(y, steps, z) && |z.server.table.slots| == |y.server.table.slots|
    ensures forall j :: 0 <= j < |y.server.table.slots| && j != a && j != c ==> z.server.table.slots[j] == y.server.table.slots[j]
    ensures var e, ca := y.server.epoch + 1, y.conns[FdOf(y, a)].client;
            && z.server.epoch == e
            && Stage(z, a, y.server.table.slots[a].(state := Negotiated), [], [], ca.(active := false))
            && Stage(z, c, y.server.table.slots[c].(state := ActiveRt, grantedEpoch := e, lastHeartbeat := now), [], [],
                     Client(Running, true, e))
  {
    InvOfRuns(n, before, y);
    var slotA, slotC := y.server.table.slots[a], y.server.table.slots[c];
    steps, z := SwitchCourse(y, a, c, id, now, slotA, y.conns[slotA.fd].client, slotC, y.conns[slotC.fd].client);
  }

  lemma SwitchCourse(y: Sys, a: int, c: int, id: string, now: Timespec, slotA: Session, clientA: Client, slotC: Session, clientC: Client)
    returns (steps: seq<Step>, z: Sys)
    requires Inv(y) && Stage(y, a, slotA, [], [], clientA) && slotA.state == ActiveRt && clientA.phase == Running
    requires Stage(y, c, slotC, [], [], clientC) && Grantable(slotC) && clientC.phase == Running && a != c
    requires FindByClientId(y.server.table.slots, id) == c
    ensures |steps| == 5 && Reachable(y, steps, z) && |z.server.table.slots| == |y.server.table.slots|
    ensures forall j :: 0 <= j < |y.server.table.slots| && j != a && j != c ==> z.server.table.slots[j] == y.server.table.slots[j]
    ensures var e := y.server.epoch + 1;
            && z.server.epoch == e
            && Stage(z, a, slotA.(state := Negotiated), [], [], clientA.(active := false))
            && Stage(z, c, slotC.(state := ActiveRt, grantedEpoch := e, lastHeartbeat := now), [], [], Client(Running, true, e))
  {
    var e := y.server.epoch + 1;
    var y1, y2, y3 := ActiveClientGoes(y, a, c, id, now, slotA, clientA, slotC, clientC);
    var y4;
    y4, z := ClientTakesOver(y3, a, c, now, slotA.(state := Negotiated), clientA.(active := false),
                             slotC.(state := GrantedWarmup, grantedEpoch := e), e, clientC);
    Thrice(y, Switches(id, now), y1, ClientReads(slotA.fd), y2, Delivers(a, now), y3);
    Twice(y3, ClientReads(slotC.fd), y4, Delivers(c, now), z);
    steps := [Switches(id, now), ClientReads(slotA.fd), Delivers(a, now)] + [ClientReads(slotC.fd), Delivers(c, now)];
    RunsJoin(y, [Switches(id, now), ClientReads(slotA.fd), Delivers(a, now)], y3, [ClientReads(slotC.fd), Delivers(c, now)], z);
  }

  lemma ReadsThatItMustGo(y: Sys, a: int, c: int, going: Session, k: nat, clientA: Client, slotC: Session, clientC: Client)
    returns (z: Sys)
    requires Inv(y) && Stage(y, a, going, [], [EvictPending(k)], clientA) && clientA.phase == Running
    requires Stage(y, c, slotC, [], [], clientC) && a != c
    ensures Leads(y, ClientReads(going.fd), z) && Inv(z)
    ensures z.server == y.server.(down := z.server.down)
    ensures Stage(z, a, going, [Stopped(k)], [], clientA.(active := false))
    ensures Stage(z, c, slotC, [], [], clientC)
  {
    OwnConnections(y, a, c);
    ControlOutcome(clientA, EvictPending(k), true);
    z := Reads(y, a, going, EvictPending(k), clientA);
  }

  lemma OwnConnections(y: Sys, a: int, c: int)
    requires Wired(y) && Occupied(y.server, a) && Occupied(y.server, c) && a != c
    ensures FdOf(y, a) != FdOf(y, c)
  {}

  lemma ActiveClientGoes(y: Sys, a: int, c: int, id: string, now: Timespec, slotA: Session, clientA: Client, slotC: Session, clientC: Client)
    returns (y1: Sys, y2: Sys, y3: Sys)
    requires Inv(y) && Stage(y, a, slotA, [], [], clientA) && slotA.state == ActiveRt && clientA.phase == Running
    requires Stage(y, c, slotC, [], [], clientC) && Grantable(slotC) && a != c
    requires FindByClientId(y.server.table.slots, id) == c
    ensures Leads(y, Switches(id, now), y1) && Leads(y1, ClientReads(slotA.fd), y2) && Leads(y2, Delivers(a, now), y3)
    ensures Inv(y3) && HandedOver(y, y3, a, c, slotA, clientA.(active := false), slotC, clientC)
  {
    var going := slotA.(state := EvictingCooperative);
    y1 := IsToldToGo(y, a, c, id, now, slotA, clientA, slotC, clientC);
    var k := y1.server.evictions;
    y2 := ReadsThatItMustGo(y1, a, c, going, k, clientA, slotC, clientC);
    y3 := Stops(y2, a, c, now, going, k, clientA.(active := false), slotC, clientC);
  }

  lemma ClientTakesOver(y: Sys, a: int, c: int, now: Timespec, slotA: Session, clientA: Client, warm: Session, e: nat, clientC: Client)
    returns (w: Sys, z: Sys)
    requires Inv(y) && a != c && Stage(y, a, slotA, [], [], clientA)
    requires Stage(y, c, warm, [], [ActivateGrant(e)], clientC) && clientC.phase == Running
    ensures Leads(y, ClientReads(warm.fd), w) && Leads(w, Delivers(c, now), z)
    ensures SlotsKept(y, z, c) && z.server.epoch == y.server.epoch
    ensures Stage(z, a, slotA, [], [], clientA)
    ensures Stage(z, c, warm.(state := ActiveRt, lastHeartbeat := now), [], [], Client(Running, true, e))
  {
    w := Reads(y, c, warm, ActivateGrant(e), clientC);
    StageKept(y, w, c, a, slotA, [], [], clientA);
    z := IsActivated(w, c, warm, e, Client(Running, true, e), now);
    O.ReadyOutcome(w.server, c, e, now);
    assert LinkAt(w, c);
    TakeReady(warm, w.server.evictions, [], w.conns[warm.fd]);
    StageKept(w, z, c, a, slotA, [], [], clientA);
  }
}
