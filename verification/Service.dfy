/** Who gets the RT slot, for every run of the whole system: the theorems of Fairness, with
    what SDK clients guarantee put in place of assumptions about messages. */
module Service {
  import opened Timespecs
  import opened Sessions
  import opened ControlSpec
  import opened RtSafety
  import opened Links
  import opened Handshake
  import F = Fairness

  predicate ByServer(t: Step) {
    t.Connects? || t.Delivers? || t.Breaks? || t.Switches? || t.HeartbeatTicks? || t.GraceTicks?
  }

  /** The poll-loop event of a server step. */
  function EventOf(y: Sys, t: Step): Event
    requires t.Delivers? ==> Occupied(y.server, t.idx) && OnConn(y, FdOf(y, t.idx)) && y.conns[FdOf(y, t.idx)].up != []
    requires ByServer(t)
  {
    match t
    case Connects => Accepted
    case Delivers(idx, now) => Received(idx, y.conns[FdOf(y, idx)].up[0], now)
    case Breaks(idx, now) => Hangup(idx, now)
    case Switches(id, now) => Event.Switch(id, now)
    case HeartbeatTicks(now) => HeartbeatTick(now)
    case GraceTicks(now) => GraceTick(now)
  }

  /** A server step is its event, a legal one; CONNECT comes from a CONNECTED slot. */
  lemma ServerStep(y: Sys, t: Step)
    requires Inv(y) && Can(y, t) && ByServer(t)
    ensures var e := EventOf(y, t);
            && Legal(y.server, e) && Do(y, t).server == Next(y.server, e)
            && (e.Received? && e.msg.Connect? ==> y.server.table.slots[e.idx].state == Connected)
  {
    if t.Delivers? {
      DeliverMove(y, t.idx, t.now);
      var f := FdOf(y, t.idx);
      assert LinkAt(y, t.idx);
      if y.conns[f].up[0].Connect? {
        TakeConnect(y.server.table.slots[t.idx], y.server.evictions, y.server.down[f], y.conns[f], "");
      }
    }
  }

  /** A client step leaves everything of the server but what is in flight to clients. */
  lemma ClientStepKeepsServer(y: Sys, t: Step)
    requires InBounds(y.server) && Can(y, t) && !ByServer(t)
    ensures Do(y, t).server == y.server.(down := Do(y, t).server.down)
  {}

  // Work conservation.

  /** A STOPPED that finds its target gone while somebody waits. */
  ghost predicate Strands(y: Sys, t: Step)
    requires Can(y, t)
  {
    && t.Delivers?
    && y.conns[FdOf(y, t.idx)].up[0].Stopped?
    && y.server.table.slots[t.idx].state == EvictingCooperative
    && y.server.pending == -1
    && SomeoneWaits(y.server.table.slots)
  }

  /** With SDK clients that is the one way to leave somebody waiting for an idle RT slot. */
  lemma StepConservesExactly(y: Sys, t: Step)
    requires Inv(y) && Can(y, t) && F.Conserving(y.server)
    ensures F.Conserving(Do(y, t).server) <==> !Strands(y, t)
  {
    if ByServer(t) {
      ServerStep(y, t);
      F.WorkConservedExactly(y.server, EventOf(y, t));
    } else {
      ClientStepKeepsServer(y, t);
    }
  }

  ghost predicate NeverStrands(y: Sys, steps: seq<Step>)
    decreases |steps|
  {
    steps != [] ==> InBounds(y.server) && Can(y, steps[0]) && !Strands(y, steps[0]) && NeverStrands(Do(y, steps[0]), steps[1..])
  }

  lemma {:induction false} ConservedFrom(y: Sys, steps: seq<Step>, z: Sys)
    requires Inv(y) && F.Conserving(y.server) && Reachable(y, steps, z) && NeverStrands(y, steps)
    ensures F.Conserving(z.server)
    decreases |steps|
  {
    if steps != [] {
      StepKeepsInv(y, steps[0]);
      StepConservesExactly(y, steps[0]);
      ConservedFrom(Do(y, steps[0]), steps[1..], z);
    }
  }

  /** In every run of server and SDK clients in which no STOPPED finds its target gone, the RT
      slot is never idle while a client is queued. */
  lemma WorkConservation(n: nat, steps: seq<Step>, z: Sys)
    requires Reachable(Start(n), steps, z) && NeverStrands(Start(n), steps)
    ensures F.Conserving(z.server)
  {
    InitSafe(n);
    ConservedFrom(Start(n), steps, z);
  }

  // Bounded bypass.

  /** No SWITCH, and each request reaches the server later than those still waiting. */
  ghost predicate Orderly(y: Sys, t: Step) {
    && Can(y, t)
    && !t.Switches?
    && (t.Delivers? && y.conns[FdOf(y, t.idx)].up[0].ActivateRequest? ==>
          forall i :: 0 <= i < |y.server.table.slots| && Waiting(y.server.table.slots[i]) ==>
            Earlier(y.server.table.slots[i].activateRequested, t.now))
  }

  ghost predicate OrderlyRun(y: Sys, steps: seq<Step>)
    decreases |steps|
  {
    steps != [] ==> InBounds(y.server) && Orderly(y, steps[0]) && OrderlyRun(Do(y, steps[0]), steps[1..])
  }

  lemma StepStaysCalm(y: Sys, t: Step)
    requires Inv(y) && F.Calm(y.server) && Orderly(y, t)
    ensures F.Calm(Do(y, t).server)
  {
    if ByServer(t) {
      ServerStep(y, t);
      F.OrderlyStepStaysCalm(y.server, EventOf(y, t));
    } else {
      ClientStepKeepsServer(y, t);
      SafeIgnoresDown(y.server, Do(y, t).server.down);
    }
  }

  lemma StepIsFair(y: Sys, t: Step, i: int)
    requires Inv(y) && F.Calm(y.server) && Orderly(y, t)
    requires 0 <= i < |y.server.table.slots| && Waiting(y.server.table.slots[i])
    ensures |Do(y, t).server.table.slots| == |y.server.table.slots|
    ensures F.FairStep(y.server, Do(y, t).server, i)
  {
    if ByServer(t) {
      ServerStep(y, t);
      F.OrderlyStepIsFair(y.server, EventOf(y, t), i);
    } else {
      ClientStepKeepsServer(y, t);
      StepStaysCalm(y, t);
      F.FairIfQueueKept(y.server, Do(y, t).server, i);
    }
  }

  /** An orderly run throughout which slot i stays QUEUED. */
  ghost predicate WaitsThrough(y: Sys, steps: seq<Step>, i: int)
    decreases |steps|
  {
    && 0 <= i < |y.server.table.slots| && Waiting(y.server.table.slots[i])
    && (steps != [] ==> InBounds(y.server) && Orderly(y, steps[0]) && WaitsThrough(Do(y, steps[0]), steps[1..], i))
  }

  ghost function GrantsDuring(y: Sys, steps: seq<Step>, i: int): nat
    requires WaitsThrough(y, steps, i)
    decreases |steps|
  {
    if steps == [] then 0
    else
      var y1 := Do(y, steps[0]);
      F.Grants(y.server, y1.server) + GrantsDuring(y1, steps[1..], i)
  }

  lemma {:induction false} BypassFrom(y: Sys, steps: seq<Step>, i: int)
    requires Inv(y) && F.Calm(y.server) && WaitsThrough(y, steps, i)
    ensures GrantsDuring(y, steps, i) <= QueuePosition(y.server.table.slots, i) - 1
    decreases |steps|
  {
    if steps != [] {
      StepKeepsInv(y, steps[0]);
      StepIsFair(y, steps[0], i);
      BypassFrom(Do(y, steps[0]), steps[1..], i);
    }
  }

  lemma {:induction false} OrderlyRunsAreCalm(y: Sys, steps: seq<Step>, z: Sys)
    requires Inv(y) && F.Calm(y.server) && OrderlyRun(y, steps) && Reachable(y, steps, z)
    ensures Inv(z) && F.Calm(z.server)
    decreases |steps|
  {
    if steps != [] {
      StepKeepsInv(y, steps[0]);
      StepStaysCalm(y, steps[0]);
      OrderlyRunsAreCalm(Do(y, steps[0]), steps[1..], z);
    }
  }

  /** In every run of server and SDK clients without SWITCH, from any moment of it at which
      client i waits, at most position(i) - 1 grants to others come before its own. */
  lemma BoundedBypass(n: nat, before: seq<Step>, y: Sys, steps: seq<Step>, i: int)
    requires Reachable(Start(n), before, y) && OrderlyRun(Start(n), before) && WaitsThrough(y, steps, i)
    ensures 0 <= i < |y.server.table.slots|
    ensures GrantsDuring(y, steps, i) <= QueuePosition(y.server.table.slots, i) - 1
  {
    InitSafe(n);
    OrderlyRunsAreCalm(Start(n), before, y);
    BypassFrom(y, steps, i);
  }
}
