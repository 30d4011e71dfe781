/** Frame-ready signalling: publishers post to an eventfd after publishing, the data-plane
    loop drains it before checking the ring out. Any number of publishers may be between
    publish and post at once (an evicted one may still be about to post when its successor
    publishes), and every step interleaves with every other. */
module WakeUp {
  import opened Ring

  /** Where the data-plane loop is: in epoll_wait, draining the eventfd, drained but not yet
      checked out, or blitting. */
  datatype Stage = Waiting | Draining | Drained | Blitting

  /** `unseen`: the latest ready frame has not been checked out. `posting` counts publishers
      between publish and eventfd write, `wakes` the wake-ups with a frame signal. */
  datatype Plane = Plane(
    ready: bool, unseen: bool, counter: nat, posting: nat, stage: Stage,
    wakes: nat, rendered: nat, dropped: nat, blitErrors: nat)

  const START := Plane(false, false, 0, 0, Waiting, 0, 0, 0, 0)

  datatype Action =
    | Publishes
    | Posts
    | Evicts
    | Kicked
    | Wakes
    | ReadsCounter
    | FindsItEmpty
    | ChecksOut
    | BlitEnds(ok: bool)

  predicate Can(p: Plane, a: Action) {
    match a
    case Posts => p.posting > 0
    case Kicked => p.stage == Waiting
    case Wakes => p.stage == Waiting && p.counter > 0
    case ReadsCounter => p.stage == Draining && p.counter > 0
    case FindsItEmpty => p.stage == Draining && p.counter == 0
    case ChecksOut => p.stage == Drained
    case BlitEnds(_) => p.stage == Blitting
    case _ => true
  }

  function Do(p: Plane, a: Action): Plane
    requires Can(p, a)
  {
    match a
    case Publishes => p.(ready := true, unseen := true, posting := p.posting + 1)
    case Posts => p.(posting := p.posting - 1, counter := p.counter + 1)
    case Evicts => p.(ready := false, unseen := false)
    case Kicked => p
    case Wakes => p.(stage := Draining, wakes := p.wakes + 1)
    case ReadsCounter => p.(counter := 0)
    case FindsItEmpty => p.(stage := Drained)
    case ChecksOut =>
      if p.ready then p.(stage := Blitting, unseen := false) else p.(stage := Waiting, dropped := p.dropped + 1)
    case BlitEnds(ok) =>
      if ok then p.(stage := Waiting, rendered := p.rendered + 1) else p.(stage := Waiting, blitErrors := p.blitErrors + 1)
  }

  predicate Inv(p: Plane) {
    && (p.unseen ==> p.ready)
    && (p.unseen ==> p.counter > 0 || p.posting > 0 || p.stage == Draining || p.stage == Drained)
    && p.wakes == p.rendered + p.dropped + p.blitErrors + (if p.stage == Waiting then 0 else 1)
  }

  predicate LegalRun(p: Plane, run: seq<Action>)
    decreases |run|
  {
    run == [] || (Can(p, run[0]) && LegalRun(Do(p, run[0]), run[1..]))
  }

  function Exec(p: Plane, run: seq<Action>): Plane
    requires LegalRun(p, run)
    decreases |run|
  {
    if run == [] then p else Exec(Do(p, run[0]), run[1..])
  }

  lemma {:induction false} InvFrom(p: Plane, run: seq<Action>)
    requires Inv(p) && LegalRun(p, run)
    ensures Inv(Exec(p, run))
    decreases |run|
  {
    if run != [] { InvFrom(Do(p, run[0]), run[1..]); }
  }

  /** No wake-up is lost: a frame nobody has checked out always has a signal behind it, or
      one on its way, or the loop already past the drain and about to look. */
  lemma NoLostWakeUp(run: seq<Action>)
    requires LegalRun(START, run)
    ensures var p := Exec(START, run);
            p.unseen ==> p.counter > 0 || p.posting > 0 || p.stage == Draining || p.stage == Drained
  {
    InvFrom(START, run);
  }

  /** Every drained wake is accounted for exactly once. */
  lemma WakesAreAccountedFor(run: seq<Action>)
    requires LegalRun(START, run) && Exec(START, run).stage == Waiting
    ensures var p := Exec(START, run); p.wakes == p.rendered + p.dropped + p.blitErrors
  {
    InvFrom(START, run);
  }

  /** The loop's own next step; it is stuck only in epoll_wait with nothing to read. */
  function LoopStep(p: Plane): Action {
    match p.stage
    case Waiting => Wakes
    case Draining => if p.counter > 0 then ReadsCounter else FindsItEmpty
    case Drained => ChecksOut
    case Blitting => BlitEnds(true)
  }

  /** The loop alone, k steps or until it has nothing to do. */
  function LoopRuns(p: Plane, k: nat): Plane
    decreases k
  {
    if k == 0 || !Can(p, LoopStep(p)) then p else LoopRuns(Do(p, LoopStep(p)), k - 1)
  }

  /** Steps the loop still needs before its next checkout. */
  function StepsToCheckout(p: Plane): nat {
    match p.stage
    case Blitting => 5
    case Waiting => 4
    case Draining => if p.counter > 0 then 3 else 2
    case Drained => 1
  }

  /** So a published frame is not only signalled, it is reached: once its publishers have
      posted, the loop alone checks it out within five steps. */
  lemma {:induction false} PublishedFrameIsReached(p: Plane)
    requires Inv(p) && p.unseen && p.posting == 0
    ensures StepsToCheckout(p) <= 5
    ensures !LoopRuns(p, StepsToCheckout(p)).unseen
    decreases StepsToCheckout(p)
  {
    if p.stage != Drained {
      var q := Do(p, LoopStep(p));
      assert LoopRuns(p, StepsToCheckout(p)) == LoopRuns(q, StepsToCheckout(p) - 1);
      PublishedFrameIsReached(q);
      assert StepsToCheckout(q) == StepsToCheckout(p) - 1;
    }
  }

  /** One whole pass of the loop, from a signal to the end of the blit if there is one. */
  function Pass(p: Plane, blitOk: bool): Plane
    requires p.stage == Waiting && p.counter > 0
  {
    var drained := Do(Do(Do(p, Wakes), ReadsCounter), FindsItEmpty);
    var checked := Do(drained, ChecksOut);
    if checked.stage == Blitting then Do(checked, BlitEnds(blitOk)) else checked
  }

  /** It clears the signal, and counts a frame rendered or failed if one is ready, dropped if none
      is; a ready frame has been seen then. */
  lemma PassOutcome(p: Plane, blitOk: bool)
    requires p.stage == Waiting && p.counter > 0
    ensures Pass(p, blitOk) == p.(counter := 0, wakes := p.wakes + 1,
              unseen := p.unseen && !p.ready,
              rendered := p.rendered + (if p.ready && blitOk then 1 else 0),
              blitErrors := p.blitErrors + (if p.ready && !blitOk then 1 else 0),
              dropped := p.dropped + (if p.ready then 0 else 1))
  {}

  /** The loop body as written, for one wake-up nothing else interferes with. */
  class DataPlane {
    const ring: ShmRing
    var counter: nat
    var rendered: nat
    var dropped: nat
    var blitErrors: nat
    var lastLatencyNs: nat

    /** As the loop's own steps see it, in epoll_wait with nobody about to post. */
    function View(): Plane
      reads this, ring
    {
      Plane(ring.latestReady >= 0, false, counter, 0, Waiting, rendered + dropped + blitErrors, rendered, dropped, blitErrors)
    }

    constructor (ring: ShmRing)
      ensures this.ring == ring && counter == rendered == dropped == blitErrors == lastLatencyNs == 0
    {
      this.ring := ring;
      counter, rendered, dropped, blitErrors, lastLatencyNs := 0, 0, 0, 0, 0;
    }

    /** A wake without a frame signal changes nothing. One with a signal empties the counter,
        leaves no buffer locked, adds one to exactly one statistic, and measures the latency
        of the frame it rendered. */
    method OnWake(haveFrameSignal: bool, blitOk: bool, nowNs: nat) returns (shown: int)
      requires -1 <= ring.latestReady < ring.frames.Length
      modifies this, ring`serverLocked
      ensures !haveFrameSignal ==>
                shown == -1 && unchanged(this) && ring.serverLocked == old(ring.serverLocked)
      ensures haveFrameSignal && old(counter) > 0 ==> View() == Pass(old(View()), blitOk)
      ensures haveFrameSignal ==>
                && counter == 0
                && shown == ring.latestReady
                && ring.serverLocked == (if shown >= 0 then -1 else old(ring.serverLocked))
                && dropped == old(dropped) + (if shown < 0 then 1 else 0)
                && rendered == old(rendered) + (if shown >= 0 && blitOk then 1 else 0)
                && blitErrors == old(blitErrors) + (if shown >= 0 && !blitOk then 1 else 0)
                && lastLatencyNs == (if shown >= 0 && blitOk
                                     then (nowNs - ring.frames[shown].ts) % 0x1_0000_0000_0000_0000
                                     else old(lastLatencyNs))
    {
      if !haveFrameSignal { return -1; }
      while counter > 0
        decreases counter
        invariant unchanged(ring) && unchanged(this`dropped) && unchanged(this`rendered)
        invariant unchanged(this`blitErrors) && unchanged(this`lastLatencyNs)
      {
        counter := 0;
      }
      shown := ring.CheckoutLatest();
      if shown < 0 {
        dropped := dropped + 1;
        return;
      }
      var writtenAt := ring.frames[shown].ts;
      ring.ReleaseServer();
      if !blitOk {
        blitErrors := blitErrors + 1;
        return;
      }
      rendered := rendered + 1;
      lastLatencyNs := (nowNs - writtenAt) % 0x1_0000_0000_0000_0000;
    }
  }
}
