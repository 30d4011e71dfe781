/** The shared frame ring: latest-ready, server-locked and client-locked indices over NB
    buffers, each operation one critical section under the bookkeeping mutex (stamping a
    buffer's id and timestamp, and touching its pixels, happens outside it). */
module Ring {
  import opened Bytes

  /** One buffer: what a producer stamps and draws into it. */
  datatype Frame = Frame(id: nat, ts: nat, pixels: seq<Byte>)

  datatype RingState = RingState(
    latestReady: int,
    serverLocked: int,
    clientLocked: int,
    epoch: nat,
    frames: seq<Frame>)

  predicate Free(r: RingState, i: int) {
    i != r.latestReady && i != r.serverLocked
  }

  /** The first buffer at or after `from` that is neither published nor being read. */
  function FreeBuffer(r: RingState, from: nat := 0): (idx: int)
    requires from <= |r.frames|
    ensures idx == -1 ==> forall i :: from <= i < |r.frames| ==> !Free(r, i)
    ensures idx != -1 ==> from <= idx < |r.frames| && Free(r, idx) && forall i :: from <= i < idx ==> !Free(r, i)
    decreases |r.frames| - from
  {
    if from == |r.frames| then -1
    else if Free(r, from) then from
    else FreeBuffer(r, from + 1)
  }

  /** write_slot() returns instead of aborting. */
  predicate CanClaim(r: RingState) {
    r.clientLocked == -1 && FreeBuffer(r) != -1
  }

  function WriteSlot(r: RingState): RingState
    requires CanClaim(r)
  {
    r.(clientLocked := FreeBuffer(r))
  }

  function Publish(r: RingState, idx: int): RingState {
    r.(latestReady := idx, clientLocked := -1)
  }

  function Checkout(r: RingState): RingState {
    if r.latestReady >= 0 then r.(serverLocked := r.latestReady) else r
  }

  function Release(r: RingState): RingState {
    r.(serverLocked := -1)
  }

  function Evict(r: RingState): RingState {
    r.(epoch := r.epoch + 1, latestReady := -1, serverLocked := -1, clientLocked := -1)
  }

  /** Three buffers suffice: whatever is published and whatever is being read, one is left. */
  lemma ThreeBuffersSuffice(r: RingState)
    requires |r.frames| >= 3
    ensures FreeBuffer(r) != -1
  {
    assert Free(r, 0) || Free(r, 1) || Free(r, 2);
  }

  class ShmRing {
    var latestReady: int
    var serverLocked: int
    var clientLocked: int
    var epoch: nat
    const frames: array<Frame>

    function View(): RingState
      reads this, frames
    {
      RingState(latestReady, serverLocked, clientLocked, epoch, frames[..])
    }

    constructor (buffers: nat, blank: Frame)
      ensures fresh(frames) && frames.Length == buffers
      ensures View() == RingState(-1, -1, -1, 0, seq(buffers, _ => blank))
    {
      frames := new Frame[buffers](_ => blank);
      latestReady, serverLocked, clientLocked, epoch := -1, -1, -1, 0;
    }

    /** `claimed` is false where the program aborts; nothing has changed then. */
    method ClaimWriteSlot() returns (claimed: bool, idx: int)
      modifies this`clientLocked
      ensures claimed <==> CanClaim(old(View()))
      ensures View() == if claimed then WriteSlot(old(View())) else old(View())
      ensures claimed ==> idx == clientLocked
    {
      if clientLocked != -1 { return false, -1; }
      var i := 0;
      while i < frames.Length
        invariant 0 <= i <= frames.Length
        invariant FreeBuffer(View(), i) == FreeBuffer(View())
        invariant View() == old(View())
      {
        if i != latestReady && i != serverLocked {
          clientLocked := i;
          return true, i;
        }
        i := i + 1;
      }
      return false, -1;
    }

    method PublishSlot(idx: int, id: nat, ts: nat)
      requires 0 <= idx < frames.Length
      modifies this, frames
      ensures var stamped := old(View()).frames[idx].(id := id, ts := ts);
              View() == Publish(old(View()).(frames := old(View()).frames[idx := stamped]), idx)
    {
      frames[idx] := frames[idx].(id := id);
      frames[idx] := frames[idx].(ts := ts);
      latestReady := idx;
      clientLocked := -1;
    }

    method CheckoutLatest() returns (idx: int)
      modifies this`serverLocked
      ensures View() == Checkout(old(View()))
      ensures idx == latestReady
    {
      idx := latestReady;
      if idx >= 0 { serverLocked := idx; }
    }

    method ReleaseServer()
      modifies this`serverLocked
      ensures View() == Release(old(View()))
    {
      serverLocked := -1;
    }

    method EvictClient()
      modifies this
      ensures View() == Evict(old(View()))
    {
      epoch := epoch + 1;
      latestReady := -1;
      serverLocked := -1;
      clientLocked := -1;
    }
  }
}
