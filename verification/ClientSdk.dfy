/** The client half of the handshake: wispc_connect() up to its synchronous first answer,
    the control thread's message switch, and the generation check in wispc_publish(). */
module ClientSdk {
  import opened Messages
  import opened Sessions
  import opened FdOwnership

  /** Where the client is: before CONNECT, waiting for MODE, waiting for the first answer to
      its first request, in the control loop, or finished. */
  datatype Phase = Fresh | AwaitMode | AwaitFirst | Running | Gone

  /** `granted` is the epoch of the last grant adopted, 0 before the first. */
  datatype Client = Client(phase: Phase, active: bool, granted: nat)

  datatype Reaction = Reaction(client: Client, replies: seq<ToServer>)

  const NEW_CLIENT := Client(Fresh, false, 0)

  /** wispc_handle_grant() with a ring attached and a frame fd received. */
  function AdoptGrant(c: Client, epoch: nat): Reaction {
    Reaction(c.(phase := Running, active := true, granted := epoch), [ReadyForRt(epoch)])
  }

  /** The same without: in wispc_connect() the session is given up, in the control loop the
      grant is simply lost. */
  function LoseGrant(c: Client): Reaction {
    Reaction(if c.phase == AwaitFirst then c.(phase := Gone) else c, [])
  }

  /** What reading one message does; `attaches` says whether a GRANT finds its ring and its
      frame fd. During the handshake everything but the expected message is dropped. */
  function Receive(c: Client, m: ToClient, attaches: bool := true): Reaction {
    match c.phase
    case AwaitMode =>
      if m == Mode(false) || m == VersionMismatch then Reaction(c.(phase := Gone), [])
      else Reaction(c.(phase := AwaitFirst), [ActivateRequest])
    case AwaitFirst =>
      if !m.ActivateGrant? then Reaction(c.(phase := Running), [])
      else if attaches then AdoptGrant(c, m.epoch) else LoseGrant(c)
    case Running =>
      (match m
       case ActivateGrant(epoch) => if attaches then AdoptGrant(c, epoch) else LoseGrant(c)
       case Deactivate => Reaction(c.(active := false), [])
       case EvictPending(number) => Reaction(c.(active := false), [Stopped(number)])
       case _ => Reaction(c, []))
    case _ => Reaction(c, [])
  }

  /** What a failed read does: the handshake carries on regardless. */
  function ReceiveFails(c: Client): Reaction {
    match c.phase
    case AwaitMode => Reaction(c.(phase := AwaitFirst), [ActivateRequest])
    case AwaitFirst => Reaction(c.(phase := Running), [])
    case _ => Reaction(c, [])
  }

  /** The check in wispc_publish() passes: this client may write to the ring. */
  predicate MayPublish(c: Client, epoch: nat) {
    c.active && Word(c.granted) == Word(epoch)
  }

  function Publish(c: Client, epoch: nat): Client {
    if c.active && Word(c.granted) != Word(epoch) then c.(active := false) else c
  }

  /** The reads that have room for a descriptor. */
  predicate TakesFds(phase: Phase) {
    phase == AwaitFirst || phase == Running
  }

  /** The generation check stands down exactly the clients it refuses, and nothing else. */
  lemma PublishStandsDown(c: Client, epoch: nat)
    ensures Publish(c, epoch).active == MayPublish(c, epoch)
    ensures Publish(c, epoch).phase == c.phase && Publish(c, epoch).granted == c.granted
  {}

  /** Connecting: a client turned away gives up; any other answer, or none, is followed by the
      first request, and whatever answers that by the control loop, active if it was a GRANT. */
  lemma ConnectingOutcome(c: Client, m: ToClient, attaches: bool)
    ensures c.phase == AwaitMode && (m == Mode(false) || m == VersionMismatch) ==>
              Receive(c, m, attaches) == Reaction(c.(phase := Gone), [])
    ensures c.phase == AwaitMode && m != Mode(false) && m != VersionMismatch ==>
              Receive(c, m, attaches) == Reaction(c.(phase := AwaitFirst), [ActivateRequest])
    ensures c.phase == AwaitMode ==> ReceiveFails(c) == Reaction(c.(phase := AwaitFirst), [ActivateRequest])
    ensures c.phase == AwaitFirst && !m.ActivateGrant? ==> Receive(c, m, attaches) == Reaction(c.(phase := Running), [])
    ensures c.phase == AwaitFirst ==> ReceiveFails(c) == Reaction(c.(phase := Running), [])
  {}

  /** A GRANT is adopted and answered, or lost; losing the first one ends the session. */
  lemma GrantOutcome(c: Client, epoch: nat, attaches: bool)
    requires c.phase == AwaitFirst || c.phase == Running
    ensures Receive(c, ActivateGrant(epoch), attaches) ==
            if attaches then Reaction(Client(Running, true, epoch), [ReadyForRt(epoch)])
            else Reaction(if c.phase == AwaitFirst then c.(phase := Gone) else c, [])
  {}

  /** In the control loop DEACTIVATE stands the client down, EVICT_PENDING does and is answered,
      nothing else changes anything, and neither does a failed read. */
  lemma ControlOutcome(c: Client, m: ToClient, attaches: bool)
    requires c.phase == Running && !m.ActivateGrant?
    ensures Receive(c, m, attaches).client == c.(active := c.active && !m.EvictPending? && m != Messages.Deactivate)
    ensures Receive(c, m, attaches).replies == if m.EvictPending? then [Stopped(m.number)] else []
    ensures ReceiveFails(c) == Reaction(c, [])
  {}

  /** A descriptor, or none. */
  function Fds(fd: int): seq<int> {
    if fd >= 0 then [fd] else []
  }

  /** The books of a client's descriptors. */
  ghost predicate Balanced(received: seq<int>, closed: seq<int>, held: int, leaked: seq<int>) {
    multiset(received) == multiset(closed) + multiset(Fds(held)) + multiset(leaked)
  }

  lemma GrantBalances(received: seq<int>, closed: seq<int>, held: int, leaked: seq<int>, fd: int, adopted: bool)
    requires Balanced(received, closed, held, leaked) && (adopted ==> fd >= 0)
    ensures Balanced(received + Fds(fd), closed + Fds(if adopted then held else fd), if adopted then fd else held, leaked)
  {}

  lemma LeakBalances(received: seq<int>, closed: seq<int>, held: int, leaked: seq<int>, fd: int)
    requires Balanced(received, closed, held, leaked)
    ensures Balanced(received + Fds(fd), closed, held, leaked + Fds(fd))
  {}

  lemma LastBalances(received: seq<int>, closed: seq<int>, held: int, leaked: seq<int>)
    requires Balanced(received, closed, held, leaked)
    ensures Balanced(received, closed + Fds(held), -1, leaked)
    ensures Balanced(received, closed, -1, leaked) ==> multiset(received) == multiset(closed) + multiset(leaked)
  {}

  /** The frame descriptor a client holds, with its books: every descriptor received is closed,
      held, or leaked, once. */
  class FrameFd {
    var held: int
    const log: FdLog
    ghost var received: seq<int>
    ghost var leaked: seq<int>

    ghost predicate Accounted()
      reads this, log
    {
      Balanced(received, log.closed, held, leaked)
    }

    constructor ()
      ensures Accounted() && fresh(log) && held == -1 && received == [] && leaked == [] && log.closed == []
    {
      held, received, leaked := -1, [], [];
      log := new FdLog();
    }

    /** The descriptor of a GRANT replaces the one before it, or is refused; one of the two is
        closed. */
    method Granted(fd: int, adopted: bool)
      requires Accounted() && (adopted ==> fd >= 0)
      modifies this, log
      ensures Accounted() && received == old(received) + Fds(fd) && leaked == old(leaked)
      ensures held == if adopted then fd else old(held)
      ensures log.closed == old(log.closed) + Fds(if adopted then old(held) else fd)
    {
      GrantBalances(received, log.closed, held, leaked, fd, adopted);
      received := received + Fds(fd);
      var spare := if adopted then held else fd;
      if spare >= 0 { log.Close(spare); }
      if adopted { held := fd; }
    }

    /** A descriptor that came with another message is forgotten. */
    method Forgotten(fd: int)
      requires Accounted()
      modifies this`received, this`leaked
      ensures Accounted() && received == old(received) + Fds(fd) && leaked == old(leaked) + Fds(fd)
    {
      LeakBalances(received, log.closed, held, leaked, fd);
      received, leaked := received + Fds(fd), leaked + Fds(fd);
    }

    method CloseLast()
      requires Accounted()
      modifies this`held, log
      ensures Accounted() && held == -1 && log.closed == old(log.closed) + Fds(old(held))
    {
      LastBalances(received, log.closed, held, leaked);
      if held >= 0 { log.Close(held); }
      held := -1;
    }
  }

  /** The session handle, updated in place. `up` is everything sent on its connection. */
  class Context {
    var phase: Phase
    var active: bool
    var granted: nat
    var up: seq<ToServer>
    var ring: bool
    const frame: FrameFd

    function View(): Client
      reads this
    {
      Client(phase, active, granted)
    }

    /** A descriptor is held only in the control loop. */
    ghost predicate Valid()
      reads this, frame, frame.log
    {
      frame.Accounted() && (phase != Running ==> frame.held == -1)
    }

    constructor ()
      ensures Valid() && View() == NEW_CLIENT && up == [] && !ring && fresh(frame) && fresh(frame.log)
      ensures frame.received == frame.leaked == frame.log.closed == []
    {
      phase, active, granted, up, ring := Fresh, false, 0, [], false;
      frame := new FrameFd();
    }

    /** wispc_handle_grant(): adopts the descriptor and closes the one before it, or closes it
        and returns -1; a ring attached on the way stays attached. */
    method HandleGrant(epoch: nat, attachOk: bool, fd: int) returns (rc: int)
      requires frame.Accounted()
      modifies this, frame, frame.log
      ensures frame.Accounted() && ring == (old(ring) || attachOk)
      ensures var adopted := ring && fd >= 0;
              && rc == (if adopted then 0 else -1)
              && View() == (if adopted then AdoptGrant(old(View()), epoch).client else old(View()))
              && up == (if adopted then old(up) + AdoptGrant(old(View()), epoch).replies else old(up))
              && frame.held == (if adopted then fd else old(frame.held))
              && frame.log.closed == old(frame.log.closed) + Fds(if adopted then old(frame.held) else fd)
              && frame.received == old(frame.received) + Fds(fd) && frame.leaked == old(frame.leaked)
    {
      if !ring { ring := attachOk; }
      frame.Granted(fd, ring && fd >= 0);
      if !ring || fd < 0 { return -1; }
      granted := epoch;
      active := true;
      phase := Running;
      up := up + [ReadyForRt(epoch)];
      return 0;
    }

    /** A descriptor that comes with anything but a GRANT is never closed. */
    twostate predicate Booked(m: ToClient, fd: int)
      reads frame
    {
      && frame.received == old(frame.received) + Fds(fd)
      && frame.leaked == if m.ActivateGrant? then old(frame.leaked) else old(frame.leaked) + Fds(fd)
    }

    /** The first answer to the first request: a lost GRANT ends wispc_connect(). */
    method FirstAnswer(m: ToClient, attachOk: bool, fd: int)
      requires Valid() && phase == AwaitFirst
      modifies this, frame, frame.log
      ensures Valid() && Booked(m, fd) && ring == (old(ring) || (m.ActivateGrant? && attachOk))
      ensures View() == Receive(old(View()), m, (old(ring) || attachOk) && fd >= 0).client
      ensures up == old(up) + Receive(old(View()), m, (old(ring) || attachOk) && fd >= 0).replies
    {
      if m.ActivateGrant? {
        var rc := HandleGrant(m.epoch, attachOk, fd);
        if rc != 0 { phase := Gone; }
      } else {
        phase := Running;
        frame.Forgotten(fd);
      }
    }

    /** A GRANT in the control loop: a lost one changes nothing. */
    method ControlGrant(epoch: nat, attachOk: bool, fd: int)
      requires Valid() && phase == Running
      modifies this, frame, frame.log
      ensures Valid() && Booked(ActivateGrant(epoch), fd) && ring == (old(ring) || attachOk)
      ensures View() == Receive(old(View()), ActivateGrant(epoch), (old(ring) || attachOk) && fd >= 0).client
      ensures up == old(up) + Receive(old(View()), ActivateGrant(epoch), (old(ring) || attachOk) && fd >= 0).replies
    {
      var _ := HandleGrant(epoch, attachOk, fd);
    }

    /** The message switch of the control loop. */
    method Control(m: ToClient, attachOk: bool, fd: int)
      requires Valid() && phase == Running
      modifies this, frame, frame.log
      ensures Valid() && Booked(m, fd) && ring == (old(ring) || (m.ActivateGrant? && attachOk))
      ensures View() == Receive(old(View()), m, (old(ring) || attachOk) && fd >= 0).client
      ensures up == old(up) + Receive(old(View()), m, (old(ring) || attachOk) && fd >= 0).replies
    {
      if m.ActivateGrant? {
        ControlGrant(m.epoch, attachOk, fd);
      } else {
        Obey(m);
        frame.Forgotten(fd);
      }
    }

    method Obey(m: ToClient)
      requires phase == Running && !m.ActivateGrant?
      modifies this`active, this`up
      ensures View() == Receive(old(View()), m).client
      ensures up == old(up) + Receive(old(View()), m).replies
    {
      match m
      case Deactivate => active := false;
      case EvictPending(number) =>
        active := false;
        up := up + [Stopped(number)];
      case _ =>
    }

    /** One message, with the descriptor that came along if any. The answer to CONNECT is read
        without room for descriptors. */
    method OnMessage(m: ToClient, attachOk: bool, fd: int)
      requires Valid()
      modifies this, frame, frame.log
      ensures Valid()
      ensures View() == Receive(old(View()), m, (old(ring) || attachOk) && fd >= 0).client
      ensures up == old(up) + Receive(old(View()), m, (old(ring) || attachOk) && fd >= 0).replies
      ensures ring == (old(ring) || (m.ActivateGrant? && attachOk && TakesFds(old(phase))))
      ensures if TakesFds(old(phase)) then Booked(m, fd) else unchanged(frame) && unchanged(frame.log)
    {
      match phase
      case AwaitMode =>
        if m == Mode(false) || m == VersionMismatch {
          phase := Gone;
        } else {
          up := up + [ActivateRequest];
          phase := AwaitFirst;
        }
      case AwaitFirst => FirstAnswer(m, attachOk, fd);
      case Running => Control(m, attachOk, fd);
      case _ =>
    }

    /** wispc_disconnect(): the frame descriptor is closed last. */
    method Disconnect()
      requires Valid()
      modifies this, frame`held, frame.log
      ensures Valid() && phase == Gone && frame.held == -1 && up == old(up) + [ToServer.Disconnect]
      ensures frame.log.closed == old(frame.log.closed) + Fds(old(frame.held))
    {
      phase := Gone;
      up := up + [ToServer.Disconnect];
      frame.CloseLast();
    }

    /** Returns whether the frame may go to the ring. */
    method CheckGeneration(epoch: nat) returns (ok: bool)
      modifies this`active
      ensures View() == Publish(old(View()), epoch)
      ensures ok <==> MayPublish(old(View()), epoch)
      ensures active == ok
    {
      if !active { return false; }
      if Word(epoch) != Word(granted) {
        active := false;
        return false;
      }
      return true;
    }
  }

  /** A message read, whether attaching the ring works at that moment, and the descriptor that
      came along, -1 for none. */
  datatype Incoming = Incoming(msg: ToClient, attachOk: bool, fd: int)

  datatype Progress = Progress(client: Client, ring: bool)

  /** Where a client is after n messages, CONNECT having been sent. */
  function After(incoming: seq<Incoming>, n: nat): Progress
    requires n <= |incoming|
  {
    if n == 0 then Progress(NEW_CLIENT.(phase := AwaitMode), false)
    else
      var before, x := After(incoming, n - 1), incoming[n - 1];
      Progress(Receive(before.client, x.msg, (before.ring || x.attachOk) && x.fd >= 0).client,
               before.ring || (x.msg.ActivateGrant? && x.attachOk && TakesFds(before.client.phase)))
  }

  /** The descriptors received with the first n messages: those that came with GRANTs, or those
      that came with anything else. */
  function Came(incoming: seq<Incoming>, n: nat, withGrant: bool): seq<int>
    requires n <= |incoming|
  {
    if n == 0 then []
    else
      var x := incoming[n - 1];
      Came(incoming, n - 1, withGrant)
      + if TakesFds(After(incoming, n - 1).client.phase) && x.msg.ActivateGrant? == withGrant then Fds(x.fd) else []
  }

  /** The books say what came. */
  ghost predicate BooksSay(received: seq<int>, leaked: seq<int>, incoming: seq<Incoming>, n: nat)
    requires n <= |incoming|
  {
    && leaked == Came(incoming, n, false)
    && multiset(received) == multiset(Came(incoming, n, true)) + multiset(leaked)
  }

  lemma BooksStep(received: seq<int>, leaked: seq<int>, incoming: seq<Incoming>, n: nat)
    requires n < |incoming| && BooksSay(received, leaked, incoming, n)
    ensures var x := incoming[n];
            var came := if TakesFds(After(incoming, n).client.phase) then Fds(x.fd) else [];
            BooksSay(received + came, leaked + (if x.msg.ActivateGrant? then [] else came), incoming, n + 1)
  {
    var x := incoming[n];
    var came := if TakesFds(After(incoming, n).client.phase) then Fds(x.fd) else [];
    var granted := Came(incoming, n, true);
    assert Came(incoming, n + 1, true) == granted + if x.msg.ActivateGrant? then came else [];
    assert Came(incoming, n + 1, false) == leaked + if x.msg.ActivateGrant? then [] else came;
    assert multiset(received + came) == multiset(received) + multiset(came);
    if x.msg.ActivateGrant? {
      assert multiset(granted + came) == multiset(granted) + multiset(came);
      assert leaked + [] == leaked;
    } else {
      assert multiset(leaked + came) == multiset(leaked) + multiset(came);
      assert granted + [] == granted;
    }
  }

  /** One message of a session. */
  method ReadNext(ctx: Context, incoming: seq<Incoming>, n: nat)
    requires n < |incoming| && ctx.Valid() && Progress(ctx.View(), ctx.ring) == After(incoming, n)
    requires BooksSay(ctx.frame.received, ctx.frame.leaked, incoming, n)
    modifies ctx, ctx.frame, ctx.frame.log
    ensures ctx.Valid() && Progress(ctx.View(), ctx.ring) == After(incoming, n + 1)
    ensures BooksSay(ctx.frame.received, ctx.frame.leaked, incoming, n + 1)
  {
    ghost var received, leaked := ctx.frame.received, ctx.frame.leaked;
    BooksStep(received, leaked, incoming, n);
    assert received + [] == received && leaked + [] == leaked;
    ctx.OnMessage(incoming[n].msg, incoming[n].attachOk, incoming[n].fd);
  }

  /** A whole session, whatever the server sends and whatever descriptors come along: when it is
      over the client has closed, once each, exactly the descriptors that came with GRANTs; so
      it has closed all that came if and only if none came with anything else. */
  method Session(incoming: seq<Incoming>) returns (closed: seq<int>)
    ensures var n := |incoming|;
            && multiset(closed) == multiset(Came(incoming, n, true))
            && (multiset(closed) == multiset(Came(incoming, n, true) + Came(incoming, n, false))
                <==> Came(incoming, n, false) == [])
  {
    var ctx := new Context();
    ctx.phase := AwaitMode;
    for i := 0 to |incoming|
      invariant fresh(ctx) && fresh(ctx.frame) && fresh(ctx.frame.log)
      invariant ctx.Valid() && Progress(ctx.View(), ctx.ring) == After(incoming, i)
      invariant BooksSay(ctx.frame.received, ctx.frame.leaked, incoming, i)
    {
      ReadNext(ctx, incoming, i);
    }
    ghost var received, leaked := ctx.frame.received, ctx.frame.leaked;
    if ctx.phase == Running { ctx.Disconnect(); }
    closed := ctx.frame.log.closed;
    LastBalances(received, closed, -1, leaked);
    AllClosedExactly(closed, Came(incoming, |incoming|, true), Came(incoming, |incoming|, false), received);
  }

  lemma AllClosedExactly(closed: seq<int>, granted: seq<int>, strayed: seq<int>, received: seq<int>)
    requires multiset(received) == multiset(closed) + multiset(strayed)
    requires multiset(received) == multiset(granted) + multiset(strayed)
    ensures multiset(closed) == multiset(granted)
    ensures multiset(closed) == multiset(granted + strayed) <==> strayed == []
  {
    assert multiset(granted) == multiset(received) - multiset(strayed) == multiset(closed);
    assert multiset(granted + strayed) == multiset(granted) + multiset(strayed);
    if strayed != [] {
      assert strayed[0] in multiset(strayed);
    } else {
      assert granted + strayed == granted;
    }
  }
}
