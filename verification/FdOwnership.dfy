/** Who closes the file descriptors that arrive with a control message.

    recvmsg() may deliver any ancillary data; out_fds is filled in place and every close()
    is logged. */
module FdOwnership {
  import opened Bytes
  import opened Framing

  const NUM_BUFFERS := 3
  const DMABUF_ANNOUNCE: Byte := 9

  /** One control message: SCM_RIGHTS with its descriptors, or something else. */
  datatype Cmsg = Cmsg(rights: bool, fds: seq<int>)

  function Rights(c: Cmsg): seq<int> {
    if c.rights then c.fds else []
  }

  /** Every descriptor passed, in order of arrival. */
  function Passed(ancillary: seq<Cmsg>): seq<int> {
    if ancillary == [] then [] else Rights(ancillary[0]) + Passed(ancillary[1..])
  }

  function Valid(fds: seq<int>): seq<int> {
    if fds == [] then [] else (if fds[0] >= 0 then [fds[0]] else []) + Valid(fds[1..])
  }

  function Front(fds: seq<int>, most: nat): seq<int> {
    if |fds| <= most then fds else fds[..most]
  }

  function Excess(fds: seq<int>, most: nat): seq<int> {
    if |fds| <= most then [] else fds[most..]
  }

  lemma {:induction false} ValidAppend(a: seq<int>, b: seq<int>)
    ensures Valid(a + b) == Valid(a) + Valid(b)
    decreases |a|
  {
    if a == [] {
      assert a + b == b;
    } else {
      ValidAppend(a[1..], b);
      assert (a + b)[1..] == a[1..] + b;
      var first := if a[0] >= 0 then [a[0]] else [];
      assert first + (Valid(a[1..]) + Valid(b)) == first + Valid(a[1..]) + Valid(b);
    }
  }

  /** Every descriptor of every SCM_RIGHTS message is passed, in order, and no others. */
  lemma {:induction false} PassedOfMany(a: seq<Cmsg>, b: seq<Cmsg>)
    ensures Passed(a + b) == Passed(a) + Passed(b)
    decreases |a|
  {
    if a == [] {
      assert a + b == b;
    } else {
      PassedOfMany(a[1..], b);
      assert (a + b)[1..] == a[1..] + b;
      assert Rights(a[0]) + (Passed(a[1..]) + Passed(b)) == Rights(a[0]) + Passed(a[1..]) + Passed(b);
    }
  }

  lemma PassedOfOne(fds: seq<int>)
    ensures Passed([Cmsg(true, fds)]) == fds && Passed([Cmsg(false, fds)]) == []
  {
    assert [Cmsg(true, fds)][1..] == [] && [Cmsg(false, fds)][1..] == [];
  }

  /** The valid descriptors are those that are not negative, each as often as it occurs. */
  lemma {:induction false} ValidKeeps(fds: seq<int>, fd: int)
    ensures multiset(Valid(fds))[fd] == if fd >= 0 then multiset(fds)[fd] else 0
    decreases |fds|
  {
    if fds != [] {
      ValidKeeps(fds[1..], fd);
      assert fds == [fds[0]] + fds[1..];
    }
  }

  /** There is room for the first `most`, and the others are in excess. */
  lemma RoomForFirst(fds: seq<int>, most: nat)
    ensures |Front(fds, most)| == if |fds| < most then |fds| else most
    ensures Front(fds, most) + Excess(fds, most) == fds
  {}

  class FdLog {
    var closed: seq<int>

    constructor ()
      ensures closed == []
    {
      closed := [];
    }

    method Close(fd: int)
      modifies this
      ensures closed == old(closed) + [fd]
    {
      closed := closed + [fd];
    }

    /** wisp_close_fds(). */
    method CloseFds(fds: array<int>, nfds: nat)
      requires nfds <= fds.Length
      modifies this
      ensures closed == old(closed) + Valid(fds[..nfds])
    {
      for i := 0 to nfds
        invariant closed == old(closed) + Valid(fds[..i])
      {
        ValidAppend(fds[..i], [fds[i]]);
        assert fds[..i + 1] == fds[..i] + [fds[i]];
        if fds[i] >= 0 { Close(fds[i]); }
      }
    }
  }

  /** Descriptors ride on a byte of the stream: on its byte number `at`. */
  datatype Attached = Attached(at: nat, fds: seq<int>)

  class Ancillary {
    var attached: seq<Attached>

    constructor ()
      ensures attached == []
    {
      attached := [];
    }

    method Attach(at: nat, fds: seq<int>)
      modifies this
      ensures attached == old(attached) + [Attached(at, fds)]
    {
      attached := attached + [Attached(at, fds)];
    }
  }

  /** sendmsg(), repeated while interrupted: part of the header, with the descriptors on its first
      byte, or an error and nothing at all. */
  method SendMsg(s: Socket, hdr: seq<Byte>, fds: seq<int>, side: Ancillary) returns (failed: bool, sent: nat)
    requires hdr != []
    modifies s, side
    ensures failed ==> s.stream == old(s.stream) && side.attached == old(side.attached)
    ensures !failed ==> 1 <= sent <= |hdr| && s.stream == old(s.stream) + hdr[..sent]
    ensures !failed ==> side.attached == old(side.attached) + [Attached(|old(s.stream)|, fds)]
    ensures NoFailure(old(s.plan)) ==> !failed && NoFailure(s.plan)
  {
    var r := s.Write(hdr);
    while r == Again
      invariant !r.Count? ==> s.stream == old(s.stream)
      invariant r.Count? ==> 1 <= r.n <= |hdr| && s.stream == old(s.stream) + hdr[..r.n]
      invariant NoFailure(old(s.plan)) ==> NoFailure(s.plan) && r != Broken
      invariant side.attached == old(side.attached)
      decreases r == Again, |s.plan|
    {
      r := s.Write(hdr);
    }
    if r == Broken { return true, 0; }
    side.Attach(|s.stream| - r.n, fds);
    return false, r.n;
  }

  /** wisp_ctrl_send_fds(): the bytes on the wire are those of a plain send, and the descriptors
      go out once, on the first byte of the header; not at all if no byte was sent. */
  method SendFds(s: Socket, m: Message, fds: seq<int>, side: Ancillary) returns (ok: bool)
    requires Sendable(m)
    modifies s, side
    ensures |fds| > NUM_BUFFERS ==> !ok && s.stream == old(s.stream)
    ensures ok ==> s.stream == old(s.stream) + Encode(m)
    ensures |fds| <= NUM_BUFFERS && NoFailure(old(s.plan)) ==> ok && NoFailure(s.plan)
    ensures side.attached == old(side.attached) + if 0 < |fds| <= NUM_BUFFERS && s.stream != old(s.stream)
                                                  then [Attached(|old(s.stream)|, fds)] else []
  {
    if |fds| == 0 {
      ok := s.Send(m);
      return;
    }
    if |fds| > NUM_BUFFERS { return false; }
    var hdr := Header(m.kind, |m.payload|);
    var failed, sent := SendMsg(s, hdr, fds, side);
    if failed { return false; }
    ok := true;
    if sent < HEADER_LEN { ok := s.SendAll(hdr[sent..]); }
    assert |s.stream| > |old(s.stream)|;
    if !ok { return; }
    assert hdr[..sent] + hdr[sent..] == hdr;
    if |m.payload| > 0 { ok := s.SendAll(m.payload); }
    assert |s.stream| > |old(s.stream)|;
  }

  /** What recvmsg() delivers with the stream's byte number `at`. */
  function Delivered(attached: seq<Attached>, at: nat): seq<Cmsg> {
    if attached == [] then []
    else (if attached[0].at == at then [Cmsg(true, attached[0].fds)] else []) + Delivered(attached[1..], at)
  }

  /** After `done` descriptors: the first ones stored, the others closed. */
  predicate Shared(done: seq<int>, most: nat, stored: seq<int>, closedBefore: seq<int>, closed: seq<int>) {
    stored == Front(done, most) && closed == closedBefore + Excess(done, most)
  }

  lemma SharedStep(done: seq<int>, fd: int, most: nat, stored: seq<int>, closedBefore: seq<int>, closed: seq<int>)
    requires Shared(done, most, stored, closedBefore, closed)
    ensures if |stored| < most then Shared(done + [fd], most, stored + [fd], closedBefore, closed)
            else Shared(done + [fd], most, stored, closedBefore, closed + [fd])
  {
    if |done| >= most { assert (done + [fd])[most..] == done[most..] + [fd]; }
  }

  /** One descriptor: stored if there is room, closed if not. */
  method TakeFd(fd: int, outFds: array<int>, have: nat, maxFds: nat, log: FdLog, ghost done: seq<int>, ghost closedBefore: seq<int>)
    returns (nfds: nat)
    requires have <= maxFds <= outFds.Length
    requires Shared(done, maxFds, outFds[..have], closedBefore, log.closed)
    modifies outFds, log
    ensures nfds <= maxFds && Shared(done + [fd], maxFds, outFds[..nfds], closedBefore, log.closed)
  {
    SharedStep(done, fd, maxFds, outFds[..have], closedBefore, log.closed);
    nfds := have;
    if have < maxFds {
      outFds[have] := fd;
      nfds := have + 1;
      assert outFds[..nfds] == old(outFds[..have]) + [fd];
    } else {
      log.Close(fd);
    }
  }

  /** The descriptors of one control message. */
  method TakeFds(fds: seq<int>, outFds: array<int>, have: nat, maxFds: nat, log: FdLog, ghost before: seq<int>, ghost closedBefore: seq<int>)
    returns (nfds: nat)
    requires have <= maxFds <= outFds.Length
    requires Shared(before, maxFds, outFds[..have], closedBefore, log.closed)
    modifies outFds, log
    ensures nfds <= maxFds && Shared(before + fds, maxFds, outFds[..nfds], closedBefore, log.closed)
  {
    nfds := have;
    assert before + fds[..0] == before;
    for i := 0 to |fds|
      invariant nfds <= maxFds
      invariant Shared(before + fds[..i], maxFds, outFds[..nfds], closedBefore, log.closed)
    {
      nfds := TakeFd(fds[i], outFds, nfds, maxFds, log, before + fds[..i], closedBefore);
      assert before + fds[..i] + [fds[i]] == before + fds[..i + 1];
    }
    assert fds[..|fds|] == fds;
  }

  /** Store the passed descriptors in out_fds while there is room and close the rest. */
  method Harvest(ancillary: seq<Cmsg>, outFds: array<int>, maxFds: nat, log: FdLog) returns (nfds: nat)
    requires maxFds <= outFds.Length
    modifies outFds, log
    ensures nfds <= maxFds
    ensures Shared(Passed(ancillary), maxFds, outFds[..nfds], old(log.closed), log.closed)
  {
    nfds := 0;
    ghost var done: seq<int> := [];
    assert ancillary[0..] == ancillary;
    for c := 0 to |ancillary|
      invariant nfds <= maxFds
      invariant done + Passed(ancillary[c..]) == Passed(ancillary)
      invariant Shared(done, maxFds, outFds[..nfds], old(log.closed), log.closed)
    {
      PassedStep(ancillary, c, done);
      var fds := Rights(ancillary[c]);
      nfds := TakeFds(fds, outFds, nfds, maxFds, log, done, old(log.closed));
      done := done + fds;
    }
    assert done == Passed(ancillary);
  }

  lemma PassedStep(ancillary: seq<Cmsg>, c: int, before: seq<int>)
    requires 0 <= c < |ancillary|
    ensures before + Passed(ancillary[c..]) == before + Rights(ancillary[c]) + Passed(ancillary[c + 1..])
  {
    assert ancillary[c..][1..] == ancillary[c + 1..];
  }

  /** What recvmsg() delivered: nothing if it returned no bytes. */
  function Arrived(ancillary: seq<Cmsg>, before: seq<Byte>, after: seq<Byte>): seq<int> {
    if |after| < |before| then Passed(ancillary) else []
  }

  /** The first recvmsg(), repeated while interrupted. */
  method ReceiveFirst(s: Socket) returns (n: nat, first: seq<Byte>)
    modifies s
    ensures n == |first| <= HEADER_LEN && old(s.stream) == first + s.stream
    ensures NoFailure(old(s.plan)) ==> NoFailure(s.plan) && (n == 0 ==> old(s.stream) == [])
  {
    var r;
    r, first := s.Read(HEADER_LEN);
    while r == Again
      invariant !r.Count? ==> s.stream == old(s.stream)
      invariant r.Count? ==> r.n == |first| <= HEADER_LEN && old(s.stream) == first + s.stream
      invariant r.Count? && r.n == 0 ==> old(s.stream) == []
      invariant NoFailure(old(s.plan)) ==> NoFailure(s.plan) && r != Broken
      decreases r == Again, |s.plan|
    {
      r, first := s.Read(HEADER_LEN);
    }
    if r == Broken { return 0, []; }
    n := r.n;
  }

  /** wisp_ctrl_recv_fds(). It decodes exactly what wisp_ctrl_recv() decodes, however little
      of the header the first read returns. Descriptors are delivered only with a message,
      the first `maxFds` of those that arrived; all others that arrived are closed, on every
      way out. */
  method RecvFds(s: Socket, bufsize: nat, outFds: array<int>, maxFds: nat, ancillary: seq<Cmsg>, log: FdLog)
    returns (rc: int, m: Message, nfds: nat)
    requires maxFds <= outFds.Length
    modifies s, outFds, log
    ensures rc == 0 || rc == -1 || rc == -2
    ensures rc == 0 ==> Decode(old(s.stream), bufsize) == Got(m, s.stream)
    ensures rc == -2 ==> Decode(old(s.stream), bufsize) == TooBig(s.stream)
    ensures NoFailure(old(s.plan)) ==> (rc == -1 <==> Decode(old(s.stream), bufsize) == Cut)
    ensures var arrived := Arrived(ancillary, old(s.stream), s.stream);
            && nfds <= maxFds && outFds[..nfds] == (if rc == 0 then Front(arrived, maxFds) else [])
            && log.closed == old(log.closed) + Excess(arrived, maxFds) + (if rc == 0 then [] else Valid(Front(arrived, maxFds)))
  {
    nfds, m := 0, Message(0, []);
    var n, hdr := ReceiveFirst(s);
    if n == 0 { return -1, m, 0; }
    nfds := Harvest(ancillary, outFds, maxFds, log);
    if n < HEADER_LEN {
      var ok, more := s.RecvAll(HEADER_LEN - n);
      if !ok {
        log.CloseFds(outFds, nfds);
        return -1, m, 0;
      }
      hdr := hdr + more;
    }
    assert old(s.stream) == hdr + s.stream;
    rc, m := s.RecvPayload(hdr, bufsize);
    if rc != 0 {
      log.CloseFds(outFds, nfds);
      nfds := 0;
    }
  }

  /** Conservation, on every way out of wisp_ctrl_recv_fds(): each descriptor that arrived is
      delivered or closed, exactly once. */
  method RecvFdsOnce(s: Socket, bufsize: nat, outFds: array<int>, maxFds: nat, ancillary: seq<Cmsg>, log: FdLog)
    returns (rc: int, m: Message, nfds: nat)
    requires maxFds <= outFds.Length && forall k :: 0 <= k < |Passed(ancillary)| ==> Passed(ancillary)[k] >= 0
    modifies s, outFds, log
    ensures nfds <= maxFds && (rc != 0 ==> nfds == 0)
    ensures multiset(outFds[..nfds]) + multiset(log.closed)
         == multiset(old(log.closed)) + multiset(Arrived(ancillary, old(s.stream), s.stream))
  {
    rc, m, nfds := RecvFds(s, bufsize, outFds, maxFds, ancillary, log);
    EveryFdOnce(Arrived(ancillary, old(s.stream), s.stream), maxFds, outFds[..nfds], old(log.closed), log.closed, rc);
  }

  /** A message and up to three descriptors sent over a connection that splits and interrupts
      calls at will: the receiver gets that message and those descriptors, in order. */
  method PassFds(m: Message, fds: seq<int>, bufsize: nat, plan: seq<Outcome>)
    returns (received: Message, passed: seq<int>, closed: seq<int>)
    requires Sendable(m) && |m.payload| <= bufsize && |fds| <= NUM_BUFFERS && NoFailure(plan)
    ensures received == m && passed == fds && closed == []
  {
    var s := new Socket(plan);
    var side := new Ancillary();
    var log := new FdLog();
    var ok := SendFds(s, m, fds, side);
    assert side.attached == if fds == [] then [] else [Attached(0, fds)];
    EncodingIsDecoded(m, bufsize, s.stream);
    DeliveredOnce(fds);
    var outFds := new int[NUM_BUFFERS];
    var rc, nfds;
    rc, received, nfds := RecvFds(s, bufsize, outFds, NUM_BUFFERS, Delivered(side.attached, 0), log);
    passed, closed := outFds[..nfds], log.closed;
  }

  lemma EncodingIsDecoded(m: Message, bufsize: nat, stream: seq<Byte>)
    requires Sendable(m) && |m.payload| <= bufsize && stream == [] + Encode(m)
    ensures stream != [] && Decode(stream, bufsize) == Got(m, [])
  {
    DecodeEncode(m, [], bufsize);
    assert stream == Encode(m) + [];
  }

  lemma DeliveredOnce(fds: seq<int>)
    ensures Passed(Delivered([Attached(0, fds)], 0)) == fds
    ensures Passed(Delivered([], 0)) == []
  {
    assert [Attached(0, fds)][1..] == [];
    assert [Cmsg(true, fds)][1..] == [];
    assert Delivered([Attached(0, fds)], 0) == [Cmsg(true, fds)];
  }

  lemma EveryFdOnce(arrived: seq<int>, most: nat, delivered: seq<int>, before: seq<int>, after: seq<int>, rc: int)
    requires forall k :: 0 <= k < |arrived| ==> arrived[k] >= 0
    requires delivered == if rc == 0 then Front(arrived, most) else []
    requires after == before + Excess(arrived, most) + (if rc == 0 then [] else Valid(Front(arrived, most)))
    ensures multiset(delivered) + multiset(after) == multiset(before) + multiset(arrived)
  {
    var front, excess := Front(arrived, most), Excess(arrived, most);
    FrontAndExcess(arrived, most);
    if rc == 0 {
      assert after == before + excess;
    } else {
      AllValid(front);
      assert multiset(before + excess + front) == multiset(before) + multiset(excess) + multiset(front);
    }
  }

  lemma FrontAndExcess(passed: seq<int>, most: nat)
    ensures multiset(passed) == multiset(Front(passed, most)) + multiset(Excess(passed, most))
  {
    assert passed == Front(passed, most) + Excess(passed, most);
  }

  lemma {:induction false} AllValid(fds: seq<int>)
    requires forall k :: 0 <= k < |fds| ==> fds[k] >= 0
    ensures Valid(fds) == fds
    decreases |fds|
  {
    if fds != [] { AllValid(fds[1..]); }
  }

  // The server's use of what was delivered.

  datatype Desc = Desc(width: nat, height: nat, stride: nat)

  /** DMABUF_ANNOUNCE's payload. */
  datatype Announce = Announce(nbufs: nat, desc: seq<Desc>)

  predicate GoodDesc(d: Desc) {
    d.width != 0 && d.height != 0 && d.stride != 0 && d.stride >= d.width
  }

  class DmabufSet {
    const fds: array<int>
    var desc: seq<Desc>
    var valid: bool

    constructor ()
      ensures fresh(fds) && fds.Length == NUM_BUFFERS
    {
      fds := new int[NUM_BUFFERS](_ => -1);
      desc, valid := [], false;
    }

    /** wisps_dmabuf_set_from_announce(): adopts all the descriptors or closes them all. */
    method FromAnnounce(msg: Announce, passed: array<int>, nfds: nat, log: FdLog) returns (ok: bool)
      requires fds.Length == NUM_BUFFERS && |msg.desc| == NUM_BUFFERS
      requires nfds <= NUM_BUFFERS <= passed.Length && passed != fds
      modifies this, fds, log
      ensures ok <==>
                && msg.nbufs == NUM_BUFFERS && nfds == NUM_BUFFERS
                && (forall i :: 0 <= i < NUM_BUFFERS ==>
                      && passed[i] >= 0 && msg.desc[i].width != 0 && msg.desc[i].height != 0
                      && msg.desc[i].stride != 0 && msg.desc[i].stride >= msg.desc[i].width)
      ensures ok ==> valid && fds[..] == passed[..NUM_BUFFERS] && desc == msg.desc && log.closed == old(log.closed)
      ensures !ok ==> !valid && fds[..] == [-1, -1, -1] && log.closed == old(log.closed) + Valid(passed[..nfds])
    {
      desc, valid := [], false;
      for i := 0 to NUM_BUFFERS
        invariant forall k :: 0 <= k < i ==> fds[k] == -1
        invariant log.closed == old(log.closed) && !valid
      {
        fds[i] := -1;
      }
      if msg.nbufs != NUM_BUFFERS || nfds != NUM_BUFFERS {
        var tmp := new int[NUM_BUFFERS](_ => -1);
        for i := 0 to nfds
          invariant tmp[..i] == passed[..i]
          invariant fds[..] == [-1, -1, -1] && !valid && log.closed == old(log.closed)
        {
          tmp[i] := passed[i];
        }
        log.CloseFds(tmp, nfds);
        return false;
      }
      for i := 0 to NUM_BUFFERS
        invariant forall k :: 0 <= k < i ==> passed[k] >= 0 && GoodDesc(msg.desc[k])
        invariant fds[..] == [-1, -1, -1] && !valid && log.closed == old(log.closed)
      {
        if passed[i] < 0 || !GoodDesc(msg.desc[i]) {
          log.CloseFds(passed, NUM_BUFFERS);
          return false;
        }
      }
      for i := 0 to NUM_BUFFERS
        invariant forall k :: 0 <= k < i ==> fds[k] == passed[k]
        invariant log.closed == old(log.closed) && !valid
      {
        fds[i] := passed[i];
      }
      desc, valid := msg.desc, true;
      return true;
    }

    /** wisps_dmabuf_set_close(). Closing twice closes nothing more. */
    method CloseSet(log: FdLog)
      requires fds.Length == NUM_BUFFERS
      modifies this, fds, log
      ensures log.closed == old(log.closed) + Valid(old(fds[..]))
      ensures !valid && fds[..] == [-1, -1, -1] && Valid(fds[..]) == []
    {
      log.CloseFds(fds, NUM_BUFFERS);
      assert fds[..NUM_BUFFERS] == fds[..];
      for i := 0 to NUM_BUFFERS
        invariant forall k :: 0 <= k < i ==> fds[k] == -1
        invariant log.closed == old(log.closed) + Valid(old(fds[..]))
      {
        fds[i] := -1;
      }
      valid := false;
      NothingValid();
    }
  }

  lemma NothingValid()
    ensures Valid([-1, -1, -1]) == []
  {
    assert [-1, -1, -1][1..] == [-1, -1] && [-1, -1][1..] == [-1] && [-1][1..] == [];
  }

  /** What the server does with the descriptors of one received message, by kind. */
  method HandleReadable(kind: Byte, sizeOk: bool, msg: Announce, passed: array<int>, nfds: nat, log: FdLog)
    requires |msg.desc| == NUM_BUFFERS && nfds <= NUM_BUFFERS <= passed.Length
    modifies log
    ensures log.closed == old(log.closed) + ClosedByServer(kind, sizeOk, passed[..nfds])
  {
    if kind == DMABUF_ANNOUNCE && sizeOk {
      var set_ := new DmabufSet();
      var ok := set_.FromAnnounce(msg, passed, nfds, log);
      if ok { set_.CloseSet(log); }
    }
  }

  function ClosedByServer(kind: Byte, sizeOk: bool, delivered: seq<int>): seq<int> {
    if kind == DMABUF_ANNOUNCE && sizeOk then Valid(delivered) else []
  }

  /** The server gives back every descriptor it was handed exactly when the message is a
      well-sized DMABUF_ANNOUNCE or came with none: any other message leaks them all. */
  lemma ServerLeaksExactly(kind: Byte, sizeOk: bool, delivered: seq<int>)
    requires forall k :: 0 <= k < |delivered| ==> delivered[k] >= 0
    ensures multiset(ClosedByServer(kind, sizeOk, delivered)) == multiset(delivered)
            <==> (kind == DMABUF_ANNOUNCE && sizeOk) || delivered == []
  {
    AllValid(delivered);
    if delivered != [] { assert delivered[0] in multiset(delivered); }
  }
}
