/** Length-prefixed control messages over a byte stream that accepts and yields bytes in
    pieces of its own choosing, with calls that may be interrupted or fail.

    A plan fixes how each coming system call goes; theorems hold for every plan, so for every
    way of splitting the stream and every placement of EINTR. */
module Framing {
  import opened Bytes

  const HEADER_LEN := 5

  datatype Message = Message(kind: Byte, payload: seq<Byte>)

  /** How a system call goes: interrupted, failed, or moving up to this many bytes (at least
      one, at most what was asked for). */
  datatype Outcome = Interrupted | Fails | Moves(limit: nat)

  /** `Again` is EINTR; `Count(0)` from a read is end of stream. */
  datatype CallResult = Again | Broken | Count(n: nat)

  predicate Sendable(m: Message) {
    |m.payload| < U32_LIMIT
  }

  function Header(kind: Byte, len: nat): (h: seq<Byte>)
    requires len < U32_LIMIT
    ensures |h| == HEADER_LEN
  {
    [kind] + BigEndian(len)
  }

  function Encode(m: Message): seq<Byte>
    requires Sendable(m)
  {
    Header(m.kind, |m.payload|) + m.payload
  }

  function EncodeAll(ms: seq<Message>): seq<Byte>
    requires forall k :: 0 <= k < |ms| ==> Sendable(ms[k])
  {
    if ms == [] then [] else Encode(ms[0]) + EncodeAll(ms[1..])
  }

  /** What one receive makes of a stream: a message, a refusal that has consumed the header
      but not the payload, or the end before a message was complete. */
  datatype Decoded = Got(msg: Message, rest: seq<Byte>) | TooBig(rest: seq<Byte>) | Cut

  function Decode(stream: seq<Byte>, bufsize: nat): Decoded {
    if |stream| < HEADER_LEN then Cut
    else
      var len := FromBigEndian(stream[1..5]);
      if len > bufsize then TooBig(stream[HEADER_LEN..])
      else if |stream| < HEADER_LEN + len then Cut
      else Got(Message(stream[0], stream[HEADER_LEN..HEADER_LEN + len]), stream[HEADER_LEN + len..])
  }

  /** Decoding inverts encoding, whatever follows on the stream. */
  lemma DecodeEncode(m: Message, rest: seq<Byte>, bufsize: nat)
    requires Sendable(m)
    ensures Decode(Encode(m) + rest, bufsize) ==
            if |m.payload| <= bufsize then Got(m, rest) else TooBig(m.payload + rest)
  {
    BigEndianRoundTrip(|m.payload|);
    EncodingParts(m.kind, BigEndian(|m.payload|), m.payload, rest);
    assert Encode(m) + rest == [m.kind] + BigEndian(|m.payload|) + m.payload + rest;
  }

  lemma EncodingParts(kind: Byte, len: seq<Byte>, payload: seq<Byte>, rest: seq<Byte>)
    requires |len| == 4
    ensures var stream := [kind] + len + payload + rest;
            && stream[0] == kind && stream[1..5] == len
            && stream[5..] == payload + rest
            && stream[5..5 + |payload|] == payload && stream[5 + |payload|..] == rest
  {}

  /** On the wire: the kind, the payload's length in four bytes, the payload. */
  lemma EncodingLayout(m: Message)
    requires Sendable(m)
    ensures var bytes := Encode(m);
            && |bytes| == 5 + |m.payload| && bytes[0] == m.kind && bytes[5..] == m.payload
            && Value(bytes[1..5]) == |m.payload|
  {
    BigEndianValue(|m.payload|);
    BigEndianRoundTrip(|m.payload|);
    EncodingParts(m.kind, BigEndian(|m.payload|), m.payload, []);
    assert Encode(m) == [m.kind] + BigEndian(|m.payload|) + m.payload + [];
  }

  /** What is refused is decided by the header alone, and nothing behind it is taken. */
  lemma RefusalOutcome(stream: seq<Byte>, bufsize: nat)
    ensures Decode(stream, bufsize).TooBig? <==> |stream| >= 5 && Value(stream[1..5]) > bufsize
    ensures Decode(stream, bufsize).TooBig? ==> Decode(stream, bufsize).rest == stream[5..]
    ensures |stream| < 5 ==> Decode(stream, bufsize) == Cut
  {}

  /** A stream that decodes to a message starts with that message's encoding: no two
      messages share one. */
  lemma DecodeIsExact(stream: seq<Byte>, bufsize: nat)
    requires Decode(stream, bufsize).Got?
    ensures var d := Decode(stream, bufsize);
            |d.msg.payload| <= bufsize && Sendable(d.msg) && stream == Encode(d.msg) + d.rest
  {
    var len := FromBigEndian(stream[1..5]);
    BigEndianOnto(stream[1..5]);
    assert stream == [stream[0]] + stream[1..5] + stream[5..5 + len] + stream[5 + len..];
  }

  predicate NoFailure(plan: seq<Outcome>) {
    forall k :: 0 <= k < |plan| ==> plan[k] != Fails
  }

  function Clamp(limit: nat, most: nat): nat
    requires most > 0
  {
    if limit == 0 then 1 else if limit > most then most else limit
  }

  /** One direction of a connected stream socket. */
  class Socket {
    var stream: seq<Byte>
    var plan: seq<Outcome>

    constructor (plan: seq<Outcome>)
      ensures stream == [] && this.plan == plan
    {
      stream, this.plan := [], plan;
    }

    /** Takes the next outcome off the plan; an exhausted plan moves everything asked for. */
    method Take() returns (o: Outcome, planned: bool)
      modifies this`plan
      ensures planned <==> old(plan) != []
      ensures planned ==> o == old(plan)[0] && plan == old(plan)[1..]
      ensures !planned ==> plan == []
    {
      planned := plan != [];
      o := Interrupted;
      if planned { o, plan := plan[0], plan[1..]; }
    }

    method Write(bytes: seq<Byte>) returns (r: CallResult)
      requires bytes != []
      modifies this
      ensures r.Count? ==> 1 <= r.n <= |bytes| && stream == old(stream) + bytes[..r.n]
      ensures !r.Count? ==> stream == old(stream) && old(plan) != []
      ensures r.Broken? ==> Fails in old(plan)
      ensures plan == if old(plan) == [] then [] else old(plan)[1..]
    {
      var o, planned := Take();
      if planned && o == Interrupted { return Again; }
      if planned && o == Fails { return Broken; }
      var n := if planned then Clamp(o.limit, |bytes|) else |bytes|;
      stream := stream + bytes[..n];
      return Count(n);
    }

    method Read(most: nat) returns (r: CallResult, bytes: seq<Byte>)
      requires most > 0
      modifies this
      ensures r.Count? ==> r.n == |bytes| <= most && old(stream) == bytes + stream
      ensures r.Count? ==> (r.n == 0 <==> old(stream) == [])
      ensures !r.Count? ==> stream == old(stream) && old(plan) != []
      ensures r.Broken? ==> Fails in old(plan)
      ensures plan == if old(plan) == [] then [] else old(plan)[1..]
    {
      var o, planned := Take();
      if planned && o == Interrupted { return Again, []; }
      if planned && o == Fails { return Broken, []; }
      var most' := if most < |stream| then most else |stream|;
      var n := if most' == 0 then 0 else if planned then Clamp(o.limit, most') else most';
      bytes := stream[..n];
      stream := stream[n..];
      return Count(n), bytes;
    }

    /** send_all(): all of it, or a prefix and an error. */
    method SendAll(bytes: seq<Byte>) returns (ok: bool)
      modifies this
      ensures ok ==> stream == old(stream) + bytes
      ensures !ok ==> exists k :: 0 <= k < |bytes| && stream == old(stream) + bytes[..k]
      ensures NoFailure(old(plan)) ==> ok && NoFailure(plan)
    {
      var sent := 0;
      while sent < |bytes|
        invariant 0 <= sent <= |bytes|
        invariant stream == old(stream) + bytes[..sent]
        invariant NoFailure(old(plan)) ==> NoFailure(plan)
        decreases |plan| + (|bytes| - sent)
      {
        var r := Write(bytes[sent..]);
        if r == Broken { return false; }
        if r.Count? {
          assert bytes[..sent] + bytes[sent..][..r.n] == bytes[..sent + r.n];
          sent := sent + r.n;
        }
      }
      assert bytes[..sent] == bytes;
      return true;
    }

    /** recv_all(): the next `len` bytes, or an error once the stream ends or fails. */
    method RecvAll(len: nat) returns (ok: bool, bytes: seq<Byte>)
      modifies this
      ensures old(stream) == bytes + stream && |bytes| <= len
      ensures ok ==> |bytes| == len
      ensures NoFailure(old(plan)) ==> (ok <==> |old(stream)| >= len) && NoFailure(plan)
    {
      bytes := [];
      while |bytes| < len
        invariant |bytes| <= len
        invariant old(stream) == bytes + stream
        invariant NoFailure(old(plan)) ==> NoFailure(plan)
        decreases |plan| + (len - |bytes|)
      {
        var r, more := Read(len - |bytes|);
        if r == Broken { return false, bytes; }
        if r == Count(0) { return false, bytes; }
        if r.Count? { bytes := bytes + more; }
      }
      return true, bytes;
    }

    method Send(m: Message) returns (ok: bool)
      requires Sendable(m)
      modifies this
      ensures ok ==> stream == old(stream) + Encode(m)
      ensures NoFailure(old(plan)) ==> ok && NoFailure(plan)
    {
      ok := SendAll(Header(m.kind, |m.payload|));
      if !ok { return; }
      if |m.payload| > 0 { ok := SendAll(m.payload); }
    }

    /** wisp_ctrl_recv(): 0, -1 or -2 as the program returns it. */
    method Recv(bufsize: nat) returns (rc: int, m: Message)
      modifies this
      ensures rc == 0 || rc == -1 || rc == -2
      ensures rc == 0 ==> Decode(old(stream), bufsize) == Got(m, stream)
      ensures rc == -2 ==> Decode(old(stream), bufsize) == TooBig(stream)
      ensures NoFailure(old(plan)) ==> (rc == -1 <==> Decode(old(stream), bufsize) == Cut) && NoFailure(plan)
    {
      m := Message(0, []);
      var ok, hdr := RecvAll(HEADER_LEN);
      if !ok { return -1, m; }
      rc, m := RecvPayload(hdr, bufsize);
    }

    /** The part of a receive after the header, shared with the fd-harvesting variant. */
    method RecvPayload(hdr: seq<Byte>, bufsize: nat) returns (rc: int, m: Message)
      requires |hdr| == HEADER_LEN
      modifies this
      ensures rc == 0 || rc == -1 || rc == -2
      ensures rc == 0 ==> Decode(hdr + old(stream), bufsize) == Got(m, stream)
      ensures rc == -2 ==> Decode(hdr + old(stream), bufsize) == TooBig(stream)
      ensures |stream| <= |old(stream)|
      ensures NoFailure(old(plan)) ==> (rc == -1 <==> Decode(hdr + old(stream), bufsize) == Cut) && NoFailure(plan)
    {
      var len := FromBigEndian(hdr[1..5]);
      ghost var all := hdr + stream;
      assert all[1..5] == hdr[1..5] && all[HEADER_LEN..] == stream;
      m := Message(hdr[0], []);
      if len > bufsize { return -2, m; }
      if len > 0 {
        var ok, payload := RecvAll(len);
        if !ok { return -1, m; }
        assert all[HEADER_LEN..HEADER_LEN + len] == payload && all[HEADER_LEN + len..] == stream;
        m := Message(hdr[0], payload);
      } else {
        assert all[HEADER_LEN..HEADER_LEN] == [];
      }
      return 0, m;
    }
  }

  /** Sends and receives in any order in which nothing is received before it is sent; the
      schedule says which comes next when both could. */
  method Exchange(ms: seq<Message>, bufsize: nat, plan: seq<Outcome>, schedule: seq<bool>) returns (received: seq<Message>)
    requires forall k :: 0 <= k < |ms| ==> Sendable(ms[k]) && |ms[k].payload| <= bufsize
    requires NoFailure(plan)
    ensures received == ms
  {
    var s := new Socket(plan);
    var sent, done, turn := 0, 0, 0;
    received := [];
    while done < |ms|
      invariant done <= sent <= |ms| && received == ms[..done]
      invariant fresh(s) && s.stream == EncodeAll(ms[done..sent]) && NoFailure(s.plan)
      decreases |ms| - done, |ms| - sent
    {
      if sent < |ms| && (done == sent || (turn < |schedule| && schedule[turn])) {
        SendNext(s, ms, done, sent);
        sent := sent + 1;
      } else {
        var m := ReceiveNext(s, ms, done, sent, bufsize);
        OneMore(ms, done);
        received := received + [m];
        done := done + 1;
      }
      turn := turn + 1;
    }
  }

  lemma OneMore(ms: seq<Message>, k: nat)
    requires k < |ms|
    ensures ms[..k] + [ms[k]] == ms[..k + 1]
  {}

  method SendNext(s: Socket, ms: seq<Message>, ghost k: nat, sent: nat)
    requires k <= sent < |ms| && forall i :: 0 <= i < |ms| ==> Sendable(ms[i])
    requires s.stream == EncodeAll(ms[k..sent]) && NoFailure(s.plan)
    modifies s
    ensures s.stream == EncodeAll(ms[k..sent + 1]) && NoFailure(s.plan)
  {
    SentGrows(ms, k, sent);
    var ok := s.Send(ms[sent]);
  }

  method ReceiveNext(s: Socket, ghost ms: seq<Message>, ghost k: nat, ghost sent: nat, bufsize: nat) returns (m: Message)
    requires k < sent <= |ms| && forall i :: 0 <= i < |ms| ==> Sendable(ms[i])
    requires |ms[k].payload| <= bufsize && s.stream == EncodeAll(ms[k..sent]) && NoFailure(s.plan)
    modifies s
    ensures m == ms[k] && s.stream == EncodeAll(ms[k + 1..sent]) && NoFailure(s.plan)
  {
    OldestIsDecoded(ms, k, sent, bufsize);
    var rc;
    rc, m := s.Recv(bufsize);
  }

  lemma SentGrows(ms: seq<Message>, k: nat, sent: nat)
    requires k <= sent < |ms| && forall i :: 0 <= i < |ms| ==> Sendable(ms[i])
    ensures EncodeAll(ms[k..sent + 1]) == EncodeAll(ms[k..sent]) + Encode(ms[sent])
  {
    EncodeAllAppend(ms[k..sent], ms[sent]);
    assert ms[k..sent + 1] == ms[k..sent] + [ms[sent]];
  }

  lemma OldestIsDecoded(ms: seq<Message>, k: nat, sent: nat, bufsize: nat)
    requires k < sent <= |ms| && forall i :: 0 <= i < |ms| ==> Sendable(ms[i])
    requires |ms[k].payload| <= bufsize
    ensures Decode(EncodeAll(ms[k..sent]), bufsize) == Got(ms[k], EncodeAll(ms[k + 1..sent]))
  {
    assert ms[k..sent][0] == ms[k] && ms[k..sent][1..] == ms[k + 1..sent];
    DecodeEncode(ms[k], EncodeAll(ms[k + 1..sent]), bufsize);
  }

  lemma {:induction false} EncodeAllAppend(ms: seq<Message>, m: Message)
    requires Sendable(m) && forall k :: 0 <= k < |ms| ==> Sendable(ms[k])
    ensures EncodeAll(ms + [m]) == EncodeAll(ms) + Encode(m)
    decreases |ms|
  {
    if ms == [] {
      assert (ms + [m])[1..] == [];
    } else {
      EncodeAllAppend(ms[1..], m);
      assert (ms + [m])[1..] == ms[1..] + [m];
    }
  }
}
