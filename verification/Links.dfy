/** One connection, seen from both ends: what the slot's state says about the messages in
    flight and about the client, and why each thing either end can do keeps that so.

    Project the client-to-server channel followed by the server-to-client channel onto the
    handshake: a GRANT or the READY_FOR_RT answering it is a token R, an EVICT_PENDING or
    the STOPPED answering it is a token S. Reading a message at the client turns the first
    token of one channel into the last of the other, so the sequence does not change; the
    server adds at one end and takes at the other. */
module Links {
  import opened Messages
  import opened Sessions
  import opened ClientSdk

  datatype Token = R(grant: nat) | S(eviction: nat)

  datatype Conn = Conn(up: seq<ToServer>, client: Client)

  function UpTokens(up: seq<ToServer>): seq<Token> {
    if up == [] then []
    else
      (match up[0]
       case ReadyForRt(g) => [R(g)]
       case Stopped(k) => [S(k)]
       case _ => []) + UpTokens(up[1..])
  }

  function DownTokens(down: seq<ToClient>): seq<Token> {
    if down == [] then []
    else
      (match down[0]
       case ActivateGrant(g) => [R(g)]
       case EvictPending(k) => [S(k)]
       case _ => []) + DownTokens(down[1..])
  }

  function Tokens(down: seq<ToClient>, conn: Conn): seq<Token> {
    UpTokens(conn.up) + DownTokens(down)
  }

  /** The messages that set or clear the client's `active` flag. */
  predicate Decides(m: ToClient) {
    m.ActivateGrant? || m.EvictPending? || m == Messages.Deactivate
  }

  predicate Clean(down: seq<ToClient>) {
    forall k :: 0 <= k < |down| ==> !Decides(down[k])
  }

  /** The grant g is in flight and nothing after it decides otherwise. */
  predicate GrantLast(down: seq<ToClient>, g: nat) {
    down != [] && if down[0] == ActivateGrant(g) then Clean(down[1..]) else GrantLast(down[1..], g)
  }

  /** The `active` flag once the client has read everything in flight. */
  function Settled(active: bool, down: seq<ToClient>): bool
    decreases |down|
  {
    if down == [] then active
    else Settled(if Decides(down[0]) then down[0].ActivateGrant? else active, down[1..])
  }

  predicate Early(phase: Phase) {
    phase == Fresh || phase == AwaitMode || phase == AwaitFirst
  }

  predicate TokensOk(slot: Session, evictions: nat, t: seq<Token>) {
    match slot.state
    case Connected => t == []
    case Negotiated => t == [] || (|t| == 1 && t[0].S?)
    case Queued => t == [] || (|t| == 1 && t[0].S?)
    case GrantedWarmup => t == [R(slot.grantedEpoch)] || (|t| == 2 && t[0].S? && t[1] == R(slot.grantedEpoch))
    case ActiveRt => t == []
    case EvictingCooperative => t == [S(evictions)]
    case _ => false
  }

  /** The client's flag, now and after what is in flight, and the grant it last adopted. */
  predicate FlagOk(slot: Session, down: seq<ToClient>, c: Client) {
    if Fielded(slot.state) then
      || (slot.state == GrantedWarmup && GrantLast(down, slot.grantedEpoch))
      || (Clean(down) && (c.phase != Gone ==> c.active && c.granted == slot.grantedEpoch))
    else
      c.phase != Gone ==> !Settled(c.active, down) && c.granted == slot.grantedEpoch
  }

  predicate OnlySdk(up: seq<ToServer>) {
    forall k :: 0 <= k < |up| ==> up[k] != GrantDecline
  }

  predicate NoConnect(up: seq<ToServer>) {
    forall k :: 0 <= k < |up| ==> !up[k].Connect?
  }

  predicate NoStandDown(down: seq<ToClient>) {
    forall k :: 0 <= k < |down| ==> !down[k].EvictPending? && down[k] != Messages.Deactivate
  }

  /** CONNECT is first, once, and only while the slot is CONNECTED; the handshake phases see
      the messages they expect. */
  predicate PhaseOk(slot: Session, down: seq<ToClient>, conn: Conn) {
    var phase := conn.client.phase;
    && OnlySdk(conn.up)
    && (slot.state == Connected ==>
          && down == []
          && ( (conn.up == [] && (phase == Fresh || phase == Gone))
            || (|conn.up| == 1 && conn.up[0].Connect? && (phase == AwaitMode || phase == Gone))))
    && (slot.state != Connected ==> NoConnect(conn.up) && phase != Fresh)
    && (Early(phase) ==>
          && !conn.client.active
          && slot.state != ActiveRt && slot.state != EvictingCooperative
          && NoStandDown(down) && UpTokens(conn.up) == [])
    && (phase == AwaitMode && slot.state != Connected ==> down != [] && down[0] == Mode(true))
  }

  predicate LinkOk(slot: Session, evictions: nat, down: seq<ToClient>, conn: Conn) {
    && TokensOk(slot, evictions, Tokens(down, conn))
    && FlagOk(slot, down, conn.client)
    && PhaseOk(slot, down, conn)
  }

  // What a client has been told and not yet read.

  /** The messages in flight that set or clear the flag. */
  function Decisions(down: seq<ToClient>): seq<ToClient> {
    if down == [] then []
    else (if Decides(down[0]) then [down[0]] else []) + Decisions(down[1..])
  }

  /** At most two such messages are in flight, a second one only to grant again; a GRANT is news;
      whoever is told to DEACTIVATE lost its epoch; and a client about to read EVICT_PENDING is
      still active unless it has noticed that its epoch is over. */
  predicate Told(epoch: nat, down: seq<ToClient>, c: Client) {
    ToldBy(epoch, Decisions(down), c)
  }

  predicate ToldBy(epoch: nat, ds: seq<ToClient>, c: Client) {
    && (|ds| <= 1 || (|ds| == 2 && ds[1].ActivateGrant? && !ds[0].ActivateGrant?))
    && (forall k :: 0 <= k < |ds| && ds[k].ActivateGrant? ==> c.granted < ds[k].epoch)
    && (forall k :: 0 <= k < |ds| && ds[k] == Messages.Deactivate ==> c.granted < epoch)
    && (forall k :: 0 <= k < |ds| && ds[k].EvictPending? && c.phase != Gone ==> c.active || c.granted < epoch)
  }

  lemma {:induction false} DecisionsAppend(down: seq<ToClient>, m: ToClient)
    ensures Decisions(down + [m]) == Decisions(down) + if Decides(m) then [m] else []
    decreases |down|
  {
    if down == [] {
      assert down + [m] == [m] && [m][1..] == [];
    } else {
      DecisionsAppend(down[1..], m);
      assert (down + [m])[1..] == down[1..] + [m];
      Reassociate(if Decides(down[0]) then [down[0]] else [], Decisions(down[1..]), if Decides(m) then [m] else []);
    }
  }

  lemma {:induction false} NothingDecided(down: seq<ToClient>)
    ensures Clean(down) <==> Decisions(down) == []
    decreases |down|
  {
    if down != [] {
      NothingDecided(down[1..]);
      if Clean(down[1..]) && !Decides(down[0]) {
        forall k | 0 <= k < |down| ensures !Decides(down[k]) { if k > 0 { assert down[k] == down[1..][k - 1]; } }
      }
      if Clean(down) { assert !Decides(down[0]); }
    }
  }

  /** A notice that decides nothing. */
  lemma ToldNotice(epoch: nat, down: seq<ToClient>, c: Client, m: ToClient)
    requires Told(epoch, down, c) && !Decides(m)
    ensures Told(epoch, down + [m], c)
  {
    DecisionsAppend(down, m);
  }

  /** A GRANT to a client with no other in flight. */
  lemma ToldGrant(epoch: nat, down: seq<ToClient>, c: Client, g: nat)
    requires Told(epoch, down, c) && c.granted < g && epoch <= g
    requires forall k :: 0 <= k < |Decisions(down)| ==> !Decisions(down)[k].ActivateGrant?
    ensures Told(g, down + [ActivateGrant(g)], c)
  {
    DecisionsAppend(down, ActivateGrant(g));
  }

  lemma ToldEvict(epoch: nat, down: seq<ToClient>, c: Client, number: nat)
    requires Clean(down) && (c.phase != Gone ==> c.active)
    ensures Told(epoch, down + [EvictPending(number)], c)
  {
    NothingDecided(down);
    DecisionsAppend(down, EvictPending(number));
  }

  lemma ToldTimeOut(epoch: nat, down: seq<ToClient>, c: Client)
    requires Clean(down) && c.granted < epoch
    ensures Told(epoch, down + [LivenessTimeout] + [Messages.Deactivate], c)
  {
    NothingDecided(down);
    DecisionsAppend(down, LivenessTimeout);
    DecisionsAppend(down + [LivenessTimeout], Messages.Deactivate);
  }

  lemma ToldRead(epoch: nat, down: seq<ToClient>, c: Client)
    requires Told(epoch, down, c) && down != []
    ensures Told(epoch, down[1..], Receive(c, down[0]).client)
  {
    var rest := Decisions(down[1..]);
    if Decides(down[0]) {
      assert Decisions(down)[1..] == rest;
      DecisionRead(epoch, Decisions(down), c);
    } else {
      assert Decisions(down) == rest;
      NoticeRead(epoch, rest, c, down[0]);
    }
  }

  lemma DecisionRead(epoch: nat, ds: seq<ToClient>, c: Client)
    requires ToldBy(epoch, ds, c) && ds != [] && Decides(ds[0])
    ensures ToldBy(epoch, ds[1..], Receive(c, ds[0]).client)
  {}

  lemma NoticeRead(epoch: nat, ds: seq<ToClient>, c: Client, m: ToClient)
    requires ToldBy(epoch, ds, c) && !Decides(m)
    ensures ToldBy(epoch, ds, Receive(c, m).client)
  {}

  /** Every GRANT among the decisions in flight is a token in flight. */
  lemma {:induction false} GrantIsToken(down: seq<ToClient>, k: nat)
    requires k < |Decisions(down)| && Decisions(down)[k].ActivateGrant?
    ensures R(Decisions(down)[k].epoch) in DownTokens(down)
    decreases |down|
  {
    var own := if Decides(down[0]) then [down[0]] else [];
    assert Decisions(down) == own + Decisions(down[1..]);
    if k >= |own| {
      GrantIsToken(down[1..], k - |own|);
    }
  }

  lemma GrantsAreTokens(down: seq<ToClient>, conn: Conn)
    ensures (exists k :: 0 <= k < |Decisions(down)| && Decisions(down)[k].ActivateGrant?) ==>
              exists j :: 0 <= j < |Tokens(down, conn)| && Tokens(down, conn)[j].R?
  {
    if k :| 0 <= k < |Decisions(down)| && Decisions(down)[k].ActivateGrant? {
      GrantIsToken(down, k);
      var j :| 0 <= j < |DownTokens(down)| && DownTokens(down)[j].R?;
      assert Tokens(down, conn)[|UpTokens(conn.up)| + j].R?;
    }
  }

  // How the projections follow the channels.

  lemma {:induction false} UpAppend(up: seq<ToServer>, more: seq<ToServer>)
    ensures UpTokens(up + more) == UpTokens(up) + UpTokens(more)
    decreases |up|
  {
    if up == [] {
      assert up + more == more;
    } else {
      UpAppend(up[1..], more);
      assert (up + more)[1..] == up[1..] + more;
    }
  }

  lemma {:induction false} DownAppend(down: seq<ToClient>, m: ToClient, g: nat, active: bool)
    ensures DownTokens(down + [m]) == DownTokens(down) + DownTokens([m])
    ensures Settled(active, down + [m]) == if Decides(m) then m.ActivateGrant? else Settled(active, down)
    ensures !Decides(m) && GrantLast(down, g) ==> GrantLast(down + [m], g)
    ensures R(g) !in DownTokens(down) && m == ActivateGrant(g) ==> GrantLast(down + [m], g)
    decreases |down|
  {
    if down == [] {
      assert down + [m] == [m];
    } else {
      var a := if Decides(down[0]) then down[0].ActivateGrant? else active;
      DownAppend(down[1..], m, g, a);
      assert (down + [m])[1..] == down[1..] + [m];
    }
  }

  lemma {:induction false} CleanFacts(down: seq<ToClient>, active: bool)
    requires Clean(down)
    ensures DownTokens(down) == []
    ensures Settled(active, down) == active
    decreases |down|
  {
    if down != [] {
      assert !Decides(down[0]);
      CleanFacts(down[1..], active);
    }
  }

  lemma {:induction false} GrantLastFacts(down: seq<ToClient>, g: nat, active: bool)
    requires GrantLast(down, g)
    ensures R(g) in DownTokens(down)
    ensures Settled(active, down)
    decreases |down|
  {
    if down[0] == ActivateGrant(g) {
      CleanFacts(down[1..], true);
    } else {
      GrantLastFacts(down[1..], g, if Decides(down[0]) then down[0].ActivateGrant? else active);
    }
  }

  /** What the client will believe once it has read everything is what the server knows. */
  lemma SettledIsFielded(slot: Session, evictions: nat, down: seq<ToClient>, conn: Conn)
    requires LinkOk(slot, evictions, down, conn) && conn.client.phase != Gone
    ensures Settled(conn.client.active, down) <==> Fielded(slot.state)
  {
    if Fielded(slot.state) {
      if Clean(down) {
        CleanFacts(down, conn.client.active);
      } else {
        GrantLastFacts(down, slot.grantedEpoch, conn.client.active);
      }
    }
  }

  // What the server does to its end.

  lemma GrantLink(slot: Session, evictions: nat, down: seq<ToClient>, conn: Conn, g: nat)
    requires LinkOk(slot, evictions, down, conn) && (slot.state == Negotiated || slot.state == Queued)
    ensures LinkOk(slot.(state := GrantedWarmup, grantedEpoch := g), evictions, down + [ActivateGrant(g)], conn)
  {
    DownAppend(down, ActivateGrant(g), g, conn.client.active);
  }

  lemma EvictLink(slot: Session, evictions: nat, down: seq<ToClient>, conn: Conn, k: nat)
    requires LinkOk(slot, evictions, down, conn) && slot.state == ActiveRt
    ensures LinkOk(slot.(state := EvictingCooperative), k, down + [EvictPending(k)], conn)
  {
    DownAppend(down, EvictPending(k), 0, conn.client.active);
  }

  lemma TimeOutLink(slot: Session, evictions: nat, down: seq<ToClient>, conn: Conn)
    requires LinkOk(slot, evictions, down, conn) && slot.state == ActiveRt
    ensures LinkOk(slot.(state := Negotiated), evictions, down + [LivenessTimeout] + [Messages.Deactivate], conn)
  {
    DownAppend(down, LivenessTimeout, 0, conn.client.active);
    DownAppend(down + [LivenessTimeout], Messages.Deactivate, 0, conn.client.active);
  }

  /** Any message that decides nothing may be sent at any time after MODE. */
  lemma NoticeLink(slot: Session, evictions: nat, down: seq<ToClient>, conn: Conn, m: ToClient)
    requires LinkOk(slot, evictions, down, conn) && slot.state != Connected && !Decides(m)
    ensures LinkOk(slot, evictions, down + [m], conn)
  {
    DownAppend(down, m, slot.grantedEpoch, conn.client.active);
  }

  lemma QueueLink(slot: Session, evictions: nat, down: seq<ToClient>, conn: Conn, queued: Session, m: ToClient)
    requires LinkOk(slot, evictions, down, conn) && slot.state == Negotiated && !Decides(m)
    requires queued.state == Queued && queued.grantedEpoch == slot.grantedEpoch
    ensures LinkOk(queued, evictions, down + [m], conn)
  {
    DownAppend(down, m, 0, conn.client.active);
  }

  lemma ReclaimLink(slot: Session, evictions: nat, down: seq<ToClient>, conn: Conn)
    requires LinkOk(slot, evictions, down, conn) && slot.state == EvictingCooperative
    ensures LinkOk(slot.(state := Negotiated), evictions, down, conn)
  {}

  // What the server does on taking the oldest message from the client.

  /** A message without a token is taken and its slot keeps its role. */
  lemma TakeIdle(slot: Session, evictions: nat, down: seq<ToClient>, conn: Conn)
    requires LinkOk(slot, evictions, down, conn) && conn.up != []
    requires !conn.up[0].ReadyForRt? && !conn.up[0].Stopped? && !conn.up[0].Connect?
    ensures slot.state != Connected
    ensures LinkOk(slot, evictions, down, conn.(up := conn.up[1..]))
  {
  }

  /** READY_FOR_RT finds its slot in warm-up, answers the current grant, and leaves nothing
      of the handshake in flight. */
  lemma TakeReady(slot: Session, evictions: nat, down: seq<ToClient>, conn: Conn)
    requires LinkOk(slot, evictions, down, conn) && conn.up != [] && conn.up[0].ReadyForRt?
    ensures slot.state == GrantedWarmup && conn.up[0].grant == slot.grantedEpoch
    ensures LinkOk(slot.(state := ActiveRt), evictions, down, conn.(up := conn.up[1..]))
  {
    var t := Tokens(down, conn);
    assert t[0] == R(conn.up[0].grant);
    if GrantLast(down, slot.grantedEpoch) { GrantLastFacts(down, slot.grantedEpoch, true); }
  }

  /** STOPPED accepted during an eviction answers that very eviction. */
  lemma TakeStopped(slot: Session, evictions: nat, down: seq<ToClient>, conn: Conn)
    requires LinkOk(slot, evictions, down, conn) && conn.up != [] && conn.up[0].Stopped?
    ensures slot.state == EvictingCooperative ==> conn.up[0].eviction == evictions
    ensures slot.state == EvictingCooperative ==>
              LinkOk(slot.(state := Negotiated), evictions, down, conn.(up := conn.up[1..]))
    ensures slot.state != EvictingCooperative ==>
              LinkOk(slot, evictions, down, conn.(up := conn.up[1..]))
  {
    StoppedTokens(down, conn);
    assert Tokens(down, conn)[1..] == Tokens(down, conn.(up := conn.up[1..]));
  }

  lemma StoppedTokens(down: seq<ToClient>, conn: Conn)
    requires conn.up != [] && conn.up[0].Stopped?
    ensures Tokens(down, conn) == [S(conn.up[0].eviction)] + Tokens(down, conn.(up := conn.up[1..]))
  {
    Reassociate([S(conn.up[0].eviction)], UpTokens(conn.up[1..]), DownTokens(down));
  }

  /** CONNECT only ever arrives at a CONNECTED slot, on an otherwise silent connection. */
  lemma TakeConnect(slot: Session, evictions: nat, down: seq<ToClient>, conn: Conn, id: string)
    requires LinkOk(slot, evictions, down, conn) && conn.up != [] && conn.up[0].Connect?
    ensures slot.state == Connected && down == []
    ensures LinkOk(slot.(clientId := CString(id), state := Negotiated), evictions, down + [Mode(true)], conn.(up := conn.up[1..]))
  {
    assert conn.up[1..] == [];
    DownAppend(down, Mode(true), 0, conn.client.active);
  }

  // What the client does to its end.

  /** Sending something that carries no token. */
  lemma SendLink(slot: Session, evictions: nat, down: seq<ToClient>, conn: Conn, m: ToServer, c: Client)
    requires LinkOk(slot, evictions, down, conn) && conn.client.phase == Running
    requires !m.ReadyForRt? && !m.Stopped? && !m.Connect? && m != GrantDecline
    requires c == conn.client || c == conn.client.(phase := Gone, active := false)
    ensures LinkOk(slot, evictions, down, Conn(conn.up + [m], c))
  {
    UpAppend(conn.up, [m]);
  }

  lemma ConnectLink(slot: Session, evictions: nat, down: seq<ToClient>, conn: Conn, m: ToServer)
    requires LinkOk(slot, evictions, down, conn) && conn.client.phase == Fresh && m.Connect?
    ensures LinkOk(slot, evictions, down, Conn(conn.up + [m], conn.client.(phase := AwaitMode)))
  {
    UpAppend(conn.up, [m]);
  }

  lemma CrashLink(slot: Session, evictions: nat, down: seq<ToClient>, conn: Conn)
    requires LinkOk(slot, evictions, down, conn)
    ensures LinkOk(slot, evictions, down, conn.(client := conn.client.(phase := Gone, active := false)))
  {}

  /** The check in publish never stands down a client the server has fielded. */
  lemma PublishLink(slot: Session, evictions: nat, down: seq<ToClient>, conn: Conn, epoch: nat)
    requires LinkOk(slot, evictions, down, conn)
    requires Fielded(slot.state) ==> slot.grantedEpoch == epoch
    ensures LinkOk(slot, evictions, down, conn.(client := Publish(conn.client, epoch)))
  {
    var c := Publish(conn.client, epoch);
    if c != conn.client { SettledDrops(conn.client.active, down); }
  }

  lemma {:induction false} SettledDrops(active: bool, down: seq<ToClient>)
    ensures Settled(false, down) ==> Settled(active, down)
    decreases |down|
  {
    if down != [] {
      if !Decides(down[0]) { SettledDrops(active, down[1..]); }
    }
  }

  /** Reading a message hands its token on. */
  lemma ReceiveLink(slot: Session, evictions: nat, down: seq<ToClient>, conn: Conn)
    requires LinkOk(slot, evictions, down, conn) && down != []
    requires conn.client.phase != Gone
    ensures var r := Receive(conn.client, down[0]);
            LinkOk(slot, evictions, down[1..], Conn(conn.up + r.replies, r.client))
  {
    ReceiveTokens(down, conn, slot);
    ReceiveFlag(slot, evictions, down, conn);
    ReceivePhase(slot, evictions, down, conn);
  }

  /** The answer to one message carries that message's token. */
  lemma AnswerToken(c: Client, m: ToClient)
    requires c.phase == AwaitMode ==> m == Mode(true)
    requires c.phase == AwaitFirst ==> !m.EvictPending?
    requires c.phase != Gone && c.phase != Fresh
    ensures UpTokens(Receive(c, m).replies) == DownTokens([m])
  {
    var replies := Receive(c, m).replies;
    if replies != [] { assert replies[1..] == []; }
    assert [m][1..] == [];
  }

  lemma ReceiveTokens(down: seq<ToClient>, conn: Conn, slot: Session)
    requires PhaseOk(slot, down, conn) && down != [] && conn.client.phase != Gone
    ensures var r := Receive(conn.client, down[0]);
            Tokens(down[1..], Conn(conn.up + r.replies, r.client)) == Tokens(down, conn)
  {
    var r := Receive(conn.client, down[0]);
    AnswerToken(conn.client, down[0]);
    UpAppend(conn.up, r.replies);
    DownHead(down);
    Reassociate(UpTokens(conn.up), DownTokens([down[0]]), DownTokens(down[1..]));
  }

  lemma DownHead(down: seq<ToClient>)
    requires down != []
    ensures DownTokens(down) == DownTokens([down[0]]) + DownTokens(down[1..])
  {
    var one := [down[0]];
    assert one[1..] == [];
    assert DownTokens(one[1..]) == [];
  }

  lemma Reassociate<T>(a: seq<T>, b: seq<T>, c: seq<T>)
    ensures a + b + c == a + (b + c)
  {}

  lemma GrantInFlight(down: seq<ToClient>, conn: Conn)
    requires down != []
    ensures down[0].ActivateGrant? ==> R(down[0].epoch) in Tokens(down, conn)
  {
    if down[0].ActivateGrant? {
      assert DownTokens(down)[0] == Tokens(down, conn)[|UpTokens(conn.up)|];
    }
  }

  lemma ReceiveFlag(slot: Session, evictions: nat, down: seq<ToClient>, conn: Conn)
    requires LinkOk(slot, evictions, down, conn) && down != [] && conn.client.phase != Gone
    ensures FlagOk(slot, down[1..], Receive(conn.client, down[0]).client)
  {
    GrantInFlight(down, conn);
    if Fielded(slot.state) && Clean(down) {
      assert !Decides(down[0]);
    }
  }

  lemma RepliesAreSdk(up: seq<ToServer>, c: Client, m: ToClient)
    requires OnlySdk(up) && NoConnect(up)
    ensures OnlySdk(up + Receive(c, m).replies) && NoConnect(up + Receive(c, m).replies)
  {}

  lemma ReceivePhase(slot: Session, evictions: nat, down: seq<ToClient>, conn: Conn)
    requires LinkOk(slot, evictions, down, conn) && down != [] && conn.client.phase != Gone
    ensures var r := Receive(conn.client, down[0]);
            PhaseOk(slot, down[1..], Conn(conn.up + r.replies, r.client))
  {
    RepliesAreSdk(conn.up, conn.client, down[0]);
    var r := Receive(conn.client, down[0]);
    if conn.client.phase == AwaitMode {
      UpAppend(conn.up, r.replies);
      assert r.replies[1..] == [];
    }
  }
}
