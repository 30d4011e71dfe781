/** The triple buffer refines one atomic register holding the latest frame.

    Producers and a consumer run concurrently, and evictions may come at any time. Each
    critical section is one step, and so is each byte drawn, each stamp written and each byte
    read: nothing outside the lock is assumed atomic. The producer holding the grant is the
    only one whose publishes are let through. An evicted one does not know it: it goes on
    writing to the buffer it had claimed, next to its successor, and claims buffers as
    before, until a publish is refused or it is granted the slot anew. A refused publish
    does not give the claim back. Refinement holds while evictions are harmless;
    Evictions.dfy shows that this is the exact condition. */
module FrameRegister {
  import opened Bytes
  import opened Ring
  import opened Options

  /** Whom an eviction leaves with the grant: nobody; a producer new to the ring; one that had the
      grant before and is idle; the holder itself, drawing or not; or one that is drawing in
      this buffer and does not know that it was evicted. */
  datatype Grantee = ToNobody | ToNewcomer | ToIdle | ToHolder | ToDrawing(buf: int)

  /** `holder` says whether a producer holds the grant, `drawing` is the buffer it is at,
      `reading` the one the consumer has checked out, -1 for none. `others` counts the
      producers that had the grant and have the ring still attached, `stale` are the buffers
      those of them that are drawing are at. */
  datatype Sys = Sys(ring: RingState, holder: bool, drawing: int, reading: int, others: nat, stale: multiset<int>)

  /** What happens, with the values that pass between ring and program. */
  datatype Action =
    | Claim
    | Draw(at: int, value: Byte)
    | StampId(id: nat)
    | StampTs(ts: nat)
    | Publishes(frame: Frame)
    | StandsDown
    | Checkouts(found: bool)
    | SeePixel(at: int, value: Byte)
    | SeeId(id: nat)
    | SeeTs(ts: nat)
    | Releases
    | Evicts(to: Grantee)
    | StaleClaim
    | StaleDraw(buf: int, at: int, value: Byte)
    | StaleRefused(buf: int)
    | Leaves

  function Start(frames: seq<Frame>): Sys {
    Sys(RingState(-1, -1, -1, 0, frames), false, -1, -1, 0, multiset{})
  }

  /** Buffer i exists. */
  predicate Buffer(y: Sys, i: int) {
    0 <= i < |y.ring.frames|
  }

  /** A producer without the grant that is not drawing. */
  predicate SomebodyIdle(y: Sys) {
    |y.stale| < y.others
  }

  /** The buffers producers are at. */
  function Occupied(y: Sys): multiset<int> {
    if y.drawing == -1 then y.stale else y.stale + multiset{y.drawing}
  }

  predicate Can(y: Sys, a: Action) {
    match a
    case Claim => y.holder && y.drawing == -1 && CanClaim(y.ring)
    case Draw(at, _) => Buffer(y, y.drawing) && 0 <= at < |y.ring.frames[y.drawing].pixels|
    case StampId(_) => Buffer(y, y.drawing)
    case StampTs(_) => Buffer(y, y.drawing)
    case Publishes(frame) => Buffer(y, y.drawing) && frame == y.ring.frames[y.drawing]
    case StandsDown => y.holder
    case Checkouts(found) => y.reading == -1 && (found <==> y.ring.latestReady >= 0)
    case SeePixel(at, value) =>
      Buffer(y, y.reading) && 0 <= at < |y.ring.frames[y.reading].pixels| && value == y.ring.frames[y.reading].pixels[at]
    case SeeId(id) => Buffer(y, y.reading) && id == y.ring.frames[y.reading].id
    case SeeTs(ts) => Buffer(y, y.reading) && ts == y.ring.frames[y.reading].ts
    case Releases => Buffer(y, y.reading)
    case Evicts(ToIdle) => SomebodyIdle(y)
    case Evicts(ToHolder) => y.holder
    case Evicts(ToDrawing(buf)) => buf in y.stale && Buffer(y, buf) && y.others > 0
    case Evicts(_) => true
    case StaleClaim => SomebodyIdle(y) && CanClaim(y.ring)
    case Leaves => SomebodyIdle(y)
    case StaleDraw(buf, at, _) => buf in y.stale && Buffer(y, buf) && 0 <= at < |y.ring.frames[buf].pixels|
    case StaleRefused(buf) => buf in y.stale
  }

  function Store(y: Sys, buf: int, frame: Frame): Sys
    requires Buffer(y, buf)
  {
    y.(ring := y.ring.(frames := y.ring.frames[buf := frame]))
  }

  /** The producers without the grant once the holder has joined them. */
  function Joined(y: Sys): nat {
    if y.holder then y.others + 1 else y.others
  }

  /** The holder, if it is not the one to be granted again, goes on without the grant. */
  function AfterEviction(y: Sys, to: Grantee): Sys
    requires Can(y, Evicts(to))
  {
    var z := y.(ring := Evict(y.ring), holder := true, drawing := -1, others := Joined(y), stale := Occupied(y));
    match to
    case ToNobody => z.(holder := false)
    case ToNewcomer => z
    case ToIdle => z.(others := Joined(y) - 1)
    case ToHolder => y.(ring := Evict(y.ring))
    case ToDrawing(buf) => z.(drawing := buf, others := Joined(y) - 1, stale := Occupied(y) - multiset{buf})
  }

  function Do(y: Sys, a: Action): Sys
    requires Can(y, a)
  {
    match a
    case Claim => y.(ring := WriteSlot(y.ring), drawing := FreeBuffer(y.ring))
    case Draw(at, value) =>
      var f := y.ring.frames[y.drawing];
      Store(y, y.drawing, f.(pixels := f.pixels[at := value]))
    case StampId(id) => Store(y, y.drawing, y.ring.frames[y.drawing].(id := id))
    case StampTs(ts) => Store(y, y.drawing, y.ring.frames[y.drawing].(ts := ts))
    case Publishes(_) => y.(ring := Publish(y.ring, y.drawing), drawing := -1)
    case StandsDown => y.(holder := false, drawing := -1, others := y.others + 1)
    case Checkouts(found) => if found then y.(ring := Checkout(y.ring), reading := y.ring.latestReady) else y
    case Releases => y.(ring := Release(y.ring), reading := -1)
    case Evicts(to) => AfterEviction(y, to)
    case StaleClaim => y.(ring := WriteSlot(y.ring), stale := y.stale + multiset{FreeBuffer(y.ring)})
    case StaleDraw(buf, at, value) =>
      var f := y.ring.frames[buf];
      Store(y, buf, f.(pixels := f.pixels[at := value]))
    case StaleRefused(buf) => y.(stale := y.stale - multiset{buf})
    case Leaves => y.(others := y.others - 1)
    case _ => y
  }

  // The register.

  /** What the producer has put down since its claim. */
  datatype Draft = Draft(pixels: map<int, Byte>, id: Option<nat>, ts: Option<nat>)

  datatype Register = Register(latest: Option<Frame>, held: Option<Frame>, draft: Draft)

  const BLANK := Draft(map[], None, None)
  const EMPTY := Register(None, None, BLANK)

  predicate Matches(d: Draft, f: Frame) {
    && (forall at :: at in d.pixels ==> 0 <= at < |f.pixels| && f.pixels[at] == d.pixels[at])
    && (d.id.Some? ==> f.id == d.id.value)
    && (d.ts.Some? ==> f.ts == d.ts.value)
  }

  /** How an atomic register would see the same action; None if it could not happen. It
      publishes only what was drawn, and between checkout and release shows nothing but the
      frame that was latest at the checkout. */
  function Observe(r: Register, a: Action): Option<Register> {
    match a
    case Claim => Some(r.(draft := BLANK))
    case Draw(at, value) => Some(r.(draft := r.draft.(pixels := r.draft.pixels[at := value])))
    case StampId(id) => Some(r.(draft := r.draft.(id := Some(id))))
    case StampTs(ts) => Some(r.(draft := r.draft.(ts := Some(ts))))
    case Publishes(frame) => if Matches(r.draft, frame) then Some(r.(latest := Some(frame))) else None
    case Checkouts(found) => if found == r.latest.Some? && r.held.None? then Some(r.(held := r.latest)) else None
    case SeePixel(at, value) =>
      if r.held.Some? && 0 <= at < |r.held.value.pixels| && r.held.value.pixels[at] == value then Some(r) else None
    case SeeId(id) => if r.held.Some? && r.held.value.id == id then Some(r) else None
    case SeeTs(ts) => if r.held.Some? && r.held.value.ts == ts then Some(r) else None
    case Releases => if r.held.Some? then Some(r.(held := None)) else None
    case Evicts(_) => Some(r.(latest := None, draft := BLANK))
    case _ => Some(r)
  }

  /** The frame a buffer index stands for. */
  predicate Shows(y: Sys, idx: int, f: Option<Frame>) {
    if idx == -1 then f.None?
    else Buffer(y, idx) && f == Some(y.ring.frames[idx])
  }

  /** Nobody would notice this eviction. If it leaves nobody with the grant: unless a consumer
      reads buffer 0, which an evicted producer may claim next. If it leaves somebody: when no
      other producer is drawing, no consumer reads buffer 0 or 1, the two that claims
      alternate between while nothing is locked, and, should the one granted be drawing
      already, without a claim now, when there is no other to make one. */
  predicate Harmless(y: Sys, to: Grantee)
    requires Can(y, Evicts(to))
  {
    var z := AfterEviction(y, to);
    if !z.holder then z.reading != 0 || z.others == 0
    else z.stale == multiset{} && (z.reading == -1 || z.reading >= 2) && (z.drawing == -1 || z.others == 0)
  }

  predicate HarmlessAction(y: Sys, a: Action)
    requires Can(y, a)
  {
    a.Evicts? ==> Harmless(y, a.to)
  }

  /** The ring's indices show the register's frames, and no producer is where they point. The
      claim may be an evicted producer's, and may outlive its producer; nobody else is drawing
      while there is somebody to publish. */
  ghost predicate Refines(y: Sys, r: Register) {
    var claimed := y.ring.clientLocked;
    && Shows(y, y.ring.latestReady, r.latest)
    && Shows(y, y.reading, r.held)
    && (claimed == -1 || Apart(y, claimed))
    && (y.drawing == -1 ||
         (y.holder && Apart(y, y.drawing) && Matches(r.draft, y.ring.frames[y.drawing])
          && (y.drawing == claimed || (claimed == -1 && y.others == 0))))
    && |y.stale| <= y.others
    && (forall buf :: buf in y.stale ==> Apart(y, buf))
    && (y.holder ==> y.stale == multiset{} || (y.stale == multiset{claimed} && y.drawing == -1))
    && (y.ring.serverLocked == y.reading || (y.ring.serverLocked == -1 && UnlockedReader(y)))
  }

  /** The buffer is neither published nor being read. */
  predicate Apart(y: Sys, buf: int) {
    Buffer(y, buf) && buf != y.ring.latestReady && buf != y.reading
  }

  /** An eviction has taken the lock from the reader's buffer, and still no claim reaches it. */
  predicate UnlockedReader(y: Sys) {
    || (y.reading >= 2 && y.ring.clientLocked < 2)
    || (y.reading == 1 && !y.holder && y.ring.latestReady == -1)
    || (y.reading == 0 && !y.holder && y.others == 0)
  }

  predicate ByProducer(a: Action) {
    a.Claim? || a.Draw? || a.StampId? || a.StampTs? || a.Publishes? || a.StandsDown?
  }

  predicate ByEvicted(a: Action) {
    a.StaleClaim? || a.StaleDraw? || a.StaleRefused? || a.Leaves?
  }

  /** While nothing is locked a claim gets buffer 0 or 1. */
  lemma ClaimIsFree(ring: RingState)
    requires CanClaim(ring)
    ensures var idx := FreeBuffer(ring); 0 <= idx < |ring.frames| && idx != ring.latestReady && idx != ring.serverLocked
    ensures |ring.frames| >= 3 ==> FreeBuffer(ring) <= 2
    ensures |ring.frames| >= 3 && ring.serverLocked == -1 ==> FreeBuffer(ring) <= 1
  {
    if |ring.frames| >= 3 { assert Free(ring, 0) || Free(ring, 1) || Free(ring, 2); }
    if |ring.frames| >= 3 && ring.serverLocked == -1 { assert Free(ring, 0) || Free(ring, 1); }
  }

  lemma ClaimRefines(y: Sys, r: Register, a: Action)
    requires Refines(y, r) && Can(y, a) && (a.Claim? || a.StaleClaim?)
    ensures Observe(r, a).Some? && Refines(Do(y, a), Observe(r, a).value)
  {
    ClaimIsFree(y.ring);
    if y.ring.latestReady == -1 && y.ring.serverLocked == -1 && |y.ring.frames| > 0 { assert Free(y.ring, 0); }
  }

  lemma ProducerStepRefines(y: Sys, r: Register, a: Action)
    requires Refines(y, r) && Can(y, a) && ByProducer(a) && !a.Claim?
    ensures Observe(r, a).Some? && Refines(Do(y, a), Observe(r, a).value)
  {}

  /** Whatever an evicted producer writes goes to a buffer nobody looks at. */
  lemma StoreRefines(y: Sys, r: Register, buf: int, frame: Frame)
    requires Refines(y, r) && buf in y.stale && Buffer(y, buf)
    ensures Refines(Store(y, buf, frame), r)
  {}

  lemma EvictedStepRefines(y: Sys, r: Register, a: Action)
    requires Refines(y, r) && Can(y, a) && ByEvicted(a) && !a.StaleClaim?
    ensures Observe(r, a) == Some(r) && Refines(Do(y, a), r)
  {
    match a
    case StaleDraw(buf, at, value) => DrawRefines(y, r, buf, at, value);
    case StaleRefused(buf) => GoneRefines(y, r, Do(y, a));
    case Leaves => GoneRefines(y, r, Do(y, a));
  }

  lemma DrawRefines(y: Sys, r: Register, buf: int, at: int, value: Byte)
    requires Refines(y, r) && Can(y, StaleDraw(buf, at, value))
    ensures Refines(Do(y, StaleDraw(buf, at, value)), r)
  {
    var f := y.ring.frames[buf];
    StoreRefines(y, r, buf, f.(pixels := f.pixels[at := value]));
  }

  /** One producer without the grant less, or one less of them drawing. */
  lemma GoneRefines(y: Sys, r: Register, z: Sys)
    requires Refines(y, r) && z == y.(stale := z.stale, others := z.others)
    requires |z.stale| <= z.others <= y.others && z.stale <= y.stale
    ensures Refines(z, r)
  {
    assert forall buf :: buf in z.stale ==> buf in y.stale;
    if y.stale == multiset{y.ring.clientLocked} {
      OneOrNone(y.ring.clientLocked, z.stale);
    } else if y.holder {
      assert z.stale == multiset{};
    }
  }

  lemma OneOrNone(x: int, m: multiset<int>)
    requires m <= multiset{x}
    ensures m == multiset{} || m == multiset{x}
  {
    if m[x] == 0 { assert forall b :: b !in m; }
  }

  lemma EvictionRefines(y: Sys, r: Register, to: Grantee)
    requires Refines(y, r) && Can(y, Evicts(to)) && Harmless(y, to)
    ensures Observe(r, Evicts(to)).Some? && Refines(Do(y, Evicts(to)), Observe(r, Evicts(to)).value)
  {
    var z, r1 := Do(y, Evicts(to)), Observe(r, Evicts(to)).value;
    OccupiedApart(y, r);
    EvictionOccupies(y, to);
    if !z.holder {
      NobodyRefines(z, r1);
    } else {
      SomebodyRefines(z, r1);
    }
  }

  /** No producer is at the buffer being read. */
  lemma OccupiedApart(y: Sys, r: Register)
    requires Refines(y, r)
    ensures forall buf :: buf in Occupied(y) ==> Buffer(y, buf) && buf != y.reading
  {}

  /** An eviction moves nobody. */
  lemma EvictionOccupies(y: Sys, to: Grantee)
    requires Can(y, Evicts(to)) && |y.stale| <= y.others && (y.drawing != -1 ==> y.holder)
    ensures var z := Do(y, Evicts(to));
            && |z.stale| <= z.others
            && (z.drawing != -1 ==> z.drawing in Occupied(y))
            && (forall buf :: buf in z.stale ==> buf in Occupied(y))
  {}

  ghost predicate JustEvicted(z: Sys, r: Register) {
    && z.ring.latestReady == z.ring.serverLocked == z.ring.clientLocked == -1
    && r.latest.None? && Shows(z, z.reading, r.held) && r.draft == BLANK
    && |z.stale| <= z.others
  }

  lemma NobodyRefines(z: Sys, r: Register)
    requires JustEvicted(z, r) && !z.holder && z.drawing == -1 && (z.reading != 0 || z.others == 0)
    requires forall buf :: buf in z.stale ==> Buffer(z, buf) && buf != z.reading
    ensures Refines(z, r)
  {}

  lemma SomebodyRefines(z: Sys, r: Register)
    requires JustEvicted(z, r) && z.holder && z.stale == multiset{} && (z.reading == -1 || z.reading >= 2)
    requires z.drawing == -1 || (z.others == 0 && Buffer(z, z.drawing) && z.drawing != z.reading)
    ensures Refines(z, r)
  {}

  /** Every step of the ring is a step of the register, with the same values seen. */
  lemma StepRefines(y: Sys, r: Register, a: Action)
    requires Refines(y, r) && Can(y, a) && HarmlessAction(y, a)
    ensures Observe(r, a).Some? && Refines(Do(y, a), Observe(r, a).value)
  {
    if a.Claim? || a.StaleClaim? {
      ClaimRefines(y, r, a);
    } else if ByProducer(a) {
      ProducerStepRefines(y, r, a);
    } else if ByEvicted(a) {
      EvictedStepRefines(y, r, a);
    } else if a.Evicts? {
      EvictionRefines(y, r, a.to);
    }
  }

  ghost predicate LegalRun(y: Sys, run: seq<Action>)
    decreases |run|
  {
    run == [] || (Can(y, run[0]) && LegalRun(Do(y, run[0]), run[1..]))
  }

  ghost function Exec(y: Sys, run: seq<Action>): Sys
    requires LegalRun(y, run)
    decreases |run|
  {
    if run == [] then y else Exec(Do(y, run[0]), run[1..])
  }

  function ObserveAll(r: Register, run: seq<Action>): Option<Register>
    decreases |run|
  {
    if run == [] then Some(r)
    else match Observe(r, run[0])
      case None => None
      case Some(r1) => ObserveAll(r1, run[1..])
  }

  /** Every eviction in the run comes at a harmless moment. */
  ghost predicate EvictsHarmlessly(y: Sys, run: seq<Action>)
    requires LegalRun(y, run)
    decreases |run|
  {
    run == [] || (HarmlessAction(y, run[0]) && EvictsHarmlessly(Do(y, run[0]), run[1..]))
  }

  lemma {:induction false} RunRefines(y: Sys, r: Register, run: seq<Action>)
    requires Refines(y, r) && LegalRun(y, run) && EvictsHarmlessly(y, run)
    ensures ObserveAll(r, run).Some? && Refines(Exec(y, run), ObserveAll(r, run).value)
    decreases |run|
  {
    if run != [] {
      StepRefines(y, r, run[0]);
      RunRefines(Do(y, run[0]), Observe(r, run[0]).value, run[1..]);
    }
  }

  /** Every interleaving of producers and a consumer over any number of buffers, with
      evictions at harmless moments, is a run of the register: what is read between checkout
      and release is the latest frame published before the checkout, and that frame is what
      its producer drew. */
  lemma RingIsALatestFrameRegister(frames: seq<Frame>, run: seq<Action>)
    requires LegalRun(Start(frames), run) && EvictsHarmlessly(Start(frames), run)
    ensures ObserveAll(EMPTY, run).Some?
  {
    RunRefines(Start(frames), EMPTY, run);
  }

  /** What every step keeps, evictions at any time included: no claim is for the buffer that is
      ready or locked by the server, and an eviction takes the lock away from under a reader. */
  ghost predicate Sound(y: Sys) {
    var claimed := y.ring.clientLocked;
    && |y.ring.frames| >= 3
    && -1 <= y.ring.latestReady < |y.ring.frames|
    && -1 <= y.reading < |y.ring.frames|
    && -1 <= claimed <= 2
    && -1 <= y.drawing <= 2 && (y.drawing != -1 ==> y.holder)
    && (y.ring.serverLocked == y.reading || y.ring.serverLocked == -1)
    && (claimed != -1 ==> claimed != y.ring.latestReady && claimed != y.ring.serverLocked)
    && (forall buf :: buf in y.stale ==> 0 <= buf <= 2)
    && |y.stale| <= y.others
  }

  lemma StepSound(y: Sys, a: Action)
    requires Sound(y) && Can(y, a)
    ensures Sound(Do(y, a))
  {
    if a.Claim? || a.StaleClaim? {
      ClaimSound(y, a);
    } else if ByProducer(a) {
      ProducerStepSound(y, a);
    } else if ByEvicted(a) {
      EvictedStepSound(y, a);
    } else if a.Evicts? {
      EvictionSound(y, a.to);
    }
  }

  lemma ClaimSound(y: Sys, a: Action)
    requires Sound(y) && Can(y, a) && (a.Claim? || a.StaleClaim?)
    ensures Sound(Do(y, a))
  {
    ClaimIsFree(y.ring);
  }

  lemma ProducerStepSound(y: Sys, a: Action)
    requires Sound(y) && Can(y, a) && ByProducer(a) && !a.Claim?
    ensures Sound(Do(y, a))
  {}

  lemma EvictedStepSound(y: Sys, a: Action)
    requires Sound(y) && Can(y, a) && ByEvicted(a) && !a.StaleClaim?
    ensures Sound(Do(y, a))
  {}

  lemma EvictionSound(y: Sys, to: Grantee)
    requires Sound(y) && Can(y, Evicts(to))
    ensures Sound(Do(y, Evicts(to)))
  {
    assert forall buf :: buf in Occupied(y) ==> 0 <= buf <= 2;
  }

  lemma {:induction false} RunSound(y: Sys, run: seq<Action>)
    requires Sound(y) && LegalRun(y, run)
    ensures Sound(Exec(y, run))
    decreases |run|
  {
    if run != [] {
      StepSound(y, run[0]);
      RunSound(Do(y, run[0]), run[1..]);
    }
  }

  // When a claim succeeds.

  predicate Claims(a: Action) {
    a.Claim? || a.StaleClaim?
  }

  /** The actions that clear the client lock, whoever holds it. */
  predicate Unclaims(a: Action) {
    a.Publishes? || a.Evicts?
  }

  /** A buffer has been claimed since the last publish or eviction. */
  ghost predicate ClaimOpen(run: seq<Action>) {
    exists k :: 0 <= k < |run| && Claims(run[k]) && forall l :: k < l < |run| ==> !Unclaims(run[l])
  }

  predicate NoUnclaim(run: seq<Action>) {
    forall l :: 0 <= l < |run| ==> !Unclaims(run[l])
  }

  lemma {:induction false} LockIsOpenClaim(y: Sys, run: seq<Action>)
    requires Sound(y) && LegalRun(y, run)
    ensures Exec(y, run).ring.clientLocked != -1 <==> ClaimOpen(run) || (y.ring.clientLocked != -1 && NoUnclaim(run))
    decreases |run|
  {
    if run != [] {
      StepSound(y, run[0]);
      LockIsOpenClaim(Do(y, run[0]), run[1..]);
      ClaimOpenCons(run);
    }
  }

  lemma ClaimOpenCons(run: seq<Action>)
    requires run != []
    ensures ClaimOpen(run) <==> ClaimOpen(run[1..]) || (Claims(run[0]) && NoUnclaim(run[1..]))
    ensures NoUnclaim(run) <==> !Unclaims(run[0]) && NoUnclaim(run[1..])
  {
    var rest := run[1..];
    assert forall k :: 0 < k < |run| ==> run[k] == rest[k - 1];
    if ClaimOpen(rest) {
      var k :| 0 <= k < |rest| && Claims(rest[k]) && forall l :: k < l < |rest| ==> !Unclaims(rest[l]);
      assert Claims(run[k + 1]);
    }
    if ClaimOpen(run) {
      var k :| 0 <= k < |run| && Claims(run[k]) && forall l :: k < l < |run| ==> !Unclaims(run[l]);
      assert forall l :: 0 <= l < |rest| ==> rest[l] == run[l + 1];
      if k > 0 { assert Claims(rest[k - 1]); }
    }
    assert forall l :: 0 <= l < |rest| ==> rest[l] == run[l + 1];
  }

  /** With three buffers or more write_slot() returns a buffer, after any run, whatever the
      consumer is doing, if and only if no buffer has been claimed since the last publish or
      eviction; it aborts otherwise. A claim counts even if it was an evicted producer's, and
      even if its publish was refused since. */
  lemma ClaimSucceedsExactly(frames: seq<Frame>, run: seq<Action>)
    requires |frames| >= 3 && LegalRun(Start(frames), run)
    ensures CanClaim(Exec(Start(frames), run).ring) <==> !ClaimOpen(run)
  {
    RunSound(Start(frames), run);
    LockIsOpenClaim(Start(frames), run);
    ThreeBuffersSuffice(Exec(Start(frames), run).ring);
  }

  /** So a client can be aborted by another's mistake. Wherever the holder of the grant may claim
      and a producer that had it before is idle, that one may claim first; its publish is
      refused, and the holder aborts on its next claim although nobody new is drawing. */
  lemma JamsAnywhere(y: Sys)
    requires Sound(y) && Can(y, Claim) && SomebodyIdle(y)
    ensures var run := [StaleClaim, StaleRefused(FreeBuffer(y.ring))];
            && LegalRun(y, run)
            && Exec(y, run).holder && Exec(y, run).drawing == -1 && Exec(y, run).stale == y.stale
            && !Can(Exec(y, run), Claim)
  {
    var refused := StaleRefused(FreeBuffer(y.ring));
    var y1 := Do(y, StaleClaim);
    RunCons(y1, refused, []);
    RunCons(y, StaleClaim, [refused] + []);
    assert [StaleClaim] + ([refused] + []) == [StaleClaim, refused];
  }

  /** It can come to that with the second client ever granted the slot. */
  lemma JammedRun(frames: seq<Frame>)
    requires |frames| >= 3
    ensures var run := [Evicts(ToNewcomer), Evicts(ToNewcomer)] + [StaleClaim, StaleRefused(0)];
            && LegalRun(Start(frames), run)
            && Exec(Start(frames), run).holder && Exec(Start(frames), run).drawing == -1
            && Exec(Start(frames), run).stale == multiset{}
            && !Can(Exec(Start(frames), run), Claim)
  {
    var y1 := Do(Start(frames), Evicts(ToNewcomer));
    var y2 := Do(y1, Evicts(ToNewcomer));
    var rest := [StaleClaim, StaleRefused(0)];
    assert Free(y2.ring, 0);
    JamsAnywhere(y2);
    RunCons(y1, Evicts(ToNewcomer), rest);
    RunCons(Start(frames), Evicts(ToNewcomer), [Evicts(ToNewcomer)] + rest);
    assert [Evicts(ToNewcomer)] + ([Evicts(ToNewcomer)] + rest) == [Evicts(ToNewcomer), Evicts(ToNewcomer)] + rest;
  }

  lemma RunCons(y: Sys, a: Action, rest: seq<Action>)
    requires Can(y, a) && LegalRun(Do(y, a), rest)
    ensures var run := [a] + rest; LegalRun(y, run) && Exec(y, run) == Exec(Do(y, a), rest)
  {
    assert ([a] + rest)[1..] == rest;
  }
}
