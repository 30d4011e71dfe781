/** What an eviction can do to a frame in use. evict() clears both locks whoever holds them,
    so a reader may find its buffer handed to the next producer, and a producer may find
    its successor in the buffer it is still drawing. This module says exactly when. */
module Evictions {
  import opened Ring
  import opened Options
  import opened FrameRegister

  /** Every buffer has room for at least one pixel byte. */
  predicate HasPixels(frames: seq<Frame>) {
    forall i :: 0 <= i < |frames| ==> frames[i].pixels != []
  }

  predicate NoEvicts(run: seq<Action>) {
    forall k :: 0 <= k < |run| ==> !run[k].Evicts?
  }

  predicate NoReleases(run: seq<Action>) {
    forall k :: 0 <= k < |run| ==> !run[k].Releases?
  }

  // The register's view after an eviction.

  /** Some way of going on without further evictions shows something no register would. */
  ghost predicate Doomed(y: Sys, r: Register) {
    exists run :: LegalRun(y, run) && NoEvicts(run) && ObserveAll(r, run).None?
  }

  lemma DoomedBy(y: Sys, r: Register, a: Action)
    requires Can(y, a) && !a.Evicts?
    requires Observe(r, a).None? || Doomed(Do(y, a), Observe(r, a).value)
    ensures Doomed(y, r)
  {
    if Observe(r, a).None? {
      assert LegalRun(Do(y, a), [a][1..]);
      assert LegalRun(y, [a]) && ObserveAll(r, [a]).None?;
    } else {
      var rest :| LegalRun(Do(y, a), rest) && NoEvicts(rest) && ObserveAll(Observe(r, a).value, rest).None?;
      var run := [a] + rest;
      assert run[1..] == rest;
      assert LegalRun(y, run) && ObserveAll(r, run).None?;
    }
  }

  /** Two producers in one buffer: the published frame mixes their pixels. */
  lemma SharedDraftDooms(y: Sys, r: Register)
    requires Buffer(y, y.drawing) && y.drawing in y.stale && HasPixels(y.ring.frames)
    ensures Doomed(y, r)
  {
    var d := y.drawing;
    var y1, r1 := Do(y, Draw(0, 0)), Observe(r, Draw(0, 0)).value;
    var y2 := Do(y1, StaleDraw(d, 0, 1));
    var mixed := y2.ring.frames[d];
    assert mixed.pixels[0] == 1 && 0 in r1.draft.pixels && r1.draft.pixels[0] == 0;
    DoomedBy(y2, r1, Publishes(mixed));
    DoomedBy(y1, r1, StaleDraw(d, 0, 1));
    DoomedBy(y, r, Draw(0, 0));
  }

  /** A producer in the buffer being read: the reader sees its stamp. */
  lemma SharedReadDooms(y: Sys, r: Register)
    requires Buffer(y, y.reading) && y.drawing == y.reading && r.held.Some?
    ensures Doomed(y, r)
  {
    var id := r.held.value.id + 1;
    var y1, r1 := Do(y, StampId(id)), Observe(r, StampId(id)).value;
    DoomedBy(y1, r1, SeeId(id));
    DoomedBy(y, r, StampId(id));
  }

  /** The holder of the grant is not drawing, and no claim stands in its way. */
  ghost predicate Claimable(y: Sys) {
    y.holder && y.drawing == -1 && y.ring.clientLocked == -1 && HasPixels(y.ring.frames)
  }

  /** Claiming buffer d would put the producer where a stale one still draws, or where the
      reader reads. */
  ghost predicate Trap(y: Sys, r: Register, d: int) {
    d in y.stale || (y.reading == d && r.held.Some?)
  }

  lemma ClaimIntoTrapDooms(y: Sys, r: Register, d: int)
    requires Sound(y) && Claimable(y) && FreeBuffer(y.ring) == d != -1 && Trap(y, r, d)
    ensures Doomed(y, r)
  {
    var y1, r1 := Do(y, Claim), Observe(r, Claim).value;
    if d in y.stale { SharedDraftDooms(y1, r1); } else { SharedReadDooms(y1, r1); }
    DoomedBy(y, r, Claim);
  }

  /** The state after a producer has claimed a buffer and published it as it was. */
  function AfterTurn(y: Sys): Sys {
    y.(ring := y.ring.(latestReady := FreeBuffer(y.ring)))
  }

  lemma DoomedAfterTurn(y: Sys, r: Register)
    requires Sound(y) && Claimable(y) && Buffer(y, FreeBuffer(y.ring))
    requires Doomed(AfterTurn(y), r.(latest := Some(y.ring.frames[FreeBuffer(y.ring)]), draft := BLANK))
    ensures Doomed(y, r)
  {
    var y1, r1 := Do(y, Claim), r.(draft := BLANK);
    var frame := y1.ring.frames[y1.drawing];
    assert Do(y1, Publishes(frame)) == AfterTurn(y);
    DoomedBy(y1, r1, Publishes(frame));
    DoomedBy(y, r, Claim);
  }

  /** With no server lock, claims alternate between buffers 0 and 1. */
  lemma TrapDooms(y: Sys, r: Register, d: int)
    requires Sound(y) && Claimable(y) && y.ring.serverLocked == -1 && 0 <= d < 2 && Trap(y, r, d)
    ensures Doomed(y, r)
  {
    assert Free(y.ring, 0) || Free(y.ring, 1);
    var c := FreeBuffer(y.ring);
    if c == d {
      ClaimIntoTrapDooms(y, r, d);
    } else {
      var y1, r1 := AfterTurn(y), r.(latest := Some(y.ring.frames[c]), draft := BLANK);
      assert Free(y1.ring, d) && !Free(y1.ring, c);
      ClaimIntoTrapDooms(y1, r1, d);
      DoomedAfterTurn(y, r);
    }
  }

  /** Buffer 2 is claimed while one of the others is read and the other ready. */
  lemma TrapAtTwoFromReady(y: Sys, r: Register)
    requires Sound(y) && Claimable(y) && y.reading == -1 && y.ring.serverLocked == -1 && 0 <= y.ring.latestReady < 2
    requires 2 in y.stale && r.held.None? && r.latest.Some?
    ensures Doomed(y, r)
  {
    var y1, r1 := Do(y, Checkouts(true)), r.(held := r.latest);
    var e := y.ring.latestReady;
    assert Free(y1.ring, 1 - e) && !Free(y1.ring, e);
    var y2, r2 := AfterTurn(y1), r1.(latest := Some(y1.ring.frames[1 - e]), draft := BLANK);
    assert Free(y2.ring, 2) && !Free(y2.ring, 0) && !Free(y2.ring, 1);
    ClaimIntoTrapDooms(y2, r2, 2);
    DoomedAfterTurn(y1, r1);
    DoomedBy(y, r, Checkouts(true));
  }

  /** From any state with nobody reading, the holder's claims reach every buffer. */
  lemma StaleDooms(y: Sys, r: Register, d: int)
    requires Sound(y) && Claimable(y) && y.reading == -1 && y.ring.serverLocked == -1 && r.held.None?
    requires y.ring.latestReady == -1 || (y.ring.latestReady != d && y.ring.latestReady <= 2 && r.latest.Some?)
    requires d in y.stale && 0 <= d <= 2
    ensures Doomed(y, r)
  {
    if d < 2 {
      TrapDooms(y, r, d);
    } else if y.ring.latestReady == -1 {
      assert Free(y.ring, 0);
      TrapAtTwoFromReady(AfterTurn(y), r.(latest := Some(y.ring.frames[0]), draft := BLANK));
      DoomedAfterTurn(y, r);
    } else {
      TrapAtTwoFromReady(y, r);
    }
  }

  lemma NobodyStale(y: Sys)
    requires Sound(y)
    ensures 0 in y.stale || 1 in y.stale || 2 in y.stale || y.stale == multiset{}
  {
    if y.stale != multiset{} {
      var rest := y.stale[0 := 0][1 := 0][2 := 0];
      assert forall buf :: buf !in rest;
      assert rest == multiset{};
    }
  }

  lemma SomeStaleBuffer(y: Sys) returns (buf: int)
    requires Sound(y) && y.stale != multiset{}
    ensures buf in y.stale && 0 <= buf <= 2
  {
    NobodyStale(y);
    buf := if 0 in y.stale then 0 else if 1 in y.stale then 1 else 2;
  }

  /** The state after an eviction, as far as this matters: nothing is locked or published. */
  ghost predicate Cleared(y: Sys, r: Register) {
    && Sound(y) && HasPixels(y.ring.frames)
    && y.ring.latestReady == y.ring.serverLocked == y.ring.clientLocked == -1
    && r.draft == BLANK && Shows(y, y.reading, r.held)
  }

  /** The holder, drawing without a claim, publishes as it is and can claim again. */
  lemma HolderPublishes(y: Sys, r: Register) returns (y1: Sys, r1: Register)
    requires Cleared(y, r) && y.drawing != -1
    ensures Sound(y1) && Claimable(y1) && y1.reading == y.reading && y1.stale == y.stale
    ensures y1.ring.serverLocked == -1 && y1.ring.latestReady == y.drawing
    ensures r1.held == r.held && r1.latest.Some?
    ensures Doomed(y1, r1) ==> Doomed(y, r)
  {
    var frame := y.ring.frames[y.drawing];
    y1, r1 := Do(y, Publishes(frame)), r.(latest := Some(frame));
    StepSound(y, Publishes(frame));
    if Doomed(y1, r1) { DoomedBy(y, r, Publishes(frame)); }
  }

  /** Another producer is drawing: the holder claims the buffer it is at, or publishes the one
      they share. */
  lemma OtherDrawingDooms(y: Sys, r: Register)
    requires Cleared(y, r) && y.holder && y.stale != multiset{} && y.reading == -1
    ensures Doomed(y, r)
  {
    var d := SomeStaleBuffer(y);
    if y.drawing == -1 {
      StaleDooms(y, r, d);
    } else if y.drawing in y.stale {
      SharedDraftDooms(y, r);
    } else {
      var y1, r1 := HolderPublishes(y, r);
      StaleDooms(y1, r1, d);
    }
  }

  /** The reader's buffer, unlocked, is claimed by the holder. */
  lemma LowReaderDooms(y: Sys, r: Register)
    requires Cleared(y, r) && y.holder && 0 <= y.reading < 2 && y.drawing != y.reading
    ensures Doomed(y, r)
  {
    if y.drawing == -1 {
      TrapDooms(y, r, y.reading);
    } else {
      var y1, r1 := HolderPublishes(y, r);
      TrapDooms(y1, r1, y.reading);
    }
  }

  /** The holder is drawing without a claim: an idle producer claims buffer 0 and is in its way,
      now or on its next claim. */
  lemma IdleClaimDooms(y: Sys, r: Register)
    requires Cleared(y, r) && y.drawing != -1 && SomebodyIdle(y)
    ensures Doomed(y, r)
  {
    assert Free(y.ring, 0);
    var y1 := Do(y, StaleClaim);
    StepSound(y, StaleClaim);
    assert 0 in y1.stale;
    if y.drawing == 0 {
      SharedDraftDooms(y1, r);
    } else {
      var frame := y1.ring.frames[y1.drawing];
      var y2, r2 := Do(y1, Publishes(frame)), r.(latest := Some(frame));
      StepSound(y1, Publishes(frame));
      TrapDooms(y2, r2, 0);
      DoomedBy(y1, r, Publishes(frame));
    }
    DoomedBy(y, r, StaleClaim);
  }

  /** Nobody may publish, but a producer without the grant claims the buffer being read. */
  lemma ReaderOfZeroDooms(y: Sys, r: Register)
    requires Cleared(y, r) && y.reading == 0 && SomebodyIdle(y)
    ensures Doomed(y, r)
  {
    assert Free(y.ring, 0);
    var y1 := Do(y, StaleClaim);
    assert 0 in y1.stale;
    var value := if r.held.value.pixels[0] == 0 then 1 else 0;
    var y2 := Do(y1, StaleDraw(0, 0, value));
    DoomedBy(y2, r, SeePixel(0, value));
    DoomedBy(y1, r, StaleDraw(0, 0, value));
    DoomedBy(y, r, StaleClaim);
  }

  lemma NobodyHoldsDooms(y: Sys, r: Register)
    requires Cleared(y, r) && !y.holder && y.reading == 0 && y.others > 0
    ensures Doomed(y, r)
  {
    if SomebodyIdle(y) {
      ReaderOfZeroDooms(y, r);
    } else {
      var d := SomeStaleBuffer(y);
      var y1 := Do(y, StaleRefused(d));
      StepSound(y, StaleRefused(d));
      ReaderOfZeroDooms(y1, r);
      DoomedBy(y, r, StaleRefused(d));
    }
  }

  lemma SomebodyHoldsDooms(y: Sys, r: Register)
    requires Cleared(y, r) && y.holder && (y.reading == -1 || y.drawing != y.reading)
    requires y.stale != multiset{} || 0 <= y.reading < 2 || (y.drawing != -1 && y.others > 0)
    ensures Doomed(y, r)
  {
    if 0 <= y.reading < 2 {
      LowReaderDooms(y, r);
    } else if y.stale == multiset{} {
      IdleClaimDooms(y, r);
    } else if y.reading == -1 {
      OtherDrawingDooms(y, r);
    } else {
      var y1, r1 := Do(y, Releases), r.(held := None);
      StepSound(y, Releases);
      OtherDrawingDooms(y1, r1);
      DoomedBy(y, r, Releases);
    }
  }

  lemma HarmfulEvictionDooms(y: Sys, r: Register, to: Grantee)
    requires Sound(y) && Refines(y, r) && Can(y, Evicts(to)) && !Harmless(y, to) && HasPixels(y.ring.frames)
    ensures Doomed(Do(y, Evicts(to)), Observe(r, Evicts(to)).value)
  {
    var z, r1 := Do(y, Evicts(to)), Observe(r, Evicts(to)).value;
    StepSound(y, Evicts(to));
    assert Cleared(z, r1);
    if z.holder { SomebodyHoldsDooms(z, r1); } else { NobodyHoldsDooms(z, r1); }
  }

  lemma {:induction false} NoEvictsHarmless(y: Sys, run: seq<Action>)
    requires LegalRun(y, run) && NoEvicts(run)
    ensures EvictsHarmlessly(y, run)
    decreases |run|
  {
    if run != [] { NoEvictsHarmless(Do(y, run[0]), run[1..]); }
  }

  lemma {:induction false} PixelsStay(y: Sys, run: seq<Action>)
    requires HasPixels(y.ring.frames) && LegalRun(y, run)
    ensures HasPixels(Exec(y, run).ring.frames)
    decreases |run|
  {
    if run != [] { PixelsStay(Do(y, run[0]), run[1..]); }
  }

  lemma CalmGoesUnnoticed(y: Sys, r: Register)
    requires Refines(y, r)
    ensures forall after :: LegalRun(y, after) && NoEvicts(after) ==> ObserveAll(r, after).Some?
  {
    forall after | LegalRun(y, after) && NoEvicts(after) ensures ObserveAll(r, after).Some? {
      NoEvictsHarmless(y, after);
      RunRefines(y, r, after);
    }
  }

  /** After any run with only harmless evictions, the next eviction goes unnoticed, however
      things go on until the one after, if and only if it is harmless. */
  lemma EvictionHarmlessExactly(frames: seq<Frame>, before: seq<Action>, to: Grantee)
    requires |frames| >= 3 && HasPixels(frames)
    requires LegalRun(Start(frames), before) && EvictsHarmlessly(Start(frames), before)
    requires Can(Exec(Start(frames), before), Evicts(to))
    ensures ObserveAll(EMPTY, before).Some?
    ensures var y, r := Exec(Start(frames), before), ObserveAll(EMPTY, before).value;
            (forall after :: LegalRun(Do(y, Evicts(to)), after) && NoEvicts(after)
                             ==> ObserveAll(Observe(r, Evicts(to)).value, after).Some?)
            <==> Harmless(y, to)
  {
    RunRefines(Start(frames), EMPTY, before);
    RunSound(Start(frames), before);
    PixelsStay(Start(frames), before);
    var y, r := Exec(Start(frames), before), ObserveAll(EMPTY, before).value;
    if Harmless(y, to) {
      StepRefines(y, r, Evicts(to));
      CalmGoesUnnoticed(Do(y, Evicts(to)), Observe(r, Evicts(to)).value);
    } else {
      HarmfulEvictionDooms(y, r, to);
    }
  }

  // The frame under a reader.

  /** Everything read in the run is of frame f. */
  predicate Sees(run: seq<Action>, f: Frame) {
    forall k :: 0 <= k < |run| ==> Fits(run[k], f)
  }

  predicate Fits(a: Action, f: Frame) {
    match a
    case SeePixel(at, value) => 0 <= at < |f.pixels| && value == f.pixels[at]
    case SeeId(id) => id == f.id
    case SeeTs(ts) => ts == f.ts
    case _ => true
  }

  /** A way of going on before the buffer is released; `calm` rules out evictions. */
  ghost predicate Course(y: Sys, run: seq<Action>, calm: bool) {
    LegalRun(y, run) && NoReleases(run) && (calm ==> NoEvicts(run))
  }

  /** Without a further eviction nobody will claim the buffer being read: a claim stands that
      nobody may publish, or nobody holds the grant and the one claim that may still be made,
      by a producer that had it before, gets another buffer or has nobody to make it. */
  predicate OutOfReach(y: Sys) {
    || (y.ring.clientLocked != -1 && y.drawing == -1)
    || (!y.holder && (FreeBuffer(y.ring) != y.reading || y.others == 0))
  }

  /** No producer is in the buffer being read, and none can get there: claims never reach it,
      or it is locked or out of reach, and both stay so. */
  predicate Shielded(y: Sys, calm: bool) {
    && y.reading !in y.stale && y.reading != y.drawing
    && (y.reading >= 2 || (calm && (y.ring.serverLocked == y.reading || OutOfReach(y))))
  }

  /** What a claim gets depends on two indices alone. */
  lemma {:induction false} SameFreeBuffer(a: RingState, b: RingState, from: nat)
    requires from <= |a.frames| == |b.frames| && a.latestReady == b.latestReady && a.serverLocked == b.serverLocked
    ensures FreeBuffer(a, from) == FreeBuffer(b, from)
    decreases |a.frames| - from
  {
    if from < |a.frames| { SameFreeBuffer(a, b, from + 1); }
  }

  lemma SameClaims(y: Sys, z: Sys)
    requires |y.ring.frames| == |z.ring.frames|
    ensures y.ring.latestReady == z.ring.latestReady && y.ring.serverLocked == z.ring.serverLocked
            ==> FreeBuffer(y.ring) == FreeBuffer(z.ring)
  {
    if y.ring.latestReady == z.ring.latestReady && y.ring.serverLocked == z.ring.serverLocked {
      SameFreeBuffer(y.ring, z.ring, 0);
    }
  }

  lemma ShieldedStep(y: Sys, a: Action, calm: bool)
    requires Sound(y) && y.reading >= 0 && Shielded(y, calm)
    requires Can(y, a) && !a.Releases? && (calm ==> !a.Evicts?)
    ensures Fits(a, y.ring.frames[y.reading])
    ensures Shielded(Do(y, a), calm) && Do(y, a).reading == y.reading
    ensures Buffer(Do(y, a), y.reading) && Do(y, a).ring.frames[y.reading] == y.ring.frames[y.reading]
  {
    if a.Claim? || a.StaleClaim? { ClaimIsFree(y.ring); }
    SameClaims(y, Do(y, a));
  }

  lemma {:induction false} ShieldedRun(y: Sys, run: seq<Action>, calm: bool)
    requires Sound(y) && y.reading >= 0 && Shielded(y, calm) && Course(y, run, calm)
    ensures Sees(run, y.ring.frames[y.reading])
    decreases |run|
  {
    if run != [] {
      ShieldedStep(y, run[0], calm);
      StepSound(y, run[0]);
      ShieldedRun(Do(y, run[0]), run[1..], calm);
    }
  }

  /** Some way of going on shows the reader something not of frame f. */
  ghost predicate Torn(y: Sys, f: Frame, calm: bool) {
    exists run :: Course(y, run, calm) && !Sees(run, f)
  }

  lemma TornBy(y: Sys, f: Frame, calm: bool, a: Action)
    requires Can(y, a) && !a.Releases? && (calm ==> !a.Evicts?)
    requires !Fits(a, f) || Torn(Do(y, a), f, calm)
    ensures Torn(y, f, calm)
  {
    if !Fits(a, f) {
      assert LegalRun(Do(y, a), [a][1..]);
      assert Course(y, [a], calm) && !Sees([a], f);
    } else {
      var rest :| Course(Do(y, a), rest, calm) && !Sees(rest, f);
      var run := [a] + rest;
      assert run[1..] == rest;
      var k :| 0 <= k < |rest| && !Fits(rest[k], f);
      assert run[k + 1] == rest[k];
      assert Course(y, run, calm) && !Sees(run, f);
    }
  }

  lemma ProducerInBufferTears(y: Sys, f: Frame, calm: bool)
    requires Sound(y) && y.reading >= 0 && (y.reading in y.stale || y.drawing == y.reading) && HasPixels(y.ring.frames)
    ensures Torn(y, f, calm)
  {
    var value := if f.pixels != [] && f.pixels[0] == 0 then 1 else 0;
    var draw := if y.reading in y.stale then StaleDraw(y.reading, 0, value) else Draw(0, value);
    TornBy(Do(y, draw), f, calm, SeePixel(0, value));
    TornBy(y, f, calm, draw);
  }

  /** Without its lock, buffer 0 or 1 is claimed in at most two turns. */
  lemma UnlockedTears(y: Sys, f: Frame, calm: bool)
    requires Sound(y) && Claimable(y) && 0 <= y.reading < 2 && y.ring.serverLocked == -1
    ensures Torn(y, f, calm)
  {
    assert Free(y.ring, 0) || Free(y.ring, 1);
    var y1 := Do(y, Claim);
    StepSound(y, Claim);
    if y1.drawing == y.reading {
      ProducerInBufferTears(y1, f, calm);
    } else {
      var publish := Publishes(y1.ring.frames[y1.drawing]);
      var y2 := Do(y1, publish);
      StepSound(y1, publish);
      assert Free(y2.ring, y.reading) && !Free(y2.ring, 1 - y.reading);
      StepSound(y2, Claim);
      ProducerInBufferTears(Do(y2, Claim), f, calm);
      TornBy(y2, f, calm, Claim);
      TornBy(y1, f, calm, publish);
    }
    TornBy(y, f, calm, Claim);
  }

  /** A producer without the grant, once idle, makes the claim that gets the buffer being read. */
  lemma AnybodyClaimsTears(y: Sys, f: Frame, calm: bool)
    requires Sound(y) && y.reading >= 0 && y.others > 0 && HasPixels(y.ring.frames)
    requires y.ring.clientLocked == -1 && FreeBuffer(y.ring) == y.reading
    ensures Torn(y, f, calm)
    decreases |y.stale|
  {
    if SomebodyIdle(y) {
      StepSound(y, StaleClaim);
      ProducerInBufferTears(Do(y, StaleClaim), f, calm);
      TornBy(y, f, calm, StaleClaim);
    } else {
      var d := SomeStaleBuffer(y);
      StepSound(y, StaleRefused(d));
      AnybodyClaimsTears(Do(y, StaleRefused(d)), f, calm);
      TornBy(y, f, calm, StaleRefused(d));
    }
  }

  lemma UnshieldedTears(y: Sys, f: Frame, calm: bool)
    requires Sound(y) && y.reading >= 0 && !Shielded(y, calm) && HasPixels(y.ring.frames)
    ensures Torn(y, f, calm)
  {
    if y.reading in y.stale || y.drawing == y.reading {
      ProducerInBufferTears(y, f, calm);
    } else if !calm {
      StepSound(y, Evicts(ToNewcomer));
      UnlockedTears(Do(y, Evicts(ToNewcomer)), f, calm);
      TornBy(y, f, calm, Evicts(ToNewcomer));
    } else if !y.holder {
      AnybodyClaimsTears(y, f, calm);
    } else if y.drawing == -1 {
      UnlockedTears(y, f, calm);
    } else {
      var publish := Publishes(y.ring.frames[y.drawing]);
      StepSound(y, publish);
      UnlockedTears(Do(y, publish), f, calm);
      TornBy(y, f, calm, publish);
    }
  }

  /** At any point of any run, whatever evictions it has seen: the frame being read survives
      every way of going on until its release, with or without further evictions, if and
      only if no producer, with or without the grant, is in its buffer and either the buffer
      is not 0 or 1, or no further eviction comes and it is still locked or out of reach. */
  lemma FrameSurvivesExactly(frames: seq<Frame>, before: seq<Action>, calm: bool)
    requires |frames| >= 3 && HasPixels(frames) && LegalRun(Start(frames), before) && Exec(Start(frames), before).reading >= 0
    ensures Sound(Exec(Start(frames), before))
    ensures var y := Exec(Start(frames), before);
            (forall run :: Course(y, run, calm) ==> Sees(run, y.ring.frames[y.reading])) <==> Shielded(y, calm)
  {
    RunSound(Start(frames), before);
    PixelsStay(Start(frames), before);
    var y := Exec(Start(frames), before);
    if Shielded(y, calm) {
      forall run | Course(y, run, calm) ensures Sees(run, y.ring.frames[y.reading]) { ShieldedRun(y, run, calm); }
    } else {
      UnshieldedTears(y, y.ring.frames[y.reading], calm);
    }
  }

  // Two runs from the start that no register could show.

  /** The run is legal, leads to y, and is what a register now at r would show. */
  ghost predicate At(frames: seq<Frame>, run: seq<Action>, y: Sys, r: Option<Register>) {
    LegalRun(Start(frames), run) && Exec(Start(frames), run) == y && ObserveAll(EMPTY, run) == r
  }

  lemma {:induction false} OneMore(y: Sys, r: Register, run: seq<Action>, a: Action)
    requires LegalRun(y, run) && Can(Exec(y, run), a) && ObserveAll(r, run).Some?
    ensures LegalRun(y, run + [a]) && Exec(y, run + [a]) == Do(Exec(y, run), a)
    ensures ObserveAll(r, run + [a]) == Observe(ObserveAll(r, run).value, a)
    decreases |run|
  {
    if run == [] {
      assert [a][1..] == [] && run + [a] == [a];
      assert LegalRun(Do(y, a), []);
    } else {
      OneMore(Do(y, run[0]), Observe(r, run[0]).value, run[1..], a);
      assert (run + [a])[1..] == run[1..] + [a];
    }
  }

  lemma AtNext(frames: seq<Frame>, run: seq<Action>, y: Sys, r: Register, a: Action)
    requires At(frames, run, y, Some(r)) && Can(y, a)
    ensures At(frames, run + [a], Do(y, a), Observe(r, a))
  {
    OneMore(Start(frames), EMPTY, run, a);
  }

  lemma Step(frames: seq<Frame>, run: seq<Action>, y: Sys, r: Register, a: Action) returns (y1: Sys, r1: Register)
    requires At(frames, run, y, Some(r)) && Can(y, a) && Observe(r, a).Some?
    ensures y1 == Do(y, a) && r1 == Observe(r, a).value
    ensures At(frames, run + [a], y1, Some(r1))
  {
    y1, r1 := Do(y, a), Observe(r, a).value;
    AtNext(frames, run, y, r, a);
  }

  lemma ReaderOfBufferOne(frames: seq<Frame>)
    requires |frames| >= 3
    ensures At(frames, [Evicts(ToNewcomer), Claim, Publishes(frames[0]), Claim, Publishes(frames[1]), Checkouts(true)],
               Sys(RingState(1, 1, -1, 1, frames), true, -1, 1, 0, multiset{}), Some(Register(Some(frames[1]), Some(frames[1]), BLANK)))
  {
    var y0, r0 := Start(frames), EMPTY;
    assert At(frames, [], y0, Some(r0));
    var yg, rg := Step(frames, [], y0, r0, Evicts(ToNewcomer));
    var run := [] + [Evicts(ToNewcomer)];
    var y1, r1 := Step(frames, run, yg, rg, Claim);
    var y2, r2 := Step(frames, run + [Claim], y1, r1, Publishes(frames[0]));
    run := run + [Claim] + [Publishes(frames[0])];
    assert Free(y2.ring, 1) && !Free(y2.ring, 0);
    var y3, r3 := Step(frames, run, y2, r2, Claim);
    var y4, r4 := Step(frames, run + [Claim], y3, r3, Publishes(frames[1]));
    run := run + [Claim] + [Publishes(frames[1])];
    AtNext(frames, run, y4, r4, Checkouts(true));
    assert run + [Checkouts(true)] == [Evicts(ToNewcomer), Claim, Publishes(frames[0]), Claim, Publishes(frames[1]), Checkouts(true)];
  }

  /** The reader is in buffer 1; the second claim after the eviction gets it too. */
  lemma TornReadRun(frames: seq<Frame>)
    requires |frames| >= 3
    ensures var id := frames[1].id + 1;
            var run := [Evicts(ToNewcomer), Claim, Publishes(frames[0]), Claim, Publishes(frames[1]), Checkouts(true)]
                       + [Evicts(ToNewcomer), Claim, Publishes(frames[0]), Claim, StampId(id), SeeId(id)];
            LegalRun(Start(frames), run) && ObserveAll(EMPTY, run).None?
  {
    var f0, f1, id := frames[0], frames[1], frames[1].id + 1;
    var shown := [Evicts(ToNewcomer), Claim, Publishes(f0), Claim, Publishes(f1), Checkouts(true)];
    ReaderOfBufferOne(frames);
    var y5, r5 := Sys(RingState(1, 1, -1, 1, frames), true, -1, 1, 0, multiset{}), Register(Some(f1), Some(f1), BLANK);
    var y6, r6 := Step(frames, shown, y5, r5, Evicts(ToNewcomer));
    var y7, r7 := Step(frames, shown + [Evicts(ToNewcomer)], y6, r6, Claim);
    var run := shown + [Evicts(ToNewcomer)] + [Claim];
    var y8, r8 := Step(frames, run, y7, r7, Publishes(f0));
    assert Free(y8.ring, 1) && !Free(y8.ring, 0);
    var y9, r9 := Step(frames, run + [Publishes(f0)], y8, r8, Claim);
    run := run + [Publishes(f0)] + [Claim];
    var y10, r10 := Step(frames, run, y9, r9, StampId(id));
    AtNext(frames, run + [StampId(id)], y10, r10, SeeId(id));
    assert run + [StampId(id)] + [SeeId(id)] == shown + [Evicts(ToNewcomer), Claim, Publishes(f0), Claim, StampId(id), SeeId(id)];
  }

  lemma TwoInBufferZero(frames: seq<Frame>)
    requires |frames| >= 3
    ensures At(frames, [Evicts(ToNewcomer), Claim, Evicts(ToNewcomer), Claim],
               Sys(RingState(-1, -1, 0, 2, frames), true, 0, -1, 1, multiset{0}), Some(EMPTY))
  {
    var y0, r0 := Start(frames), EMPTY;
    assert At(frames, [], y0, Some(r0));
    var y1, r1 := Step(frames, [], y0, r0, Evicts(ToNewcomer));
    var run := [] + [Evicts(ToNewcomer)];
    var y2, r2 := Step(frames, run, y1, r1, Claim);
    var y3, r3 := Step(frames, run + [Claim], y2, r2, Evicts(ToNewcomer));
    run := run + [Claim] + [Evicts(ToNewcomer)];
    AtNext(frames, run, y3, r3, Claim);
    assert run + [Claim] == [Evicts(ToNewcomer), Claim, Evicts(ToNewcomer), Claim];
  }

  /** A producer evicted while drawing buffer 0 goes on; its successor claims buffer 0 and
      publishes a frame with the other's pixel. */
  lemma MixedFrameRun(frames: seq<Frame>)
    requires |frames| >= 3 && frames[0].pixels != []
    ensures var mixed := frames[0].(pixels := frames[0].pixels[0 := 1]);
            var run := [Evicts(ToNewcomer), Claim, Evicts(ToNewcomer), Claim] + [Draw(0, 0), StaleDraw(0, 0, 1), Publishes(mixed)];
            LegalRun(Start(frames), run) && ObserveAll(EMPTY, run).None?
  {
    var pixels := frames[0].pixels;
    var mixed := frames[0].(pixels := pixels[0 := 1]);
    assert pixels[0 := 0][0 := 1] == pixels[0 := 1];
    var shared := [Evicts(ToNewcomer), Claim, Evicts(ToNewcomer), Claim];
    TwoInBufferZero(frames);
    var y4, r4 := Sys(RingState(-1, -1, 0, 2, frames), true, 0, -1, 1, multiset{0}), EMPTY;
    var y5, r5 := Step(frames, shared, y4, r4, Draw(0, 0));
    var y6, r6 := Step(frames, shared + [Draw(0, 0)], y5, r5, StaleDraw(0, 0, 1));
    assert 0 in r6.draft.pixels && r6.draft.pixels[0] == 0;
    AtNext(frames, shared + [Draw(0, 0)] + [StaleDraw(0, 0, 1)], y6, r6, Publishes(mixed));
    assert shared + [Draw(0, 0)] + [StaleDraw(0, 0, 1)] + [Publishes(mixed)]
        == shared + [Draw(0, 0), StaleDraw(0, 0, 1), Publishes(mixed)];
  }
}
