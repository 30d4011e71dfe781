/** Clock readings and the millisecond arithmetic the server performs on them.

    The two timer checks of the poll loop subtract seconds and nanoseconds separately
    and divide the nanosecond difference with C's `/`, which truncates toward zero.
    This module says exactly when the checks fire in terms of the true gap. */
module Timespecs {

  const NS_PER_S := 1_000_000_000
  const NS_PER_MS := 1_000_000
  const HEARTBEAT_TIMEOUT_MS := 1000
  const EVICT_GRACE_MS := 1000

  datatype Timespec = Timespec(sec: int, nsec: int)

  predicate Normalised(t: Timespec) {
    0 <= t.nsec < NS_PER_S
  }

  /** The instant in nanoseconds. */
  function Nanos(t: Timespec): int {
    t.sec * NS_PER_S + t.nsec
  }

  /** C's integer division: truncates toward zero. */
  function TruncDiv(a: int, b: int): int
    requires b > 0
  {
    if a >= 0 then a / b else -((-a) / b)
  }

  function ElapsedMs(now: Timespec, since: Timespec): int {
    (now.sec - since.sec) * 1000 + TruncDiv(now.nsec - since.nsec, NS_PER_MS)
  }

  predicate Earlier(a: Timespec, b: Timespec) {
    if a.sec != b.sec then a.sec < b.sec else a.nsec < b.nsec
  }

  predicate HeartbeatExpired(now: Timespec, last: Timespec) {
    ElapsedMs(now, last) > HEARTBEAT_TIMEOUT_MS
  }

  predicate GraceElapsed(now: Timespec, deadline: Timespec) {
    ElapsedMs(now, deadline) >= 0
  }

  /** The eviction deadline, with the carry written out as begin_eviction does. */
  function AddMillis(t: Timespec, ms: nat): Timespec {
    var sec := t.sec + ms / 1000;
    var nsec := t.nsec + (ms % 1000) * NS_PER_MS;
    if nsec >= NS_PER_S then Timespec(sec + 1, nsec - NS_PER_S) else Timespec(sec, nsec)
  }

  /** The order used for queueing is the order of instants. */
  lemma EarlierIsByInstant(a: Timespec, b: Timespec)
    requires Normalised(a) && Normalised(b)
    ensures Earlier(a, b) <==> Nanos(a) < Nanos(b)
    ensures a == b <==> Nanos(a) == Nanos(b)
  {
    if a.sec < b.sec {
      assert (b.sec - a.sec) * NS_PER_S >= NS_PER_S;
    } else if b.sec < a.sec {
      assert (a.sec - b.sec) * NS_PER_S >= NS_PER_S;
    }
  }

  /** When the liveness check fires: a whole millisecond above the limit if the
      nanosecond field did not go backwards, any excess at all if it did. */
  lemma HeartbeatExpiredExactly(now: Timespec, last: Timespec)
    requires Normalised(now) && Normalised(last)
    ensures var gap := Nanos(now) - Nanos(last);
            HeartbeatExpired(now, last) <==>
            if now.nsec >= last.nsec then gap >= (HEARTBEAT_TIMEOUT_MS + 1) * NS_PER_MS
            else gap > HEARTBEAT_TIMEOUT_MS * NS_PER_MS
  {
    var d := now.nsec - last.nsec;
    assert Nanos(now) - Nanos(last) == (now.sec - last.sec) * NS_PER_S + d;
  }

  /** The promise in plain terms: a gap up to the limit never times a client out, a gap
      one millisecond above it always does. */
  lemma HeartbeatWindow(now: Timespec, last: Timespec)
    requires Normalised(now) && Normalised(last)
    ensures Nanos(now) - Nanos(last) <= 1000 * 1_000_000 ==> !HeartbeatExpired(now, last)
    ensures Nanos(now) - Nanos(last) >= 1001 * 1_000_000 ==> HeartbeatExpired(now, last)
  {
    HeartbeatExpiredExactly(now, last);
  }

  /** The grace check never waits past the deadline; because of truncation it can fire
      early, by strictly less than one millisecond, and only when the nanosecond field
      is behind the deadline's. */
  lemma GraceElapsedExactly(now: Timespec, deadline: Timespec)
    requires Normalised(now) && Normalised(deadline)
    ensures var late := Nanos(now) - Nanos(deadline);
            GraceElapsed(now, deadline) <==>
            late >= 0 || (now.nsec < deadline.nsec && late > -NS_PER_MS)
  {
    var d := now.nsec - deadline.nsec;
    assert Nanos(now) - Nanos(deadline) == (now.sec - deadline.sec) * NS_PER_S + d;
  }

  /** The deadline is normalised and exactly the grace period after its start. */
  lemma DeadlineExact(start: Timespec, ms: nat)
    requires Normalised(start)
    ensures Normalised(AddMillis(start, ms))
    ensures Nanos(AddMillis(start, ms)) == Nanos(start) + ms * NS_PER_MS
  {
    assert ms == ms / 1000 * 1000 + ms % 1000;
  }

  /** An eviction is never forced more than a millisecond before its grace period has
      passed, and never survives a check made at or after it. */
  lemma GraceWindow(start: Timespec, now: Timespec)
    requires Normalised(start) && Normalised(now)
    ensures Nanos(now) - Nanos(start) >= 1000 * 1_000_000
            ==> GraceElapsed(now, AddMillis(start, EVICT_GRACE_MS))
    ensures Nanos(now) - Nanos(start) <= 999 * 1_000_000
            ==> !GraceElapsed(now, AddMillis(start, EVICT_GRACE_MS))
  {
    DeadlineExact(start, EVICT_GRACE_MS);
    GraceElapsedExactly(now, AddMillis(start, EVICT_GRACE_MS));
  }
}
