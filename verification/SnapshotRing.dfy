/** The file sink's ring of numbered snapshots: it remembers the last `max` paths, removes
    older files, and owns one duplicated string per path it remembers. */
module SnapshotRing {

  /** A recorded path and the allocation that holds it: the i-th strdup() is number i. */
  datatype Snapshot = Snapshot(id: nat, path: string)

  function Ids(s: seq<Snapshot>): seq<nat> {
    seq(|s|, i requires 0 <= i < |s| => s[i].id)
  }

  function Paths(s: seq<Snapshot>): seq<string> {
    seq(|s|, i requires 0 <= i < |s| => s[i].path)
  }

  /** The last k elements, all of them if there are fewer. */
  function Last<T>(s: seq<T>, k: nat): seq<T> {
    if |s| <= k then s else s[|s| - k..]
  }

  function AllButLast<T>(s: seq<T>, k: nat): seq<T> {
    if |s| <= k then [] else s[..|s| - k]
  }

  /** What a ring with these fields holds, oldest first. */
  function Contents<T>(slots: seq<T>, head: nat, count: nat): seq<T>
    requires head <= |slots| && count <= |slots|
  {
    if count < |slots| then slots[..count] else slots[head..] + slots[..head]
  }

  /** Overwriting the oldest entry of a full ring and moving on drops it and appends. */
  lemma Overwrite<T>(slots: seq<T>, head: nat, x: T)
    requires head < |slots|
    ensures Contents(slots, head, |slots|)[0] == slots[head]
    ensures Contents(slots[head := x], (head + 1) % |slots|, |slots|) == Contents(slots, head, |slots|)[1..] + [x]
  {
    if head + 1 == |slots| {
      assert (head + 1) % |slots| == 0;
    } else {
      assert (head + 1) % |slots| == head + 1;
    }
  }

  lemma Fill<T>(slots: seq<T>, count: nat, x: T)
    requires count < |slots|
    ensures Contents(slots[count := x], 0, count + 1) == Contents(slots, 0, count) + [x]
  {}

  lemma LastSlides<T>(s: seq<T>, x: T, k: nat)
    requires 0 < k <= |s|
    ensures Last(s + [x], k) == Last(s, k)[1..] + [x]
    ensures AllButLast(s + [x], k) == AllButLast(s, k) + [Last(s, k)[0]]
  {}

  lemma LastGrows<T>(s: seq<T>, x: T, k: nat)
    requires |s| < k
    ensures Last(s + [x], k) == Last(s, k) + [x]
    ensures AllButLast(s + [x], k) == AllButLast(s, k) == []
  {}

  predicate Numbered(s: seq<Snapshot>) {
    forall i :: 0 <= i < |s| ==> s[i].id == i
  }

  /** The ring's books after `recorded`: the last ones held, the others removed and freed. */
  ghost predicate Books(slots: seq<Snapshot>, head: nat, count: nat, removed: seq<string>, freed: seq<nat>, recorded: seq<Snapshot>) {
    var max := |slots|;
    && count <= max && head <= max && (max > 0 ==> head < max) && (count < max ==> head == 0)
    && (max == 0 ==> recorded == [])
    && Numbered(recorded)
    && Contents(slots, head, count) == Last(recorded, max)
    && removed == Paths(AllButLast(recorded, max))
    && freed == Ids(AllButLast(recorded, max))
  }

  lemma RecordFull(slots: seq<Snapshot>, head: nat, removed: seq<string>, freed: seq<nat>, recorded: seq<Snapshot>, path: string)
    requires Books(slots, head, |slots|, removed, freed, recorded) && |slots| > 0
    ensures var entry := Snapshot(|recorded|, path);
            && |freed| + |slots| == |recorded|
            && slots[head] == recorded[|recorded| - |slots|]
            && Books(slots[head := entry], (head + 1) % |slots|, |slots|,
                     removed + [slots[head].path], freed + [slots[head].id], recorded + [entry])
  {
    var entry := Snapshot(|recorded|, path);
    Overwrite(slots, head, entry);
    LastSlides(recorded, entry, |slots|);
  }

  lemma RecordRoom(slots: seq<Snapshot>, head: nat, count: nat, removed: seq<string>, freed: seq<nat>, recorded: seq<Snapshot>, path: string)
    requires Books(slots, head, count, removed, freed, recorded) && count < |slots|
    ensures var entry := Snapshot(|recorded|, path);
            && |freed| + count == |recorded|
            && Books(slots[count := entry], head, count + 1, removed, freed, recorded + [entry])
  {
    var entry := Snapshot(|recorded|, path);
    Fill(slots, count, entry);
    LastGrows(recorded, entry, |slots|);
  }

  /** What write_ppm() did to a snapshot file: it could not be opened, it was opened but not
      written out, or it was written. */
  datatype Outcome = NotOpened | CutShort | Written

  /** A snapshot file that came about: recorded in the ring, or left behind by a failed write. */
  datatype Write = Recorded(path: string) | Leftover(path: string)

  /** The paths recorded, in order. */
  function RecordedPaths(log: seq<Write>): seq<string>
    decreases |log|
  {
    if log == [] then []
    else
      var n := |log| - 1;
      RecordedPaths(log[..n]) + if log[n].Recorded? then [log[n].path] else []
  }

  /** The snapshot files that exist after these writes. A recorded file is written first, and
      then the file of the oldest path is removed if the ring of k was full. */
  function OnDisk(log: seq<Write>, k: nat): set<string>
    decreases |log|
  {
    if log == [] then {}
    else
      var n := |log| - 1;
      var earlier := RecordedPaths(log[..n]);
      var written := OnDisk(log[..n], k) + {log[n].path};
      if log[n].Recorded? && 0 < k <= |earlier| then written - {earlier[|earlier| - k]} else written
  }

  ghost function Elements<T(!new)>(s: seq<T>): set<T> {
    set i | 0 <= i < |s| :: s[i]
  }

  /** A path comes back while its earlier file is still among the k kept, or in the very
      step that drops it. */
  ghost predicate NameReused(paths: seq<string>, k: nat) {
    exists i, j :: 0 <= i < j < |paths| && j <= i + k < |paths| && paths[i] == paths[j]
  }

  /** A failed write leaves a file that is not among the k kept. */
  ghost predicate Strays(log: seq<Write>, k: nat) {
    exists m :: 0 <= m < |log| && StraysAt(log, k, m)
  }

  ghost predicate StraysAt(log: seq<Write>, k: nat, m: nat)
    requires m < |log|
  {
    log[m].Leftover? && log[m].path !in Elements(Last(RecordedPaths(log[..m]), k))
  }

  ghost predicate FilesMatch(log: seq<Write>, k: nat) {
    OnDisk(log, k) == Elements(Last(RecordedPaths(log), k))
  }

  /** The files matched after every write so far. */
  ghost predicate Faithful(log: seq<Write>, k: nat)
    decreases |log|
  {
    FilesMatch(log, k) && (log != [] ==> Faithful(log[..|log| - 1], k))
  }

  /** The files on disk are always those of the last k paths recorded, exactly when no name is
      reused within k and no failed write leaves a file under another name. (Frame numbers are
      each client's own, so names can come back.) */
  lemma {:induction false} FilesAreTheLastExactly(log: seq<Write>, k: nat)
    requires k > 0
    ensures Faithful(log, k) <==> !NameReused(RecordedPaths(log), k) && !Strays(log, k)
    decreases |log|
  {
    if log == [] { return; }
    var n := |log| - 1;
    var before := log[..n];
    FilesAreTheLastExactly(before, k);
    StraysStep(log, k);
    if log[n].Recorded? {
      var paths := RecordedPaths(log);
      assert paths[..|paths| - 1] == RecordedPaths(before);
      ReusedStep(paths, k);
      if Faithful(before, k) { RecordOneFile(log, k); }
    } else {
      assert RecordedPaths(log) == RecordedPaths(before);
      if Faithful(before, k) { assert FilesMatch(before, k); }
    }
  }

  lemma StraysStep(log: seq<Write>, k: nat)
    requires log != []
    ensures Strays(log, k) <==> Strays(log[..|log| - 1], k) || StraysAt(log, k, |log| - 1)
  {
    var before := log[..|log| - 1];
    forall m: nat | m < |before| ensures StraysAt(log, k, m) <==> StraysAt(before, k, m) {
      assert log[..m] == before[..m];
    }
  }

  /** The path recorded max steps ago has a namesake among the newer ones. */
  ghost predicate OldestReused(paths: seq<string>, k: nat)
    requires paths != []
  {
    var oldest := |paths| - 1 - k;
    oldest >= 0 && exists j :: oldest < j < |paths| && paths[j] == paths[oldest]
  }

  lemma ReusedStep(paths: seq<string>, k: nat)
    requires paths != []
    ensures NameReused(paths, k) <==> NameReused(paths[..|paths| - 1], k) || OldestReused(paths, k)
  {
    var n := |paths| - 1;
    var before := paths[..n];
    if NameReused(before, k) {
      var i, j :| 0 <= i < j < |before| && j <= i + k < |before| && before[i] == before[j];
      assert paths[i] == paths[j];
    }
    if NameReused(paths, k) && !OldestReused(paths, k) {
      var i, j :| 0 <= i < j < |paths| && j <= i + k < |paths| && paths[i] == paths[j];
      assert i + k < n;
      assert before[i] == before[j];
    }
  }

  /** One more path: the oldest file goes, and with it any newer one of the same name. */
  lemma RecordOneFile(log: seq<Write>, k: nat)
    requires k > 0 && log != [] && log[|log| - 1].Recorded? && FilesMatch(log[..|log| - 1], k)
    ensures RecordedPaths(log) != []
    ensures FilesMatch(log, k) <==> !OldestReused(RecordedPaths(log), k)
  {
    var earlier, x := RecordedPaths(log[..|log| - 1]), log[|log| - 1].path;
    WindowSlides(earlier, x, k);
    OldestInWindow(earlier, x, k);
  }

  lemma OldestInWindow(earlier: seq<string>, x: string, k: nat)
    requires k > 0
    ensures OldestReused(earlier + [x], k) <==>
            |earlier| >= k && earlier[|earlier| - k] in Elements(Last(earlier + [x], k))
  {
    var n, paths := |earlier|, earlier + [x];
    if n >= k {
      var now := Last(paths, k);
      assert forall j :: n - k < j < |paths| ==> paths[j] == now[j - (n - k) - 1];
      assert forall j :: 0 <= j < k ==> now[j] == paths[j + (n - k) + 1];
    }
  }

  lemma WindowSlides(s: seq<string>, x: string, k: nat)
    requires k > 0
    ensures Elements(Last(s, k)) + {x} ==
            Elements(Last(s + [x], k)) + if |s| < k then {} else {s[|s| - k]}
  {
    var was, now := Last(s, k), Last(s + [x], k);
    ElementsAppend(was, [x]);
    if |s| < k {
      assert was + [x] == now;
    } else {
      ElementsAppend([s[|s| - k]], now);
      assert was + [x] == [s[|s| - k]] + now;
    }
  }

  lemma ElementsAppend<T(!new)>(s: seq<T>, t: seq<T>)
    ensures Elements(s + t) == Elements(s) + Elements(t)
    ensures |s| == 1 ==> Elements(s) == {s[0]}
    ensures |t| == 1 ==> Elements(t) == {t[0]}
  {
    forall x | x in Elements(t) ensures x in Elements(s + t) {
      var i :| 0 <= i < |t| && t[i] == x;
      assert (s + t)[|s| + i] == x;
    }
    forall x | x in Elements(s) ensures x in Elements(s + t) {
      var i :| 0 <= i < |s| && s[i] == x;
      assert (s + t)[i] == x;
    }
  }

  lemma LogLeftover(log: seq<Write>, path: string, k: nat)
    ensures OnDisk(log + [Leftover(path)], k) == OnDisk(log, k) + {path}
    ensures RecordedPaths(log + [Leftover(path)]) == RecordedPaths(log)
  {
    assert (log + [Leftover(path)])[..|log|] == log;
  }

  lemma LogRecord(log: seq<Write>, recorded: seq<Snapshot>, entry: Snapshot, k: nat)
    requires k > 0 ==> RecordedPaths(log) == Paths(recorded)
    ensures OnDisk(log + [Recorded(entry.path)], k) == OnDisk(log, k) + {entry.path}
              - if 0 < k <= |recorded| then {recorded[|recorded| - k].path} else {}
    ensures k > 0 ==> RecordedPaths(log + [Recorded(entry.path)]) == Paths(recorded + [entry])
  {
    assert (log + [Recorded(entry.path)])[..|log|] == log;
  }

  /** The snapshot files in the output directory. */
  class Disk {
    var files: set<string>
    ghost var log: seq<Write>

    constructor ()
      ensures files == {} && log == []
    {
      files, log := {}, [];
    }

    method Create(w: Write)
      modifies this
      ensures files == old(files) + {w.path} && log == old(log) + [w]
    {
      files, log := files + {w.path}, log + [w];
    }

    method Remove(path: string)
      modifies this
      ensures files == old(files) - {path} && log == old(log)
    {
      files := files - {path};
    }
  }

  class FileSink {
    const disk: Disk
    const max: nat
    const interval: nat
    const slots: array<Snapshot>
    var blitCount: nat
    var head: nat
    var count: nat
    var removed: seq<string>
    var freed: seq<nat>
    ghost var recorded: seq<Snapshot>

    ghost predicate Valid()
      reads this, slots
    {
      slots.Length == max && Books(slots[..], head, count, removed, freed, recorded)
    }

    /** The files on disk are those OnDisk() says, for the writes made so far. */
    ghost predicate DiskKnown()
      reads this, disk
    {
      disk.files == OnDisk(disk.log, max) && (max > 0 ==> RecordedPaths(disk.log) == Paths(recorded))
    }

    constructor (max: nat, interval: nat)
      ensures Valid() && DiskKnown() && fresh(slots) && fresh(disk) && recorded == [] && this.max == max && this.interval == interval
    {
      this.max, this.interval := max, interval;
      slots := new Snapshot[max](_ => Snapshot(0, ""));
      blitCount, head, count := 0, 0, 0;
      removed, freed, recorded := [], [], [];
      disk := new Disk();
    }

    /** file_snapshot_record(): afterwards the ring holds the last `max` paths recorded, in
        order; every older file has been removed and its string freed, once. */
    method Record(path: string)
      requires Valid()
      modifies this, slots, disk
      ensures Valid() && blitCount == old(blitCount) && disk.log == old(disk.log)
      ensures recorded == if max == 0 then [] else old(recorded) + [Snapshot(|old(recorded)|, path)]
      ensures max > 0 ==> Contents(slots[..], head, count) == Last(recorded, max)
      ensures removed == Paths(AllButLast(recorded, max)) && freed == Ids(AllButLast(recorded, max))
      ensures disk.files == old(disk.files) - if 0 < max <= |old(recorded)| then {old(recorded)[|old(recorded)| - max].path} else {}
    {
      if max == 0 { return; }
      if count == max { ReplaceOldest(path); } else { Append(path); }
    }

    method ReplaceOldest(path: string)
      requires Valid() && count == max > 0
      modifies this, slots, disk
      ensures Valid() && blitCount == old(blitCount) && disk.log == old(disk.log)
      ensures |old(recorded)| >= max && recorded == old(recorded) + [Snapshot(|old(recorded)|, path)]
      ensures disk.files == old(disk.files) - {old(recorded)[|old(recorded)| - max].path}
    {
      var entry := Snapshot(count + |freed|, path);
      RecordFull(slots[..], head, removed, freed, recorded, path);
      removed := removed + [slots[head].path];
      disk.Remove(slots[head].path);
      freed := freed + [slots[head].id];
      slots[head] := entry;
      head := (head + 1) % max;
      recorded := recorded + [entry];
    }

    method Append(path: string)
      requires Valid() && count < max
      modifies this, slots
      ensures Valid() && blitCount == old(blitCount)
      ensures |old(recorded)| < max && recorded == old(recorded) + [Snapshot(|old(recorded)|, path)]
    {
      var entry := Snapshot(count + |freed|, path);
      RecordRoom(slots[..], head, count, removed, freed, recorded, path);
      slots[count] := entry;
      count := count + 1;
      recorded := recorded + [entry];
    }

    /** The numbered file of one frame. */
    method TakeSnapshot(path: string, snapshot: Outcome)
      requires Valid() && DiskKnown()
      modifies this, slots, disk
      ensures Valid() && DiskKnown() && blitCount == old(blitCount)
      ensures disk.log == old(disk.log) + match snapshot
                                case NotOpened => []
                                case CutShort => [Leftover(path)]
                                case Written => [Recorded(path)]
      ensures recorded == if snapshot.Written? && max > 0
                          then old(recorded) + [Snapshot(|old(recorded)|, path)] else old(recorded)
    {
      match snapshot
      case NotOpened =>
      case CutShort =>
        LogLeftover(disk.log, path, max);
        disk.Create(Leftover(path));
      case Written =>
        LogRecord(disk.log, recorded, Snapshot(|recorded|, path), max);
        disk.Create(Recorded(path));
        Record(path);
    }

    /** The bookkeeping of file_blit(): a snapshot is recorded on every interval-th frame
        whose files could be written. */
    method Blit(path: string, latestOk: bool, snapshot: Outcome) returns (ok: bool)
      requires Valid() && DiskKnown()
      modifies this, slots, disk
      ensures Valid() && DiskKnown() && ok == latestOk
      ensures blitCount == old(blitCount) + (if latestOk then 1 else 0)
      ensures disk.log == old(disk.log) + (if latestOk && interval > 0 && blitCount % interval == 0
                                 then match snapshot
                                   case NotOpened => []
                                   case CutShort => [Leftover(path)]
                                   case Written => [Recorded(path)]
                                 else [])
      ensures recorded ==
              if latestOk && interval > 0 && blitCount % interval == 0 && snapshot.Written? && max > 0
              then old(recorded) + [Snapshot(|old(recorded)|, path)] else old(recorded)
    {
      if !latestOk { return false; }
      blitCount := blitCount + 1;
      if interval > 0 && blitCount % interval == 0 {
        TakeSnapshot(path, snapshot);
      }
      return true;
    }

    /** file_close(): with what was freed on the way, every string ever duplicated has been
        freed exactly once. */
    method Close()
      requires Valid()
      modifies this
      ensures forall id: nat :: multiset(freed)[id] == if id < |recorded| then 1 else 0
      ensures recorded == old(recorded)
    {
      ghost var earlier := freed;
      for i := 0 to count
        invariant unchanged(`count) && unchanged(`recorded)
        invariant freed == earlier + Ids(slots[..i])
      {
        freed := freed + [slots[i].id];
        assert Ids(slots[..i + 1]) == Ids(slots[..i]) + [slots[i].id];
      }
      EachFreedOnce(slots[..], old(head), count, old(removed), earlier, recorded);
    }
  }

  /** The strings freed on the way and those still in the ring are all the strings. */
  lemma EachFreedOnce(slots: seq<Snapshot>, head: nat, count: nat, removed: seq<string>, freed: seq<nat>, recorded: seq<Snapshot>)
    requires Books(slots, head, count, removed, freed, recorded)
    ensures forall id: nat :: multiset(freed + Ids(slots[..count]))[id] == if id < |recorded| then 1 else 0
  {
    RotatedIds(slots, head, count);
    DroppedAndKept(recorded, |slots|);
    EachIdOnce(recorded);
    assert multiset(freed + Ids(slots[..count])) == multiset(freed) + multiset(Ids(slots[..count]));
  }

  lemma DroppedAndKept(s: seq<Snapshot>, k: nat)
    ensures multiset(Ids(s)) == multiset(Ids(AllButLast(s, k))) + multiset(Ids(Last(s, k)))
  {
    assert Ids(s) == Ids(AllButLast(s, k)) + Ids(Last(s, k));
  }

  lemma RotatedIds(slots: seq<Snapshot>, head: nat, count: nat)
    requires head <= |slots| && count <= |slots|
    ensures multiset(Ids(slots[..count])) == multiset(Ids(Contents(slots, head, count)))
  {
    if count == |slots| {
      var a, b := Ids(slots[..head]), Ids(slots[head..]);
      assert Ids(slots[..count]) == a + b;
      assert Ids(Contents(slots, head, count)) == b + a;
    }
  }

  lemma {:induction false} EachIdOnce(s: seq<Snapshot>)
    requires Numbered(s)
    ensures forall id: nat :: multiset(Ids(s))[id] == if id < |s| then 1 else 0
    decreases |s|
  {
    if s != [] {
      var n := |s| - 1;
      EachIdOnce(s[..n]);
      assert Ids(s) == Ids(s[..n]) + [n];
    }
  }
}
