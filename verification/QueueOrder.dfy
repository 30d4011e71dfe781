/** The activation queue is not stored: it is read off the table. This module proves that
    what is read off is a genuine ranking, for every table. */
module QueueOrder {
  import opened Timespecs
  import opened Sessions

  ghost function Queue(slots: seq<Session>): set<int> {
    set i | 0 <= i < |slots| && Waiting(slots[i])
  }

  lemma BeforeIsTotal(slots: seq<Session>, i: int, j: int)
    requires 0 <= i < |slots| && 0 <= j < |slots| && i != j
    ensures Before(slots, i, j) <==> !Before(slots, j, i)
  {}

  /** Whoever is ahead of i is ahead of everyone i is ahead of. */
  lemma AheadGrows(slots: seq<Session>, i: int, j: int)
    requires 0 <= i < |slots| && 0 <= j < |slots| && i != j
    requires Waiting(slots[i]) && Before(slots, i, j)
    ensures Ahead(slots, i) + {i} <= Ahead(slots, j)
  {}

  lemma SubsetCardinality(a: set<int>, b: set<int>)
    requires a <= b
    ensures |a| <= |b|
    ensures |a| == |b| ==> a == b
  {
    assert b == a + (b - a);
  }

  /** Whoever is not queued has position 0, and nobody else has. */
  lemma ZeroMeansNotQueued(slots: seq<Session>, i: int)
    requires 0 <= i < |slots|
    ensures QueuePosition(slots, i) == 0 <==> !(slots[i].inUse && slots[i].state == Queued)
  {}

  /** Positions order the waiting slots exactly as (request time, index) does; in
      particular no two waiting slots share a position. */
  lemma PositionReflectsOrder(slots: seq<Session>, i: int, j: int)
    requires 0 <= i < |slots| && 0 <= j < |slots| && i != j
    requires Waiting(slots[i]) && Waiting(slots[j])
    ensures QueuePosition(slots, i) < QueuePosition(slots, j) <==> Before(slots, i, j)
    ensures QueuePosition(slots, i) != QueuePosition(slots, j)
  {
    BeforeIsTotal(slots, i, j);
    var a, b := if Before(slots, i, j) then i else j, if Before(slots, i, j) then j else i;
    AheadGrows(slots, a, b);
    SubsetCardinality(Ahead(slots, a) + {a}, Ahead(slots, b));
  }

  lemma PositionInRange(slots: seq<Session>, i: int)
    requires 0 <= i < |slots| && Waiting(slots[i])
    ensures 1 <= QueuePosition(slots, i) <= |Queue(slots)|
  {
    SubsetCardinality(Ahead(slots, i) + {i}, Queue(slots));
  }

  ghost function UpTo(k: nat): (r: set<int>)
    ensures forall p :: p in r <==> 1 <= p <= k
    ensures |r| == k
  {
    if k == 0 then {} else UpTo(k - 1) + {k}
  }

  ghost function Positions(slots: seq<Session>, who: set<int>): set<int>
    requires who <= Queue(slots)
  {
    set i | i in who :: QueuePosition(slots, i)
  }

  lemma {:induction false} PositionsSize(slots: seq<Session>, who: set<int>)
    requires who <= Queue(slots)
    ensures |Positions(slots, who)| == |who|
    decreases who
  {
    if who != {} {
      var i :| i in who;
      var rest := who - {i};
      PositionsSize(slots, rest);
      forall j | j in rest ensures QueuePosition(slots, j) != QueuePosition(slots, i) {
        PositionReflectsOrder(slots, j, i);
      }
      assert Positions(slots, who) == Positions(slots, rest) + {QueuePosition(slots, i)};
    }
  }

  /** The positions in use are exactly 1..k: with PositionReflectsOrder, a bijection. */
  lemma PositionsAreExactlyOneToK(slots: seq<Session>)
    ensures Positions(slots, Queue(slots)) == UpTo(|Queue(slots)|)
  {
    var k := |Queue(slots)|;
    forall p | p in Positions(slots, Queue(slots)) ensures p in UpTo(k) {
      var i :| i in Queue(slots) && QueuePosition(slots, i) == p;
      PositionInRange(slots, i);
    }
    PositionsSize(slots, Queue(slots));
    SubsetCardinality(Positions(slots, Queue(slots)), UpTo(k));
  }

  /** The scan for the next client returns the slot of position 1, and nothing exactly when
      nobody waits. */
  lemma NextIsPositionOne(t: Table)
    ensures FindNextQueued(t) == -1 <==> Queue(t.slots) == {}
    ensures forall i :: 0 <= i < |t.slots| ==> (FindNextQueued(t) == i <==> QueuePosition(t.slots, i) == 1)
  {
    var slots := t.slots;
    var h := FindNextQueued(t);
    assert forall i :: 0 <= i < |slots| && Waiting(slots[i]) ==> i in Queue(slots);
    forall i | 0 <= i < |slots| ensures h == i <==> QueuePosition(slots, i) == 1 {
      if Waiting(slots[i]) && i != h {
        assert h in Ahead(slots, i);
      } else if Waiting(slots[i]) {
        forall j | j in Ahead(slots, i) ensures false { BeforeIsTotal(slots, i, j); }
        assert Ahead(slots, i) == {};
      }
    }
  }

  /** A slot that stops waiting moves up everyone behind it by one and nobody else. */
  lemma LeavingMovesUp(slots: seq<Session>, x: int, gone: Session, j: int)
    requires 0 <= x < |slots| && 0 <= j < |slots| && x != j
    requires Waiting(slots[x]) && !Waiting(gone) && Waiting(slots[j])
    ensures QueuePosition(slots[x := gone], j)
         == QueuePosition(slots, j) - (if Before(slots, x, j) then 1 else 0)
  {
    var after := slots[x := gone];
    assert Ahead(after, j) == Ahead(slots, j) - {x};
  }

  /** Taking the head out of the queue lowers every other position by exactly one. */
  lemma GrantingTheHeadMovesAllUp(t: Table, epoch: nat, j: int)
    requires FindNextQueued(t) >= 0
    requires 0 <= j < |t.slots| && j != FindNextQueued(t) && Waiting(t.slots[j])
    ensures QueuePosition(Grant(t, FindNextQueued(t), epoch).slots, j) == QueuePosition(t.slots, j) - 1
  {
    var h := FindNextQueued(t);
    LeavingMovesUp(t.slots, h, t.slots[h].(state := GrantedWarmup, grantedEpoch := epoch), j);
  }

  /** Changing a slot that was not waiting and still is not affects nobody's position. */
  lemma OutsidersDoNotCount(slots: seq<Session>, x: int, changed: Session, j: int)
    requires 0 <= x < |slots| && 0 <= j < |slots|
    requires !Waiting(slots[x]) && !Waiting(changed)
    ensures QueuePosition(slots[x := changed], j) == QueuePosition(slots, j)
  {
    if x != j && Waiting(slots[j]) {
      assert Ahead(slots[x := changed], j) == Ahead(slots, j);
    }
  }

  /** A newcomer whose request is later than everyone's goes to the end. */
  lemma LatecomerIsLast(slots: seq<Session>, x: int, now: Timespec)
    requires 0 <= x < |slots| && slots[x].inUse && !Waiting(slots[x])
    requires forall i :: 0 <= i < |slots| && Waiting(slots[i]) ==> Earlier(slots[i].activateRequested, now)
    ensures var after := slots[x := slots[x].(state := Queued, activateRequested := now)];
            && QueuePosition(after, x) == |Queue(slots)| + 1
            && forall j :: 0 <= j < |slots| && j != x ==> QueuePosition(after, j) == QueuePosition(slots, j)
  {
    var after := slots[x := slots[x].(state := Queued, activateRequested := now)];
    assert Ahead(after, x) == Queue(slots);
    forall j | 0 <= j < |slots| && j != x ensures QueuePosition(after, j) == QueuePosition(slots, j) {
      if Waiting(slots[j]) {
        assert Ahead(after, j) == Ahead(slots, j);
      }
    }
  }
}
