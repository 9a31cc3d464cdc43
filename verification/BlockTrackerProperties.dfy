/**
 What the block tracker guarantees: a flush neither loses nor invents a block, releases a block
 only behind its parent, and without eviction computes the least set of hashes closed under
 "parent known", so the final state does not depend on the order in which blocks arrive.
 */
module BlockTrackerProperties {
  import opened Collections
  import opened BlockTracker

  function HashesOf(blocks: seq<Block>): set<Hash> {
    set b | b in blocks && b.hash != ABSENT :: b.hash
  }

  /** Every applied block names no parent, a parent known at the start, or one applied before it. */
  ghost predicate ParentsFirst(known: seq<Hash>, applied: seq<Block>) {
    forall i :: 0 <= i < |applied| ==>
      || Ready(applied[i], known)
      || exists j :: 0 <= j < i && applied[j].hash == applied[i].parent
  }

  ghost predicate Saturated(known: seq<Hash>, pending: seq<Block>) {
    forall b :: b in pending ==> !Ready(b, known)
  }

  // ---------------------------------------------------------------- flushing, with or without eviction

  lemma {:induction false} PassIsSound(known: seq<Hash>, pending: seq<Block>, max: nat)
    ensures var r := FlushPass(known, pending, max);
            && multiset(r.applied) + multiset(r.pending) == multiset(pending)
            && ParentsFirst(known, r.applied)
            && (r.applied == [] ==> r.known == known && r.pending == pending && Saturated(known, pending))
            && (forall h :: h in r.known ==> h in known || h in HashesOf(r.applied))
    decreases |pending|
  {
    hide ParentsFirst, Recorded, Ready, HashesOf;
    if pending == [] {
      NothingJustified(known);
    } else {
      var b := pending[0];
      assert pending == [b] + pending[1..];
      var r := FlushPass(known, pending, max);
      if Ready(b, known) {
        var next := Recorded(known, b.hash, max);
        var rest := FlushPass(next, pending[1..], max);
        PassIsSound(next, pending[1..], max);
        PrependJustified(known, max, b, rest.applied);
        RecordedFrom(known, b, rest.applied, max);
      } else {
        PassIsSound(known, pending[1..], max);
      }
    }
  }

  lemma NothingJustified(known: seq<Hash>)
    ensures ParentsFirst(known, [])
  {
  }

  lemma RecordedFrom(known: seq<Hash>, b: Block, applied: seq<Block>, max: nat)
    ensures forall h :: h in Recorded(known, b.hash, max) ==> h in known || h in HashesOf([b] + applied)
    ensures HashesOf(applied) <= HashesOf([b] + applied)
  {
    assert ([b] + applied)[0] == b;
  }

  lemma PrependJustified(known: seq<Hash>, max: nat, b: Block, applied: seq<Block>)
    requires Ready(b, known) && ParentsFirst(Recorded(known, b.hash, max), applied)
    ensures ParentsFirst(known, [b] + applied)
  {
    hide Recorded;
    RecordedFrom(known, b, [], max);
    var all := [b] + applied;
    forall i | 0 < i < |all| && !Ready(all[i], known)
      ensures exists j :: 0 <= j < i && all[j].hash == all[i].parent
    {
      assert all[i] == applied[i - 1];
      if all[i].parent in Recorded(known, b.hash, max) {
        assert all[0].hash == all[i].parent;
      } else {
        var j :| 0 <= j < i - 1 && applied[j].hash == applied[i - 1].parent;
        assert all[j + 1] == applied[j];
      }
    }
  }

  lemma AppendJustified(known: seq<Hash>, first: seq<Block>, next: seq<Hash>, second: seq<Block>)
    requires ParentsFirst(known, first) && ParentsFirst(next, second)
    requires forall h :: h in next ==> h in known || h in HashesOf(first)
    ensures ParentsFirst(known, first + second)
  {
    var all := first + second;
    forall i | |first| <= i < |all|
      ensures Ready(all[i], known) || exists j :: 0 <= j < i && all[j].hash == all[i].parent
    {
      if !Ready(all[i], known) {
        assert all[i] == second[i - |first|];
        if all[i].parent in next {
          var b :| b in first && b.hash == all[i].parent;
          var j :| 0 <= j < |first| && first[j] == b;
          assert all[j].hash == all[i].parent;
        } else {
          var j :| 0 <= j < i - |first| && second[j].hash == second[i - |first|].parent;
          assert all[j + |first|] == second[j];
        }
      }
    }
    forall i | 0 <= i < |first|
      ensures Ready(all[i], known) || exists j :: 0 <= j < i && all[j].hash == all[i].parent
    {
      assert all[i] == first[i];
      if !Ready(all[i], known) {
        var j :| 0 <= j < i && first[j].hash == first[i].parent;
        assert all[j] == first[j];
      }
    }
  }

  /** A flush conserves blocks, applies none before its parent, and stops only when no queued block is ready. */
  lemma {:induction false} FlushIsSound(known: seq<Hash>, pending: seq<Block>, max: nat)
    ensures var r := Flushed(known, pending, max);
            && multiset(r.applied) + multiset(r.pending) == multiset(pending)
            && ParentsFirst(known, r.applied)
            && Saturated(r.known, r.pending)
    decreases |pending|
  {
    PassIsSound(known, pending, max);
    var first := FlushPass(known, pending, max);
    if first.applied != [] {
      var rest := Flushed(first.known, first.pending, max);
      FlushIsSound(first.known, first.pending, max);
      AppendJustified(known, first.applied, first.known, rest.applied);
    }
  }

  // ---------------------------------------------------------------- flushing without eviction

  /** `d` holds the base and every block whose parent it holds. */
  ghost predicate Closed(d: set<Hash>, base: set<Hash>, blocks: set<Block>) {
    && base <= d
    && forall b :: b in blocks && (b.parent == ABSENT || b.parent in d) && b.hash != ABSENT ==> b.hash in d
  }

  /** `r` is the least closed set: the base and whatever descends from it through `blocks`. */
  ghost predicate Reaches(r: set<Hash>, base: set<Hash>, blocks: set<Block>) {
    Closed(r, base, blocks) && forall d :: Closed(d, base, blocks) ==> r <= d
  }

  function Waiting(known: seq<Hash>): Block -> bool {
    (b: Block) => !Ready(b, known)
  }

  lemma HashesAppend(a: seq<Block>, b: seq<Block>)
    ensures HashesOf(a + b) == HashesOf(a) + HashesOf(b)
  {
    forall h | h in HashesOf(a) + HashesOf(b) ensures h in HashesOf(a + b) {
      var x :| (x in a || x in b) && x.hash != ABSENT && x.hash == h;
      assert x in a + b;
    }
  }

  lemma HashesOfNone()
    ensures HashesOf([]) == {}
  {
  }

  lemma HashesOfOne(b: Block)
    ensures HashesOf([b]) == if b.hash == ABSENT then {} else {b.hash}
  {
    assert b in [b];
  }

  lemma HashesOfFirst(pending: seq<Block>)
    requires pending != []
    ensures HashesOf(pending) == (if pending[0].hash == ABSENT then {} else {pending[0].hash}) + HashesOf(pending[1..])
  {
    HashesOfOne(pending[0]);
    HashesAppend([pending[0]], pending[1..]);
    assert pending == [pending[0]] + pending[1..];
  }

  lemma RecordedInRoom(known: seq<Hash>, h: Hash, max: nat)
    requires Distinct(known) && h != ABSENT ==> |SetOf(known) + {h}| <= max
    requires Distinct(known) && |SetOf(known)| <= max
    ensures var k := Recorded(known, h, max);
            && Distinct(k) && known <= k
            && SetOf(k) == SetOf(known) + (if h == ABSENT then {} else {h})
  {
    CardinalityOfDistinct(known);
    if h != ABSENT && h !in known {
      CardinalityOfDistinct(known + [h]);
      assert SetOf(known + [h]) == SetOf(known) + {h};
    }
  }

  /** Nothing need be evicted: all that can become known through the queue fits the bound. */
  ghost predicate Fits(known: seq<Hash>, pending: seq<Block>, universe: set<Hash>, max: nat) {
    Distinct(known) && Closed(universe, SetOf(known), SetOf(pending)) && |universe| <= max
  }

  lemma FitsRest(known: seq<Hash>, pending: seq<Block>, universe: set<Hash>, max: nat)
    requires pending != [] && Fits(known, pending, universe, max)
    ensures Fits(known, pending[1..], universe, max)
  {
    assert forall b :: b in pending[1..] ==> b in pending;
  }

  /** What a pass or a flush leaves fits as well. */
  lemma FitsAfter(known: seq<Hash>, pending: seq<Block>, universe: set<Hash>, max: nat, r: Flush)
    requires Fits(known, pending, universe, max) && Distinct(r.known) && SetOf(r.known) <= universe
    requires multiset(r.applied) + multiset(r.pending) == multiset(pending)
    ensures Fits(r.known, r.pending, universe, max)
  {
    forall b | b in r.pending ensures b in pending {
      assert b in multiset(r.applied) + multiset(r.pending);
    }
  }

  lemma RecordReady(known: seq<Hash>, pending: seq<Block>, universe: set<Hash>, max: nat)
    requires pending != [] && Fits(known, pending, universe, max) && Ready(pending[0], known)
    ensures var k := Recorded(known, pending[0].hash, max);
            && Fits(k, pending[1..], universe, max) && known <= k
            && SetOf(k) == SetOf(known) + HashesOf([pending[0]])
  {
    var h := pending[0].hash;
    assert pending[0] in SetOf(pending);
    HashesOfOne(pending[0]);
    FitsRest(known, pending, universe, max);
    SubsetCardinality(SetOf(known), universe);
    if h != ABSENT {
      SubsetCardinality(SetOf(known) + {h}, universe);
    }
    RecordedInRoom(known, h, max);
  }

  lemma FitsAlone(known: seq<Hash>, pending: seq<Block>, universe: set<Hash>, max: nat)
    requires Fits(known, pending, universe, max)
    ensures Distinct(known) && SetOf(known) <= universe
  {
  }

  lemma {:induction false} PassInRoom(known: seq<Hash>, pending: seq<Block>, universe: set<Hash>, max: nat)
    requires Fits(known, pending, universe, max)
    ensures var r := FlushPass(known, pending, max);
            && Distinct(r.known) && known <= r.known && SetOf(r.known) <= universe
            && SetOf(r.known) == SetOf(known) + HashesOf(r.applied)
            && HashesOf(r.pending) <= HashesOf(pending) && HashesOf(r.applied) <= HashesOf(pending)
    decreases |pending|
  {
    hide Recorded, SetOf, HashesOf, Distinct, Fits;
    FitsAlone(known, pending, universe, max);
    if pending == [] {
      HashesOfNone();
    } else {
      var b := pending[0];
      HashesOfFirst(pending);
      FitsRest(known, pending, universe, max);
      if Ready(b, known) {
        RecordReady(known, pending, universe, max);
        var next := Recorded(known, b.hash, max);
        PassInRoom(next, pending[1..], universe, max);
        HashesAppend([b], FlushPass(next, pending[1..], max).applied);
        HashesOfOne(b);
      } else {
        PassInRoom(known, pending[1..], universe, max);
        HashesAppend([b], FlushPass(known, pending[1..], max).pending);
        HashesOfOne(b);
      }
    }
  }

  /** What a pass leaves behind is, in order, what it was given minus blocks ready at the end. */
  lemma {:induction false} PassKeepsWaiting(known: seq<Hash>, pending: seq<Block>, universe: set<Hash>, max: nat,
                                            final: seq<Hash>)
    requires Fits(known, pending, universe, max)
    requires SetOf(FlushPass(known, pending, max).known) <= SetOf(final)
    ensures Filter(FlushPass(known, pending, max).pending, Waiting(final)) == Filter(pending, Waiting(final))
    decreases |pending|
  {
    hide Fits;
    if pending != [] {
      var b := pending[0];
      PassInRoom(known, pending, universe, max);
      FitsRest(known, pending, universe, max);
      if Ready(b, known) {
        RecordReady(known, pending, universe, max);
        PassKeepsWaiting(Recorded(known, b.hash, max), pending[1..], universe, max, final);
        assert b.parent == ABSENT || b.parent in SetOf(final);
      } else {
        PassKeepsWaiting(known, pending[1..], universe, max, final);
        var r, rest := FlushPass(known, pending, max), FlushPass(known, pending[1..], max);
        assert r.pending[1..] == rest.pending;
      }
    }
  }

  lemma {:induction false} FlushInRoom(known: seq<Hash>, pending: seq<Block>, universe: set<Hash>, max: nat)
    requires Fits(known, pending, universe, max)
    ensures var r := Flushed(known, pending, max);
            && Distinct(r.known) && known <= r.known && SetOf(r.known) <= universe
            && SetOf(r.known) == SetOf(known) + HashesOf(r.applied)
            && HashesOf(r.applied) <= HashesOf(pending)
            && r.pending == Filter(pending, Waiting(r.known))
    decreases |pending|
  {
    hide Distinct, SetOf, HashesOf, FlushPass, ParentsFirst, Fits;
    var first := FlushPass(known, pending, max);
    PassInRoom(known, pending, universe, max);
    PassIsSound(known, pending, max);
    if first.applied == [] {
      FilterAll(pending, Waiting(known));
    } else {
      var rest := Flushed(first.known, first.pending, max);
      FitsAfter(known, pending, universe, max, first);
      FlushInRoom(first.known, first.pending, universe, max);
      HashesAppend(first.applied, rest.applied);
      PassKeepsWaiting(known, pending, universe, max, rest.known);
    }
  }

  lemma {:induction false} JustifiedIsForced(known: seq<Hash>, applied: seq<Block>, d: set<Hash>, blocks: set<Block>)
    requires ParentsFirst(known, applied) && Closed(d, SetOf(known), blocks) && SetOf(applied) <= blocks
    requires ABSENT !in known
    ensures HashesOf(applied) <= d
  {
    if applied != [] {
      var n := |applied| - 1;
      var front, b := applied[..n], applied[n];
      assert applied == front + [b];
      forall i | 0 <= i < n
        ensures Ready(front[i], known) || exists j :: 0 <= j < i && front[j].hash == front[i].parent
      {
        assert front[i] == applied[i];
        if !Ready(applied[i], known) {
          var j :| 0 <= j < i && applied[j].hash == applied[i].parent;
          assert front[j] == applied[j];
        }
      }
      JustifiedIsForced(known, front, d, blocks);
      if !Ready(b, known) {
        var j :| 0 <= j < n && applied[j].hash == b.parent;
        assert front[j] in front;
      }
      assert b in blocks;
    }
  }

  /** Without eviction a flush knows exactly the least set closed under "parent known", and keeps the rest in order. */
  lemma FlushIsLeastFixedPoint(known: seq<Hash>, pending: seq<Block>, universe: set<Hash>, max: nat)
    requires Fits(known, pending, universe, max) && ABSENT !in known
    ensures var r := Flushed(known, pending, max);
            && Reaches(SetOf(r.known), SetOf(known), SetOf(pending))
            && r.pending == Filter(pending, Waiting(r.known))
  {
    var r := Flushed(known, pending, max);
    FlushInRoom(known, pending, universe, max);
    FlushIsSound(known, pending, max);
    forall b | b in r.applied ensures b in pending {
      assert b in multiset(r.applied) + multiset(r.pending);
    }
    forall b | b in pending && Ready(b, r.known) && b.hash != ABSENT ensures b.hash in SetOf(r.known) {
      assert b in multiset(pending);
    }
    assert ABSENT !in SetOf(known);
    assert ABSENT !in HashesOf(r.applied);
    assert forall b :: b in SetOf(pending) && b.parent in SetOf(r.known) ==> Ready(b, r.known);
    forall d | Closed(d, SetOf(known), SetOf(pending)) ensures SetOf(r.known) <= d {
      JustifiedIsForced(known, r.applied, d, SetOf(pending));
    }
  }

  // ---------------------------------------------------------------- arrival order

  /** A tracker that knows `base` and waits for nothing, after the given `newBlock` messages. */
  function Fed(base: seq<Hash>, blocks: seq<Block>, max: nat): Tracked {
    if blocks == [] then Tracked(base, [])
    else
      var was := Fed(base, blocks[..|blocks| - 1], max);
      var a := Arrived(was.known, was.pending, blocks[|blocks| - 1], max);
      Tracked(a.known, a.pending)
  }

  /** A hash names one block, however often it is reported. */
  ghost predicate Consistent(blocks: seq<Block>) {
    forall b, c :: b in blocks && c in blocks && b.hash == c.hash ==> b == c
  }

  /** The invariant of feeding: everything reachable is known, everything else waits. */
  ghost predicate Settled(base: seq<Hash>, blocks: seq<Block>, s: Tracked) {
    && Distinct(s.known) && ABSENT !in s.known
    && Reaches(SetOf(s.known), SetOf(base), SetOf(blocks))
    && Distinct(s.pending)
    && forall b :: b in s.pending <==> b in blocks && !Ready(b, s.known)
  }

  /** What is still to come fits when all of it does. */
  lemma ReachedFits(base: seq<Hash>, blocks: seq<Block>, s: Tracked, b: Block, universe: set<Hash>, max: nat)
    requires Settled(base, blocks, s) && Fits(base, blocks + [b], universe, max)
    ensures Fits(s.known, [b] + s.pending, universe, max)
  {
    var all := blocks + [b];
    assert SetOf(all) == SetOf(blocks) + {b};
    assert Closed(universe, SetOf(base), SetOf(blocks));
    forall x | x in [b] + s.pending ensures x in all {
    }
  }

  lemma ArriveQueued(base: seq<Hash>, blocks: seq<Block>, s: Tracked, b: Block, max: nat)
    requires Settled(base, blocks, s) && Consistent(blocks + [b]) && !Ready(b, s.known)
    ensures var a := Arrived(s.known, s.pending, b, max);
            a == Arrival(s.known, if b in s.pending then s.pending else s.pending + [b], [], false)
            && Settled(base, blocks + [b], Tracked(a.known, a.pending))
  {
    var all := blocks + [b];
    forall p | p in s.pending && p.hash == b.hash ensures p == b {
      assert p in all && b in all;
    }
    assert SetOf(all) == SetOf(blocks) + {b};
    assert b.parent !in SetOf(s.known);
    forall d | Closed(d, SetOf(base), SetOf(all)) ensures SetOf(s.known) <= d {
      assert Closed(d, SetOf(base), SetOf(blocks));
    }
    var a := Arrived(s.known, s.pending, b, max);
    assert forall x :: x in a.pending <==> x in all && !Ready(x, s.known);
  }

  lemma ArriveAccepted(base: seq<Hash>, blocks: seq<Block>, s: Tracked, b: Block, universe: set<Hash>, max: nat)
    requires Settled(base, blocks, s) && Ready(b, s.known) && Fits(base, blocks + [b], universe, max)
    ensures var a := Arrived(s.known, s.pending, b, max);
            a.accepted && Settled(base, blocks + [b], Tracked(a.known, a.pending))
  {
    hide Fits, Reaches;
    ReachedFits(base, blocks, s, b, universe, max);
    var queue := [b] + s.pending;
    assert queue[0] == b && queue[1..] == s.pending;
    RecordReady(s.known, queue, universe, max);
    HashesOfOne(b);
    var known1 := Recorded(s.known, b.hash, max);
    FlushIsLeastFixedPoint(known1, s.pending, universe, max);
    FlushInRoom(known1, s.pending, universe, max);
    FilterDistinct(s.pending, Waiting(Flushed(known1, s.pending, max).known));
    AcceptedReaches(base, blocks, s, b, known1, Flushed(known1, s.pending, max));
  }

  lemma AcceptedReaches(base: seq<Hash>, blocks: seq<Block>, s: Tracked, b: Block, known1: seq<Hash>, r: Flush)
    requires Settled(base, blocks, s) && Ready(b, s.known)
    requires SetOf(known1) == SetOf(s.known) + (if b.hash == ABSENT then {} else {b.hash})
    requires Reaches(SetOf(r.known), SetOf(known1), SetOf(s.pending))
    requires r.pending == Filter(s.pending, Waiting(r.known))
    ensures Reaches(SetOf(r.known), SetOf(base), SetOf(blocks + [b]))
    ensures forall x :: x in r.pending <==> x in blocks + [b] && !Ready(x, r.known)
    ensures ABSENT !in r.known
  {
    var all := SetOf(blocks + [b]);
    assert all == SetOf(blocks) + {b};
    forall x | x in all && (x.parent == ABSENT || x.parent in SetOf(r.known)) && x.hash != ABSENT
      ensures x.hash in SetOf(r.known)
    {
      if x in blocks && x !in s.pending {
        assert x.hash in SetOf(s.known);
      }
    }
    forall d | Closed(d, SetOf(base), all) ensures SetOf(r.known) <= d {
      assert Closed(d, SetOf(base), SetOf(blocks));
      assert Closed(d, SetOf(known1), SetOf(s.pending));
    }
    var clean := SetOf(r.known) - {ABSENT};
    assert Closed(clean, SetOf(known1), SetOf(s.pending));
    assert forall x :: x in s.pending && !Ready(x, r.known) ==> x in SetOf(blocks);
    forall x | x in blocks + [b] && !Ready(x, r.known) ensures x in r.pending {
      assert forall h :: h in SetOf(s.known) ==> h in SetOf(r.known);
    }
  }

  /** Without eviction all that is reachable from the base becomes known, and the rest waits. */
  lemma {:induction false} FedSettles(base: seq<Hash>, blocks: seq<Block>, universe: set<Hash>, max: nat)
    requires ABSENT !in base && Consistent(blocks) && Fits(base, blocks, universe, max)
    ensures Settled(base, blocks, Fed(base, blocks, max))
  {
    if blocks != [] {
      var n := |blocks| - 1;
      var front, b := blocks[..n], blocks[n];
      assert blocks == front + [b];
      assert forall x :: x in front ==> x in blocks;
      FedSettles(base, front, universe, max);
      var was := Fed(base, front, max);
      if Ready(b, was.known) {
        ArriveAccepted(base, front, was, b, universe, max);
      } else {
        ArriveQueued(base, front, was, b, max);
      }
    }
  }

  lemma {:induction false} PassBounded(known: seq<Hash>, pending: seq<Block>, max: nat)
    requires |known| <= max
    ensures |FlushPass(known, pending, max).known| <= max
    decreases |pending|
  {
    if pending != [] {
      PassBounded(if Ready(pending[0], known) then Recorded(known, pending[0].hash, max) else known, pending[1..], max);
    }
  }

  lemma {:induction false} FlushBounded(known: seq<Hash>, pending: seq<Block>, max: nat)
    requires |known| <= max
    ensures |Flushed(known, pending, max).known| <= max
    decreases |pending|
  {
    PassBounded(known, pending, max);
    var first := FlushPass(known, pending, max);
    if first.applied != [] {
      FlushBounded(first.known, first.pending, max);
    }
  }

  lemma {:induction false} FedBounded(base: seq<Hash>, blocks: seq<Block>, max: nat)
    requires |base| <= max
    ensures |Fed(base, blocks, max).known| <= max
  {
    if blocks != [] {
      var n := |blocks| - 1;
      FedBounded(base, blocks[..n], max);
      var was := Fed(base, blocks[..n], max);
      if Ready(blocks[n], was.known) {
        FlushBounded(Recorded(was.known, blocks[n].hash, max), was.pending, max);
      }
    }
  }

  lemma {:induction false} FewElements(s: seq<Hash>)
    ensures |SetOf(s)| <= |s|
  {
    if s != [] {
      FewElements(s[1..]);
      assert SetOf(s) == {s[0]} + SetOf(s[1..]);
    }
  }

  /** The tracker ends up knowing just what is reachable exactly when that much fits the bound. */
  lemma SettlesIffItFits(base: seq<Hash>, blocks: seq<Block>, max: nat)
    requires Distinct(base) && ABSENT !in base && |base| <= max && Consistent(blocks)
    ensures Reaches(SetOf(Fed(base, blocks, max).known), SetOf(base), SetOf(blocks))
       <==> exists universe :: Closed(universe, SetOf(base), SetOf(blocks)) && |universe| <= max
  {
    var known := Fed(base, blocks, max).known;
    FedBounded(base, blocks, max);
    FewElements(known);
    if Reaches(SetOf(known), SetOf(base), SetOf(blocks)) {
      assert Closed(SetOf(known), SetOf(base), SetOf(blocks)) && |SetOf(known)| <= max;
    }
    if universe: set<Hash> :| Closed(universe, SetOf(base), SetOf(blocks)) && |universe| <= max {
      FedSettles(base, blocks, universe, max);
    }
  }

  /** Fewer blocks are enough that a hash names one block. */
  lemma StaysConsistent(some: seq<Block>, all: seq<Block>)
    requires Consistent(all) && SetOf(some) <= SetOf(all)
    ensures Consistent(some)
  {
    assert forall b :: b in some ==> b in SetOf(some);
  }

  /**
   The final state depends neither on the order of arrival nor on how often a block is reported: the
   known hashes are those reachable from the base, the queue holds each of the others once. However
   many blocks wait, only what can become known has to fit the bound.
   */
  lemma ArrivalOrderIrrelevant(base: seq<Hash>, one: seq<Block>, other: seq<Block>, universe: set<Hash>, max: nat)
    requires ABSENT !in base && Fits(base, one, universe, max)
    requires SetOf(one) == SetOf(other) && Consistent(one)
    ensures var r, q := Fed(base, one, max), Fed(base, other, max);
            && SetOf(r.known) == SetOf(q.known) && multiset(r.pending) == multiset(q.pending)
            && Reaches(SetOf(r.known), SetOf(base), SetOf(one))
            && Distinct(r.pending)
  {
    StaysConsistent(other, one);
    FedSettles(base, one, universe, max);
    FedSettles(base, other, universe, max);
    var r, q := Fed(base, one, max), Fed(base, other, max);
    assert forall h :: h in r.known <==> h in q.known by {
      assert forall h :: h in SetOf(r.known) <==> h in SetOf(q.known);
    }
    assert forall b :: b in one <==> b in SetOf(one);
    assert forall b :: b in other <==> b in SetOf(other);
    DistinctMultisets(r.pending, q.pending);
  }

  // ---------------------------------------------------------------- forgetting

  function NoneOf(hashes: seq<Hash>): Hash -> bool {
    (h: Hash) => h !in hashes
  }

  function UnrelatedToAll(hashes: seq<Hash>): Block -> bool {
    (b: Block) => b.hash !in hashes && b.parent !in hashes
  }

  /** Forgetting hashes takes out those and no other, and the waiting blocks named by or built on them. */
  lemma {:induction false} ForgottenAtOnce(t: Tracked, hashes: seq<Hash>)
    ensures var r := Forgotten(t, hashes);
            r.known == Filter(t.known, NoneOf(hashes)) && r.pending == Filter(t.pending, UnrelatedToAll(hashes))
  {
    hide Filter;
    if hashes == [] {
      FilterAll(t.known, NoneOf(hashes));
      FilterAll(t.pending, UnrelatedToAll(hashes));
    } else {
      var n := |hashes| - 1;
      var front, h := hashes[..n], hashes[n];
      assert hashes == front + [h];
      ForgottenAtOnce(t, front);
      FilterBoth(t.known, NoneOf(front), OtherThan(h), NoneOf(hashes));
      FilterBoth(t.pending, UnrelatedToAll(front), Unrelated(h), UnrelatedToAll(hashes));
    }
  }
}
