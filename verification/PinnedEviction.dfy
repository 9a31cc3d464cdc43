/**
 Which block goes when tracking is at its bound: the tracked blocks stay in the order in which their
 tracking began, and one that is given up unheard is the one tracked for longest.
 */
module PinnedEviction {
  import opened Collections
  import opened PinnedBlocks
  import opened PinnedBlocksProperties

  /** Tracking of `h` began at step `t` and has lasted since. */
  ghost predicate TrackedSince(steps: seq<Step>, h: Hash, t: nat) {
    Begins(steps, t, h) && TrackedThroughout(steps, t, |steps|, h)
  }

  /** Tracking of `g` began before that of `h`. */
  ghost predicate Longer(steps: seq<Step>, g: Hash, h: Hash) {
    forall t: nat, u: nat :: TrackedSince(steps, g, t) && TrackedSince(steps, h, u) ==> t < u
  }

  /** Of any two tracked blocks the one listed first has been tracked for longer. */
  ghost predicate OldestFirst(steps: seq<Step>, pins: Pins) {
    forall i, j :: 0 <= i < j < |pins| ==> Longer(steps, pins[i].hash, pins[j].hash)
  }

  lemma TrackedSinceSome(steps: seq<Step>, i: nat) returns (t: nat)
    requires i < |Run(steps).pins|
    ensures t < |steps| && TrackedSince(steps, Run(steps).pins[i].hash, t)
  {
    AlwaysAccounted(steps);
    var p := Run(steps).pins[i];
    assert p in Run(steps).pins;
    t :| Account(steps, t, p.hash, p.holders);
  }

  lemma TrackedSinceBefore(steps: seq<Step>, y: Step, h: Hash, t: nat)
    requires TrackedSince(steps + [y], h, t)
    ensures if t < |steps| then TrackedSince(steps, h, t) && IsTracked(Run(steps).pins, h)
            else
              && t == |steps| && y.Unpin? && y.hash == h && y.local in Run(steps).locals
              && !IsTracked(Run(steps).pins, h)
  {
    var all := steps + [y];
    assert all[..|steps|] == steps;
    if t < |steps| {
      assert all[..t] == steps[..t] && all[t] == steps[t];
      forall i | t < i <= |steps| ensures IsTracked(Run(steps[..i]).pins, h) {
        assert all[..i] == steps[..i];
      }
      assert steps[..|steps|] == steps;
    }
  }

  /** The pins at `i` and `j` of `r` are for blocks that `p` lists in the same order. */
  ghost predicate ListedBefore(p: Pins, g: Hash, h: Hash) {
    exists a, b :: 0 <= a < b < |p| && p[a].hash == g && p[b].hash == h
  }

  /** The pins `r` are for blocks of `p` in their order there, and then at most for the block `h`. */
  ghost predicate InOrder(p: Pins, r: Pins, h: Option<Hash>) {
    forall i, j :: 0 <= i < j < |r| ==>
      h != Some(r[i].hash) && (h == Some(r[j].hash) || ListedBefore(p, r[i].hash, r[j].hash))
  }

  lemma HoldInOrder(p: Pins, i: nat, holders: set<Local>)
    requires i < |p|
    ensures InOrder(p, Hold(p, i, holders).pins, None)
  {
    hide Hold;
    HoldAt(p, i, holders);
    var r := Hold(p, i, holders).pins;
    forall a, b | 0 <= a < b < |r| ensures ListedBefore(p, r[a].hash, r[b].hash) {
      var at := if holders == {} && a >= i then a + 1 else a;
      var bt := if holders == {} && b >= i then b + 1 else b;
      assert p[at].hash == r[a].hash && p[bt].hash == r[b].hash;
    }
  }

  /** The tracked blocks, but for the oldest at the bound, and then the new one. */
  lemma GrownAt(p: Pins, h: Hash, locals: set<Local>)
    ensures var grown := StartTracking(p, h, locals);
            var skipped := |p| + 1 - |grown|;
            && 0 <= skipped <= 1 && grown[|grown| - 1].hash == h
            && forall a :: 0 <= a < |grown| - 1 ==> grown[a] == p[a + skipped]
  {
    var all := p + [Pin(h, locals)];
    assert forall a :: 0 <= a < |p| ==> all[a] == p[a];
    assert all[|p|].hash == h;
    if |all| >= MAX_HASHES {
      assert forall a :: 0 <= a < |p| ==> all[1..][a] == all[a + 1];
    }
  }

  lemma StartInOrder(p: Pins, h: Hash, locals: set<Local>, holders: set<Local>)
    requires !IsTracked(p, h)
    ensures var grown := StartTracking(p, h, locals);
            InOrder(p, Hold(grown, |grown| - 1, holders).pins, Some(h))
  {
    hide Hold, StartTracking;
    var grown := StartTracking(p, h, locals);
    var skipped, last := |p| + 1 - |grown|, |grown| - 1;
    GrownAt(p, h, locals);
    HoldAt(grown, last, holders);
    var r := Hold(grown, last, holders).pins;
    forall a, b | 0 <= a < b < |r|
      ensures r[a].hash != h && (r[b].hash == h || ListedBefore(p, r[a].hash, r[b].hash))
    {
      assert r[a].hash == p[a + skipped].hash;
      if b < last {
        assert r[b].hash == p[b + skipped].hash;
      }
    }
  }

  ghost predicate Listed(p: Pins, g: Hash) {
    exists a :: 0 <= a < |p| && p[a].hash == g
  }

  lemma ListedFurther(p: Pins, g: Hash, h: Hash)
    requires p != []
    ensures Listed(p[1..], h) ==> Listed(p, h) && ListedBefore(p, p[0].hash, h)
    ensures ListedBefore(p[1..], g, h) ==> ListedBefore(p, g, h)
    ensures Listed(p, p[0].hash)
  {
    if a :| 0 <= a < |p[1..]| && p[1..][a].hash == h {
      assert p[a + 1].hash == h;
    }
    if a, b :| 0 <= a < b < |p[1..]| && p[1..][a].hash == g && p[1..][b].hash == h {
      assert p[a + 1].hash == g && p[b + 1].hash == h;
    }
  }

  /** The first pin may stay in front of the others that stay, or go. */
  lemma InOrderFirst(p: Pins, rest: Pins, r: Pins)
    requires p != [] && InOrder(p[1..], rest, None) && forall j :: 0 <= j < |rest| ==> Listed(p[1..], rest[j].hash)
    requires r == rest || (r != [] && r[0].hash == p[0].hash && r[1..] == rest)
    ensures InOrder(p, r, None) && forall j :: 0 <= j < |r| ==> Listed(p, r[j].hash)
  {
    hide Listed, ListedBefore;
    var shift := |r| - |rest|;
    assert forall j :: shift <= j < |r| ==> r[j] == rest[j - shift];
    forall j | 0 <= j < |r| ensures Listed(p, r[j].hash) {
      ListedFurther(p, r[j].hash, r[j].hash);
    }
    forall i, j | 0 <= i < j < |r| ensures ListedBefore(p, r[i].hash, r[j].hash) {
      ListedFurther(p, r[i].hash, r[j].hash);
    }
  }

  lemma {:induction false} UnsubscribedInOrder(p: Pins, local: Local)
    ensures InOrder(p, Unsubscribed(p, local).pins, None)
    ensures forall j :: 0 <= j < |Unsubscribed(p, local).pins| ==> Listed(p, Unsubscribed(p, local).pins[j].hash)
  {
    if p != [] {
      hide Listed, InOrder;
      UnsubscribedInOrder(p[1..], local);
      InOrderFirst(p, Unsubscribed(p[1..], local).pins, Unsubscribed(p, local).pins);
    } else {
      NothingInOrder(p);
    }
  }

  lemma NothingInOrder(p: Pins)
    ensures InOrder(p, [], None)
  {
  }

  function NewlyTracked(s: State, y: Step): Option<Hash> {
    if y.Unpin? && y.local in s.locals && !IsTracked(s.pins, y.hash) then Some(y.hash) else None
  }

  lemma EffectInOrder(s: State, y: Step)
    ensures InOrder(s.pins, Effect(s, y).0.pins, NewlyTracked(s, y))
  {
    hide Hold, StartTracking, Unsubscribed;
    assert InOrder(s.pins, s.pins, None);
    match y {
      case Unpin(l, h) =>
        if l in s.locals {
          var i := PinIndex(s.pins, h);
          if i < |s.pins| {
            HoldInOrder(s.pins, i, s.pins[i].holders * s.locals - {l});
          } else {
            StartInOrder(s.pins, h, s.locals, s.locals - {l});
          }
        }
      case Unsubscribe(l) => UnsubscribedInOrder(s.pins, l);
      case _ =>
    }
  }

  lemma LongerAfter(steps: seq<Step>, y: Step, p: Pins, r: Pins, i: nat, j: nat)
    requires p == Run(steps).pins && OldestFirst(steps, p)
    requires InOrder(p, r, NewlyTracked(Run(steps), y)) && i < j < |r| && r[i].hash != r[j].hash
    ensures Longer(steps + [y], r[i].hash, r[j].hash)
  {
    hide TrackedSince, Run;
    forall t: nat, u: nat | TrackedSince(steps + [y], r[i].hash, t) && TrackedSince(steps + [y], r[j].hash, u)
      ensures t < u
    {
      TrackedSinceBefore(steps, y, r[i].hash, t);
      TrackedSinceBefore(steps, y, r[j].hash, u);
      if u < |steps| {
        var a, b :| 0 <= a < b < |p| && p[a].hash == r[i].hash && p[b].hash == r[j].hash;
        assert Longer(steps, p[a].hash, p[b].hash);
      }
    }
  }

  /** In every run the tracked blocks are listed in the order in which their tracking began. */
  lemma {:induction false} ListsOldestFirst(steps: seq<Step>)
    ensures OldestFirst(steps, Run(steps).pins)
  {
    if steps != [] {
      var front, y := steps[..|steps| - 1], steps[|steps| - 1];
      assert steps == front + [y];
      ListsOldestFirst(front);
      TrackingIsBounded(steps);
      var p, r := Run(front).pins, Run(steps).pins;
      EffectInOrder(Run(front), y);
      hide Longer, Effect, InOrder;
      forall i, j | 0 <= i < j < |r| ensures Longer(steps, r[i].hash, r[j].hash) {
        LongerAfter(front, y, p, r, i, j);
      }
    }
  }

  // ---------------------------------------------------------------- eviction

  lemma SinceIsTracked(steps: seq<Step>, h: Hash, t: nat)
    requires TrackedSince(steps, h, t)
    ensures IsTracked(Run(steps).pins, h)
  {
    assert steps[..|steps|] == steps;
  }

  /** Only the first pin goes unheard, and only as a new block is tracked at the bound. */
  lemma OnlyTheFirstGoes(s: State, y: Step, g: Hash)
    requires WellKept(s.pins) && y.Unpin? && y.hash != g && IsTracked(s.pins, g)
    ensures !IsTracked(Effect(s, y).0.pins, g) <==>
              NewlyTracked(s, y).Some? && |s.pins| + 1 == MAX_HASHES && s.pins[0].hash == g
  {
    hide Hold, PinIndex;
    var i, at := PinIndex(s.pins, y.hash), PinIndex(s.pins, g);
    if y.local !in s.locals {
    } else if i < |s.pins| {
      var holders := s.pins[i].holders * s.locals - {y.local};
      HoldAt(s.pins, i, holders);
      var r := Hold(s.pins, i, holders).pins;
      assert r[if holders == {} && at > i then at - 1 else at].hash == g;
    } else {
      var grown := StartTracking(s.pins, y.hash, s.locals);
      var skipped, last := |s.pins| + 1 - |grown|, |grown| - 1;
      assert forall a :: 0 <= a < last ==> grown[a] == s.pins[a + skipped];
      HoldAt(grown, last, s.locals - {y.local});
      var r := Hold(grown, last, s.locals - {y.local}).pins;
      if at >= skipped {
        assert r[at - skipped].hash == g;
      } else {
        forall a | 0 <= a < |r| ensures r[a].hash != g {
          assert a < last ==> r[a].hash == s.pins[a + 1].hash;
        }
      }
    }
  }

  /**
   A tracked block that is not the one being unpinned is given up exactly when a further block is tracked
   at the bound and it is the block tracked for longest.
   */
  lemma EvictsTheOldest(steps: seq<Step>, y: Step, g: Hash, t: nat)
    requires TrackedSince(steps, g, t) && y.Unpin? && y.hash != g
    ensures !IsTracked(Run(steps + [y]).pins, g) <==>
              && NewlyTracked(Run(steps), y).Some? && |Run(steps).pins| == 511
              && forall h, u :: TrackedSince(steps, h, u) && h != g ==> t < u
  {
    hide TrackedSince, Effect, Longer;
    TrackingIsBounded(steps);
    ListsOldestFirst(steps);
    SinceIsTracked(steps, g, t);
    var p := Run(steps).pins;
    assert (steps + [y])[..|steps|] == steps;
    OnlyTheFirstGoes(Run(steps), y, g);
    var at := PinIndex(p, g);
    if at == 0 {
      forall h, u | TrackedSince(steps, h, u) && h != g ensures t < u {
        SinceIsTracked(steps, h, u);
        IsLonger(steps, p[0].hash, p[PinIndex(p, h)].hash, t, u);
      }
    } else {
      var u := TrackedSinceSome(steps, 0);
      IsLonger(steps, p[0].hash, p[at].hash, u, t);
    }
  }

  lemma IsLonger(steps: seq<Step>, g: Hash, h: Hash, t: nat, u: nat)
    requires Longer(steps, g, h) && TrackedSince(steps, g, t) && TrackedSince(steps, h, u)
    ensures t < u
  {
  }
}
