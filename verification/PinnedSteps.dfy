/**
 One step of a follow, block by block: who still holds each block afterwards, and which blocks are
 unpinned upstream, in which order.
 */
module PinnedSteps {
  import opened Collections
  import opened PinnedBlocks
  import opened PinnedBlocksProperties
  import opened PinnedEviction

  /** The local takes part in the follow. */
  predicate Acts(s: State, y: Step) {
    (y.Unpin? || y.Unsubscribe?) && y.local in s.locals
  }

  /** A further block is tracked at the bound, and `h` is the oldest. */
  predicate Evicts(s: State, y: Step, h: Hash) {
    NewlyTracked(s, y).Some? && |s.pins| + 1 >= MAX_HASHES && s.pins != [] && s.pins[0].hash == h
  }

  /** Who holds `h` after the step: nobody when it is not tracked. */
  function HoldersAfter(s: State, y: Step, h: Hash): set<Local> {
    var was := HoldersOf(s.pins, h);
    if y.Unfollow? then {}
    else if y.Unpin? && Acts(s, y) && y.hash == h then
      (if IsTracked(s.pins, h) then was * s.locals else s.locals) - {y.local}
    else if y.Unsubscribe? && Acts(s, y) then was - {y.local}
    else if Evicts(s, y, h) then {}
    else was
  }

  /** The step takes the last holder of `h`. */
  predicate Finishes(s: State, y: Step, h: Hash) {
    && Acts(s, y) && HoldersAfter(s, y, h) == {}
    && if y.Unpin? then y.hash == h else HoldersOf(s.pins, h) != {}
  }

  function OnlyHeldBy(local: Local): Pin -> bool {
    (p: Pin) => p.holders - {local} == {}
  }

  function Hashes(pins: Pins): (r: seq<Hash>)
    ensures |r| == |pins|
  {
    seq(|pins|, i requires 0 <= i < |pins| => pins[i].hash)
  }

  /** An unsubscription unpins the blocks that only this local held, oldest first. */
  lemma {:induction false} UnsubscribedSends(pins: Pins, local: Local)
    ensures Unsubscribed(pins, local).sent == Hashes(Filter(pins, OnlyHeldBy(local)))
  {
    if pins != [] {
      UnsubscribedSends(pins[1..], local);
    }
  }

  lemma {:induction false} UnsubscribedHolders(pins: Pins, local: Local, h: Hash)
    requires WellKept(pins)
    ensures HoldersOf(Unsubscribed(pins, local).pins, h) == HoldersOf(pins, h) - {local}
  {
    if pins != [] {
      var p, rest := pins[0], Unsubscribed(pins[1..], local).pins;
      assert WellKept(pins[1..]);
      UnsubscribedHolders(pins[1..], local, h);
      HoldersOfFirst(pins, h);
      if p.holders - {local} != {} {
        var r := Unsubscribed(pins, local).pins;
        assert r[1..] == rest;
        HoldersOfFirst(r, h);
      } else if p.hash == h {
        NotTrackedTwice(pins, h);
      }
    }
  }

  lemma HoldersOfFirst(pins: Pins, h: Hash)
    requires pins != []
    ensures HoldersOf(pins, h) == if pins[0].hash == h then pins[0].holders else HoldersOf(pins[1..], h)
  {
  }

  lemma NotTrackedTwice(pins: Pins, h: Hash)
    requires WellKept(pins) && pins != [] && pins[0].hash == h
    ensures HoldersOf(pins[1..], h) == {}
  {
  }

  lemma {:induction false} OnlyHeldAreSent(pins: Pins, local: Local, h: Hash)
    requires WellKept(pins)
    ensures h in Hashes(Filter(pins, OnlyHeldBy(local))) <==> HoldersOf(pins, h) != {} && HoldersOf(pins, h) <= {local}
  {
    var kept := Filter(pins, OnlyHeldBy(local));
    var i := PinIndex(pins, h);
    if h in Hashes(kept) {
      var k :| 0 <= k < |kept| && Hashes(kept)[k] == h;
      assert kept[k] in kept;
      var j :| 0 <= j < |pins| && pins[j] == kept[k];
      assert i == j;
    }
    if i < |pins| && pins[i].holders <= {local} {
      assert pins[i] in kept;
      var k :| 0 <= k < |kept| && kept[k] == pins[i];
      assert Hashes(kept)[k] == h;
    }
  }

  lemma GrownHolders(pins: Pins, hash: Hash, locals: set<Local>, h: Hash)
    requires WellKept(pins) && !IsTracked(pins, hash) && h != hash
    ensures HoldersOf(StartTracking(pins, hash, locals), h)
         == if |pins| + 1 >= MAX_HASHES && pins != [] && pins[0].hash == h then {} else HoldersOf(pins, h)
  {
    HoldersBesideNew(pins, Pin(hash, locals), h);
    var grown := pins + [Pin(hash, locals)];
    if |grown| >= MAX_HASHES && pins != [] {
      HoldersOfFirst(grown, h);
      HoldersOfFirst(pins, h);
      if pins[0].hash == h {
        NotTrackedTwice(pins, h);
        assert grown[1..] == pins[1..] + [Pin(hash, locals)];
        HoldersBesideNew(pins[1..], Pin(hash, locals), h);
      }
    }
  }

  lemma UnpinTells(s: State, y: Step, h: Hash)
    requires WellKept(s.pins) && y.Unpin? && y.local in s.locals
    ensures HoldersOf(Effect(s, y).0.pins, h) == HoldersAfter(s, y, h)
    ensures Effect(s, y).1 == if Finishes(s, y, y.hash) then [y.hash] else []
  {
    hide Hold, StartTracking, WellKept;
    var i := PinIndex(s.pins, y.hash);
    UnpinnedKeeps(s.pins, y.local, s.locals, y.hash);
    DistinctPins(s.pins);
    if i < |s.pins| {
      var holders := s.pins[i].holders * s.locals - {y.local};
      HeldTells(s.pins, i, holders, h);
    } else {
      StartKeeps(s.pins, y.hash, s.locals);
      var grown := StartTracking(s.pins, y.hash, s.locals);
      HeldTells(grown, |grown| - 1, s.locals - {y.local}, h);
      if h != y.hash {
        GrownHolders(s.pins, y.hash, s.locals, h);
      }
    }
  }

  lemma DistinctPins(pins: Pins)
    requires WellKept(pins)
    ensures forall a, b :: 0 <= a < b < |pins| ==> pins[a].hash != pins[b].hash
  {
  }

  lemma HeldTells(pins: Pins, i: nat, holders: set<Local>, h: Hash)
    requires i < |pins| && WellKept(Hold(pins, i, holders).pins)
    requires forall a, b :: 0 <= a < b < |pins| ==> pins[a].hash != pins[b].hash
    ensures HoldersOf(Hold(pins, i, holders).pins, h) == if h == pins[i].hash then holders else HoldersOf(pins, h)
    ensures Hold(pins, i, holders).sent == if holders == {} then [pins[i].hash] else []
  {
    HoldersAfterHold(pins, i, holders, h);
  }

  /**
   Every step of every run, block by block: it leaves each block the holders it should, and unpins upstream
   just the blocks whose last holder it takes - the one being unpinned, or, when a local unsubscribes,
   those that it alone held, oldest first.
   */
  lemma EveryStepTells(steps: seq<Step>, y: Step, h: Hash)
    ensures var s := Run(steps);
            && HoldersOf(Effect(s, y).0.pins, h) == HoldersAfter(s, y, h)
            && (h in Effect(s, y).1 <==> Finishes(s, y, h))
            && Effect(s, y).1 == (if y.Unsubscribe? && Acts(s, y) then Hashes(Filter(s.pins, OnlyHeldBy(y.local)))
                                  else if y.Unpin? && Finishes(s, y, y.hash) then [y.hash] else [])
  {
    hide Run, WellKept, HoldersOf;
    TrackingIsBounded(steps);
    var s := Run(steps);
    if Acts(s, y) {
      match y {
        case Unpin(_, _) => UnpinTells(s, y, h);
        case Unsubscribe(l) =>
          UnsubscribedHolders(s.pins, l, h);
          UnsubscribedSends(s.pins, l);
          OnlyHeldAreSent(s.pins, l, h);
      }
    } else {
      NothingHeld(h);
    }
  }

  lemma NothingHeld(h: Hash)
    ensures HoldersOf([], h) == {}
  {
  }
}
