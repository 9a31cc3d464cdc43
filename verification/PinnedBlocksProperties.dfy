/**
 Over every run of joins, unpins, unsubscribes and disconnects of one follow: a block is unpinned
 upstream only after every local that was present when its tracking began released it, tracking
 stays bounded, and with a fixed set of locals the unpin is sent exactly once.
 */
module PinnedBlocksProperties {
  import opened Collections
  import opened PinnedBlocks

  datatype State = State(locals: set<Local>, pins: Pins)

  datatype Step =
    | Join(local: Local)
    | Unpin(local: Local, hash: Hash)
    | Unsubscribe(local: Local)
    | Close(local: Local)
    | Unfollow

  /** One step. Only a subscribed local reaches the tracker; a closed socket leaves without telling it. */
  function Effect(s: State, y: Step): (State, seq<Hash>) {
    match y
    case Join(l) => (s.(locals := s.locals + {l}), [])
    case Unpin(l, hash) =>
      if l !in s.locals then (s, [])
      else var r := Unpinned(s.pins, l, s.locals, hash); (s.(pins := r.pins), r.sent)
    case Unsubscribe(l) =>
      if l !in s.locals then (s, [])
      else var r := Unsubscribed(s.pins, l); (State(s.locals - {l}, r.pins), r.sent)
    case Close(l) => (s.(locals := s.locals - {l}), [])
    case Unfollow => (State({}, []), [])
  }

  function RunFrom(start: State, steps: seq<Step>): State {
    if steps == [] then start
    else Effect(RunFrom(start, steps[..|steps| - 1]), steps[|steps| - 1]).0
  }

  function Run(steps: seq<Step>): State { RunFrom(State({}, []), steps) }

  function SentAt(steps: seq<Step>, k: nat): seq<Hash>
    requires k < |steps|
  {
    Effect(Run(steps[..k]), steps[k]).1
  }

  /** Everything sent by a run from `start`, in order. */
  function SentFrom(start: State, steps: seq<Step>): seq<Hash> {
    if steps == [] then []
    else
      var n := |steps| - 1;
      SentFrom(start, steps[..n]) + Effect(RunFrom(start, steps[..n]), steps[n]).1
  }

  function UnpinSteps(local: Local, hashes: seq<Hash>): (r: seq<Step>)
    ensures |r| == |hashes|
  {
    seq(|hashes|, i requires 0 <= i < |hashes| => Unpin(local, hashes[i]))
  }

  /** Unpinning several blocks at once leaves the pins, and sends the unpins, of unpinning them one after the other. */
  lemma {:induction false} UnpinsOneByOne(s: State, local: Local, hashes: seq<Hash>)
    requires local in s.locals
    ensures var all := UnpinnedAll(s.pins, local, s.locals, hashes);
            && RunFrom(s, UnpinSteps(local, hashes)) == s.(pins := all.pins)
            && SentFrom(s, UnpinSteps(local, hashes)) == all.sent
  {
    if hashes != [] {
      var n := |hashes| - 1;
      UnpinsOneByOne(s, local, hashes[..n]);
      assert UnpinSteps(local, hashes)[..n] == UnpinSteps(local, hashes[..n]);
    }
  }

  // ---------------------------------------------------------------- bounded tracking

  ghost predicate WellKept(pins: Pins) {
    && |pins| < MAX_HASHES
    && (forall i, j :: 0 <= i < j < |pins| ==> pins[i].hash != pins[j].hash)
    && forall i :: 0 <= i < |pins| ==> pins[i].holders != {}
  }

  lemma HoldKeeps(pins: Pins, i: nat, holders: set<Local>)
    requires i < |pins| < MAX_HASHES
    requires forall a, b :: 0 <= a < b < |pins| ==> pins[a].hash != pins[b].hash
    requires forall a :: 0 <= a < |pins| && a != i ==> pins[a].holders != {}
    ensures WellKept(Hold(pins, i, holders).pins)
  {
    var r := Hold(pins, i, holders).pins;
    if holders == {} {
      forall a | 0 <= a < |r| ensures r[a] == pins[if a < i then a else a + 1] {}
    }
  }

  lemma StartKeeps(pins: Pins, hash: Hash, locals: set<Local>)
    requires WellKept(pins) && !IsTracked(pins, hash)
    ensures var r := StartTracking(pins, hash, locals);
            && |r| < MAX_HASHES
            && (forall a, b :: 0 <= a < b < |r| ==> r[a].hash != r[b].hash)
            && (forall a :: 0 <= a < |r| - 1 ==> r[a].holders != {} && r[a] in pins)
  {
    var r := StartTracking(pins, hash, locals);
    var skipped := |pins| + 1 - |r|;
    forall a | 0 <= a < |r| - 1 ensures r[a] == pins[a + skipped] {}
  }

  lemma UnpinnedKeeps(pins: Pins, local: Local, locals: set<Local>, hash: Hash)
    requires WellKept(pins)
    ensures WellKept(Unpinned(pins, local, locals, hash).pins)
  {
    hide Hold, StartTracking;
    var i := PinIndex(pins, hash);
    if i < |pins| {
      HoldKeeps(pins, i, pins[i].holders * locals - {local});
    } else {
      StartKeeps(pins, hash, locals);
      var tracked := StartTracking(pins, hash, locals);
      HoldKeeps(tracked, |tracked| - 1, locals - {local});
    }
  }

  lemma {:induction false} UnsubscribedFrom(pins: Pins, local: Local)
    requires WellKept(pins)
    ensures forall q :: q in Unsubscribed(pins, local).pins ==> q.holders != {}
    ensures forall q :: q in Unsubscribed(pins, local).pins ==>
              exists p :: p in pins && p.hash == q.hash && p.holders - {local} == q.holders
    ensures forall h :: h in Unsubscribed(pins, local).sent ==>
              exists p :: p in pins && p.hash == h && p.holders <= {local}
    ensures |Unsubscribed(pins, local).pins| <= |pins|
  {
    if pins != [] {
      assert WellKept(pins[1..]);
      UnsubscribedFrom(pins[1..], local);
      assert forall p :: p in pins[1..] ==> p in pins;
      assert pins[0] in pins;
    }
  }

  lemma {:induction false} UnsubscribedKeeps(pins: Pins, local: Local)
    requires WellKept(pins)
    ensures WellKept(Unsubscribed(pins, local).pins)
  {
    UnsubscribedFrom(pins, local);
    if pins != [] {
      assert WellKept(pins[1..]);
      UnsubscribedKeeps(pins[1..], local);
      UnsubscribedFrom(pins[1..], local);
      var rest := Unsubscribed(pins[1..], local);
      if pins[0].holders - {local} != {} {
        forall a | 0 <= a < |rest.pins| ensures rest.pins[a].hash != pins[0].hash {
          var p :| p in pins[1..] && p.hash == rest.pins[a].hash;
        }
      }
    }
  }

  /** In every reachable state each tracked block has a holder and fewer than 512 blocks are tracked. */
  lemma {:induction false} TrackingIsBounded(steps: seq<Step>)
    ensures WellKept(Run(steps).pins) && |Run(steps).pins| <= 511
  {
    if steps != [] {
      var front, y := steps[..|steps| - 1], steps[|steps| - 1];
      TrackingIsBounded(front);
      var s := Run(front);
      match y {
        case Unpin(l, hash) => UnpinnedKeeps(s.pins, l, s.locals, hash);
        case Unsubscribe(l) => UnsubscribedKeeps(s.pins, l);
        case _ =>
      }
    }
  }

  // ---------------------------------------------------------------- safety

  predicate Leaves(y: Step, l: Local) {
    y == Unsubscribe(l) || y == Close(l) || y == Unfollow
  }

  predicate Releases(y: Step, l: Local, h: Hash) {
    y == Unpin(l, h) || Leaves(y, l)
  }

  /** Tracking of `h` begins at step `t`: the first unpin of a block nobody tracks. */
  predicate Begins(steps: seq<Step>, t: nat, h: Hash) {
    && t < |steps| && steps[t].Unpin? && steps[t].hash == h
    && steps[t].local in Run(steps[..t]).locals && !IsTracked(Run(steps[..t]).pins, h)
  }

  ghost predicate TrackedThroughout(steps: seq<Step>, t: nat, k: nat, h: Hash)
    requires k <= |steps|
  {
    forall i :: t < i <= k ==> IsTracked(Run(steps[..i]).pins, h)
  }

  ghost predicate ReleasedWithin(steps: seq<Step>, t: nat, k: nat, l: Local, h: Hash)
    requires k <= |steps|
  {
    exists j :: t <= j < k && Releases(steps[j], l, h)
  }

  /** Tracking of `h` began at `t` and lasted; who was there then holds it still or released it since. */
  ghost predicate Account(steps: seq<Step>, t: nat, h: Hash, holders: set<Local>) {
    && Begins(steps, t, h) && TrackedThroughout(steps, t, |steps|, h)
    && forall l :: l in Run(steps[..t]).locals ==> l in holders || ReleasedWithin(steps, t, |steps|, l, h)
  }

  /** How a pin after step `y`, or a sent unpin with no holders, comes from the state before it. */
  ghost predicate Derives(s: State, y: Step, h: Hash, holders: set<Local>) {
    || (exists p :: p in s.pins && p.hash == h
         && forall l :: l in p.holders ==> l in holders || Releases(y, l, h) || l !in s.locals)
    || (&& y.Unpin? && y.hash == h && y.local in s.locals && !IsTracked(s.pins, h)
        && forall l :: l in s.locals ==> l in holders || l == y.local)
  }

  lemma TrackedIffMember(pins: Pins, h: Hash)
    ensures IsTracked(pins, h) <==> exists p :: p in pins && p.hash == h
  {
    if IsTracked(pins, h) {
      assert pins[PinIndex(pins, h)] in pins;
    }
    if p :| p in pins && p.hash == h {
      var i :| 0 <= i < |pins| && pins[i] == p;
    }
  }

  lemma HoldMembers(pins: Pins, i: nat, holders: set<Local>)
    requires i < |pins|
    ensures forall q :: q in Hold(pins, i, holders).pins ==>
              q == Pin(pins[i].hash, holders) || exists j :: 0 <= j < |pins| && j != i && pins[j] == q
    ensures forall h :: h in Hold(pins, i, holders).sent ==> h == pins[i].hash && holders == {}
  {
    var r := Hold(pins, i, holders).pins;
    forall q | q in r && q != Pin(pins[i].hash, holders) ensures exists j :: 0 <= j < |pins| && j != i && pins[j] == q {
      var a :| 0 <= a < |r| && r[a] == q;
      assert q == pins[if holders == {} && a >= i then a + 1 else a];
    }
  }

  lemma UnpinnedDerives(s: State, y: Step)
    requires y.Unpin? && y.local in s.locals && WellKept(s.pins)
    ensures forall q :: q in Effect(s, y).0.pins ==> Derives(s, y, q.hash, q.holders)
    ensures forall h :: h in Effect(s, y).1 ==> Derives(s, y, h, {})
  {
    hide Derives, Hold, StartTracking, WellKept;
    var i := PinIndex(s.pins, y.hash);
    forall q | q in s.pins ensures Derives(s, y, q.hash, q.holders) {
      OldPinDerives(s, y, q);
    }
    if i < |s.pins| {
      var holders := s.pins[i].holders * s.locals - {y.local};
      HoldMembers(s.pins, i, holders);
      HeldPinDerives(s, y, s.pins[i], holders);
    } else {
      StartKeeps(s.pins, y.hash, s.locals);
      var tracked := StartTracking(s.pins, y.hash, s.locals);
      HoldMembers(tracked, |tracked| - 1, s.locals - {y.local});
      NewPinDerives(s, y);
    }
  }

  lemma OldPinDerives(s: State, y: Step, q: Pin)
    requires q in s.pins
    ensures Derives(s, y, q.hash, q.holders)
  {
  }

  lemma HeldPinDerives(s: State, y: Step, p: Pin, holders: set<Local>)
    requires p in s.pins && y.Unpin? && y.hash == p.hash && holders == p.holders * s.locals - {y.local}
    ensures Derives(s, y, y.hash, holders)
  {
  }

  lemma NewPinDerives(s: State, y: Step)
    requires y.Unpin? && y.local in s.locals && !IsTracked(s.pins, y.hash)
    ensures Derives(s, y, y.hash, s.locals - {y.local})
  {
  }

  lemma EffectDerives(s: State, y: Step)
    requires WellKept(s.pins)
    ensures forall q :: q in Effect(s, y).0.pins ==> Derives(s, y, q.hash, q.holders)
    ensures forall h :: h in Effect(s, y).1 ==> Derives(s, y, h, {})
  {
    match y {
      case Unpin(l, hash) => if l in s.locals { UnpinnedDerives(s, y); }
      case Unsubscribe(l) =>
        if l in s.locals {
          UnsubscribedFrom(s.pins, l);
          var r := Unsubscribed(s.pins, l);
          forall q | q in r.pins ensures Derives(s, y, q.hash, q.holders) {
            var p :| p in s.pins && p.hash == q.hash && p.holders - {l} == q.holders;
            assert forall x :: x in p.holders ==> x in q.holders || x == l;
          }
          forall h | h in r.sent ensures Derives(s, y, h, {}) {
            var p :| p in s.pins && p.hash == h && p.holders <= {l};
            assert forall x :: x in p.holders ==> x == l;
          }
        }
      case _ =>
    }
  }

  lemma {:induction false} AbsentHaveLeft(steps: seq<Step>, t: nat, l: Local, h: Hash)
    requires t <= |steps| && l in Run(steps[..t]).locals && l !in Run(steps).locals
    ensures ReleasedWithin(steps, t, |steps|, l, h)
  {
    var n := |steps| - 1;
    assert steps[..|steps|] == steps;
    if l in Run(steps[..n]).locals {
      assert Releases(steps[n], l, h);
    } else {
      assert steps[..n][..t] == steps[..t];
      AbsentHaveLeft(steps[..n], t, l, h);
      var j :| t <= j < n && Releases(steps[..n][j], l, h);
      assert Releases(steps[j], l, h);
    }
  }

  /** What was accounted for before a step is accounted for after it, among the holders that remain. */
  lemma AccountFor(steps: seq<Step>, y: Step, h: Hash, holders: set<Local>) returns (t: nat)
    requires Accounted(steps) && Derives(Run(steps), y, h, holders)
    ensures t <= |steps| && Begins(steps + [y], t, h) && TrackedThroughout(steps + [y], t, |steps|, h)
    ensures forall l :: l in Run((steps + [y])[..t]).locals ==>
              l in holders || ReleasedWithin(steps + [y], t, |steps| + 1, l, h)
  {
    hide Effect;
    var all, s, n := steps + [y], Run(steps), |steps|;
    assert all[..n] == steps;
    if p :| p in s.pins && p.hash == h
            && forall l :: l in p.holders ==> l in holders || Releases(y, l, h) || l !in s.locals {
      t :| Account(steps, t, h, p.holders);
      assert all[..t] == steps[..t];
      forall i | t < i <= n ensures IsTracked(Run(all[..i]).pins, h) {
        assert all[..i] == steps[..i];
      }
      forall l | l in Run(all[..t]).locals && l !in holders ensures ReleasedWithin(all, t, n + 1, l, h) {
        ReleaseCarries(steps, y, t, l, h, p.holders);
      }
    } else {
      t := n;
      assert Releases(all[n], y.local, h);
    }
  }

  lemma ReleaseCarries(steps: seq<Step>, y: Step, t: nat, l: Local, h: Hash, holders: set<Local>)
    requires Account(steps, t, h, holders) && l in Run(steps[..t]).locals
    requires l in holders ==> Releases(y, l, h) || l !in Run(steps).locals
    ensures ReleasedWithin(steps + [y], t, |steps| + 1, l, h)
  {
    var all := steps + [y];
    if l in holders && Releases(y, l, h) {
      assert Releases(all[|steps|], l, h);
    } else {
      if l in holders {
        AbsentHaveLeft(steps, t, l, h);
      }
      var j :| t <= j < |steps| && Releases(steps[j], l, h);
      assert Releases(all[j], l, h);
    }
  }

  ghost predicate Accounted(steps: seq<Step>) {
    forall p :: p in Run(steps).pins ==> exists t :: Account(steps, t, p.hash, p.holders)
  }

  lemma {:induction false} AlwaysAccounted(steps: seq<Step>)
    ensures Accounted(steps)
  {
    if steps != [] {
      var front, y := steps[..|steps| - 1], steps[|steps| - 1];
      assert steps == front + [y];
      hide Derives, Effect;
      AlwaysAccounted(front);
      TrackingIsBounded(front);
      assert Run(steps) == Effect(Run(front), y).0;
      EffectDerives(Run(front), y);
      forall q | q in Run(steps).pins ensures exists t :: Account(steps, t, q.hash, q.holders) {
        AccountKept(front, y, q);
      }
    }
  }

  lemma AccountKept(front: seq<Step>, y: Step, q: Pin)
    requires Accounted(front) && q in Run(front + [y]).pins && Derives(Run(front), y, q.hash, q.holders)
    ensures exists t :: Account(front + [y], t, q.hash, q.holders)
  {
    hide Derives, Effect, Begins, Accounted;
    var steps := front + [y];
    var t := AccountFor(front, y, q.hash, q.holders);
    TrackedIffMember(Run(steps).pins, q.hash);
    assert steps[..|steps|] == steps;
    assert TrackedThroughout(steps, t, |steps|, q.hash);
    assert Account(steps, t, q.hash, q.holders);
  }

  /**
   An unpin for `h` is sent at step `k` only if every local present when tracking of `h` began has
   unpinned `h` or left since, counting the step itself.
   */
  lemma UnpinIsSafe(steps: seq<Step>, k: nat, h: Hash)
    requires k < |steps| && h in SentAt(steps, k)
    ensures exists t: nat :: t <= k && Begins(steps, t, h) && TrackedThroughout(steps, t, k, h)
                     && forall l :: l in Run(steps[..t]).locals ==> ReleasedWithin(steps, t, k + 1, l, h)
  {
    var front, y := steps[..k], steps[k];
    var upTo := front + [y];
    assert upTo == steps[..k + 1];
    AlwaysAccounted(front);
    TrackingIsBounded(front);
    EffectDerives(Run(front), y);
    var t := AccountFor(front, y, h, {});
    assert forall i :: 0 <= i <= k ==> upTo[..i] == steps[..i];
    assert forall j :: 0 <= j <= k ==> upTo[j] == steps[j];
    assert Begins(steps, t, h);
    forall i | t < i <= k ensures IsTracked(Run(steps[..i]).pins, h) {
      assert upTo[..i] == steps[..i];
    }
    forall l | l in Run(steps[..t]).locals ensures ReleasedWithin(steps, t, k + 1, l, h) {
      assert upTo[..t] == steps[..t];
      var j :| t <= j < k + 1 && Releases(upTo[j], l, h);
      assert Releases(steps[j], l, h);
    }
  }

  // ---------------------------------------------------------------- locals that joined later

  /** Each of `locals` unpinned `h` or left from step `t` on, before step `k`. */
  ghost predicate AllReleased(steps: seq<Step>, locals: set<Local>, t: nat, k: nat, h: Hash)
    requires k <= |steps|
  {
    forall l :: l in locals ==> ReleasedWithin(steps, t, k, l, h)
  }

  /**
   When an unpin is right for everybody: an unpin sent at step `k` finds every current local done
   with the block exactly when the current locals that joined after tracking began are.
   */
  lemma UnpinIsRightIffLaterLocalsReleased(steps: seq<Step>, k: nat, h: Hash)
    requires k < |steps| && h in SentAt(steps, k)
    ensures exists t: nat :: t <= k && Begins(steps, t, h) && TrackedThroughout(steps, t, k, h)
              && (AllReleased(steps, Run(steps[..k]).locals, t, k + 1, h)
                  <==> AllReleased(steps, Run(steps[..k]).locals - Run(steps[..t]).locals, t, k + 1, h))
  {
    UnpinIsSafe(steps, k, h);
  }

  /** A local that joined after tracking began is not waited for: the block goes although it never unpinned it. */
  lemma LaterLocalsAreNotWaitedFor(h: Hash)
    ensures var steps := [Join("a"), Join("b"), Unpin("a", h), Join("c"), Unpin("b", h)];
            && SentAt(steps, 4) == [h] && "c" in Run(steps[..4]).locals
            && forall j :: 0 <= j < 5 ==> !Releases(steps[j], "c", h)
  {
    var steps := [Join("a"), Join("b"), Unpin("a", h), Join("c"), Unpin("b", h)];
    assert steps[..4] == [Join("a"), Join("b"), Unpin("a", h), Join("c")];
    ThreeLocals(h);
    LastOfTwo(h);
  }

  lemma ThreeLocals(h: Hash)
    ensures Run([Join("a"), Join("b"), Unpin("a", h), Join("c")]) == State({"a", "b", "c"}, [Pin(h, {"b"})])
  {
    RunSnoc([], Join("a"));
    RunSnoc([Join("a")], Join("b"));
    RunSnoc([Join("a"), Join("b")], Unpin("a", h));
    RunSnoc([Join("a"), Join("b"), Unpin("a", h)], Join("c"));
    FirstOfTwo(h);
    assert [] + [Join("a")] == [Join("a")] && [Join("a")] + [Join("b")] == [Join("a"), Join("b")];
    assert [Join("a"), Join("b")] + [Unpin("a", h)] == [Join("a"), Join("b"), Unpin("a", h)];
    assert [Join("a"), Join("b"), Unpin("a", h)] + [Join("c")] == [Join("a"), Join("b"), Unpin("a", h), Join("c")];
    assert {} + {"a"} == {"a"} && {"a"} + {"b"} == {"a", "b"} && {"a", "b"} + {"c"} == {"a", "b", "c"};
  }

  lemma LastOfTwo(h: Hash)
    ensures Effect(State({"a", "b", "c"}, [Pin(h, {"b"})]), Unpin("b", h)).1 == [h]
  {
    assert {"b"} * {"a", "b", "c"} - {"b"} == {};
  }

  lemma RunSnoc(steps: seq<Step>, y: Step)
    ensures Run(steps + [y]) == Effect(Run(steps), y).0
  {
    assert (steps + [y])[..|steps|] == steps;
  }

  lemma FirstOfTwo(h: Hash)
    ensures Unpinned([], "a", {"a", "b"}, h) == Outcome([Pin(h, {"b"})], [])
  {
    assert "a" != "b";
    assert {"a", "b"} - {"a"} == {"b"};
  }

  // ---------------------------------------------------------------- fixed membership

  function HashesIn(steps: seq<Step>): set<Hash> {
    set y | y in steps && y.Unpin? :: y.hash
  }

  /** Tracking the block of this step leaves the oldest tracked block in place. */
  predicate EvictsNone(s: State, y: Step) {
    y.Unpin? && !IsTracked(s.pins, y.hash) ==> |s.pins| + 1 < MAX_HASHES
  }

  /** Each of `locals` unpins each block at most once, and no step evicts a block. */
  ghost predicate Orderly(locals: set<Local>, steps: seq<Step>) {
    && (forall k :: 0 <= k < |steps| ==> steps[k].Unpin? && steps[k].local in locals)
    && Distinct(steps)
    && forall k :: 0 <= k < |steps| ==> EvictsNone(RunFrom(State(locals, []), steps[..k]), steps[k])
  }

  function Waiting(locals: set<Local>, steps: seq<Step>, h: Hash): set<Local> {
    set l | l in locals && Unpin(l, h) !in steps
  }

  function HoldersOf(pins: Pins, h: Hash): set<Local> {
    var i := PinIndex(pins, h);
    if i < |pins| then pins[i].holders else {}
  }

  /** Exactly the blocks unpinned by some but not all are tracked, for those who have not unpinned them. */
  ghost predicate TracksWaiting(locals: set<Local>, steps: seq<Step>, s: State) {
    && s.locals == locals && WellKept(s.pins)
    && (forall i :: 0 <= i < |s.pins| ==> s.pins[i].hash in HashesIn(steps))
    && forall h :: HoldersOf(s.pins, h) == if h in HashesIn(steps) then Waiting(locals, steps, h) else {}
  }

  lemma PinAt(pins: Pins, i: nat)
    requires WellKept(pins) && i < |pins|
    ensures PinIndex(pins, pins[i].hash) == i
  {
  }

  lemma HoldAt(pins: Pins, i: nat, holders: set<Local>)
    requires i < |pins|
    ensures var r := Hold(pins, i, holders).pins;
            if holders == {} then
              |r| == |pins| - 1 && forall a :: 0 <= a < |r| ==> r[a] == pins[if a >= i then a + 1 else a]
            else
              |r| == |pins| && forall a :: 0 <= a < |r| ==>
                                 r[a] == if a == i then pins[i].(holders := holders) else pins[a]
  {
  }

  lemma HoldersAfterHold(pins: Pins, i: nat, holders: set<Local>, h: Hash)
    requires i < |pins| && WellKept(Hold(pins, i, holders).pins)
    requires forall a, b :: 0 <= a < b < |pins| ==> pins[a].hash != pins[b].hash
    ensures HoldersOf(Hold(pins, i, holders).pins, h) == if h == pins[i].hash then holders else HoldersOf(pins, h)
  {
    hide Hold, PinIndex;
    HoldAt(pins, i, holders);
    var r, j := Hold(pins, i, holders).pins, PinIndex(pins, h);
    if j < |pins| && (j != i || holders != {}) {
      var at := if holders == {} && j > i then j - 1 else j;
      assert r[at].hash == h;
      PinAt(r, at);
    } else {
      forall a | 0 <= a < |r| ensures r[a].hash != h {
        assert r[a].hash == pins[if holders == {} && a >= i then a + 1 else a].hash;
      }
    }
  }

  lemma HashesInSnoc(steps: seq<Step>, y: Step)
    requires y.Unpin?
    ensures HashesIn(steps + [y]) == HashesIn(steps) + {y.hash}
  {
    var all := steps + [y];
    assert y in all;
    forall h | h in HashesIn(steps) ensures h in HashesIn(all) {
      var x :| x in steps && x.Unpin? && x.hash == h;
      assert x in all;
    }
  }

  lemma UntouchedWaits(locals: set<Local>, steps: seq<Step>, h: Hash)
    requires h !in HashesIn(steps)
    ensures Waiting(locals, steps, h) == locals
  {
    assert forall x :: x in steps && x.Unpin? ==> x.hash in HashesIn(steps);
  }

  lemma WaitingSnoc(locals: set<Local>, steps: seq<Step>, y: Step)
    requires y.Unpin?
    ensures Waiting(locals, steps + [y], y.hash) == Waiting(locals, steps, y.hash) - {y.local}
    ensures forall g :: g != y.hash ==> Waiting(locals, steps + [y], g) == Waiting(locals, steps, g)
  {
  }

  lemma FixedStep(locals: set<Local>, steps: seq<Step>, y: Step, s: State)
    requires TracksWaiting(locals, steps, s) && y.Unpin? && y.local in locals && y !in steps && EvictsNone(s, y)
    ensures TracksWaiting(locals, steps + [y], Effect(s, y).0)
    ensures Effect(s, y).1 == if Waiting(locals, steps + [y], y.hash) == {} then [y.hash] else []
  {
    WaitingSnoc(locals, steps, y);
    UnpinnedKeeps(s.pins, y.local, locals, y.hash);
    hide WellKept, HoldersOf, IsTracked, TracksWaiting, Effect, Waiting;
    if IsTracked(s.pins, y.hash) {
      TrackedStep(locals, steps, y, s);
    } else {
      FreshStep(locals, steps, y, s);
    }
    FixedAfter(locals, steps, y, s);
  }

  lemma FixedAfter(locals: set<Local>, steps: seq<Step>, y: Step, s: State)
    requires TracksWaiting(locals, steps, s) && y.Unpin? && y.local in locals && WellKept(Effect(s, y).0.pins)
    requires var waiting, r := Waiting(locals, steps, y.hash) - {y.local}, Effect(s, y);
             && (forall g :: HoldersOf(r.0.pins, g) == if g == y.hash then waiting else HoldersOf(s.pins, g))
             && (forall i :: 0 <= i < |r.0.pins| ==> r.0.pins[i].hash in HashesIn(steps) + {y.hash})
    ensures TracksWaiting(locals, steps + [y], Effect(s, y).0)
  {
    hide WellKept, HoldersOf, Waiting, HashesIn;
    HashesInSnoc(steps, y);
    WaitingSnoc(locals, steps, y);
  }

  lemma TrackedStep(locals: set<Local>, steps: seq<Step>, y: Step, s: State)
    requires TracksWaiting(locals, steps, s) && y.Unpin? && y.local in locals && IsTracked(s.pins, y.hash)
    requires WellKept(Effect(s, y).0.pins)
    ensures var waiting, r := Waiting(locals, steps, y.hash) - {y.local}, Effect(s, y);
            && r.1 == (if waiting == {} then [y.hash] else [])
            && (forall g :: HoldersOf(r.0.pins, g) == if g == y.hash then waiting else HoldersOf(s.pins, g))
            && (forall i :: 0 <= i < |r.0.pins| ==> r.0.pins[i].hash in HashesIn(steps) + {y.hash})
            && y.hash in HashesIn(steps)
  {
    var i := PinIndex(s.pins, y.hash);
    var waiting, r := Waiting(locals, steps, y.hash) - {y.local}, Effect(s, y);
    assert HoldersOf(s.pins, y.hash) == s.pins[i].holders;
    assert s.pins[i].holders * locals - {y.local} == waiting;
    forall g ensures HoldersOf(r.0.pins, g) == if g == y.hash then waiting else HoldersOf(s.pins, g) {
      HoldersAfterHold(s.pins, i, waiting, g);
    }
    HoldMembers(s.pins, i, waiting);
    forall a | 0 <= a < |r.0.pins| ensures r.0.pins[a].hash in HashesIn(steps) + {y.hash} {
      assert r.0.pins[a] in r.0.pins;
    }
  }

  lemma FreshStep(locals: set<Local>, steps: seq<Step>, y: Step, s: State)
    requires TracksWaiting(locals, steps, s) && y.Unpin? && y.local in locals && y !in steps
    requires |s.pins| + 1 < MAX_HASHES && !IsTracked(s.pins, y.hash)
    requires WellKept(Effect(s, y).0.pins)
    ensures var waiting, r := Waiting(locals, steps, y.hash) - {y.local}, Effect(s, y);
            && r.1 == (if waiting == {} then [y.hash] else [])
            && (forall g :: HoldersOf(r.0.pins, g) == if g == y.hash then waiting else HoldersOf(s.pins, g))
            && (forall i :: 0 <= i < |r.0.pins| ==> r.0.pins[i].hash in HashesIn(steps) + {y.hash})
  {
    var waiting, r := Waiting(locals, steps, y.hash) - {y.local}, Effect(s, y);
    var tracked := s.pins + [Pin(y.hash, locals)];
    FreshHash(locals, steps, y, s);
    forall g ensures HoldersOf(r.0.pins, g) == if g == y.hash then waiting else HoldersOf(s.pins, g) {
      HoldersAfterHold(tracked, |s.pins|, waiting, g);
      if g != y.hash {
        HoldersBesideNew(s.pins, Pin(y.hash, locals), g);
      }
    }
    HoldMembers(tracked, |s.pins|, waiting);
    forall a | 0 <= a < |r.0.pins| ensures r.0.pins[a].hash in HashesIn(steps) + {y.hash} {
      assert r.0.pins[a] in r.0.pins;
    }
  }

  lemma HoldersBesideNew(pins: Pins, p: Pin, g: Hash)
    requires p.hash != g
    ensures HoldersOf(pins + [p], g) == HoldersOf(pins, g)
  {
    var grown, j := pins + [p], PinIndex(pins, g);
    if j < |pins| {
      assert grown[j] == pins[j];
      assert forall k :: 0 <= k < j ==> grown[k] == pins[k];
    }
  }

  /** A block nobody tracks was never unpinned, and there is room to track it. */
  lemma FreshHash(locals: set<Local>, steps: seq<Step>, y: Step, s: State)
    requires TracksWaiting(locals, steps, s) && y.Unpin? && y.local in locals && y !in steps
    requires |s.pins| + 1 < MAX_HASHES && !IsTracked(s.pins, y.hash)
    ensures Waiting(locals, steps, y.hash) == locals
    ensures StartTracking(s.pins, y.hash, locals) == s.pins + [Pin(y.hash, locals)]
    ensures forall i :: 0 <= i < |s.pins| ==> s.pins[i].hash != y.hash
  {
    HashesInSnoc(steps, y);
    assert y.local in Waiting(locals, steps, y.hash);
    assert HoldersOf(s.pins, y.hash) == {};
    UntouchedWaits(locals, steps, y.hash);
  }

  lemma OrderlyPrefix(locals: set<Local>, steps: seq<Step>, k: nat)
    requires Orderly(locals, steps) && k <= |steps|
    ensures Orderly(locals, steps[..k])
  {
    hide EvictsNone, RunFrom;
    forall i | 0 <= i < k ensures EvictsNone(RunFrom(State(locals, []), steps[..k][..i]), steps[..k][i]) {
      assert steps[..k][..i] == steps[..i];
    }
  }

  lemma OrderlyLast(locals: set<Local>, steps: seq<Step>)
    requires Orderly(locals, steps) && steps != []
    ensures var front, y := steps[..|steps| - 1], steps[|steps| - 1];
            y.Unpin? && y.local in locals && y !in front && EvictsNone(RunFrom(State(locals, []), front), y)
  {
    hide EvictsNone, RunFrom;
  }

  lemma RunOneMore(start: State, steps: seq<Step>)
    requires steps != []
    ensures var n := |steps| - 1;
            var (s, sent) := Effect(RunFrom(start, steps[..n]), steps[n]);
            RunFrom(start, steps) == s && SentFrom(start, steps) == SentFrom(start, steps[..n]) + sent
  {
    hide Effect;
  }

  lemma LastStep(locals: set<Local>, steps: seq<Step>)
    requires Orderly(locals, steps) && steps != []
    requires var front := steps[..|steps| - 1]; TracksWaiting(locals, front, RunFrom(State(locals, []), front))
    ensures TracksWaiting(locals, steps, RunFrom(State(locals, []), steps))
    ensures var front, y := steps[..|steps| - 1], steps[|steps| - 1];
            Effect(RunFrom(State(locals, []), front), y).1
            == if Waiting(locals, steps, y.hash) == {} then [y.hash] else []
  {
    hide TracksWaiting, Effect, Orderly, EvictsNone, Waiting, RunFrom;
    var front, y := steps[..|steps| - 1], steps[|steps| - 1];
    assert steps == front + [y];
    OrderlyLast(locals, steps);
    FixedStep(locals, front, y, RunFrom(State(locals, []), front));
    RunOneMore(State(locals, []), steps);
  }

  lemma NothingTracked(locals: set<Local>)
    ensures TracksWaiting(locals, [], RunFrom(State(locals, []), []))
  {
  }

  lemma {:induction false} FixedRun(locals: set<Local>, steps: seq<Step>)
    requires Orderly(locals, steps)
    ensures TracksWaiting(locals, steps, RunFrom(State(locals, []), steps))
  {
    hide TracksWaiting, Orderly, RunFrom;
    if steps == [] {
      NothingTracked(locals);
    } else {
      OrderlyPrefix(locals, steps, |steps| - 1);
      FixedRun(locals, steps[..|steps| - 1]);
      LastStep(locals, steps);
    }
  }

  lemma WaitingEmpty(locals: set<Local>, steps: seq<Step>, h: Hash)
    ensures Waiting(locals, steps, h) == {} <==> forall l :: l in locals ==> Unpin(l, h) in steps
  {
    if Waiting(locals, steps, h) == {} {
      forall l | l in locals ensures Unpin(l, h) in steps {
        assert l !in Waiting(locals, steps, h);
      }
    }
  }

  /**
   With a fixed set of locals, each unpinning a block at most once, and no eviction: the upstream
   unpin of a block is sent at a step exactly when that step is the last local's unpin of it.
   */
  lemma UnpinnedOnceByTheLast(locals: set<Local>, steps: seq<Step>, k: nat, h: Hash)
    requires Orderly(locals, steps) && k < |steps|
    ensures h in Effect(RunFrom(State(locals, []), steps[..k]), steps[k]).1
       <==> steps[k].hash == h && forall l :: l in locals ==> Unpin(l, h) in steps[..k + 1]
  {
    hide Effect, TracksWaiting, Waiting, RunFrom;
    assert steps[..k + 1][..k] == steps[..k];
    OrderlyPrefix(locals, steps, k);
    OrderlyPrefix(locals, steps, k + 1);
    FixedRun(locals, steps[..k]);
    LastStep(locals, steps[..k + 1]);
    WaitingEmpty(locals, steps[..k + 1], h);
  }

  lemma LastOfAll(locals: set<Local>, front: seq<Step>, y: Step, h: Hash)
    requires y.Unpin? && y.local in locals && y !in front
    ensures h != y.hash ==> (Waiting(locals, front + [y], h) == {} <==> Waiting(locals, front, h) == {})
    ensures Waiting(locals, front, y.hash) != {}
  {
    assert y.local in Waiting(locals, front, y.hash);
    WaitingSnoc(locals, front, y);
  }

  lemma CountOneMore(sent: seq<Hash>, more: seq<Hash>, g: Hash, last: bool, h: Hash)
    requires more == if last then [g] else []
    ensures multiset(sent + more)[h] == multiset(sent)[h] + if last && g == h then 1 else 0
  {
    assert multiset(sent + more) == multiset(sent) + multiset(more);
  }

  /** A block is sent at the step after which nobody waits for it any more. */
  lemma SentLast(locals: set<Local>, steps: seq<Step>, h: Hash)
    requires Orderly(locals, steps) && steps != []
    ensures var front, start := steps[..|steps| - 1], State(locals, []);
            var before, after := Waiting(locals, front, h) == {}, Waiting(locals, steps, h) == {};
            && locals != {} && (before ==> after)
            && multiset(SentFrom(start, steps))[h]
               == multiset(SentFrom(start, front))[h] + if after && !before then 1 else 0
  {
    hide Effect, TracksWaiting, Waiting, Orderly, RunFrom, SentFrom;
    var front, y, start := steps[..|steps| - 1], steps[|steps| - 1], State(locals, []);
    OrderlyLast(locals, steps);
    LastOfAll(locals, front, y, h);
    assert front + [y] == steps;
    OrderlyPrefix(locals, steps, |front|);
    FixedRun(locals, front);
    LastStep(locals, steps);
    RunOneMore(start, steps);
    var more := Effect(RunFrom(start, front), y).1;
    CountOneMore(SentFrom(start, front), more, y.hash, Waiting(locals, steps, y.hash) == {}, h);
  }

  lemma {:induction false} SentOnceNobodyWaits(locals: set<Local>, steps: seq<Step>, h: Hash)
    requires Orderly(locals, steps)
    ensures multiset(SentFrom(State(locals, []), steps))[h]
         == if locals != {} && Waiting(locals, steps, h) == {} then 1 else 0
  {
    if steps == [] {
      assert Waiting(locals, steps, h) == locals;
    } else {
      hide Waiting, Orderly, SentFrom;
      OrderlyPrefix(locals, steps, |steps| - 1);
      SentOnceNobodyWaits(locals, steps[..|steps| - 1], h);
      SentLast(locals, steps, h);
    }
  }

  /**
   Over a whole run with fixed locals, each unpinning a block at most once, and no eviction: a block
   is unpinned upstream once if every local unpinned it, and otherwise not at all.
   */
  lemma UnpinnedExactlyOnce(locals: set<Local>, steps: seq<Step>, h: Hash)
    requires Orderly(locals, steps)
    ensures multiset(SentFrom(State(locals, []), steps))[h]
         == if locals != {} && (forall l :: l in locals ==> Unpin(l, h) in steps) then 1 else 0
  {
    hide SentFrom, Waiting;
    SentOnceNobodyWaits(locals, steps, h);
    WaitingEmpty(locals, steps, h);
  }
}
