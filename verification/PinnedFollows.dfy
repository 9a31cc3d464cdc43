/**
 The tracker of an upstream serves all its follows at once: whatever the others do, the blocks tracked
 for one follow, and the unpins sent for it, are those of a run of its own calls alone.
 */
module PinnedFollows {
  import opened Collections
  import opened PinnedBlocks
  import opened PinnedBlocksProperties

  /** What happens to one follow; a local unpins several blocks in one call. */
  datatype Action =
    | Subscribes(local: Local)
    | Unpins(local: Local, hashes: seq<Hash>)
    | Unsubscribes(local: Local)
    | Closes(local: Local)
    | Unfollows

  datatype Call = Call(sub: string, action: Action)

  /** The current locals of each follow and the blocks tracked for it. */
  datatype World = World(locals: map<string, set<Local>>, pinned: map<string, Pins>)

  const NO_FOLLOWS := World(map[], map[])

  function LocalsOf(w: World, sub: string): set<Local> {
    if sub in w.locals then w.locals[sub] else {}
  }

  /** One call, and the blocks unpinned upstream by it; a local that is not subscribed reaches no follow. */
  function Done(w: World, call: Call): (World, seq<Hash>) {
    var sub, locals := call.sub, LocalsOf(w, call.sub);
    match call.action
    case Subscribes(l) => (w.(locals := w.locals[sub := locals + {l}]), [])
    case Unpins(l, hashes) =>
      if l !in locals then (w, [])
      else
        var r := UnpinnedAll(PinsOf(w.pinned, sub), l, locals, hashes);
        (w.(pinned := Stored(w.pinned, sub, r.pins)), r.sent)
    case Unsubscribes(l) =>
      if l !in locals then (w, [])
      else
        var r := Unsubscribed(PinsOf(w.pinned, sub), l);
        (World(w.locals[sub := locals - {l}], Stored(w.pinned, sub, r.pins)), r.sent)
    case Closes(l) => (w.(locals := w.locals[sub := locals - {l}]), [])
    case Unfollows => (World(w.locals - {sub}, w.pinned - {sub}), [])
  }

  function WorldAfter(calls: seq<Call>): World {
    if calls == [] then NO_FOLLOWS else Done(WorldAfter(calls[..|calls| - 1]), calls[|calls| - 1]).0
  }

  /** Everything unpinned upstream for one follow, in order. */
  function SentFor(calls: seq<Call>, sub: string): seq<Hash> {
    if calls == [] then []
    else
      var n := |calls| - 1;
      SentFor(calls[..n], sub) + if calls[n].sub == sub then Done(WorldAfter(calls[..n]), calls[n]).1 else []
  }

  function AsSteps(action: Action): seq<Step> {
    match action
    case Subscribes(l) => [Join(l)]
    case Unpins(l, hashes) => UnpinSteps(l, hashes)
    case Unsubscribes(l) => [Unsubscribe(l)]
    case Closes(l) => [Close(l)]
    case Unfollows => [Unfollow]
  }

  /** The steps of one follow. */
  function OwnSteps(calls: seq<Call>, sub: string): seq<Step> {
    if calls == [] then []
    else
      var n := |calls| - 1;
      OwnSteps(calls[..n], sub) + if calls[n].sub == sub then AsSteps(calls[n].action) else []
  }

  function Own(w: World, sub: string): State {
    State(LocalsOf(w, sub), PinsOf(w.pinned, sub))
  }

  lemma RunFromSnoc(s: State, steps: seq<Step>, y: Step)
    ensures RunFrom(s, steps + [y]) == Effect(RunFrom(s, steps), y).0
    ensures SentFrom(s, steps + [y]) == SentFrom(s, steps) + Effect(RunFrom(s, steps), y).1
  {
    hide Effect;
    assert (steps + [y])[..|steps|] == steps;
  }

  ghost predicate Composes(s: State, a: seq<Step>, b: seq<Step>) {
    && RunFrom(s, a + b) == RunFrom(RunFrom(s, a), b)
    && SentFrom(s, a + b) == SentFrom(s, a) + SentFrom(RunFrom(s, a), b)
  }

  lemma ComposesNone(s: State, a: seq<Step>)
    ensures Composes(s, a, [])
  {
    assert a + [] == a;
  }

  lemma ComposesSnoc(s: State, a: seq<Step>, b: seq<Step>, y: Step)
    requires Composes(s, a, b)
    ensures Composes(s, a, b + [y])
  {
    hide RunFrom, SentFrom, Effect;
    assert a + (b + [y]) == (a + b) + [y];
    RunFromSnoc(s, a + b, y);
    RunFromSnoc(RunFrom(s, a), b, y);
  }

  /** A run of `a` and then `b` is a run of `b` from where `a` ends. */
  lemma {:induction false} RunsCompose(s: State, a: seq<Step>, b: seq<Step>)
    ensures Composes(s, a, b)
  {
    hide Composes;
    if b == [] {
      ComposesNone(s, a);
    } else {
      var front, y := b[..|b| - 1], b[|b| - 1];
      assert b == front + [y];
      RunsCompose(s, a, front);
      ComposesSnoc(s, a, front, y);
    }
  }

  lemma RunOfOne(s: State, y: Step)
    ensures RunFrom(s, [y]) == Effect(s, y).0 && SentFrom(s, [y]) == Effect(s, y).1
  {
    RunFromSnoc(s, [], y);
    assert [] + [y] == [y];
  }

  lemma {:induction false} StrangersUnpinNothing(s: State, local: Local, hashes: seq<Hash>)
    requires local !in s.locals
    ensures RunFrom(s, UnpinSteps(local, hashes)) == s && SentFrom(s, UnpinSteps(local, hashes)) == []
  {
    if hashes != [] {
      var n := |hashes| - 1;
      StrangersUnpinNothing(s, local, hashes[..n]);
      assert UnpinSteps(local, hashes)[..n] == UnpinSteps(local, hashes[..n]);
    }
  }

  /** A call does to its own follow what its steps do, and nothing to any other. */
  lemma CallIsItsSteps(w: World, call: Call, sub: string)
    ensures var (next, sent) := Done(w, call);
            if call.sub == sub then
              && Own(next, sub) == RunFrom(Own(w, sub), AsSteps(call.action))
              && sent == SentFrom(Own(w, sub), AsSteps(call.action))
            else Own(next, sub) == Own(w, sub)
  {
    hide UnpinnedAll, Unsubscribed, RunFrom, SentFrom;
    if call.sub == sub {
      var s := Own(w, sub);
      match call.action {
        case Unpins(l, hashes) =>
          if l in s.locals { UnpinsOneByOne(s, l, hashes); } else { StrangersUnpinNothing(s, l, hashes); }
        case Subscribes(l) => RunOfOne(s, Join(l));
        case Unsubscribes(l) => RunOfOne(s, Unsubscribe(l));
        case Closes(l) => RunOfOne(s, Close(l));
        case Unfollows => RunOfOne(s, Unfollow);
      }
    }
  }

  /**
   Over every interleaving of calls for any follows: the locals and the tracked blocks of each follow, and
   the unpins sent for it, are those of the run of its own steps alone, and a follow with nothing tracked
   has no entry.
   */
  lemma {:induction false} FollowsAreIndependent(calls: seq<Call>, sub: string)
    ensures var steps := OwnSteps(calls, sub);
            && LocalsOf(WorldAfter(calls), sub) == Run(steps).locals
            && PinsOf(WorldAfter(calls).pinned, sub) == Run(steps).pins
            && SentFor(calls, sub) == SentFrom(State({}, []), steps)
            && (sub in WorldAfter(calls).pinned <==> Run(steps).pins != [])
  {
    hide RunFrom, SentFrom, Effect;
    if calls == [] {
      NothingRun();
    } else {
      var n := |calls| - 1;
      FollowsAreIndependent(calls[..n], sub);
      var w, own := WorldAfter(calls[..n]), OwnSteps(calls[..n], sub);
      CallIsItsSteps(w, calls[n], sub);
      RunsCompose(State({}, []), own, AsSteps(calls[n].action));
      EntriesAreFull(w, calls[n], sub);
      assert own + [] == own && SentFor(calls[..n], sub) + [] == SentFor(calls[..n], sub);
    }
  }

  lemma NothingRun()
    ensures Run([]) == State({}, []) && SentFrom(State({}, []), []) == []
  {
  }

  lemma EntriesAreFull(w: World, call: Call, sub: string)
    requires sub in w.pinned ==> w.pinned[sub] != []
    ensures var next := Done(w, call).0; sub in next.pinned ==> next.pinned[sub] != []
  {
    hide UnpinnedAll, Unsubscribed;
  }
}
