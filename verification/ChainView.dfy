/**
 The chain as a chainHead client sees it: what each follow event means, and which streams of
 follow events a node may send (the `chainHead_v1_follow` page of the Polkadot JSON-RPC
 interface specification).
 */
module ChainView {
  import opened Collections
  import opened BlockTracker
  import opened StateManager

  /** `blocks` holds the live blocks, those reported and neither finalized nor pruned. */
  datatype View = View(finalized: Hash, blocks: map<Hash, Block>, best: Option<Hash>, runtime: Option<string>)

  const BLANK := View(ABSENT, map[], None, None)

  /** The runtime after `hashes` are finalized in order: the last change among them, if any. */
  function RuntimeAfter(runtime: Option<string>, blocks: map<Hash, Block>, hashes: seq<Hash>): Option<string> {
    if hashes == [] then runtime
    else
      var h := Last(hashes);
      if h in blocks && blocks[h].runtime.Some? then blocks[h].runtime
      else RuntimeAfter(runtime, blocks, hashes[..|hashes| - 1])
  }

  function Seen(v: View, ev: Event): View {
    match ev
    case Initialized(o) => View(Last(o.hashes), map[], None, o.runtime)
    case NewBlock(b) => v.(blocks := v.blocks[b.hash := b])
    case BestBlockChanged(h) => v.(best := Some(h))
    case Finalized(hashes, pruned) =>
      View(Last(hashes), v.blocks - SetOf(hashes) - SetOf(pruned), v.best, RuntimeAfter(v.runtime, v.blocks, hashes))
    case Stop => v
    case OtherEvent(_) => v
  }

  function Folded(v: View, events: seq<Event>): View {
    if events == [] then v
    else Seen(Folded(v, events[..|events| - 1]), events[|events| - 1])
  }

  lemma {:induction false} FoldedAppend(v: View, a: seq<Event>, b: seq<Event>)
    ensures Folded(v, a + b) == Folded(Folded(v, a), b)
  {
    if b == [] {
      assert a + b == a;
    } else {
      FoldedAppend(v, a, b[..|b| - 1]);
      var s := a + b;
      assert s[..|s| - 1] == a + b[..|b| - 1] && s[|s| - 1] == b[|b| - 1];
    }
  }

  /** The best block, which is the finalized one as long as no other was announced. */
  function Head(v: View): Hash {
    if v.best.Some? then v.best.value else v.finalized
  }

  ghost predicate SameChain(a: View, b: View) {
    a.finalized == b.finalized && a.blocks == b.blocks && Head(a) == Head(b)
  }

  // ---------------------------------------------------------------- well-formed streams

  predicate IsAlive(v: View, h: Hash) {
    h == v.finalized || h in v.blocks
  }

  ghost predicate ChildAt(blocks: map<Hash, Block>, path: seq<Hash>, i: int)
    requires 0 < i < |path|
  {
    path[i] in blocks && blocks[path[i]].parent == path[i - 1]
  }

  /** Each member of `path` after the first is a live block whose parent is the member before it. */
  ghost predicate IsPath(blocks: map<Hash, Block>, path: seq<Hash>) {
    forall i :: 0 < i < |path| ==> ChildAt(blocks, path, i)
  }

  ghost predicate Leads(blocks: map<Hash, Block>, path: seq<Hash>, ancestor: Hash, h: Hash) {
    |path| > 1 && path[0] == ancestor && path[|path| - 1] == h && IsPath(blocks, path)
  }

  ghost predicate Descends(blocks: map<Hash, Block>, h: Hash, ancestor: Hash) {
    exists path :: Leads(blocks, path, ancestor, h)
  }

  /** A view together with every hash announced so far, in order. */
  datatype Chain = Chain(view: View, announced: seq<Hash>)

  function Grown(announced: seq<Hash>, ev: Event): seq<Hash> {
    match ev
    case Initialized(o) => o.hashes
    case NewBlock(b) => announced + [b.hash]
    case _ => announced
  }

  function ChainAfter(events: seq<Event>): Chain {
    if events == [] then Chain(BLANK, [])
    else
      var n := |events| - 1;
      var was := ChainAfter(events[..n]);
      Chain(Seen(was.view, events[n]), Grown(was.announced, events[n]))
  }

  lemma {:induction false} ChainFollowsView(events: seq<Event>)
    ensures ChainAfter(events).view == Folded(BLANK, events)
  {
    if events != [] {
      ChainFollowsView(events[..|events| - 1]);
    }
  }

  /** The blocks a node must report as pruned: live, on no branch with the new finalized block. */
  ghost predicate PrunesExactly(v: View, hashes: seq<Hash>, pruned: seq<Hash>) {
    forall h :: h in pruned <==> h in v.blocks && h !in hashes && !Descends(v.blocks, h, Last(hashes))
  }

  /**
   What a node may send next. A new block has a fresh hash and a live parent, and fewer than
   `max` hashes were announced since the finalized one. The best block is live. A finalized event
   lists a path of live blocks from the current finalized block, prunes exactly the abandoned
   branches, and leaves an announced best block on the finalized branch.
   */
  ghost predicate Permitted(c: Chain, ev: Event, max: nat) {
    match ev
    case Initialized(_) => false
    case NewBlock(b) =>
      && b.hash != ABSENT && b.hash !in c.announced && IsAlive(c.view, b.parent)
      && |c.announced| - PositionOf(c.announced, c.view.finalized) < max
    case BestBlockChanged(h) => IsAlive(c.view, h)
    case Finalized(hashes, pruned) =>
      && hashes != [] && IsPath(c.view.blocks, [c.view.finalized] + hashes)
      && PrunesExactly(c.view, hashes, pruned)
      && (c.view.best.Some? ==>
            var best := c.view.best.value;
            best == Last(hashes) || Descends(c.view.blocks, best, Last(hashes)))
    case Stop => false
    case OtherEvent(_) => true
  }

  ghost predicate OpensWell(ev: Event) {
    && ev.Initialized? && ev.opening.hashes != []
    && Distinct(ev.opening.hashes) && ABSENT !in ev.opening.hashes
  }

  ghost predicate WellFormed(events: seq<Event>, max: nat) {
    && max > 0
    && (events != [] ==> OpensWell(events[0]))
    && forall i :: 0 < i < |events| ==> Permitted(ChainAfter(events[..i]), events[i], max)
  }

  lemma WellFormedPrefix(events: seq<Event>, n: nat, max: nat)
    requires WellFormed(events, max) && n <= |events|
    ensures WellFormed(events[..n], max)
  {
    forall i | 0 < i < n ensures Permitted(ChainAfter(events[..n][..i]), events[..n][i], max) {
      assert events[..n][..i] == events[..i];
    }
  }
}
