/**
 Late joiners see the same chain: on every well-formed stream the snapshot stays the forest of
 live blocks, and replaying it and then following the live stream leads to the view of a client
 that followed from the start.
 */
module LateJoin {
  import opened Collections
  import opened BlockTracker
  import opened StateManager
  import opened ChainView

  // ---------------------------------------------------------------- ranks and paths

  lemma {:induction false} RankGrows(announced: seq<Hash>, x: Hash, h: Hash)
    requires h in announced || h == x
    ensures PositionOf(announced + [x], h) == if h in announced then PositionOf(announced, h) else |announced|
  {
    if announced != [] {
      var s := announced + [x];
      assert s[0] == announced[0] && s[1..] == announced[1..] + [x];
      if announced[0] != h {
        RankGrows(announced[1..], x, h);
      }
    }
  }

  /** A live block was announced after its parent, which is live as well. */
  ghost predicate RootedAt(v: View, announced: seq<Hash>, h: Hash) {
    h in v.blocks ==>
      var b := v.blocks[h];
      && b.hash == h && h in announced && IsAlive(v, b.parent)
      && PositionOf(announced, v.finalized) <= PositionOf(announced, b.parent) < PositionOf(announced, h)
  }

  ghost predicate Rooted(v: View, announced: seq<Hash>) {
    v.finalized in announced && forall h :: RootedAt(v, announced, h)
  }

  lemma {:induction false} PathRanks(v: View, announced: seq<Hash>, path: seq<Hash>, i: nat, j: nat)
    requires Rooted(v, announced) && IsPath(v.blocks, path) && i < j < |path|
    ensures PositionOf(announced, path[i]) < PositionOf(announced, path[j])
    decreases j
  {
    if i < j - 1 {
      PathRanks(v, announced, path, i, j - 1);
    }
    assert ChildAt(v.blocks, path, j);
    assert RootedAt(v, announced, path[j]);
  }

  lemma DescendsRank(v: View, announced: seq<Hash>, h: Hash, ancestor: Hash)
    requires Rooted(v, announced) && Descends(v.blocks, h, ancestor)
    ensures h in v.blocks && PositionOf(announced, ancestor) < PositionOf(announced, h)
  {
    var path :| Leads(v.blocks, path, ancestor, h);
    PathRanks(v, announced, path, 0, |path| - 1);
    assert ChildAt(v.blocks, path, |path| - 1);
  }

  lemma DescendsParent(blocks: map<Hash, Block>, h: Hash, ancestor: Hash)
    requires Descends(blocks, h, ancestor)
    ensures h in blocks && (blocks[h].parent == ancestor || Descends(blocks, blocks[h].parent, ancestor))
  {
    var path :| Leads(blocks, path, ancestor, h);
    var n := |path| - 1;
    assert ChildAt(blocks, path, n);
    if n > 1 {
      var shorter := path[..n];
      forall i | 0 < i < n ensures ChildAt(blocks, shorter, i) {
        assert ChildAt(blocks, path, i);
      }
      assert Leads(blocks, shorter, ancestor, path[n - 1]);
    }
  }

  /** The newly finalized hashes are live and none ranks above the last of them. */
  lemma FinalizedRanks(v: View, announced: seq<Hash>, hashes: seq<Hash>, h: Hash)
    requires Rooted(v, announced) && hashes != [] && IsPath(v.blocks, [v.finalized] + hashes) && h in hashes
    ensures h in v.blocks && PositionOf(announced, h) <= PositionOf(announced, Last(hashes))
    ensures v.blocks[h].parent == v.finalized || v.blocks[h].parent in hashes
  {
    var path := [v.finalized] + hashes;
    var i :| 0 <= i < |hashes| && hashes[i] == h;
    var k := i + 1;
    assert path[k] == h && path[|hashes|] == Last(hashes);
    assert ChildAt(v.blocks, path, k);
    if k < |hashes| {
      PathRanks(v, announced, path, k, |hashes|);
    }
    if i > 0 {
      assert path[i] == hashes[i - 1];
    }
  }

  // ---------------------------------------------------------------- one finalized event

  function StillAlive(v: View): Block -> bool {
    (b: Block) => b.hash in v.blocks
  }

  ghost predicate Ascending(blocks: seq<Block>, announced: seq<Hash>) {
    forall i, j :: 0 <= i < j < |blocks| ==>
      PositionOf(announced, blocks[i].hash) < PositionOf(announced, blocks[j].hash)
  }

  /** `blocks` lists the live blocks of the view in the order of their announcement. */
  ghost predicate Lists(blocks: seq<Block>, c: Chain) {
    && Ascending(blocks, c.announced)
    && forall b :: b in blocks <==> b.hash in c.view.blocks && c.view.blocks[b.hash] == b
  }

  lemma {:induction false} FilterAscending(blocks: seq<Block>, announced: seq<Hash>, keep: Block -> bool)
    requires Ascending(blocks, announced)
    ensures Ascending(Filter(blocks, keep), announced)
  {
    if blocks != [] {
      assert Ascending(blocks[1..], announced);
      FilterAscending(blocks[1..], announced, keep);
      var rest := Filter(blocks[1..], keep);
      forall j | 0 <= j < |rest| ensures PositionOf(announced, blocks[0].hash) < PositionOf(announced, rest[j].hash) {
        assert rest[j] in blocks[1..];
      }
    }
  }

  /** Children of pruned blocks are pruned themselves. */
  lemma PrunedDownward(v: View, announced: seq<Hash>, hashes: seq<Hash>, pruned: seq<Hash>, h: Hash)
    requires Rooted(v, announced) && hashes != [] && IsPath(v.blocks, [v.finalized] + hashes)
    requires PrunesExactly(v, hashes, pruned) && h in v.blocks && v.blocks[h].parent in pruned
    ensures h in pruned
  {
    var p := v.blocks[h].parent;
    assert RootedAt(v, announced, h) && RootedAt(v, announced, p);
    if h in hashes {
      FinalizedRanks(v, announced, hashes, h);
      assert false;
    }
    if Descends(v.blocks, h, Last(hashes)) {
      DescendsParent(v.blocks, h, Last(hashes));
      assert false;
    }
  }

  /**
   The program's three steps at a finalized event - drop pruned blocks and their children, find the
   finalized block, cut the prefix up to it - leave exactly the descendants of the finalized block.
   */
  lemma CutIsExact(c: Chain, blocks: seq<Block>, hashes: seq<Hash>, pruned: seq<Hash>, max: nat)
    requires Rooted(c.view, c.announced) && Lists(blocks, c) && Permitted(c, Finalized(hashes, pruned), max)
    ensures DropThrough(Filter(blocks, Survives(pruned)), Last(hashes))
         == Filter(blocks, StillAlive(Seen(c.view, Finalized(hashes, pruned))))
    ensures forall b :: b in blocks ==>
              (StillAlive(Seen(c.view, Finalized(hashes, pruned)))(b)
               <==> Descends(c.view.blocks, b.hash, Last(hashes)))
  {
    forall b | b in blocks
      ensures StillAlive(Seen(c.view, Finalized(hashes, pruned)))(b) <==> Descends(c.view.blocks, b.hash, Last(hashes))
    {
      AliveIsDescendant(c, b, hashes, pruned, max);
    }
    var v, f := c.view, Last(hashes);
    FinalizedRanks(v, c.announced, hashes, f);
    assert RootedAt(v, c.announced, f);
    assert v.blocks[f] in blocks;
    var i :| 0 <= i < |blocks| && blocks[i] == v.blocks[f];
    SideOfCut(c, blocks, hashes, pruned, max, i);
    CutBetween(blocks, i, f, Survives(pruned), StillAlive(Seen(v, Finalized(hashes, pruned))));
  }

  /** After a finalized event the live blocks are the descendants of the finalized one. */
  lemma AliveIsDescendant(c: Chain, b: Block, hashes: seq<Hash>, pruned: seq<Hash>, max: nat)
    requires Rooted(c.view, c.announced) && b.hash in c.view.blocks && Permitted(c, Finalized(hashes, pruned), max)
    ensures StillAlive(Seen(c.view, Finalized(hashes, pruned)))(b) <==> Descends(c.view.blocks, b.hash, Last(hashes))
  {
    if b.hash in hashes && Descends(c.view.blocks, b.hash, Last(hashes)) {
      FinalizedRanks(c.view, c.announced, hashes, b.hash);
      DescendsRank(c.view, c.announced, b.hash, Last(hashes));
    }
  }

  lemma CutBetween(blocks: seq<Block>, i: nat, f: Hash, keep: Block -> bool, alive: Block -> bool)
    requires i < |blocks| && blocks[i].hash == f && keep(blocks[i]) && !alive(blocks[i])
    requires forall b :: b in blocks[..i] ==> !alive(b) && b.hash != f
    requires forall b :: b in blocks[i + 1..] ==> keep(b) == alive(b)
    ensures DropThrough(Filter(blocks, keep), f) == Filter(blocks, alive)
  {
    var before, after := blocks[..i], blocks[i + 1..];
    FilterAround(blocks, i, keep);
    FilterAround(blocks, i, alive);
    FilterNothing(before, alive);
    FilterAgree(after, keep, alive);
    CutAt(Filter(before, keep), blocks[i], Filter(after, keep));
  }

  lemma CutAt(head: seq<Block>, b: Block, tail: seq<Block>)
    requires forall x :: x in head ==> x.hash != b.hash
    ensures DropThrough(head + ([b] + tail), b.hash) == tail
  {
    var all := head + ([b] + tail);
    var i := IndexOfHash(all, b.hash);
    assert all[|head|] == b;
    assert forall k :: 0 <= k < |head| ==> all[k] in head;
    assert all[|head| + 1..] == tail;
  }

  /** Blocks listed up to the finalized one are not among its descendants; later ones are unless pruned. */
  lemma SideOfCut(c: Chain, blocks: seq<Block>, hashes: seq<Hash>, pruned: seq<Hash>, max: nat, i: nat)
    requires Rooted(c.view, c.announced) && Lists(blocks, c) && Permitted(c, Finalized(hashes, pruned), max)
    requires i < |blocks| && blocks[i].hash == Last(hashes)
    ensures var alive := StillAlive(Seen(c.view, Finalized(hashes, pruned)));
            && Survives(pruned)(blocks[i]) && !alive(blocks[i])
            && (forall b :: b in blocks[..i] ==> !alive(b) && b.hash != Last(hashes))
            && (forall b :: b in blocks[i + 1..] ==> Survives(pruned)(b) == alive(b))
  {
    var v, f := c.view, Last(hashes);
    FinalizedRanks(v, c.announced, hashes, f);
    assert blocks[i] in blocks;
    forall b | b in blocks[..i] ensures b.hash in hashes || b.hash in pruned {
      assert b in blocks;
      if b.hash !in hashes && b.hash !in pruned {
        DescendsRank(v, c.announced, b.hash, f);
      }
    }
    forall b | b in blocks[..i] ensures b.hash != f {
    }
    if blocks[i].parent in pruned {
      PrunedDownward(v, c.announced, hashes, pruned, f);
    }
    forall b | b in blocks[i + 1..]
      ensures Survives(pruned)(b) == (b.hash in v.blocks && b.hash !in hashes && b.hash !in pruned)
    {
      assert b in blocks;
      if b.hash in hashes {
        FinalizedRanks(v, c.announced, hashes, b.hash);
        assert false;
      }
      if b.parent in pruned {
        PrunedDownward(v, c.announced, hashes, pruned, b.hash);
      }
    }
  }

  // ---------------------------------------------------------------- known hashes under eviction

  /** Known hashes were all announced and are held in the order of their announcement. */
  ghost predicate Climbing(known: seq<Hash>, announced: seq<Hash>) {
    && (forall h :: h in known ==> h in announced)
    && forall i, j :: 0 <= i < j < |known| ==> PositionOf(announced, known[i]) < PositionOf(announced, known[j])
  }

  lemma {:induction false} ClimbingBound(known: seq<Hash>, announced: seq<Hash>, n: nat)
    requires Climbing(known, announced) && n < |known|
    ensures PositionOf(announced, known[0]) + n <= PositionOf(announced, known[n]) < |announced|
  {
    assert known[n] in known;
    if n > 0 {
      ClimbingBound(known, announced, n - 1);
    }
  }

  lemma RanksStable(announced: seq<Hash>, x: Hash)
    ensures forall h :: h in announced ==> PositionOf(announced + [x], h) == PositionOf(announced, h)
    ensures x !in announced ==> PositionOf(announced + [x], x) == |announced|
  {
    forall h | h in announced ensures PositionOf(announced + [x], h) == PositionOf(announced, h) {
      RankGrows(announced, x, h);
    }
    RankGrows(announced, x, x);
  }

  lemma GrownClimbs(known: seq<Hash>, announced: seq<Hash>, x: Hash)
    requires Climbing(known, announced) && x !in announced
    ensures Climbing(known + [x], announced + [x])
  {
    RanksStable(announced, x);
  }

  /** Announcing a hash evicts at most one known hash, and only one older than the finalized hash. */
  lemma EvictionSparesTheLiving(known: seq<Hash>, announced: seq<Hash>, finalized: Hash, x: Hash, max: nat)
    requires Climbing(known, announced) && |known| <= max && finalized in announced
    requires x != ABSENT && x !in announced && |announced| - PositionOf(announced, finalized) < max
    ensures var k := Recorded(known, x, max);
            && Climbing(k, announced + [x]) && |k| <= max && x in k
            && forall h :: h in known && PositionOf(announced, finalized) <= PositionOf(announced, h) ==> h in k
  {
    hide Climbing, PositionOf;
    ClimbingMembers(known, announced);
    assert x !in known;
    GrownClimbs(known, announced, x);
    if |known| == max {
      OldestRanks(known, announced, finalized);
      OldestDropped(known, announced, x, PositionOf(announced, finalized));
      assert Recorded(known, x, max) == (known + [x])[1..];
    } else {
      assert Recorded(known, x, max) == known + [x];
      assert (known + [x])[|known|] == x;
    }
  }

  lemma ClimbingMembers(known: seq<Hash>, announced: seq<Hash>)
    requires Climbing(known, announced)
    ensures forall h :: h in known ==> h in announced
  {
  }

  lemma OldestRanks(known: seq<Hash>, announced: seq<Hash>, finalized: Hash)
    requires known != [] && Climbing(known, announced)
    requires |announced| - PositionOf(announced, finalized) < |known|
    ensures PositionOf(announced, known[0]) < PositionOf(announced, finalized)
  {
    ClimbingBound(known, announced, |known| - 1);
  }

  lemma OldestDropped(known: seq<Hash>, announced: seq<Hash>, x: Hash, rank: nat)
    requires known != [] && Climbing(known + [x], announced + [x]) && PositionOf(announced, known[0]) < rank
    ensures var k := (known + [x])[1..];
            && Climbing(k, announced + [x]) && x in k
            && forall h :: h in known && rank <= PositionOf(announced, h) ==> h in k
  {
    hide PositionOf;
    var k := (known + [x])[1..];
    assert k[|k| - 1] == x;
    forall i, j | 0 <= i < j < |k| ensures PositionOf(announced + [x], k[i]) < PositionOf(announced + [x], k[j]) {
      assert k[i] == (known + [x])[i + 1] && k[j] == (known + [x])[j + 1];
    }
    forall h | h in known && rank <= PositionOf(announced, h) ensures h in k {
      var i :| 0 <= i < |known| && known[i] == h;
      assert k[i - 1] == h;
    }
  }

  lemma KnownHashStays(known: seq<Hash>, h: Hash, max: nat)
    requires h in known && |known| <= max
    ensures Recorded(known, h, max) == known
  {
  }

  lemma {:induction false} ForgottenKeepsRest(t: Tracked, hashes: seq<Hash>, announced: seq<Hash>)
    requires t.pending == [] && Climbing(t.known, announced)
    ensures var r := Forgotten(t, hashes);
            && r.pending == [] && Climbing(r.known, announced) && |r.known| <= |t.known|
            && forall h :: h in r.known <==> h in t.known && h !in hashes
  {
    if hashes != [] {
      var n := |hashes| - 1;
      ForgottenKeepsRest(t, hashes[..n], announced);
      assert hashes == hashes[..n] + [hashes[n]];
      FilterClimbing(Forgotten(t, hashes[..n]).known, announced, OtherThan(hashes[n]));
    }
  }

  lemma {:induction false} FilterClimbing(known: seq<Hash>, announced: seq<Hash>, keep: Hash -> bool)
    requires Climbing(known, announced)
    ensures Climbing(Filter(known, keep), announced)
  {
    if known != [] {
      var tail := known[1..];
      assert Climbing(tail, announced) by {
        forall i, j | 0 <= i < j < |tail| ensures PositionOf(announced, tail[i]) < PositionOf(announced, tail[j]) {
          assert tail[i] == known[i + 1] && tail[j] == known[j + 1];
        }
      }
      FilterClimbing(tail, announced, keep);
      if keep(known[0]) {
        PrependClimbing(known[0], tail, Filter(tail, keep), announced);
      }
    }
  }

  lemma PrependClimbing(h: Hash, tail: seq<Hash>, rest: seq<Hash>, announced: seq<Hash>)
    requires Climbing([h] + tail, announced) && Climbing(rest, announced)
    requires forall x :: x in rest ==> x in tail
    ensures Climbing([h] + rest, announced)
  {
    var all := [h] + tail;
    assert h in all;
    forall x | x in rest ensures PositionOf(announced, h) < PositionOf(announced, x) {
      var k :| 0 <= k < |tail| && tail[k] == x;
      assert all[k + 1] == x && all[0] == h;
    }
    forall i, j | 0 <= i < j < |[h] + rest|
      ensures PositionOf(announced, ([h] + rest)[i]) < PositionOf(announced, ([h] + rest)[j])
    {
      assert ([h] + rest)[j] == rest[j - 1] && rest[j - 1] in rest;
      assert i > 0 ==> ([h] + rest)[i] == rest[i - 1];
    }
  }

  lemma {:induction false} RankOfDistinct(hashes: seq<Hash>, i: nat)
    requires Distinct(hashes) && i < |hashes|
    ensures PositionOf(hashes, hashes[i]) == i
  {
    if i > 0 {
      RankOfDistinct(hashes[1..], i - 1);
    }
  }

  lemma RecordedNew(known: seq<Hash>, h: Hash, max: nat)
    requires h !in known && h != ABSENT
    ensures Recorded(known, h, max) == if |known| < max then known + [h] else (known + [h])[|known| + 1 - max..]
  {
  }

  /** Remembering the opening hashes keeps the newest of them. */
  lemma {:induction false} RecordedSuffix(hashes: seq<Hash>, max: nat)
    requires Distinct(hashes) && ABSENT !in hashes
    ensures RecordedAll([], hashes, max) == Newest(hashes, max)
  {
    if hashes != [] {
      hide Recorded, Newest;
      var n := |hashes| - 1;
      RecordedSuffix(hashes[..n], max);
      assert hashes == hashes[..n] + [hashes[n]];
      SuffixGrows(hashes, max);
    }
  }

  function Newest(hashes: seq<Hash>, max: nat): seq<Hash> {
    if |hashes| > max then hashes[|hashes| - max..] else hashes
  }

  lemma SuffixGrows(hashes: seq<Hash>, max: nat)
    requires hashes != [] && Distinct(hashes) && ABSENT !in hashes
    ensures var n := |hashes| - 1;
            Recorded(Newest(hashes[..n], max), hashes[n], max) == Newest(hashes, max)
  {
    var n := |hashes| - 1;
    var was := Newest(hashes[..n], max);
    assert hashes == hashes[..n] + [hashes[n]] && hashes[n] !in hashes[..n];
    RecordedNew(was, hashes[n], max);
    assert n > max ==> was + [hashes[n]] == hashes[n - max..];
  }

  // ---------------------------------------------------------------- the snapshot invariant

  /** The snapshot `s` holds exactly what the chain `c` still has alive. */
  ghost predicate Tracks(s: Snapshot, c: Chain, max: nat) {
    && s.pending == [] && |s.known| <= max && ABSENT !in c.announced
    && Rooted(c.view, c.announced) && Lists(s.newBlocks, c)
    && Climbing(s.known, c.announced)
    && (forall h :: IsAlive(c.view, h) ==> h in s.known)
    && s.initialized.Some? && s.initialized.value.hashes != []
    && Last(s.initialized.value.hashes) == c.view.finalized
    && (s.best == c.view.best || (s.best.None? && c.view.best == Some(c.view.finalized)))
    && (c.view.best.Some? ==> IsAlive(c.view, c.view.best.value))
  }

  lemma SuffixClimbs(hashes: seq<Hash>, k: nat)
    requires Distinct(hashes) && k <= |hashes|
    ensures Climbing(hashes[k..], hashes)
  {
    var known := hashes[k..];
    forall i | 0 <= i < |known| ensures PositionOf(hashes, known[i]) == k + i {
      RankOfDistinct(hashes, k + i);
    }
  }

  lemma OpeningKnown(hashes: seq<Hash>, max: nat)
    requires hashes != [] && Distinct(hashes) && ABSENT !in hashes && max > 0
    ensures var known := RecordedAll([], hashes, max);
            Climbing(known, hashes) && |known| <= max && Last(hashes) in known
  {
    RecordedSuffix(hashes, max);
    var k := if |hashes| > max then |hashes| - max else 0;
    assert RecordedAll([], hashes, max) == hashes[k..];
    assert hashes[k..][|hashes| - 1 - k] == Last(hashes);
    SuffixClimbs(hashes, k);
  }

  lemma OpeningTracks(h: Hub, ev: Event, max: nat)
    requires h.snap == EMPTY && OpensWell(ev) && max > 0
    ensures Tracks(Handled(h, ev, max).0.snap, ChainAfter([ev]), max)
  {
    var o := ev.opening;
    assert ChainAfter([ev]) == Chain(Seen(BLANK, ev), o.hashes) by {
      assert [ev][..0] == [];
    }
    OpeningKnown(o.hashes, max);
    var known := RecordedAll([], o.hashes, max);
    assert Handled(h, ev, max).0.snap
        == Snapshot(Some(o), Some(Last(o.hashes)), o.runtime, None, [], known, []);
    assert Rooted(Seen(BLANK, ev), o.hashes);
    assert Lists([], ChainAfter([ev]));
  }

  lemma NewBlockTracks(h: Hub, c: Chain, b: Block, max: nat)
    requires Tracks(h.snap, c, max) && Permitted(c, NewBlock(b), max)
    ensures Handled(h, NewBlock(b), max).1 == [NewBlock(b)]
    ensures Tracks(Handled(h, NewBlock(b), max).0.snap,
                   Chain(Seen(c.view, NewBlock(b)), c.announced + [b.hash]), max)
  {
    hide Climbing, Lists, Rooted;
    assert IsAlive(c.view, b.parent) && Ready(b, h.snap.known);
    RootedGrows(c, b);
    KnownGrows(h.snap.known, c, b, max);
    AppendLists(h.snap.newBlocks, c, b);
    assert h.snap.newBlocks + [] + [b] == h.snap.newBlocks + [b];
  }

  lemma RootedGrows(c: Chain, b: Block)
    requires Rooted(c.view, c.announced) && IsAlive(c.view, b.parent) && b.hash !in c.announced
    ensures Rooted(Seen(c.view, NewBlock(b)), c.announced + [b.hash])
  {
    var v, next, announced := c.view, Seen(c.view, NewBlock(b)), c.announced + [b.hash];
    RanksStable(c.announced, b.hash);
    assert RootedAt(v, c.announced, b.hash) && RootedAt(v, c.announced, b.parent);
    forall x ensures RootedAt(next, announced, x) {
      assert RootedAt(v, c.announced, x);
      if x in v.blocks {
        assert RootedAt(v, c.announced, v.blocks[x].parent);
      }
    }
  }

  lemma KnownGrows(known: seq<Hash>, c: Chain, b: Block, max: nat)
    requires Rooted(c.view, c.announced) && Climbing(known, c.announced) && |known| <= max
    requires b.hash != ABSENT && b.hash !in c.announced
    requires |c.announced| - PositionOf(c.announced, c.view.finalized) < max
    requires forall h :: IsAlive(c.view, h) ==> h in known
    ensures var k := Recorded(known, b.hash, max);
            && Climbing(k, c.announced + [b.hash]) && |k| <= max
            && forall h :: IsAlive(Seen(c.view, NewBlock(b)), h) ==> h in k
  {
    EvictionSparesTheLiving(known, c.announced, c.view.finalized, b.hash, max);
    forall x | IsAlive(Seen(c.view, NewBlock(b)), x) ensures x in Recorded(known, b.hash, max) {
      assert RootedAt(c.view, c.announced, x);
    }
  }

  lemma AppendLists(blocks: seq<Block>, c: Chain, b: Block)
    requires Rooted(c.view, c.announced) && Lists(blocks, c) && b.hash !in c.announced
    ensures Lists(blocks + [b], Chain(Seen(c.view, NewBlock(b)), c.announced + [b.hash]))
  {
    hide PositionOf;
    RanksStable(c.announced, b.hash);
    var all, announced := blocks + [b], c.announced + [b.hash];
    forall x | x in blocks ensures x.hash in c.announced {
      assert RootedAt(c.view, c.announced, x.hash);
    }
    assert RootedAt(c.view, c.announced, b.hash);
    forall i, j | 0 <= i < j < |all| ensures PositionOf(announced, all[i].hash) < PositionOf(announced, all[j].hash) {
      assert all[i] == blocks[i] && blocks[i] in blocks;
      assert j < |blocks| ==> all[j] == blocks[j] && blocks[j] in blocks;
    }
  }

  lemma FinalizedHash(c: Chain, hashes: seq<Hash>, pruned: seq<Hash>, max: nat)
    requires Rooted(c.view, c.announced) && ABSENT !in c.announced && Permitted(c, Finalized(hashes, pruned), max)
    ensures Last(hashes) != ABSENT && IsAlive(c.view, Last(hashes)) && Last(hashes) !in pruned
  {
    FinalizedRanks(c.view, c.announced, hashes, Last(hashes));
    assert RootedAt(c.view, c.announced, Last(hashes));
  }

  lemma FinalizedSnap(h: Hub, c: Chain, hashes: seq<Hash>, pruned: seq<Hash>, max: nat)
    requires Tracks(h.snap, c, max) && Permitted(c, Finalized(hashes, pruned), max)
    ensures Last(hashes) != ABSENT
    ensures Handled(h, Finalized(hashes, pruned), max).0.snap
         == FinalizedBeforeFlush(h.snap, hashes, pruned, max).(
              known := Forgotten(Tracked(h.snap.known, []), pruned).known,
              pending := [],
              newBlocks := Filter(h.snap.newBlocks, StillAlive(Seen(c.view, Finalized(hashes, pruned)))))
  {
    hide Climbing, Rooted, Lists, Permitted, Filter, DropThrough, Recorded, Forgotten;
    var s, f := h.snap, Last(hashes);
    FinalizedHash(c, hashes, pruned, max);
    CutIsExact(c, s.newBlocks, hashes, pruned, max);
    ForgottenKeepsRest(Tracked(s.known, []), pruned, c.announced);
    var t := Forgotten(Tracked(s.known, []), pruned);
    KnownHashStays(t.known, f, max);
    var before := FinalizedBeforeFlush(s, hashes, pruned, max);
    assert before.known == t.known && before.pending == [];
    assert Flushed(t.known, [], max) == Flush(t.known, [], []);
  }

  lemma FinalizedTracks(h: Hub, c: Chain, hashes: seq<Hash>, pruned: seq<Hash>, max: nat)
    requires Tracks(h.snap, c, max) && Permitted(c, Finalized(hashes, pruned), max)
    ensures Tracks(Handled(h, Finalized(hashes, pruned), max).0.snap,
                   Chain(Seen(c.view, Finalized(hashes, pruned)), c.announced), max)
  {
    var s, v, next, f := h.snap, c.view, Seen(c.view, Finalized(hashes, pruned)), Last(hashes);
    FinalizedHash(c, hashes, pruned, max);
    FinalizedSnap(h, c, hashes, pruned, max);
    FinalizedForest(c, s.newBlocks, hashes, pruned, max);
    ForgottenKeepsRest(Tracked(s.known, []), pruned, c.announced);
    forall x | IsAlive(next, x) ensures x in Forgotten(Tracked(s.known, []), pruned).known {
      assert IsAlive(v, x);
    }
    if v.best.Some? && v.best.value != f {
      BestSurvives(c, hashes, pruned, max);
    }
  }

  lemma FinalizedForest(c: Chain, blocks: seq<Block>, hashes: seq<Hash>, pruned: seq<Hash>, max: nat)
    requires Rooted(c.view, c.announced) && Lists(blocks, c) && Permitted(c, Finalized(hashes, pruned), max)
    ensures var next := Chain(Seen(c.view, Finalized(hashes, pruned)), c.announced);
            Rooted(next.view, c.announced) && Lists(Filter(blocks, StillAlive(next.view)), next)
  {
    var v, next := c.view, Seen(c.view, Finalized(hashes, pruned));
    FinalizedRanks(v, c.announced, hashes, Last(hashes));
    FilterAscending(blocks, c.announced, StillAlive(next));
    assert RootedAt(v, c.announced, Last(hashes));
    forall x ensures RootedAt(next, c.announced, x) {
      assert RootedAt(v, c.announced, x);
      if x in next.blocks {
        SurvivorParent(c, hashes, pruned, max, x);
      }
    }
  }

  /** A block left alive has its parent alive, and descends from the new finalized block. */
  lemma SurvivorParent(c: Chain, hashes: seq<Hash>, pruned: seq<Hash>, max: nat, x: Hash)
    requires Rooted(c.view, c.announced) && Permitted(c, Finalized(hashes, pruned), max)
    requires x in Seen(c.view, Finalized(hashes, pruned)).blocks
    ensures var next := Seen(c.view, Finalized(hashes, pruned));
            var p := next.blocks[x].parent;
            IsAlive(next, p) && PositionOf(c.announced, Last(hashes)) <= PositionOf(c.announced, p)
  {
    var v, f := c.view, Last(hashes);
    assert x in v.blocks && x !in hashes && x !in pruned;
    DescendsParent(v.blocks, x, f);
    var p := v.blocks[x].parent;
    if p != f {
      DescendsRank(v, c.announced, p, f);
      if p in hashes {
        FinalizedRanks(v, c.announced, hashes, p);
        assert false;
      }
    }
  }

  lemma BestSurvives(c: Chain, hashes: seq<Hash>, pruned: seq<Hash>, max: nat)
    requires Rooted(c.view, c.announced) && Permitted(c, Finalized(hashes, pruned), max)
    requires c.view.best.Some? && c.view.best.value != Last(hashes)
    ensures c.view.best.value in Seen(c.view, Finalized(hashes, pruned)).blocks
    ensures c.view.best.value !in pruned && c.view.best.value != c.view.finalized
  {
    var v, f, best := c.view, Last(hashes), c.view.best.value;
    DescendsRank(v, c.announced, best, f);
    assert RootedAt(v, c.announced, best);
    FinalizedRanks(v, c.announced, hashes, f);
    if best in hashes {
      FinalizedRanks(v, c.announced, hashes, best);
      assert false;
    }
  }

  // ---------------------------------------------------------------- every reachable snapshot

  function SnapAfter(events: seq<Event>, max: nat): Snapshot {
    if events == [] then EMPTY
    else Handled(Hub(SnapAfter(events[..|events| - 1], max), false, []), events[|events| - 1], max).0.snap
  }

  lemma EventTracks(h: Hub, c: Chain, ev: Event, max: nat)
    requires Tracks(h.snap, c, max) && Permitted(c, ev, max)
    ensures Handled(h, ev, max).1 == [ev]
    ensures Tracks(Handled(h, ev, max).0.snap, Chain(Seen(c.view, ev), Grown(c.announced, ev)), max)
  {
    match ev {
      case NewBlock(b) => NewBlockTracks(h, c, b, max);
      case Finalized(hashes, pruned) => FinalizedTracks(h, c, hashes, pruned, max);
      case BestBlockChanged(b) =>
        KnownHashStays(h.snap.known, b, max);
        var next := Seen(c.view, ev);
        forall x ensures RootedAt(next, c.announced, x) {
          assert RootedAt(c.view, c.announced, x);
        }
      case OtherEvent(_) =>
    }
  }

  lemma {:induction false} SnapTracks(events: seq<Event>, max: nat)
    requires WellFormed(events, max) && events != []
    ensures Tracks(SnapAfter(events, max), ChainAfter(events), max)
  {
    var n := |events| - 1;
    var h := Hub(SnapAfter(events[..n], max), false, []);
    if n == 0 {
      assert events == [events[0]];
      OpeningTracks(h, events[0], max);
    } else {
      WellFormedPrefix(events, n, max);
      SnapTracks(events[..n], max);
      EventTracks(h, ChainAfter(events[..n]), events[n], max);
    }
  }

  function Replay(o: Opening, blocks: seq<Block>, best: Option<Hash>): seq<Event> {
    [Initialized(o)] + AsEvents(blocks) + (if best.Some? then [BestBlockChanged(best.value)] else [])
  }

  /** The replay is the opening, every new block, the announced best block: the known-parent filter drops nothing. */
  lemma ReplayIsWhole(s: Snapshot, c: Chain, max: nat)
    requires Tracks(s, c, max)
    ensures SnapshotEvents(s) == Replay(s.initialized.value, s.newBlocks, s.best)
  {
    var base := Replay(s.initialized.value, s.newBlocks, s.best);
    forall ev | ev in base ensures Replayable(s.known)(ev) {
      if ev.NewBlock? {
        assert ev.block in s.newBlocks;
        assert RootedAt(c.view, c.announced, ev.block.hash);
      }
    }
    FilterAll(base, Replayable(s.known));
  }

  /** In every state of a well-formed stream the snapshot is the forest of live blocks, parents first. */
  lemma SnapshotForest(events: seq<Event>, max: nat)
    requires WellFormed(events, max) && events != []
    ensures var s, v := SnapAfter(events, max), Folded(BLANK, events);
            && (forall b :: b in s.newBlocks <==> b.hash in v.blocks && v.blocks[b.hash] == b)
            && (forall h :: h in v.blocks ==> v.blocks[h].hash == h)
            && (forall i :: 0 <= i < |s.newBlocks| ==>
                  || s.newBlocks[i].parent == v.finalized
                  || exists j :: 0 <= j < i && s.newBlocks[j].hash == s.newBlocks[i].parent)
            && |SnapshotEvents(s)| == 1 + |s.newBlocks| + (if s.best.Some? then 1 else 0)
  {
    SnapTracks(events, max);
    ChainFollowsView(events);
    var s, c := SnapAfter(events, max), ChainAfter(events);
    ReplayIsWhole(s, c, max);
    forall h | h in c.view.blocks ensures c.view.blocks[h].hash == h {
      assert RootedAt(c.view, c.announced, h);
    }
    forall i | 0 <= i < |s.newBlocks| && s.newBlocks[i].parent != c.view.finalized
      ensures exists j :: 0 <= j < i && s.newBlocks[j].hash == s.newBlocks[i].parent
    {
      ParentListed(s.newBlocks, c, i);
    }
  }

  lemma ParentListed(blocks: seq<Block>, c: Chain, i: nat)
    requires Rooted(c.view, c.announced) && Lists(blocks, c) && i < |blocks|
    requires blocks[i].parent != c.view.finalized
    ensures exists j :: 0 <= j < i && blocks[j].hash == blocks[i].parent
  {
    var b := blocks[i];
    assert b in blocks && RootedAt(c.view, c.announced, b.hash) && RootedAt(c.view, c.announced, b.parent);
    var p := c.view.blocks[b.parent];
    assert p in blocks;
    var j :| 0 <= j < |blocks| && blocks[j] == p;
  }

  // ---------------------------------------------------------------- the same chain for late joiners

  /** What a late joiner's view may lack: the announcement that the best block is the finalized one. */
  ghost predicate Agrees(joiner: View, full: View) {
    && joiner.finalized == full.finalized && joiner.blocks == full.blocks
    && (joiner.best == full.best || (joiner.best.None? && full.best == Some(full.finalized)))
  }

  lemma {:induction false} FoldBlocks(v: View, blocks: seq<Block>)
    ensures var r := Folded(v, AsEvents(blocks));
            && r == v.(blocks := r.blocks)
            && (forall h :: h in r.blocks ==> h in v.blocks || exists b :: b in blocks && b.hash == h)
            && (forall b :: b in blocks ==> b.hash in r.blocks)
            && (forall h :: h in v.blocks ==> h in r.blocks)
    ensures forall h :: h in Folded(v, AsEvents(blocks)).blocks ==>
              var b := Folded(v, AsEvents(blocks)).blocks[h];
              (b in blocks && b.hash == h) || (h in v.blocks && v.blocks[h] == b)
  {
    hide Folded, AsEvents;
    if blocks == [] {
      FoldNone(v);
    } else {
      var n := |blocks| - 1;
      FoldBlocks(v, blocks[..n]);
      FoldOneMore(v, blocks);
      assert blocks == blocks[..n] + [blocks[n]];
    }
  }

  lemma FoldNone(v: View)
    ensures Folded(v, AsEvents([])) == v
  {
  }

  lemma FoldOneMore(v: View, blocks: seq<Block>)
    requires blocks != []
    ensures var n := |blocks| - 1;
            Folded(v, AsEvents(blocks)) == Seen(Folded(v, AsEvents(blocks[..n])), NewBlock(blocks[n]))
  {
    assert AsEvents(blocks)[..|blocks| - 1] == AsEvents(blocks[..|blocks| - 1]);
  }

  lemma FoldOne(v: View, ev: Event)
    ensures Folded(v, [ev]) == Seen(v, ev)
  {
    assert [ev][..0] == [];
  }

  lemma FoldReplay(o: Opening, blocks: seq<Block>, best: Option<Hash>)
    ensures var start := View(Last(o.hashes), map[], None, o.runtime);
            Folded(BLANK, Replay(o, blocks, best)) == Folded(start, AsEvents(blocks)).(best := best)
  {
    var start := View(Last(o.hashes), map[], None, o.runtime);
    FoldOne(BLANK, Initialized(o));
    FoldedAppend(BLANK, [Initialized(o)], AsEvents(blocks));
    FoldBlocks(start, blocks);
    var mid := Folded(start, AsEvents(blocks));
    if best.Some? {
      FoldedAppend(BLANK, [Initialized(o)] + AsEvents(blocks), [BestBlockChanged(best.value)]);
      FoldOne(mid, BestBlockChanged(best.value));
    } else {
      assert Replay(o, blocks, best) == [Initialized(o)] + AsEvents(blocks);
    }
  }

  lemma ListedBlocks(v: View, blocks: seq<Block>, c: Chain)
    requires v.blocks == map[] && Rooted(c.view, c.announced) && Lists(blocks, c)
    ensures Folded(v, AsEvents(blocks)).blocks == c.view.blocks
  {
    hide Folded, AsEvents;
    FoldBlocks(v, blocks);
    var r := Folded(v, AsEvents(blocks)).blocks;
    forall h | h in c.view.blocks ensures h in r && r[h] == c.view.blocks[h] {
      assert RootedAt(c.view, c.announced, h);
      assert c.view.blocks[h] in blocks;
    }
  }

  lemma ReplayAgrees(s: Snapshot, c: Chain, max: nat)
    requires Tracks(s, c, max)
    ensures Agrees(Folded(BLANK, SnapshotEvents(s)), c.view)
    ensures Folded(BLANK, SnapshotEvents(s)).runtime == s.initialized.value.runtime
  {
    var o := s.initialized.value;
    ReplayIsWhole(s, c, max);
    FoldReplay(o, s.newBlocks, s.best);
    FoldBlocks(View(Last(o.hashes), map[], None, o.runtime), s.newBlocks);
    ListedBlocks(View(Last(o.hashes), map[], None, o.runtime), s.newBlocks, c);
  }

  lemma EventAgrees(joiner: View, c: Chain, ev: Event, max: nat)
    requires Agrees(joiner, c.view) && Permitted(c, ev, max) && Rooted(c.view, c.announced)
    ensures Agrees(Seen(joiner, ev), Seen(c.view, ev))
  {
    if ev.Finalized? && joiner.best != c.view.best {
      FinalizedRanks(c.view, c.announced, ev.hashes, Last(ev.hashes));
      assert RootedAt(c.view, c.announced, Last(ev.hashes));
      if Descends(c.view.blocks, c.view.finalized, Last(ev.hashes)) {
        DescendsRank(c.view, c.announced, c.view.finalized, Last(ev.hashes));
      }
      assert false;
    }
  }

  /** What a client joining after `k` events is sent by the time all `events` have arrived. */
  function SentTo(events: seq<Event>, k: nat, max: nat): seq<Event>
    requires k <= |events|
  {
    SnapshotEvents(SnapAfter(events[..k], max)) + events[k..]
  }

  lemma {:induction false} SentAgrees(events: seq<Event>, k: nat, max: nat)
    requires WellFormed(events, max) && 0 < k <= |events|
    ensures Agrees(Folded(BLANK, SentTo(events, k, max)), Folded(BLANK, events))
    decreases |events|
  {
    hide SentTo, Agrees, SnapAfter;
    var n := |events| - 1;
    if k == n + 1 {
      SentAtOnce(events, max);
    } else {
      WellFormedPrefix(events, n, max);
      SentAgrees(events[..n], k, max);
      SnapTracks(events[..n], max);
      ChainFollowsView(events[..n]);
      SentOneMore(events, k, max);
      EventAgrees(Folded(BLANK, SentTo(events[..n], k, max)), ChainAfter(events[..n]), events[n], max);
    }
  }

  lemma SentAtOnce(events: seq<Event>, max: nat)
    requires WellFormed(events, max) && events != []
    ensures Agrees(Folded(BLANK, SentTo(events, |events|, max)), Folded(BLANK, events))
  {
    assert events[..|events|] == events;
    assert SentTo(events, |events|, max) == SnapshotEvents(SnapAfter(events, max));
    SnapTracks(events, max);
    ReplayAgrees(SnapAfter(events, max), ChainAfter(events), max);
    ChainFollowsView(events);
  }

  lemma SentOneMore(events: seq<Event>, k: nat, max: nat)
    requires k < |events|
    ensures var n := |events| - 1;
            Folded(BLANK, SentTo(events, k, max)) == Seen(Folded(BLANK, SentTo(events[..n], k, max)), events[n])
  {
    hide SnapshotEvents, SnapAfter, Seen;
    var n := |events| - 1;
    var sent, was := SentTo(events, k, max), SentTo(events[..n], k, max);
    assert events[..n][..k] == events[..k];
    assert sent == was + [events[n]];
    assert sent[..|sent| - 1] == was;
  }

  lemma SentOpensOnce(events: seq<Event>, k: nat, max: nat)
    requires WellFormed(events, max) && 0 < k <= |events|
    ensures var sent := SentTo(events, k, max);
            sent != [] && sent[0].Initialized? && forall i :: 0 < i < |sent| ==> !sent[i].Initialized?
  {
    hide SnapAfter, ChainAfter, SnapshotEvents;
    WellFormedPrefix(events, k, max);
    SnapTracks(events[..k], max);
    ReplayIsWhole(SnapAfter(events[..k], max), ChainAfter(events[..k]), max);
    forall i | k <= i < |events| ensures !events[i].Initialized? {
      assert Permitted(ChainAfter(events[..i]), events[i], max);
    }
  }

  // ---------------------------------------------------------------- every interleaving of joins and events

  datatype Step = Upstream(event: Event) | Join

  function Run(steps: seq<Step>, max: nat): Hub {
    if steps == [] then Hub(EMPTY, false, [])
    else
      var was := Run(steps[..|steps| - 1], max);
      match steps[|steps| - 1]
      case Upstream(ev) => Received(was, ev, max)
      case Join => Joined(was)
  }

  function EventsOf(steps: seq<Step>): seq<Event> {
    if steps == [] then []
    else
      var was := EventsOf(steps[..|steps| - 1]);
      match steps[|steps| - 1]
      case Upstream(ev) => was + [ev]
      case Join => was
  }

  /** For each client, in order of joining, how many events had arrived when it joined. */
  function JoinPoints(steps: seq<Step>): (r: seq<nat>)
    ensures forall n :: 0 <= n < |r| ==> r[n] <= |EventsOf(steps)|
  {
    if steps == [] then []
    else
      var was := JoinPoints(steps[..|steps| - 1]);
      match steps[|steps| - 1]
      case Upstream(ev) => was
      case Join => was + [|EventsOf(steps[..|steps| - 1])|]
  }

  /** A client that joined before the opening is served as if it joined right after it. */
  function ServedFrom(k: nat): nat { if k == 0 then 1 else k }

  ghost predicate Served(session: Session, events: seq<Event>, k: nat, max: nat)
    requires k <= |events|
  {
    if events == [] then session == Waiting else session == Attached(SentTo(events, ServedFrom(k), max))
  }

  lemma ReceivedSnap(h: Hub, ev: Event, max: nat)
    ensures Handled(h, ev, max).0.snap == Handled(Hub(h.snap, false, []), ev, max).0.snap
    ensures Handled(h, ev, max).1 == Handled(Hub(h.snap, false, []), ev, max).1
    ensures !ev.Initialized? ==> Handled(h, ev, max).0.sessions == h.sessions
    ensures !ev.Initialized? && !ev.Stop? ==> Handled(h, ev, max).0.ready == h.ready
  {
  }

  /**
   The handoff: for every interleaving of joins with a well-formed stream, each client is sent the
   replay of the snapshot at its join and then every later event exactly once, in order.
   */
  lemma {:induction false} HandoffIsExact(steps: seq<Step>, max: nat)
    requires WellFormed(EventsOf(steps), max)
    ensures var h, events := Run(steps, max), EventsOf(steps);
            && h.snap == SnapAfter(events, max) && (h.ready <==> events != [])
            && |h.sessions| == |JoinPoints(steps)|
            && forall n :: 0 <= n < |h.sessions| ==> Served(h.sessions[n], events, JoinPoints(steps)[n], max)
  {
    hide Received, Served, Handled, SnapshotEvents, Joined, WellFormed, SnapAfter, SentTo;
    if steps == [] {
      NothingAfter(max);
    } else {
      var n := |steps| - 1;
      var events, was := EventsOf(steps), EventsOf(steps[..n]);
      match steps[n] {
        case Upstream(ev) =>
          assert was == events[..|events| - 1];
          WellFormedPrefix(events, |events| - 1, max);
          HandoffIsExact(steps[..n], max);
          UpstreamStep(Run(steps[..n], max), was, ev, JoinPoints(steps[..n]), max);
        case Join =>
          HandoffIsExact(steps[..n], max);
          JoinStep(Run(steps[..n], max), was, max);
      }
    }
  }

  lemma NothingAfter(max: nat)
    ensures SnapAfter([], max) == EMPTY
  {
  }

  lemma JoinStep(h: Hub, events: seq<Event>, max: nat)
    requires h.snap == SnapAfter(events, max) && (h.ready <==> events != [])
    ensures var r := Joined(h);
            && r.snap == h.snap && r.ready == h.ready && |r.sessions| == |h.sessions| + 1
            && r.sessions[..|h.sessions|] == h.sessions && Served(r.sessions[|h.sessions|], events, |events|, max)
  {
    hide SnapAfter, SnapshotEvents;
    assert events[..|events|] == events && events[|events|..] == [];
  }

  lemma UpstreamStep(h: Hub, was: seq<Event>, ev: Event, points: seq<nat>, max: nat)
    requires WellFormed(was + [ev], max)
    requires h.snap == SnapAfter(was, max) && (h.ready <==> was != []) && |h.sessions| == |points|
    requires forall n :: 0 <= n < |points| ==> points[n] <= |was| && Served(h.sessions[n], was, points[n], max)
    ensures var r, events := Received(h, ev, max), was + [ev];
            && r.snap == SnapAfter(events, max) && r.ready && |r.sessions| == |points|
            && forall n :: 0 <= n < |points| ==> Served(r.sessions[n], events, points[n], max)
  {
    if was == [] {
      FirstStep(h, ev, points, max);
      assert was + [ev] == [ev];
    } else {
      LaterStep(h, was, ev, points, max);
    }
  }

  lemma FirstStep(h: Hub, ev: Event, points: seq<nat>, max: nat)
    requires OpensWell(ev) && h.snap == EMPTY && |h.sessions| == |points|
    requires forall n :: 0 <= n < |points| ==> points[n] == 0 && h.sessions[n] == Waiting
    ensures var r := Received(h, ev, max);
            && r.snap == SnapAfter([ev], max) && r.ready && |r.sessions| == |points|
            && forall n :: 0 <= n < |points| ==> Served(r.sessions[n], [ev], points[n], max)
  {
    ReceivedSnap(h, ev, max);
    OpeningStep(h, ev, max);
    assert [ev][..0] == [];
  }

  lemma LaterStep(h: Hub, was: seq<Event>, ev: Event, points: seq<nat>, max: nat)
    requires WellFormed(was + [ev], max) && was != []
    requires h.snap == SnapAfter(was, max) && h.ready && |h.sessions| == |points|
    requires forall n :: 0 <= n < |points| ==> points[n] <= |was| && Served(h.sessions[n], was, points[n], max)
    ensures var r, events := Received(h, ev, max), was + [ev];
            && r.snap == SnapAfter(events, max) && r.ready && |r.sessions| == |points|
            && forall n :: 0 <= n < |points| ==> Served(r.sessions[n], events, points[n], max)
  {
    hide SnapAfter, Received, SentTo, WellFormed;
    LiveStep(h, was, ev, max);
    forall n | 0 <= n < |points| ensures Served(Received(h, ev, max).sessions[n], was + [ev], points[n], max) {
      SentGrows(was, ev, ServedFrom(points[n]), max);
    }
  }

  lemma LiveStep(h: Hub, was: seq<Event>, ev: Event, max: nat)
    requires WellFormed(was + [ev], max) && was != [] && h.snap == SnapAfter(was, max) && h.ready
    ensures var r := Received(h, ev, max);
            && r.snap == SnapAfter(was + [ev], max) && r.ready && |r.sessions| == |h.sessions|
            && forall n :: 0 <= n < |h.sessions| && h.sessions[n].Attached? ==>
                 r.sessions[n] == Attached(h.sessions[n].sent + [ev])
  {
    hide Tracks;
    var events := was + [ev];
    assert events[..|was|] == was && events[|was|] == ev;
    ReceivedSnap(h, ev, max);
    WellFormedPrefix(events, |was|, max);
    SnapTracks(was, max);
    assert Permitted(ChainAfter(was), ev, max);
    EventTracks(h, ChainAfter(was), ev, max);
    assert Filter([ev], IsLive) == [ev];
  }

  lemma SentGrows(was: seq<Event>, ev: Event, k: nat, max: nat)
    requires k <= |was|
    ensures SentTo(was + [ev], k, max) == SentTo(was, k, max) + [ev]
  {
    assert (was + [ev])[..k] == was[..k];
    assert (was + [ev])[k..] == was[k..] + [ev];
  }

  lemma OpeningStep(h: Hub, ev: Event, max: nat)
    requires h.snap == EMPTY && OpensWell(ev)
    ensures var r := Received(h, ev, max);
            && r.ready && |r.sessions| == |h.sessions|
            && forall n :: 0 <= n < |h.sessions| && h.sessions[n].Waiting? ==>
                 r.sessions[n] == Attached(SentTo([ev], 1, max))
  {
    var o := ev.opening;
    var s := InitializedSnapshot(EMPTY, o, max);
    assert FlushInto(s, max) == s;
    assert [ev][..1] == [ev] && [ev][..0] == [];
    assert SnapAfter([ev], max) == s;
    assert Filter([ev], IsLive) == [];
  }

  /**
   Late-join equivalence: however joins interleave with a well-formed stream, every client that was
   attached has received exactly one `initialized`, first, and folding what it was sent gives the
   chain of a client that folded the whole history.
   */
  lemma LateJoinersSeeTheSameChain(steps: seq<Step>, n: nat, max: nat)
    requires WellFormed(EventsOf(steps), max) && EventsOf(steps) != []
    requires n < |Run(steps, max).sessions|
    ensures var session := Run(steps, max).sessions[n];
            && session.Attached?
            && SameChain(Folded(BLANK, session.sent), Folded(BLANK, EventsOf(steps)))
            && session.sent != [] && session.sent[0].Initialized?
            && forall i :: 0 < i < |session.sent| ==> !session.sent[i].Initialized?
  {
    HandoffIsExact(steps, max);
    var k := ServedFrom(JoinPoints(steps)[n]);
    SentAgrees(EventsOf(steps), k, max);
    SentOpensOnce(EventsOf(steps), k, max);
  }

  // ---------------------------------------------------------------- the end of the stream

  function ReceivedAll(h: Hub, events: seq<Event>, max: nat): Hub {
    if events == [] then h
    else Received(ReceivedAll(h, events[..|events| - 1], max), events[|events| - 1], max)
  }

  /**
   After a well-formed stream `stop` is the last thing every attached client hears, clients that still
   waited hear nothing, nothing that follows reaches any of them, and the state is as at the start.
   */
  lemma {:induction false} StopStartsAfresh(h: Hub, c: Chain, more: seq<Event>, max: nat)
    requires Tracks(h.snap, c, max)
    ensures var r := Received(h, Stop, max);
            && r.snap == EMPTY && !r.ready && |r.sessions| == |h.sessions|
            && (forall n :: 0 <= n < |h.sessions| ==>
                  r.sessions[n] == match h.sessions[n]
                                   case Waiting => Ended([])
                                   case Attached(sent) => Ended(sent + [Stop])
                                   case Ended(sent) => Ended(sent))
            && ReceivedAll(r, more, max).sessions == r.sessions
  {
    hide Tracks, Arrived;
    TracksNothingPending(h.snap, c, max);
    assert Flushed([], [], max) == Flush([], [], []);
    assert Filter([Stop], IsLive) == [Stop];
    NothingReachesTheEnded(Received(h, Stop, max), more, max);
  }

  lemma TracksNothingPending(s: Snapshot, c: Chain, max: nat)
    requires Tracks(s, c, max)
    ensures s.pending == []
  {
  }

  lemma EndedStayEnded(h: Hub, ev: Event, max: nat)
    requires forall n :: 0 <= n < |h.sessions| ==> h.sessions[n].Ended?
    ensures Received(h, ev, max).sessions == h.sessions
  {
    hide Arrived, FinalizedSnapshot, FlushInto, SnapshotEvents;
    assert Handled(h, ev, max).0.sessions == h.sessions;
  }

  lemma {:induction false} NothingReachesTheEnded(h: Hub, events: seq<Event>, max: nat)
    requires forall n :: 0 <= n < |h.sessions| ==> h.sessions[n].Ended?
    ensures ReceivedAll(h, events, max).sessions == h.sessions
  {
    if events != [] {
      hide Received;
      var n := |events| - 1;
      NothingReachesTheEnded(h, events[..n], max);
      EndedStayEnded(ReceivedAll(h, events[..n], max), events[n], max);
    }
  }
}
