/**
 Where late joining falls short of the full history, and exactly when: the runtime a late joiner
 believes in, and blocks released from the pending queue, which the live stream never emits.
 */
module LateJoinLimits {
  import opened Collections
  import opened BlockTracker
  import opened BlockTrackerProperties
  import opened StateManager
  import opened ChainView
  import opened LateJoin

  // ---------------------------------------------------------------- the runtime of the finalized block

  /** Finalizing `hashes` changes the runtime. */
  predicate ChangesRuntime(blocks: map<Hash, Block>, hashes: seq<Hash>) {
    exists h :: h in hashes && h in blocks && blocks[h].runtime.Some?
  }

  lemma {:induction false} RuntimeForgetsOnChange(one: Option<string>, other: Option<string>,
                                                  blocks: map<Hash, Block>, hashes: seq<Hash>)
    ensures if ChangesRuntime(blocks, hashes)
            then RuntimeAfter(one, blocks, hashes) == RuntimeAfter(other, blocks, hashes)
            else RuntimeAfter(one, blocks, hashes) == one
  {
    if hashes != [] {
      var front := hashes[..|hashes| - 1];
      assert hashes == front + [Last(hashes)];
      RuntimeForgetsOnChange(one, other, blocks, front);
      if Last(hashes) in blocks && blocks[Last(hashes)].runtime.Some? {
        assert ChangesRuntime(blocks, hashes);
      } else {
        assert ChangesRuntime(blocks, hashes) <==> ChangesRuntime(blocks, front);
      }
    }
  }

  predicate RefreshesAt(events: seq<Event>, i: nat) {
    && i < |events| && events[i].Finalized?
    && ChangesRuntime(Folded(BLANK, events[..i]).blocks, events[i].hashes)
  }

  /** Some finalized event from position `k` on finalizes a block that changed the runtime. */
  predicate RuntimeRefreshed(events: seq<Event>, k: nat) {
    exists i :: k <= i < |events| && RefreshesAt(events, i)
  }

  lemma {:induction false} OpeningRuntimeKept(events: seq<Event>, max: nat)
    requires WellFormed(events, max) && events != []
    ensures var s := SnapAfter(events, max);
            s.initialized.Some? && s.initialized.value.runtime == events[0].opening.runtime
  {
    hide Handled, ChainAfter;
    var n := |events| - 1;
    if n == 0 {
      OpeningRuntime(Hub(EMPTY, false, []), events[0], max);
      assert events == [events[0]];
      assert events[..0] == [];
    } else {
      WellFormedPrefix(events, n, max);
      OpeningRuntimeKept(events[..n], max);
      assert Permitted(ChainAfter(events[..n]), events[n], max);
      OpeningStays(Hub(SnapAfter(events[..n], max), false, []), events[n], max);
    }
  }

  lemma OpeningRuntime(h: Hub, ev: Event, max: nat)
    requires ev.Initialized?
    ensures Handled(h, ev, max).0.snap.initialized == Some(ev.opening)
  {
  }

  lemma OpeningStays(h: Hub, ev: Event, max: nat)
    requires !ev.Initialized? && !ev.Stop? && h.snap.initialized.Some?
    ensures var s := Handled(h, ev, max).0.snap;
            s.initialized.Some? && s.initialized.value.runtime == h.snap.initialized.value.runtime
  {
  }

  ghost predicate RuntimeAccount(events: seq<Event>, k: nat, max: nat)
    requires 0 < k <= |events| && events[0].Initialized?
  {
    var joiner, full := Folded(BLANK, SentTo(events, k, max)), Folded(BLANK, events);
    if RuntimeRefreshed(events, k) then joiner.runtime == full.runtime
    else joiner.runtime == events[0].opening.runtime && full.runtime == Folded(BLANK, events[..k]).runtime
  }

  lemma {:induction false} RuntimeOfJoiner(events: seq<Event>, k: nat, max: nat)
    requires WellFormed(events, max) && 0 < k <= |events|
    ensures RuntimeAccount(events, k, max)
    decreases |events|
  {
    hide RuntimeAccount, SentTo, WellFormed, Folded;
    var n := |events| - 1;
    if k == n + 1 {
      RuntimeAtJoin(events, max);
    } else {
      var was, ev := events[..n], events[n];
      assert events == was + [ev];
      OpensOnly(events, n, max);
      WellFormedPrefix(events, n, max);
      RuntimeOfJoiner(was, k, max);
      SentAgrees(was, k, max);
      RuntimeOneMore(was, ev, k, max);
    }
  }

  lemma OpensOnly(events: seq<Event>, n: nat, max: nat)
    requires WellFormed(events, max) && 0 < n < |events|
    ensures events[0].Initialized? && !events[n].Initialized?
  {
    assert Permitted(ChainAfter(events[..n]), events[n], max);
  }

  lemma RuntimeOneMore(was: seq<Event>, ev: Event, k: nat, max: nat)
    requires 0 < k <= |was| && was[0].Initialized? && !ev.Initialized? && RuntimeAccount(was, k, max)
    requires Folded(BLANK, SentTo(was, k, max)).blocks == Folded(BLANK, was).blocks
    ensures RuntimeAccount(was + [ev], k, max)
  {
    var events := was + [ev];
    assert events[..|was|] == was && events[..k] == was[..k];
    SentOneMore(events, k, max);
    RefreshOneMore(was, ev, k);
    RuntimeStep(Folded(BLANK, SentTo(was, k, max)), Folded(BLANK, was), ev);
  }

  lemma RuntimeAtJoin(events: seq<Event>, max: nat)
    requires WellFormed(events, max) && events != []
    ensures RuntimeAccount(events, |events|, max)
  {
    assert events[..|events|] == events;
    assert SentTo(events, |events|, max) == SnapshotEvents(SnapAfter(events, max));
    SnapTracks(events, max);
    ReplayAgrees(SnapAfter(events, max), ChainAfter(events), max);
    OpeningRuntimeKept(events, max);
  }

  lemma RuntimeStep(joiner: View, full: View, ev: Event)
    requires joiner.blocks == full.blocks && !ev.Initialized?
    ensures var j, f := Seen(joiner, ev), Seen(full, ev);
            if ev.Finalized? && ChangesRuntime(full.blocks, ev.hashes) then j.runtime == f.runtime
            else j.runtime == joiner.runtime && f.runtime == full.runtime
  {
    if ev.Finalized? {
      RuntimeForgetsOnChange(joiner.runtime, full.runtime, full.blocks, ev.hashes);
      RuntimeForgetsOnChange(full.runtime, joiner.runtime, full.blocks, ev.hashes);
    }
  }

  lemma RefreshOneMore(was: seq<Event>, ev: Event, k: nat)
    requires k <= |was|
    ensures RuntimeRefreshed(was + [ev], k) <==>
            || RuntimeRefreshed(was, k)
            || (ev.Finalized? && ChangesRuntime(Folded(BLANK, was).blocks, ev.hashes))
  {
    var events := was + [ev];
    forall i: nat | i < |was| ensures RefreshesAt(events, i) == RefreshesAt(was, i) {
      assert events[..i] == was[..i];
    }
    assert events[..|was|] == was;
    assert RefreshesAt(events, |was|) <==> ev.Finalized? && ChangesRuntime(Folded(BLANK, was).blocks, ev.hashes);
  }

  /**
   A late joiner is replayed the runtime of the opening, whatever was finalized since. It holds the
   right runtime exactly when that is still the runtime at the join, or a change is finalized later.
   */
  lemma LateRuntimeIsRightIff(events: seq<Event>, k: nat, max: nat)
    requires WellFormed(events, max) && 0 < k <= |events|
    ensures Folded(BLANK, SentTo(events, k, max)).runtime == Folded(BLANK, events).runtime <==>
            || RuntimeRefreshed(events, k)
            || Folded(BLANK, events[..k]).runtime == events[0].opening.runtime
  {
    RuntimeOfJoiner(events, k, max);
  }

  /**
   A well-formed stream whose third event changes the runtime: a client joining after it believes in the
   opening one.
   */
  lemma LateRuntimeMayBeWrong(max: nat)
    requires max >= 3
    ensures var events := [Initialized(Opening(["G"], Some("r0"))), NewBlock(Block("A", "G", Some("r1"))),
                           Finalized(["A"], [])];
            && WellFormed(events, max) && !RuntimeRefreshed(events, 3)
            && Folded(BLANK, SentTo(events, 3, max)).runtime == Some("r0")
            && Folded(BLANK, events).runtime == Some("r1")
  {
    var a := Block("A", "G", Some("r1"));
    var events := [Initialized(Opening(["G"], Some("r0"))), NewBlock(a), Finalized(["A"], [])];
    UpgradeChain(events, a, max);
    assert events[..3] == events;
    RuntimeAtJoin(events, max);
  }

  /** The stream of the example, event by event. */
  lemma UpgradeChain(events: seq<Event>, a: Block, max: nat)
    requires max >= 3 && a == Block("A", "G", Some("r1"))
    requires events == [Initialized(Opening(["G"], Some("r0"))), NewBlock(a), Finalized(["A"], [])]
    ensures WellFormed(events, max) && Folded(BLANK, events).runtime == Some("r1")
  {
    var one := Chain(View("G", map[], None, Some("r0")), ["G"]);
    var two := Chain(View("G", map["A" := a], None, Some("r0")), ["G", "A"]);
    assert events[..1] == [events[0]] && events[..2] == [events[0], events[1]] && events[..0] == [];
    assert ChainAfter(events[..1]) == one by {
      assert [events[0]][..0] == [];
    }
    assert "A"[0] != "G"[0];
    assert Permitted(one, events[1], max);
    assert ChainAfter(events[..2]) == two by {
      assert [events[0], events[1]][..1] == [events[0]];
      assert ["G"] + ["A"] == ["G", "A"];
    }
    UpgradeFinalizes(two, a, max);
    ChainFollowsView(events);
    assert ChainAfter(events).view == Seen(two.view, events[2]);
    assert ["A"][..0] == [];
  }

  lemma UpgradeFinalizes(c: Chain, a: Block, max: nat)
    requires max >= 3 && a == Block("A", "G", Some("r1"))
    requires c == Chain(View("G", map["A" := a], None, Some("r0")), ["G", "A"])
    ensures Permitted(c, Finalized(["A"], []), max)
    ensures Seen(c.view, Finalized(["A"], [])).runtime == Some("r1")
  {
    var path := ["G"] + ["A"];
    assert path == ["G", "A"];
    assert ChildAt(c.view.blocks, path, 1);
    assert ["A"] == [] + ["A"] && ["A"][..0] == [];
  }

  // ---------------------------------------------------------------- blocks out of order

  lemma {:induction false} SaturatedAppliesNothing(known: seq<Hash>, pending: seq<Block>, max: nat)
    requires Saturated(known, pending)
    ensures FlushPass(known, pending, max) == Flush(known, pending, [])
    decreases |pending|
  {
    if pending != [] {
      assert forall b :: b in pending[1..] ==> b in pending;
      SaturatedAppliesNothing(known, pending[1..], max);
    }
  }

  /**
   The blocks of the snapshot that a follower of the live stream can account for: those before, less
   those removed, plus the one emitted.
   */
  function Accounted(s: Snapshot, ev: Event): seq<Block> {
    match ev
    case NewBlock(b) => if Ready(b, s.known) then s.newBlocks + [b] else s.newBlocks
    case Finalized(hashes, pruned) =>
      if Last(hashes) == ABSENT then s.newBlocks
      else DropThrough(Filter(s.newBlocks, Survives(pruned)), Last(hashes))
    case Stop => []
    case _ => s.newBlocks
  }

  /** The known hashes and the queue as the event starts its flush, if it does. */
  function FlushStart(s: Snapshot, ev: Event, max: nat): Option<Tracked> {
    match ev
    case Initialized(o) => Some(Tracked(RecordedAll(s.known, o.hashes, max), s.pending))
    case NewBlock(b) => if Ready(b, s.known) then Some(Tracked(Recorded(s.known, b.hash, max), s.pending)) else None
    case Finalized(hashes, pruned) =>
      if Last(hashes) == ABSENT then None
      else
        var t := Forgotten(Tracked(s.known, s.pending), pruned);
        Some(Tracked(Recorded(t.known, Last(hashes), max), t.pending))
    case Stop => Some(Tracked([], s.pending))
    case _ => None
  }

  /** The event wakes no block of the queue. */
  ghost predicate WakesNobody(s: Snapshot, ev: Event, max: nat) {
    var start := FlushStart(s, ev, max);
    start.Some? ==> Saturated(start.value.known, start.value.pending)
  }

  lemma FlushAddsIff(s: Snapshot, max: nat)
    ensures FlushInto(s, max).newBlocks == s.newBlocks <==> Saturated(s.known, s.pending)
  {
    PassIsSound(s.known, s.pending, max);
    if Saturated(s.known, s.pending) {
      SaturatedAppliesNothing(s.known, s.pending, max);
      assert s.newBlocks + [] == s.newBlocks;
    } else {
      var applied := Flushed(s.known, s.pending, max).applied;
      assert applied != [];
      assert |s.newBlocks + applied| > |s.newBlocks|;
    }
  }

  lemma AcceptedAddsIff(s: Snapshot, b: Block, max: nat)
    requires Ready(b, s.known)
    ensures var a := Arrived(s.known, s.pending, b, max);
            s.newBlocks + a.applied + [b] == s.newBlocks + [b] <==> Saturated(Recorded(s.known, b.hash, max), s.pending)
  {
    var known := Recorded(s.known, b.hash, max);
    FlushAddsIff(s.(known := known), max);
    var applied := Flushed(known, s.pending, max).applied;
    if s.newBlocks + applied + [b] == s.newBlocks + [b] {
      assert |applied| == 0;
      assert s.newBlocks + [] == s.newBlocks;
    }
  }

  /**
   Whatever the event, the live stream emits at most the event itself, and that accounts for every
   block the snapshot gains exactly when the event wakes no block of the queue.
   */
  lemma LiveStreamIsCompleteIff(h: Hub, ev: Event, max: nat)
    ensures var (next, emitted) := Handled(h, ev, max);
            && emitted == (if ev.NewBlock? && !Ready(ev.block, h.snap.known) then [] else [ev])
            && (next.snap.newBlocks == Accounted(h.snap, ev) <==> WakesNobody(h.snap, ev, max))
  {
    hide Flushed, Recorded, RecordedAll, Forgotten;
    match ev
    case Initialized(o) => FlushAddsIff(InitializedSnapshot(h.snap, o, max), max);
    case NewBlock(b) =>
      if Ready(b, h.snap.known) {
        AcceptedAddsIff(h.snap, b, max);
      } else {
        assert h.snap.newBlocks + [] == h.snap.newBlocks;
      }
    case Finalized(hashes, pruned) =>
      if Last(hashes) != ABSENT {
        FlushAddsIff(FinalizedBeforeFlush(h.snap, hashes, pruned, max), max);
      }
    case Stop => FlushAddsIff(EMPTY.(pending := h.snap.pending), max);
    case _ =>
  }

  lemma OnlyWaitingReleased(s: Snapshot, child: Block, max: nat)
    requires s.pending == [child] && Ready(child, s.known)
    ensures FlushInto(s, max).newBlocks == s.newBlocks + [child]
  {
    FlushIsSound(s.known, s.pending, max);
    PassIsSound(s.known, s.pending, max);
    var r := Flushed(s.known, s.pending, max);
    assert r.applied != [];
    assert |multiset(r.applied) + multiset(r.pending)| == 1;
    assert |r.applied| == 1 && r.applied[0] in multiset(r.applied) && r.applied[0] in multiset([child]);
  }

  lemma Queued(h: Hub, b: Block, max: nat)
    requires h.snap.pending == [] && b.parent !in h.snap.known && b.parent != ABSENT
    ensures Received(h, NewBlock(b), max).snap == h.snap.(pending := [b])
  {
    assert h.snap.newBlocks + [] == h.snap.newBlocks;
  }

  /** The two runs from the start after which a block waits: one opened with another hash, one not opened. */
  lemma WaitsForParent(opening: Opening, child: Block, max: nat)
    requires max >= 3 && opening.hashes == ["G"] && child == Block("B", "A", None)
    ensures Run([Upstream(Initialized(opening)), Upstream(NewBlock(child))], max).snap
         == Snapshot(Some(opening), Some("G"), opening.runtime, None, [], ["G"], [child])
    ensures Run([Upstream(NewBlock(child))], max).snap == EMPTY.(pending := [child])
  {
    hide Received, Handled;
    var start, first := Hub(EMPTY, false, []), [Upstream(Initialized(opening))];
    assert "A"[0] != "G"[0];
    OneUpstream(NewBlock(child), max);
    Queued(start, child, max);
    OneUpstream(Initialized(opening), max);
    OpensAlone(opening, max);
    assert (first + [Upstream(NewBlock(child))])[..1] == first;
    assert first + [Upstream(NewBlock(child))] == [Upstream(Initialized(opening)), Upstream(NewBlock(child))];
    Queued(Run(first, max), child, max);
  }

  lemma OneUpstream(ev: Event, max: nat)
    ensures Run([Upstream(ev)], max) == Received(Hub(EMPTY, false, []), ev, max)
  {
    hide Received;
    assert [Upstream(ev)][..0] == [];
  }

  lemma OpensAlone(o: Opening, max: nat)
    requires o.hashes == ["G"] && max > 0
    ensures Received(Hub(EMPTY, false, []), Initialized(o), max).snap
         == Snapshot(Some(o), Some("G"), o.runtime, None, [], ["G"], [])
  {
    assert RecordedAll([], ["G"], max) == ["G"] by {
      assert ["G"][..0] == [];
    }
    assert Flushed(["G"], [], max) == Flush(["G"], [], []);
    hide Flushed, RecordedAll, SnapshotEvents, Welcomed, Delivered;
  }

  /**
   Finalizing the parent of a waiting block, or opening with it, brings the block into the snapshot
   without a word on the live stream.
   */
  lemma ReleasedSilently(opening: Opening, o: Opening, max: nat)
    requires max >= 3 && opening.hashes == ["G"] && o.hashes == ["A"]
    ensures var child := Block("B", "A", None);
            var follows := Run([Upstream(Initialized(opening)), Upstream(NewBlock(child))], max);
            var opens := Run([Upstream(NewBlock(child))], max);
            && Handled(follows, Finalized(["A"], []), max).1 == [Finalized(["A"], [])]
            && Handled(follows, Finalized(["A"], []), max).0.snap.newBlocks == [child]
            && Handled(opens, Initialized(o), max).1 == [Initialized(o)]
            && Handled(opens, Initialized(o), max).0.snap.newBlocks == [child]
  {
    hide FirstIndex, Flushed, Run;
    var child := Block("B", "A", None);
    WaitsForParent(opening, child, max);
    FinalizedReleases(Run([Upstream(Initialized(opening)), Upstream(NewBlock(child))], max).snap, child, max);
    var start := InitializedSnapshot(EMPTY.(pending := [child]), o, max);
    assert RecordedAll([], ["A"], max) == ["A"] by {
      assert ["A"][..0] == [];
    }
    assert start.known[0] == "A";
    OnlyWaitingReleased(start, child, max);
  }

  lemma FinalizedReleases(s: Snapshot, child: Block, max: nat)
    requires max >= 3 && child.parent == "A" && s.known == ["G"] && s.pending == [child] && s.newBlocks == []
    ensures FinalizedSnapshot(s, ["A"], [], max).newBlocks == [child]
  {
    hide FirstIndex, Flushed;
    var finalized := FinalizedBeforeFlush(s, ["A"], [], max);
    assert "A"[0] != "G"[0];
    assert Forgotten(Tracked(["G"], [child]), []) == Tracked(["G"], [child]);
    assert finalized.known == ["G", "A"] && finalized.known[1] == "A" && finalized.pending == [child];
    OnlyWaitingReleased(finalized, child, max);
    assert finalized.newBlocks == [];
  }

  /** A child reported before its parent: early clients never hear of it, late ones hear of it first. */
  lemma ChildFirstDiverges(runtime: Option<string>, max: nat)
    requires max >= 3
    ensures var parent, child := Block("A", "G", None), Block("B", "A", None);
            var opening := Initialized(Opening(["G"], runtime));
            var early := Received(Joined(Hub(EMPTY, false, [])), opening, max);
            var late := Joined(Received(Received(early, NewBlock(child), max), NewBlock(parent), max));
            late.sessions == [
              Attached([opening, NewBlock(parent)]),
              Attached([opening, NewBlock(child), NewBlock(parent)])]
  {
    var parent, child := Block("A", "G", None), Block("B", "A", None);
    var o := Opening(["G"], runtime);
    var s := Snapshot(Some(o), Some("G"), runtime, None, [], ["G"], []);
    OpenOnly(o, s, max);
    var first := Hub(s, true, [Attached([Initialized(o)])]);
    var queued := first.(snap := s.(pending := [child]));
    QueueOnly(first, child, max);
    ReleaseBoth(queued, o, parent, child, max);
    LateReplay(o, s, parent, child);
  }

  lemma OpenOnly(o: Opening, s: Snapshot, max: nat)
    requires o.hashes == ["G"] && max > 0
    requires s == Snapshot(Some(o), Some("G"), o.runtime, None, [], ["G"], [])
    ensures Received(Joined(Hub(EMPTY, false, [])), Initialized(o), max) == Hub(s, true, [Attached([Initialized(o)])])
  {
    assert RecordedAll([], ["G"], max) == ["G"] by {
      assert ["G"][..0] == [];
    }
    assert InitializedSnapshot(EMPTY, o, max) == s;
    FilterAll([Initialized(o)], Replayable(s.known));
    assert SnapshotEvents(s) == [Initialized(o)];
    FilterNothing([Initialized(o)], IsLive);
  }

  lemma QueueOnly(h: Hub, child: Block, max: nat)
    requires h.snap.known == ["G"] && h.snap.pending == [] && h.snap.newBlocks == [] && child == Block("B", "A", None)
    ensures Received(h, NewBlock(child), max) == h.(snap := h.snap.(pending := [child]))
  {
    var sent := Delivered(h.sessions, []);
    assert Filter([], IsLive) == [];
    forall i | 0 <= i < |h.sessions| ensures sent[i] == h.sessions[i] {}
    assert sent == h.sessions;
    assert "A" !in ["G"] by {
      assert "A"[0] != "G"[0];
    }
    assert h.snap.newBlocks + [] == [];
  }

  lemma ReleaseBoth(h: Hub, o: Opening, parent: Block, child: Block, max: nat)
    requires max >= 3 && parent == Block("A", "G", None) && child == Block("B", "A", None)
    requires h.snap.newBlocks == [] && h.snap.known == ["G"] && h.snap.pending == [child]
    requires h.sessions == [Attached([Initialized(o)])]
    ensures Handled(h, NewBlock(parent), max).1 == [NewBlock(parent)]
    ensures Received(h, NewBlock(parent), max)
         == h.(snap := h.snap.(newBlocks := [child, parent], known := ["G", "A", "B"], pending := []),
               sessions := [Attached([Initialized(o), NewBlock(parent)])])
  {
    ParentReleasesChild(parent, child, max);
    FilterAll([NewBlock(parent)], IsLive);
    assert [] + [child] + [parent] == [child, parent];
    assert [Initialized(o)] + [NewBlock(parent)] == [Initialized(o), NewBlock(parent)];
  }

  lemma LateReplay(o: Opening, s: Snapshot, parent: Block, child: Block)
    requires parent == Block("A", "G", None) && child == Block("B", "A", None)
    requires s.initialized == Some(o) && s.best == None
    ensures var late := s.(newBlocks := [child, parent], known := ["G", "A", "B"], pending := []);
            SnapshotEvents(late) == [Initialized(o), NewBlock(child), NewBlock(parent)]
  {
    var known := ["G", "A", "B"];
    var all := [Initialized(o), NewBlock(child), NewBlock(parent)];
    assert known[0] == "G" && known[1] == "A";
    FilterAll(all, Replayable(known));
    assert [Initialized(o)] + AsEvents([child, parent]) + [] == all;
  }

  lemma ParentReleasesChild(parent: Block, child: Block, max: nat)
    requires max >= 3 && parent == Block("A", "G", None) && child == Block("B", "A", None)
    ensures Arrived(["G"], [child], parent, max) == Arrival(["G", "A", "B"], [], [child], true)
  {
    assert Recorded(["G"], "A", max) == ["G", "A"];
    assert Recorded(["G", "A"], "B", max) == ["G", "A", "B"];
    assert FlushPass(["G", "A"], [child], max) == Flush(["G", "A", "B"], [], [child]);
    assert Flushed(["G", "A", "B"], [], max) == Flush(["G", "A", "B"], [], []);
  }
}
