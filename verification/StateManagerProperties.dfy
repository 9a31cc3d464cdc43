/**
 What each follow event does to the snapshot in every state, whether or not the stream that led there
 was one that a node may send.
 */
module StateManagerProperties {
  import opened Collections
  import opened BlockTracker
  import opened BlockTrackerProperties
  import opened StateManager

  // ---------------------------------------------------------------- the opening

  /**
   As the stream opens, each waiting client is sent the opening alone, whatever waits in the queue;
   the blocks that the opening releases from there are in the snapshot just afterwards.
   */
  lemma OpeningIsServedAlone(h: Hub, o: Opening, n: nat, max: nat)
    requires h.snap.newBlocks == [] && h.snap.best == None
    requires n < |h.sessions| && h.sessions[n] == Waiting
    ensures var r := Received(h, Initialized(o), max);
            && n < |r.sessions| && r.sessions[n] == Attached([Initialized(o)])
            && r.snap.newBlocks == Flushed(RecordedAll(h.snap.known, o.hashes, max), h.snap.pending, max).applied
  {
    hide Flushed, RecordedAll;
    var s := InitializedSnapshot(h.snap, o, max);
    assert [Initialized(o)] + AsEvents([]) + [] == [Initialized(o)];
    assert SnapshotEvents(s) == [Initialized(o)];
    assert Filter([Initialized(o)], IsLive) == [];
  }

  // ---------------------------------------------------------------- finalized events

  /** After a finalized event nothing pruned, and nothing built on it, is in the snapshot or in the queue. */
  lemma NothingPrunedRemains(h: Hub, hashes: seq<Hash>, pruned: seq<Hash>, max: nat)
    requires Last(hashes) != ABSENT
    ensures var s := Handled(h, Finalized(hashes, pruned), max).0.snap;
            && (forall b :: b in s.newBlocks + s.pending ==> b.hash !in pruned && b.parent !in pruned)
            && (forall b :: b in s.newBlocks + s.pending ==> b in h.snap.newBlocks + h.snap.pending)
  {
    hide FinalizedBeforeFlush, FlushInto;
    var mid := FinalizedBeforeFlush(h.snap, hashes, pruned, max);
    CutAndForgotten(h.snap, hashes, pruned, max);
    FlushesOnlyWaiting(mid, max);
  }

  /** Before the queue is flushed. */
  lemma CutAndForgotten(s: Snapshot, hashes: seq<Hash>, pruned: seq<Hash>, max: nat)
    requires Last(hashes) != ABSENT
    ensures var mid := FinalizedBeforeFlush(s, hashes, pruned, max);
            && (forall b :: b in mid.newBlocks ==> b in s.newBlocks && b.hash !in pruned && b.parent !in pruned)
            && (forall b :: b in mid.pending ==> b in s.pending && b.hash !in pruned && b.parent !in pruned)
  {
    hide Forgotten, Recorded, DropThrough;
    ForgottenAtOnce(Tracked(s.known, s.pending), pruned);
    CutKeeps(Filter(s.newBlocks, Survives(pruned)), Last(hashes));
  }

  /** A flush moves blocks from the queue to the snapshot and invents none. */
  lemma FlushesOnlyWaiting(s: Snapshot, max: nat)
    ensures forall b :: b in FlushInto(s, max).newBlocks ==> b in s.newBlocks || b in s.pending
    ensures forall b :: b in FlushInto(s, max).pending ==> b in s.pending
  {
    hide Flushed, ParentsFirst, Saturated;
    FlushIsSound(s.known, s.pending, max);
    var r := Flushed(s.known, s.pending, max);
    forall b | b in r.applied || b in r.pending ensures b in s.pending {
      assert b in multiset(r.applied) + multiset(r.pending);
    }
  }

  lemma CutKeeps(blocks: seq<Block>, h: Hash)
    ensures forall b :: b in DropThrough(blocks, h) ==> b in blocks
  {
  }

  /** The announced best block stays through a finalized event unless it was finalized last or pruned. */
  lemma BestStaysIff(h: Hub, hashes: seq<Hash>, pruned: seq<Hash>, best: Hash, max: nat)
    requires Last(hashes) != ABSENT
    ensures Handled(h, Finalized(hashes, pruned), max).0.snap.best == Some(best) <==>
              h.snap.best == Some(best) && best != Last(hashes) && best !in pruned
  {
    hide Flushed, Forgotten, Recorded;
  }

  // ---------------------------------------------------------------- best blocks and the replay

  /** A block is accepted at once after its parent was announced as the best one. */
  lemma ChildOfBestIsAccepted(h: Hub, best: Hash, b: Block, max: nat)
    requires 0 < max && |h.snap.known| <= max && best != ABSENT && b.parent == best
    ensures var next := Handled(h, BestBlockChanged(best), max).0;
            && next.snap == h.snap.(best := Some(best), known := next.snap.known)
            && Handled(next, NewBlock(b), max).1 == [NewBlock(b)]
  {
    var known := Recorded(h.snap.known, best, max);
    assert best !in h.snap.known ==> known != [] && known[|known| - 1] == best;
    assert best in known;
  }

  /**
   The replay is the opening, the blocks of the snapshot whose parent is known, in order, and the best block;
   there is none without an opening.
   */
  lemma ReplayIsTheKnownPart(s: Snapshot, o: Opening)
    ensures s.initialized == None ==> SnapshotEvents(s) == []
    ensures s.initialized == Some(o) ==>
              SnapshotEvents(s)
              == [Initialized(o)] + AsEvents(Filter(s.newBlocks, KnownParent(s.known)))
                 + (if s.best.Some? then [BestBlockChanged(s.best.value)] else [])
  {
    var keep := Replayable(s.known);
    var last := if s.best.Some? then [BestBlockChanged(s.best.value)] else [];
    FilterAppend([Initialized(o)] + AsEvents(s.newBlocks), last, keep);
    FilterAppend([Initialized(o)], AsEvents(s.newBlocks), keep);
    FilterAll([Initialized(o)], keep);
    FilterAll(last, keep);
    FilterEvents(s.newBlocks, s.known);
  }

  function KnownParent(known: seq<Hash>): Block -> bool {
    (b: Block) => b.parent == ABSENT || b.parent in known
  }

  lemma AsEventsFirst(blocks: seq<Block>)
    requires blocks != []
    ensures AsEvents(blocks) == [NewBlock(blocks[0])] + AsEvents(blocks[1..])
  {
  }

  lemma FilterFirst<T(!new)>(x: T, s: seq<T>, keep: T -> bool)
    ensures Filter([x] + s, keep) == (if keep(x) then [x] else []) + Filter(s, keep)
  {
    assert ([x] + s)[1..] == s;
  }

  lemma {:induction false} FilterEvents(blocks: seq<Block>, known: seq<Hash>)
    ensures Filter(AsEvents(blocks), Replayable(known)) == AsEvents(Filter(blocks, KnownParent(known)))
  {
    if blocks != [] {
      hide Filter, AsEvents;
      var b, rest := blocks[0], Filter(blocks[1..], KnownParent(known));
      assert blocks == [b] + blocks[1..];
      AsEventsFirst(blocks);
      FilterEvents(blocks[1..], known);
      FilterFirst(NewBlock(b), AsEvents(blocks[1..]), Replayable(known));
      FilterFirst(b, blocks[1..], KnownParent(known));
      if Ready(b, known) {
        AsEventsFirst([b] + rest);
      }
    }
  }

  // ---------------------------------------------------------------- the end

  /** A reset forgets everything but the queue, of which only what names no parent enters the new snapshot. */
  lemma ResetKeepsTheQueue(h: Hub, max: nat)
    ensures var s := Handled(h, Stop, max).0.snap;
            && multiset(s.newBlocks) + multiset(s.pending) == multiset(h.snap.pending)
            && s.initialized == None && s.finalized == None && s.runtime == None && s.best == None
            && ((forall b :: b in h.snap.pending ==> b.parent != ABSENT) ==>
                  s.newBlocks == [] && s.pending == h.snap.pending && s.known == [])
  {
    hide Flushed, ParentsFirst, Saturated;
    var pending := h.snap.pending;
    FlushIsSound([], pending, max);
    var r := Flushed([], pending, max);
    ResetSnap(h, max);
    if forall b :: b in pending ==> b.parent != ABSENT {
      NothingFlushed(pending, max);
    }
  }

  lemma ResetSnap(h: Hub, max: nat)
    ensures var r := Flushed([], h.snap.pending, max);
            Handled(h, Stop, max).0.snap == Snapshot(None, None, None, None, r.applied, r.known, r.pending)
  {
    hide Flushed;
    assert [] + Flushed([], h.snap.pending, max).applied == Flushed([], h.snap.pending, max).applied;
  }

  lemma NothingFlushed(pending: seq<Block>, max: nat)
    requires forall b :: b in pending ==> b.parent != ABSENT
    ensures Flushed([], pending, max) == Flush([], pending, [])
  {
    NothingReady(pending, max);
  }

  lemma {:induction false} NothingReady(pending: seq<Block>, max: nat)
    requires forall b :: b in pending ==> b.parent != ABSENT
    ensures FlushPass([], pending, max) == Flush([], pending, [])
  {
    if pending != [] {
      NothingReady(pending[1..], max);
    }
  }
}
