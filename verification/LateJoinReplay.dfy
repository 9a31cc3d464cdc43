/**
 The replay from the events alone: what a client is sent at its join is said by the follow events that
 arrived before it, without mention of the snapshot the program keeps.
 */
module LateJoinReplay {
  import opened Collections
  import opened BlockTracker
  import opened StateManager
  import opened ChainView
  import opened LateJoin

  /** The hashes of the last finalized event, or those of the opening when there is none. */
  function FinalizedHashes(events: seq<Event>): seq<Hash> {
    if events == [] then []
    else
      match events[|events| - 1]
      case Initialized(o) => o.hashes
      case Finalized(hashes, _) => hashes
      case _ => FinalizedHashes(events[..|events| - 1])
  }

  /** The blocks reported, in order. */
  function Reported(events: seq<Event>): seq<Block> {
    if events == [] then []
    else
      var was := Reported(events[..|events| - 1]);
      match events[|events| - 1]
      case NewBlock(b) => was + [b]
      case _ => was
  }

  /** The blocks reported and neither finalized nor pruned since, in order. */
  function LiveReported(events: seq<Event>): seq<Block> {
    Filter(Reported(events), StillAlive(Folded(BLANK, events)))
  }

  /** The best block announced last, unless it was finalized since. */
  function UnfinalizedBest(events: seq<Event>): Option<Hash> {
    if events == [] then None
    else
      var was := UnfinalizedBest(events[..|events| - 1]);
      match events[|events| - 1]
      case BestBlockChanged(h) => Some(h)
      case Finalized(hashes, _) => if was == Some(Last(hashes)) then None else was
      case _ => was
  }

  /** What a client that joins after `events` is sent at once. */
  function ReplayOf(events: seq<Event>): seq<Event>
    requires events != [] && events[0].Initialized?
  {
    Replay(Opening(FinalizedHashes(events), events[0].opening.runtime), LiveReported(events), UnfinalizedBest(events))
  }

  // ---------------------------------------------------------------- the snapshot, field by field

  /** Every field of the snapshot that a client can be sent, and the two kept beside them. */
  ghost predicate Mirrors(s: Snapshot, events: seq<Event>) {
    && events != [] && events[0].Initialized?
    && s.initialized == Some(Opening(FinalizedHashes(events), events[0].opening.runtime))
    && s.newBlocks == LiveReported(events)
    && s.best == UnfinalizedBest(events)
    && s.finalized == Some(Folded(BLANK, events).finalized)
    && s.runtime == events[0].opening.runtime
  }

  lemma {:induction false} ReportedIsAnnounced(events: seq<Event>, max: nat)
    requires WellFormed(events, max)
    ensures forall b :: b in Reported(events) ==> b.hash in ChainAfter(events).announced
  {
    if events != [] {
      var n := |events| - 1;
      WellFormedPrefix(events, n, max);
      ReportedIsAnnounced(events[..n], max);
      if n == 0 {
        assert events[..n] == [];
      } else {
        assert Permitted(ChainAfter(events[..n]), events[n], max);
      }
    }
  }

  lemma OpeningMirrors(ev: Event, max: nat)
    requires OpensWell(ev)
    ensures Mirrors(SnapAfter([ev], max), [ev])
  {
    assert [ev][..0] == [];
    assert Reported([ev]) == [];
    assert FlushInto(InitializedSnapshot(EMPTY, ev.opening, max), max) == InitializedSnapshot(EMPTY, ev.opening, max);
  }

  lemma NewBlockSnap(s: Snapshot, c: Chain, b: Block, max: nat)
    requires Tracks(s, c, max) && Permitted(c, NewBlock(b), max)
    ensures Handled(Hub(s, false, []), NewBlock(b), max).0.snap
         == s.(known := Recorded(s.known, b.hash, max), newBlocks := s.newBlocks + [b])
    ensures b.hash !in c.announced
  {
    hide Rooted, Lists, Climbing, Recorded;
    assert Ready(b, s.known);
    assert s.newBlocks + [] + [b] == s.newBlocks + [b];
  }

  lemma NewBlockMirrors(was: seq<Event>, s: Snapshot, b: Block, max: nat)
    requires WellFormed(was, max) && was != [] && Permitted(ChainAfter(was), NewBlock(b), max)
    requires Mirrors(s, was) && Tracks(s, ChainAfter(was), max)
    ensures Mirrors(Handled(Hub(s, false, []), NewBlock(b), max).0.snap, was + [NewBlock(b)])
  {
    hide Tracks, Permitted, WellFormed, Handled, ChainAfter, LiveReported;
    var events := was + [NewBlock(b)];
    assert events[..|was|] == was;
    NewBlockSnap(s, ChainAfter(was), b, max);
    ReportedIsAnnounced(was, max);
    OneMoreReported(was, b);
  }

  lemma OneMoreReported(was: seq<Event>, b: Block)
    requires forall x :: x in Reported(was) ==> x.hash != b.hash
    ensures LiveReported(was + [NewBlock(b)]) == LiveReported(was) + [b]
  {
    var events := was + [NewBlock(b)];
    assert events[..|was|] == was;
    var v, next := Folded(BLANK, was), Folded(BLANK, events);
    FilterAgree(Reported(was), StillAlive(v), StillAlive(next));
    FilterAppend(Reported(was), [b], StillAlive(next));
  }

  lemma FinalizedMirrors(was: seq<Event>, s: Snapshot, hashes: seq<Hash>, pruned: seq<Hash>, max: nat)
    requires WellFormed(was, max) && was != [] && Permitted(ChainAfter(was), Finalized(hashes, pruned), max)
    requires Mirrors(s, was) && Tracks(s, ChainAfter(was), max)
    ensures Mirrors(Handled(Hub(s, false, []), Finalized(hashes, pruned), max).0.snap,
                    was + [Finalized(hashes, pruned)])
  {
    hide Tracks, Permitted, WellFormed, Handled;
    var ev := Finalized(hashes, pruned);
    var events := was + [ev];
    assert events[..|was|] == was;
    ChainFollowsView(was);
    FinalizedSnap(Hub(s, false, []), ChainAfter(was), hashes, pruned, max);
    var v, next := Folded(BLANK, was), Folded(BLANK, events);
    FilterBoth(Reported(was), StillAlive(v), StillAlive(next), StillAlive(next));
    BestNotPruned(s, ChainAfter(was), hashes, pruned, max);
  }

  /** A best block that was announced is never pruned. */
  lemma BestNotPruned(s: Snapshot, c: Chain, hashes: seq<Hash>, pruned: seq<Hash>, max: nat)
    requires Tracks(s, c, max) && Permitted(c, Finalized(hashes, pruned), max)
    ensures s.best.Some? ==> s.best.value !in pruned
  {
  }

  lemma OtherMirrors(was: seq<Event>, s: Snapshot, ev: Event, max: nat)
    requires was != [] && Mirrors(s, was) && (ev.BestBlockChanged? || ev.OtherEvent?)
    ensures Mirrors(Handled(Hub(s, false, []), ev, max).0.snap, was + [ev])
  {
    assert (was + [ev])[..|was|] == was;
  }

  /** In every state of a well-formed stream the snapshot is what the events say. */
  lemma {:induction false} SnapshotMirrors(events: seq<Event>, max: nat)
    requires WellFormed(events, max) && events != []
    ensures Mirrors(SnapAfter(events, max), events)
  {
    hide Mirrors, Handled, Tracks, Folded;
    var n := |events| - 1;
    if n == 0 {
      assert events == [events[0]];
      OpeningMirrors(events[0], max);
    } else {
      var was, ev := events[..n], events[n];
      assert events == was + [ev];
      WellFormedPrefix(events, n, max);
      SnapshotMirrors(was, max);
      SnapTracks(was, max);
      assert Permitted(ChainAfter(was), ev, max);
      var s := SnapAfter(was, max);
      match ev {
        case NewBlock(b) => NewBlockMirrors(was, s, b, max);
        case Finalized(hashes, pruned) => FinalizedMirrors(was, s, hashes, pruned, max);
        case BestBlockChanged(_) => OtherMirrors(was, s, ev, max);
        case OtherEvent(_) => OtherMirrors(was, s, ev, max);
      }
    }
  }

  // ---------------------------------------------------------------- every client

  /** What a client that joins after `k` of the events is sent, said by the events alone. */
  lemma SentIsReplayOf(events: seq<Event>, k: nat, max: nat)
    requires WellFormed(events, max) && 0 < k <= |events|
    ensures events[..k][0].Initialized? && SentTo(events, k, max) == ReplayOf(events[..k]) + events[k..]
  {
    hide SnapAfter, Tracks, WellFormed;
    WellFormedPrefix(events, k, max);
    SnapshotMirrors(events[..k], max);
    SnapTracks(events[..k], max);
    ReplayIsWhole(SnapAfter(events[..k], max), ChainAfter(events[..k]), max);
  }

  /**
   Over every interleaving of joins and a well-formed stream, each client was sent the hashes finalized
   last and the runtime of the opening, the live blocks in the order of their report, the best block
   unless it is the finalized one, and then every later event.
   */
  lemma EveryClientIsSent(steps: seq<Step>, n: nat, max: nat)
    requires WellFormed(EventsOf(steps), max) && EventsOf(steps) != []
    requires n < |Run(steps, max).sessions|
    ensures n < |JoinPoints(steps)|
    ensures var events, k := EventsOf(steps), ServedFrom(JoinPoints(steps)[n]);
            && 0 < k <= |events| && events[..k][0].Initialized?
            && Run(steps, max).sessions[n] == Attached(ReplayOf(events[..k]) + events[k..])
  {
    hide SentTo, ReplayOf, WellFormed, Run;
    HandoffIsExact(steps, max);
    SentIsReplayOf(EventsOf(steps), ServedFrom(JoinPoints(steps)[n]), max);
  }
}
