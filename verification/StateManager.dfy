/**
 The chainHead snapshot of one shared follow subscription
 (src/json-rpc/polkadot/chain-head/state/manager.ts): follow events are folded into a compact
 snapshot, a client that joins later is sent that snapshot and is then attached to the live stream.
 */
module StateManager {
  import opened Collections
  import opened BlockTracker

  datatype Opening = Opening(hashes: seq<Hash>, runtime: Option<string>)

  datatype Event =
    | Initialized(opening: Opening)
    | NewBlock(block: Block)
    | BestBlockChanged(hash: Hash)
    | Finalized(hashes: seq<Hash>, pruned: seq<Hash>)
    | Stop
    | OtherEvent(name: string)

  datatype Snapshot = Snapshot(
    initialized: Option<Opening>,
    finalized: Option<Hash>,
    runtime: Option<string>,
    best: Option<Hash>,
    newBlocks: seq<Block>,
    known: seq<Hash>,
    pending: seq<Block>)

  /** A client of the follow: waiting for `initialized`, attached, or completed, with what it was sent. */
  datatype Session = Waiting | Attached(sent: seq<Event>) | Ended(sent: seq<Event>)

  datatype Hub = Hub(snap: Snapshot, ready: bool, sessions: seq<Session>)

  const EMPTY := Snapshot(None, None, None, None, [], [], [])

  // ---------------------------------------------------------------- specification functions

  function Last(hashes: seq<Hash>): Hash {
    if hashes == [] then ABSENT else hashes[|hashes| - 1]
  }

  function Survives(pruned: seq<Hash>): Block -> bool {
    (b: Block) => b.hash !in pruned && b.parent !in pruned
  }

  function IndexOfHash(blocks: seq<Block>, h: Hash): (i: nat)
    ensures i <= |blocks|
    ensures i < |blocks| ==> blocks[i].hash == h
    ensures forall k :: 0 <= k < i ==> blocks[k].hash != h
  {
    FirstIndex(blocks, (b: Block) => b.hash == h)
  }

  function DropThrough(blocks: seq<Block>, h: Hash): seq<Block> {
    var i := IndexOfHash(blocks, h);
    if i < |blocks| then blocks[i + 1..] else blocks
  }

  function Replayable(known: seq<Hash>): Event -> bool {
    (ev: Event) => ev.NewBlock? ==> Ready(ev.block, known)
  }

  function AsEvents(blocks: seq<Block>): (r: seq<Event>) {
    seq(|blocks|, i requires 0 <= i < |blocks| => NewBlock(blocks[i]))
  }

  /** The events a client joining now is sent before it is attached to the live stream. */
  function SnapshotEvents(s: Snapshot): seq<Event> {
    if s.initialized.None? then []
    else
      var base := [Initialized(s.initialized.value)] + AsEvents(s.newBlocks)
                  + (if s.best.Some? then [BestBlockChanged(s.best.value)] else []);
      Filter(base, Replayable(s.known))
  }

  predicate IsLive(ev: Event) { !ev.Initialized? }

  function Welcomed(sessions: seq<Session>, replay: seq<Event>): seq<Session> {
    seq(|sessions|, i requires 0 <= i < |sessions| =>
      if sessions[i].Waiting? then Attached(replay) else sessions[i])
  }

  function Delivered(sessions: seq<Session>, emitted: seq<Event>): seq<Session> {
    seq(|sessions|, i requires 0 <= i < |sessions| =>
      if sessions[i].Attached? then Attached(sessions[i].sent + Filter(emitted, IsLive)) else sessions[i])
  }

  /** After the stream completed: nobody hears any more, and who waited heard nothing. */
  function Completed(sessions: seq<Session>): seq<Session> {
    seq(|sessions|, i requires 0 <= i < |sessions| =>
      Ended(if sessions[i].Waiting? then [] else sessions[i].sent))
  }

  function FlushInto(s: Snapshot, max: nat): Snapshot {
    var r := Flushed(s.known, s.pending, max);
    s.(known := r.known, pending := r.pending, newBlocks := s.newBlocks + r.applied)
  }

  /** The snapshot once `finalized` is recorded, before the pending queue is flushed. */
  function FinalizedBeforeFlush(s: Snapshot, hashes: seq<Hash>, pruned: seq<Hash>, max: nat): Snapshot
    requires Last(hashes) != ABSENT
  {
    var hash := Last(hashes);
    var t := Forgotten(Tracked(s.known, s.pending), pruned);
    var kept := Filter(s.newBlocks, Survives(pruned));
    s.(finalized := Some(hash),
       best := if s.best.Some? && (s.best.value == hash || s.best.value in pruned) then None else s.best,
       initialized := if s.initialized.Some? then Some(s.initialized.value.(hashes := hashes)) else None,
       newBlocks := DropThrough(kept, hash),
       known := Recorded(t.known, hash, max),
       pending := t.pending)
  }

  function FinalizedSnapshot(s: Snapshot, hashes: seq<Hash>, pruned: seq<Hash>, max: nat): Snapshot
    requires Last(hashes) != ABSENT
  {
    FlushInto(FinalizedBeforeFlush(s, hashes, pruned, max), max)
  }

  /** The snapshot once `initialized` is recorded, before the pending queue is flushed. */
  function InitializedSnapshot(s: Snapshot, o: Opening, max: nat): Snapshot {
    s.(initialized := Some(o), runtime := o.runtime,
       finalized := if o.hashes == [] then None else Some(Last(o.hashes)),
       known := RecordedAll(s.known, o.hashes, max))
  }

  function Updated(h: Hub, ev: Event, max: nat): Hub {
    match ev
    case Initialized(o) =>
      var s := InitializedSnapshot(h.snap, o, max);
      Hub(FlushInto(s, max), true, Welcomed(h.sessions, SnapshotEvents(s)))
    case NewBlock(b) => h.(snap := h.snap.(newBlocks := h.snap.newBlocks + [b]))
    case BestBlockChanged(b) =>
      h.(snap := h.snap.(best := Some(b), known := Recorded(h.snap.known, b, max)))
    case Finalized(hashes, pruned) =>
      if Last(hashes) == ABSENT then h else h.(snap := FinalizedSnapshot(h.snap, hashes, pruned, max))
    case Stop => h
    case OtherEvent(_) => h
  }

  /** The state after a reset: the known hashes are dropped, the pending queue is not. */
  function Reset(h: Hub, max: nat): Hub {
    h.(snap := FlushInto(EMPTY.(pending := h.snap.pending), max), ready := false)
  }

  /** One upstream event: the new state, and what the live stream emits for it. */
  function Handled(h: Hub, ev: Event, max: nat): (Hub, seq<Event>) {
    match ev
    case Stop => (Reset(h, max), [ev])
    case NewBlock(b) =>
      var a := Arrived(h.snap.known, h.snap.pending, b, max);
      var mid := h.(snap := h.snap.(known := a.known, pending := a.pending,
                                    newBlocks := h.snap.newBlocks + a.applied));
      if a.accepted then (Updated(mid, ev, max), [ev]) else (mid, [])
    case _ => (Updated(h, ev, max), [ev])
  }

  function Received(h: Hub, ev: Event, max: nat): Hub {
    var (next, emitted) := Handled(h, ev, max);
    var told := Delivered(next.sessions, emitted);
    next.(sessions := if ev.Stop? then Completed(told) else told)
  }

  function Joined(h: Hub): Hub {
    h.(sessions := h.sessions + [if h.ready then Attached(SnapshotEvents(h.snap)) else Waiting])
  }

  // ---------------------------------------------------------------- the manager itself

  class Manager {
    const tracker: Tracker
    var initialized: Option<Opening>
    var finalized: Option<Hash>
    var runtime: Option<string>
    var best: Option<Hash>
    var newBlocks: seq<Block>
    var ready: bool
    var sessions: seq<Session>

    function State(): Hub
      reads this, tracker
    {
      Hub(Snapshot(initialized, finalized, runtime, best, newBlocks, tracker.known, tracker.pending), ready, sessions)
    }

    constructor (maxKnown: nat)
      ensures State() == Hub(EMPTY, false, []) && tracker.maxKnown == maxKnown && fresh(tracker)
    {
      tracker := new Tracker(maxKnown);
      initialized, finalized, runtime, best, newBlocks := None, None, None, None, [];
      ready, sessions := false, [];
    }

    method FlushPending()
      modifies this`newBlocks, tracker
      ensures State() == old(State()).(snap := FlushInto(old(State()).snap, tracker.maxKnown))
    {
      var applied := tracker.FlushPending();
      newBlocks := newBlocks + applied;
    }

    method ResetState()
      modifies this, tracker
      ensures State() == Reset(old(State()), tracker.maxKnown)
    {
      initialized, finalized, runtime, best, newBlocks := None, None, None, None, [];
      tracker.known := [];
      FlushPending();
      ready := false;
    }

    method Update(ev: Event)
      modifies this, tracker
      ensures State() == Updated(old(State()), ev, tracker.maxKnown)
    {
      match ev {
        case Initialized(o) => OnInitialized(o);
        case NewBlock(b) => newBlocks := newBlocks + [b];
        case BestBlockChanged(b) =>
          if b != ABSENT {
            tracker.Remember(b);
          }
          best := Some(b);
        case Finalized(hashes, pruned) =>
          if Last(hashes) == ABSENT {
            return;
          }
          OnFinalized(hashes, pruned);
        case Stop =>
        case OtherEvent(_) =>
      }
    }

    method RememberAll(hashes: seq<Hash>)
      modifies tracker`known
      ensures tracker.known == RecordedAll(old(tracker.known), hashes, tracker.maxKnown)
    {
      var i := 0;
      while i < |hashes|
        invariant i <= |hashes|
        invariant tracker.known == RecordedAll(old(tracker.known), hashes[..i], tracker.maxKnown)
      {
        tracker.Remember(hashes[i]);
        assert hashes[..i + 1][..i] == hashes[..i];
        i := i + 1;
      }
      assert hashes[..i] == hashes;
    }

    method OnInitialized(o: Opening)
      modifies this, tracker
      ensures State() == Updated(old(State()), Initialized(o), tracker.maxKnown)
    {
      initialized, runtime := Some(o), o.runtime;
      finalized := if o.hashes == [] then None else Some(Last(o.hashes));
      RememberAll(o.hashes);
      sessions := Welcomed(sessions, SnapshotEvents(State().snap));
      ready := true;
      FlushPending();
    }

    method ForgetPruned(pruned: seq<Hash>)
      modifies tracker
      ensures Tracked(tracker.known, tracker.pending) == Forgotten(old(Tracked(tracker.known, tracker.pending)), pruned)
    {
      var i := 0;
      while i < |pruned|
        invariant i <= |pruned|
        invariant Tracked(tracker.known, tracker.pending)
                  == Forgotten(old(Tracked(tracker.known, tracker.pending)), pruned[..i])
      {
        tracker.Forget(pruned[i]);
        assert pruned[..i + 1][..i] == pruned[..i];
        i := i + 1;
      }
      assert pruned[..i] == pruned;
    }

    method OnFinalized(hashes: seq<Hash>, pruned: seq<Hash>)
      requires Last(hashes) != ABSENT
      modifies this, tracker
      ensures State() == old(State()).(snap := FinalizedSnapshot(old(State()).snap, hashes, pruned, tracker.maxKnown))
    {
      RecordFinalized(hashes, pruned);
      FlushPending();
    }

    method RecordFinalized(hashes: seq<Hash>, pruned: seq<Hash>)
      requires Last(hashes) != ABSENT
      modifies this, tracker
      ensures State()
              == old(State()).(snap := FinalizedBeforeFlush(old(State()).snap, hashes, pruned, tracker.maxKnown))
    {
      hide Forgotten, Filter, DropThrough, Recorded;
      var hash := Last(hashes);
      finalized := Some(hash);
      Prune(pruned);
      if best.Some? && (best.value == hash || best.value in pruned) {
        best := None;
      }
      if initialized.Some? {
        initialized := Some(initialized.value.(hashes := hashes));
      }
      DropApplied(hash);
      tracker.Remember(hash);
    }

    method Prune(pruned: seq<Hash>)
      modifies this`newBlocks, tracker
      ensures newBlocks == Filter(old(newBlocks), Survives(pruned))
      ensures Tracked(tracker.known, tracker.pending) == Forgotten(old(Tracked(tracker.known, tracker.pending)), pruned)
    {
      if |pruned| > 0 {
        ForgetPruned(pruned);
        RemovePruned(pruned);
      } else {
        FilterAll(newBlocks, Survives(pruned));
      }
    }

    method DropApplied(hash: Hash)
      modifies this`newBlocks
      ensures newBlocks == DropThrough(old(newBlocks), hash)
    {
      var idx := IndexOfHash(newBlocks, hash);
      if idx < |newBlocks| {
        newBlocks := newBlocks[idx + 1..];
      }
    }

    /** The backward scan that removes pruned blocks and children of pruned blocks. */
    method RemovePruned(pruned: seq<Hash>)
      modifies this`newBlocks
      ensures newBlocks == Filter(old(newBlocks), Survives(pruned))
    {
      hide Filter, RemoveAt;
      ghost var was := newBlocks;
      FilterNothing(was[|was|..], Survives(pruned));
      assert newBlocks == was[..|was|] + [];
      for i := |newBlocks| downto 0
        invariant newBlocks == was[..i] + Filter(was[i..], Survives(pruned))
      {
        FilterBackwards(was, i, Survives(pruned));
        var b := newBlocks[i];
        if b.hash in pruned || b.parent in pruned {
          newBlocks := RemoveAt(newBlocks, i);
        }
      }
      assert was[0..] == was && was[..0] + Filter(was, Survives(pruned)) == Filter(was, Survives(pruned));
    }

    /** Handles one upstream event and returns what the shared live stream emits for it. */
    method HandleUpdate(ev: Event) returns (emitted: seq<Event>)
      modifies this, tracker
      ensures (State(), emitted) == Handled(old(State()), ev, tracker.maxKnown)
    {
      match ev {
        case Stop =>
          ResetState();
          return [ev];
        case NewBlock(b) =>
          var accepted, applied := tracker.HandleNewBlock(b);
          newBlocks := newBlocks + applied;
          if accepted {
            Update(ev);
            return [ev];
          }
          return [];
        case _ =>
          Update(ev);
          return [ev];
      }
    }

    /** One upstream event, fanned out to every attached client; `stop` completes them all. */
    method Receive(ev: Event)
      modifies this, tracker
      ensures State() == Received(old(State()), ev, tracker.maxKnown)
    {
      var emitted := HandleUpdate(ev);
      FanOut(emitted);
      if ev.Stop? {
        Complete();
      }
    }

    method Complete()
      modifies this`sessions
      ensures sessions == Completed(old(sessions))
    {
      var i := 0;
      while i < |sessions|
        invariant i <= |sessions| == |old(sessions)|
        invariant forall k :: 0 <= k < i ==> sessions[k] == Completed(old(sessions))[k]
        invariant forall k :: i <= k < |sessions| ==> sessions[k] == old(sessions)[k]
      {
        sessions := sessions[i := Ended(if sessions[i].Waiting? then [] else sessions[i].sent)];
        i := i + 1;
      }
    }

    method FanOut(emitted: seq<Event>)
      modifies this`sessions
      ensures sessions == Delivered(old(sessions), emitted)
    {
      var i := 0;
      while i < |sessions|
        invariant i <= |sessions| == |old(sessions)|
        invariant forall k :: 0 <= k < i ==> sessions[k] == Delivered(old(sessions), emitted)[k]
        invariant forall k :: i <= k < |sessions| ==> sessions[k] == old(sessions)[k]
      {
        if sessions[i].Attached? {
          sessions := sessions[i := Attached(sessions[i].sent + Filter(emitted, IsLive))];
        }
        i := i + 1;
      }
    }

    method Join()
      modifies this`sessions
      ensures State() == Joined(old(State()))
    {
      if ready {
        sessions := sessions + [Attached(SnapshotEvents(State().snap))];
      } else {
        sessions := sessions + [Waiting];
      }
    }
  }
}
