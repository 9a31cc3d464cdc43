/**
 Orders `newBlock` notifications whose parents may not have been reported yet
 (src/json-rpc/polkadot/chain-head/state/blocks.ts). Known hashes form a bounded set that
 forgets its oldest members first; blocks with an unknown parent wait in a queue that is
 flushed to a fixed point.
 */
module BlockTracker {
  import opened Collections

  /** The empty string stands for a missing hash; the program treats both alike. */
  type Hash = string

  const ABSENT: Hash := ""

  datatype Block = Block(hash: Hash, parent: Hash, runtime: Option<string>)

  predicate Ready(b: Block, known: seq<Hash>) {
    b.parent == ABSENT || b.parent in known
  }

  // ---------------------------------------------------------------- specification functions

  /** Known hashes in insertion order after `h` is remembered under the bound `max`. */
  function Recorded(known: seq<Hash>, h: Hash, max: nat): seq<Hash> {
    if h == ABSENT then known
    else
      var grown := if h in known then known else known + [h];
      if |grown| > max then grown[|grown| - max..] else grown
  }

  function OtherThan(h: Hash): Hash -> bool {
    (k: Hash) => k != h
  }

  function Unrelated(h: Hash): Block -> bool {
    (b: Block) => b.hash != h && b.parent != h
  }

  datatype Tracked = Tracked(known: seq<Hash>, pending: seq<Block>)

  /** The tracker after every one of `hashes` has been forgotten in turn. */
  function Forgotten(t: Tracked, hashes: seq<Hash>): Tracked {
    if hashes == [] then t
    else
      var n := |hashes| - 1;
      var was := Forgotten(t, hashes[..n]);
      Tracked(Filter(was.known, OtherThan(hashes[n])), Filter(was.pending, Unrelated(hashes[n])))
  }

  function RecordedAll(known: seq<Hash>, hashes: seq<Hash>, max: nat): seq<Hash> {
    if hashes == [] then known
    else Recorded(RecordedAll(known, hashes[..|hashes| - 1], max), hashes[|hashes| - 1], max)
  }

  datatype Flush = Flush(known: seq<Hash>, pending: seq<Block>, applied: seq<Block>)

  /** One left-to-right scan of the queue. */
  function FlushPass(known: seq<Hash>, pending: seq<Block>, max: nat): (r: Flush)
    ensures |r.pending| + |r.applied| == |pending|
    decreases |pending|
  {
    if pending == [] then Flush(known, [], [])
    else
      var b := pending[0];
      if Ready(b, known) then
        var r := FlushPass(Recorded(known, b.hash, max), pending[1..], max);
        r.(applied := [b] + r.applied)
      else
        var r := FlushPass(known, pending[1..], max);
        r.(pending := [b] + r.pending)
  }

  /** The scan of `pending` has come past `front`, with `applied` taken out, and has `back` to go. */
  ghost predicate Scanned(
    was: Flush, known: seq<Hash>, front: seq<Block>, back: seq<Block>, applied: seq<Block>, max: nat) {
    var rest := FlushPass(known, back, max);
    was == Flush(rest.known, front + rest.pending, applied + rest.applied)
  }

  lemma ScanStarts(known: seq<Hash>, pending: seq<Block>, max: nat)
    ensures Scanned(FlushPass(known, pending, max), known, [], pending, [], max)
  {
    hide FlushPass;
    var r := FlushPass(known, pending, max);
    assert [] + r.pending == r.pending && [] + r.applied == r.applied;
  }

  lemma ScanNext(was: Flush, known: seq<Hash>, front: seq<Block>, back: seq<Block>, applied: seq<Block>, max: nat)
    requires back != [] && Scanned(was, known, front, back, applied, max)
    ensures if Ready(back[0], known)
            then Scanned(was, Recorded(known, back[0].hash, max), front, back[1..], applied + [back[0]], max)
            else Scanned(was, known, front + [back[0]], back[1..], applied, max)
  {
    hide Recorded, Ready;
    if Ready(back[0], known) {
      var next := FlushPass(Recorded(known, back[0].hash, max), back[1..], max);
      assert applied + ([back[0]] + next.applied) == applied + [back[0]] + next.applied;
    } else {
      var next := FlushPass(known, back[1..], max);
      assert front + ([back[0]] + next.pending) == front + [back[0]] + next.pending;
    }
  }

  lemma ScanEnds(was: Flush, known: seq<Hash>, front: seq<Block>, applied: seq<Block>, max: nat)
    requires Scanned(was, known, front, [], applied, max)
    ensures was == Flush(known, front, applied)
  {
  }

  /** Scans repeated until one of them applies nothing. */
  function Flushed(known: seq<Hash>, pending: seq<Block>, max: nat): Flush
    decreases |pending|
  {
    var first := FlushPass(known, pending, max);
    if first.applied == [] then first
    else
      var rest := Flushed(first.known, first.pending, max);
      rest.(applied := first.applied + rest.applied)
  }

  datatype Arrival = Arrival(known: seq<Hash>, pending: seq<Block>, applied: seq<Block>, accepted: bool)

  /** The effect of one `newBlock`: it is queued, skipped as a duplicate, or accepted together with a flush. */
  function Arrived(known: seq<Hash>, pending: seq<Block>, b: Block, max: nat): Arrival {
    if !Ready(b, known) then
      var waiting := exists p :: p in pending && p.hash == b.hash;
      Arrival(known, if waiting then pending else pending + [b], [], false)
    else
      var r := Flushed(Recorded(known, b.hash, max), pending, max);
      Arrival(r.known, r.pending, r.applied, true)
  }

  // ---------------------------------------------------------------- the tracker itself

  /** With `applied` taken out so far, flushing the rest of the queue gives `all`. */
  ghost predicate FlushesTo(all: Flush, known: seq<Hash>, pending: seq<Block>, applied: seq<Block>, max: nat) {
    var rest := Flushed(known, pending, max);
    all == rest.(applied := applied + rest.applied)
  }

  lemma FlushStarts(known: seq<Hash>, pending: seq<Block>, max: nat)
    ensures FlushesTo(Flushed(known, pending, max), known, pending, [], max)
  {
    hide Flushed;
    var r := Flushed(known, pending, max);
    assert [] + r.applied == r.applied;
  }

  /** One scan either ends the flush or brings it forward. */
  lemma FlushNext(all: Flush, known: seq<Hash>, pending: seq<Block>, applied: seq<Block>, max: nat)
    requires FlushesTo(all, known, pending, applied, max)
    ensures var r := FlushPass(known, pending, max);
            if r.applied == [] then all == Flush(r.known, r.pending, applied + [])
            else |r.pending| < |pending| && FlushesTo(all, r.known, r.pending, applied + r.applied, max)
  {
    hide FlushPass;
    var r := FlushPass(known, pending, max);
    if r.applied != [] {
      var rest := Flushed(r.known, r.pending, max);
      assert applied + (r.applied + rest.applied) == applied + r.applied + rest.applied;
    }
  }

  class Tracker {
    const maxKnown: nat
    var known: seq<Hash>
    var pending: seq<Block>

    constructor (maxKnown: nat)
      ensures this.maxKnown == maxKnown && known == [] && pending == []
    {
      this.maxKnown := maxKnown;
      known, pending := [], [];
    }

    method Remember(h: Hash)
      modifies this`known
      ensures known == Recorded(old(known), h, maxKnown)
    {
      if h == ABSENT {
        return;
      }
      if h !in known {
        known := known + [h];
      }
      if |known| > maxKnown {
        DropOldest(|known| - maxKnown);
      }
    }

    /** The loop that deletes the hashes beyond the bound, oldest first. */
    method DropOldest(count: nat)
      requires count <= |known|
      modifies this`known
      ensures known == old(known)[count..]
    {
      ghost var grown := known;
      var excess := count;
      while excess > 0
        invariant 0 <= excess <= count && known == grown[count - excess..]
      {
        known := known[1..];
        excess := excess - 1;
      }
    }

    method Forget(h: Hash)
      modifies this
      ensures known == Filter(old(known), OtherThan(h))
      ensures pending == Filter(old(pending), Unrelated(h))
    {
      known := Filter(known, OtherThan(h));
      ForgetPending(h);
    }

    /** The loop of `forget`: backwards over the queue, splicing out what concerns the hash. */
    method ForgetPending(h: Hash)
      modifies this`pending
      ensures pending == Filter(old(pending), Unrelated(h))
    {
      hide Filter, RemoveAt;
      ghost var was := pending;
      FilterNothing(was[|was|..], Unrelated(h));
      assert pending == was[..|was|] + [];
      for i := |pending| downto 0
        invariant pending == was[..i] + Filter(was[i..], Unrelated(h))
      {
        FilterBackwards(was, i, Unrelated(h));
        var p := pending[i];
        if p.hash == h || p.parent == h {
          pending := RemoveAt(pending, i);
        }
      }
      assert was[0..] == was && was[..0] + Filter(was, Unrelated(h)) == Filter(was, Unrelated(h));
    }

    /** Returns the blocks handed to the apply callback, in order. */
    method FlushPending() returns (applied: seq<Block>)
      modifies this
      ensures Flush(known, pending, applied) == Flushed(old(known), old(pending), maxKnown)
    {
      hide Flushed, FlushesTo, FlushPass;
      applied := [];
      ghost var all := Flushed(known, pending, maxKnown);
      FlushStarts(known, pending, maxKnown);
      var again := true;
      while again
        invariant if again then FlushesTo(all, known, pending, applied, maxKnown)
                  else all == Flush(known, pending, applied)
        decreases |pending|, again
      {
        FlushNext(all, known, pending, applied, maxKnown);
        var more := ScanPending();
        again := more != [];
        applied := applied + more;
      }
    }

    /** The inner loop of the flush: one scan that takes out every block found ready. */
    method ScanPending() returns (applied: seq<Block>)
      modifies this
      ensures Flush(known, pending, applied) == FlushPass(old(known), old(pending), maxKnown)
    {
      hide FlushPass, Scanned, Recorded, Ready;
      applied := [];
      ghost var all := FlushPass(known, pending, maxKnown);
      ghost var front: seq<Block>, back := [], pending;
      ScanStarts(known, pending, maxKnown);
      var i := 0;
      while i < |pending|
        invariant i == |front| && pending == front + back
        invariant Scanned(all, known, front, back, applied, maxKnown)
        decreases |pending| - i
      {
        var b := pending[i];
        SplitAround(front, back);
        ScanNext(all, known, front, back, applied, maxKnown);
        if Ready(b, known) {
          Remember(b.hash);
          pending := RemoveAt(pending, i);
          applied := applied + [b];
        } else {
          front := front + [b];
          i := i + 1;
        }
        back := back[1..];
      }
      ScanEnds(all, known, front, applied, maxKnown);
    }

    method HandleNewBlock(b: Block) returns (accepted: bool, applied: seq<Block>)
      modifies this
      ensures Arrival(known, pending, applied, accepted) == Arrived(old(known), old(pending), b, maxKnown)
    {
      if b.parent != ABSENT && b.parent !in known {
        if exists p :: p in pending && p.hash == b.hash {
          return false, [];
        }
        pending := pending + [b];
        return false, [];
      }
      Remember(b.hash);
      applied := FlushPending();
      return true, applied;
    }
  }
}
