/**
 Virtual unpin (src/json-rpc/polkadot/chain-head/state/pinned.ts): a block of a shared follow is
 unpinned upstream once the local subscribers that held it have unpinned it or left. Tracking of
 a block starts with its first unpin.
 */
module PinnedBlocks {
  import opened Collections

  type Local = string
  type Hash = string

  const MAX_HASHES: nat := 512

  /** A tracked block and the locals that still hold it. */
  datatype Pin = Pin(hash: Hash, holders: set<Local>)

  /** The tracked blocks of one follow, oldest first. */
  type Pins = seq<Pin>

  /** A follow subscription: its upstream id and its current local subscribers. */
  datatype Follow = Follow(upstreamSubId: string, locals: set<Local>)

  datatype Outcome = Outcome(pins: Pins, sent: seq<Hash>)

  // ---------------------------------------------------------------- specification functions

  function PinIndex(pins: Pins, hash: Hash): (i: nat)
    ensures i <= |pins|
    ensures i < |pins| ==> pins[i].hash == hash
    ensures forall k :: 0 <= k < i ==> pins[k].hash != hash
  {
    FirstIndex(pins, (p: Pin) => p.hash == hash)
  }

  predicate IsTracked(pins: Pins, hash: Hash) { PinIndex(pins, hash) < |pins| }

  /** The pins once `hash` is tracked for all `locals`; the oldest one makes room at the bound. */
  function StartTracking(pins: Pins, hash: Hash, locals: set<Local>): (r: Pins)
    ensures r != [] && r[|r| - 1] == Pin(hash, locals)
  {
    var grown := pins + [Pin(hash, locals)];
    if |grown| >= MAX_HASHES then grown[1..] else grown
  }

  /** Leaves `holders` as the holders of the `i`-th pin; without holders the pin goes and the block is unpinned. */
  function Hold(pins: Pins, i: nat, holders: set<Local>): Outcome
    requires i < |pins|
  {
    if holders == {} then Outcome(RemoveAt(pins, i), [pins[i].hash])
    else Outcome(pins[i := pins[i].(holders := holders)], [])
  }

  function Unpinned(pins: Pins, local: Local, locals: set<Local>, hash: Hash): Outcome {
    var i := PinIndex(pins, hash);
    if i < |pins| then Hold(pins, i, pins[i].holders * locals - {local})
    else
      var tracked := StartTracking(pins, hash, locals);
      Hold(tracked, |tracked| - 1, locals - {local})
  }

  function UnpinnedAll(pins: Pins, local: Local, locals: set<Local>, hashes: seq<Hash>): Outcome {
    if hashes == [] then Outcome(pins, [])
    else
      var n := |hashes| - 1;
      var was := UnpinnedAll(pins, local, locals, hashes[..n]);
      var r := Unpinned(was.pins, local, locals, hashes[n]);
      Outcome(r.pins, was.sent + r.sent)
  }

  /** Every pin without `local`; those left without holders are unpinned, in order. */
  function Unsubscribed(pins: Pins, local: Local): Outcome {
    if pins == [] then Outcome([], [])
    else
      var rest := Unsubscribed(pins[1..], local);
      var holders := pins[0].holders - {local};
      if holders == {} then Outcome(rest.pins, [pins[0].hash] + rest.sent)
      else Outcome([pins[0].(holders := holders)] + rest.pins, rest.sent)
  }

  function PinsOf(pinned: map<string, Pins>, sub: string): Pins {
    if sub in pinned then pinned[sub] else []
  }

  /** Follows without tracked blocks have no entry. */
  function Stored(pinned: map<string, Pins>, sub: string, pins: Pins): map<string, Pins> {
    if pins == [] then pinned - {sub} else pinned[sub := pins]
  }

  lemma StoredKeepsOthers(pinned: map<string, Pins>, sub: string, pins: Pins)
    ensures Stored(pinned, sub, pins) - {sub} == pinned - {sub}
  {
  }

  // ---------------------------------------------------------------- the tracker itself

  class PinnedBlocks {
    var pinned: map<string, Pins>

    constructor ()
      ensures pinned == map[]
    {
      pinned := map[];
    }

    method Unfollow(sub: string)
      modifies this
      ensures pinned == old(pinned) - {sub}
    {
      pinned := pinned - {sub};
    }

    /** Returns the blocks for which an unpin is sent upstream, in order. */
    method UnsubscribeLocal(follow: Option<Follow>, local: Local) returns (sent: seq<Hash>)
      modifies this
      ensures follow == None ==> sent == [] && pinned == old(pinned)
      ensures follow.Some? ==>
                var sub := follow.value.upstreamSubId;
                var r := Unsubscribed(PinsOf(old(pinned), sub), local);
                && sent == r.sent && pinned == Stored(old(pinned), sub, r.pins)
                && pinned - {sub} == old(pinned) - {sub}
    {
      sent := [];
      if follow == None {
        return;
      }
      var sub := follow.value.upstreamSubId;
      if sub !in pinned {
        assert pinned - {sub} == pinned;
        return;
      }
      var pins;
      pins, sent := DropLocal(pinned[sub], local);
      StoredKeepsOthers(pinned, sub, pins);
      pinned := if pins == [] then pinned - {sub} else pinned[sub := pins];
    }

    method UnpinLocal(follow: Option<Follow>, local: Local, hashes: seq<Hash>) returns (sent: seq<Hash>)
      modifies this
      ensures follow == None ==> sent == [] && pinned == old(pinned)
      ensures follow.Some? ==>
                var sub := follow.value.upstreamSubId;
                var r := UnpinnedAll(PinsOf(old(pinned), sub), local, follow.value.locals, hashes);
                && sent == r.sent && pinned == Stored(old(pinned), sub, r.pins)
                && pinned - {sub} == old(pinned) - {sub}
    {
      sent := [];
      if follow == None {
        return;
      }
      var sub, locals := follow.value.upstreamSubId, follow.value.locals;
      var pins: Pins := if sub in pinned then pinned[sub] else [];
      var i := 0;
      while i < |hashes|
        invariant pinned == old(pinned) && i <= |hashes|
        invariant Outcome(pins, sent) == UnpinnedAll(PinsOf(old(pinned), sub), local, locals, hashes[..i])
      {
        var more;
        pins, more := UnpinOne(pins, local, locals, hashes[i]);
        sent := sent + more;
        assert hashes[..i + 1][..i] == hashes[..i];
        i := i + 1;
      }
      assert hashes[..i] == hashes;
      StoredKeepsOthers(pinned, sub, pins);
      pinned := if pins == [] then pinned - {sub} else pinned[sub := pins];
    }
  }

  /** The scan of the pins has come past `front`, with `sent` unpinned, and has `back` to go. */
  ghost predicate Dropped(all: Outcome, front: Pins, back: Pins, sent: seq<Hash>, local: Local) {
    var rest := Unsubscribed(back, local);
    all == Outcome(front + rest.pins, sent + rest.sent)
  }

  lemma DropStarts(pins: Pins, local: Local)
    ensures Dropped(Unsubscribed(pins, local), [], pins, [], local)
  {
    hide Unsubscribed;
    var r := Unsubscribed(pins, local);
    assert [] + r.pins == r.pins && [] + r.sent == r.sent;
  }

  lemma DropNext(all: Outcome, front: Pins, back: Pins, sent: seq<Hash>, local: Local)
    requires back != [] && Dropped(all, front, back, sent, local)
    ensures var holders := back[0].holders - {local};
            if holders == {} then Dropped(all, front, back[1..], sent + [back[0].hash], local)
            else Dropped(all, front + [back[0].(holders := holders)], back[1..], sent, local)
  {
    var rest, pin := Unsubscribed(back[1..], local), back[0].(holders := back[0].holders - {local});
    if pin.holders == {} {
      assert sent + ([pin.hash] + rest.sent) == sent + [pin.hash] + rest.sent;
    } else {
      assert front + ([pin] + rest.pins) == front + [pin] + rest.pins;
    }
  }

  lemma DropEnds(all: Outcome, front: Pins, sent: seq<Hash>, local: Local)
    requires Dropped(all, front, [], sent, local)
    ensures all == Outcome(front, sent)
  {
  }

  method DropLocal(before: Pins, local: Local) returns (pins: Pins, sent: seq<Hash>)
    ensures Outcome(pins, sent) == Unsubscribed(before, local)
  {
    hide Unsubscribed, Dropped;
    pins, sent := before, [];
    ghost var front: Pins, back: Pins := [], before;
    DropStarts(before, local);
    var i := 0;
    while i < |pins|
      invariant i == |front| && pins == front + back
      invariant Dropped(Unsubscribed(before, local), front, back, sent, local)
      decreases |back|
    {
      SplitAround(front, back);
      DropNext(Unsubscribed(before, local), front, back, sent, local);
      var holders := pins[i].holders - {local};
      if holders == {} {
        sent := sent + [pins[i].hash];
        pins := RemoveAt(pins, i);
      } else {
        pins := pins[i := pins[i].(holders := holders)];
        front := front + [pins[i]];
        i := i + 1;
      }
      back := back[1..];
    }
    DropEnds(Unsubscribed(before, local), front, sent, local);
  }

  /** The holders still subscribed. */
  method DropDead(holders: set<Local>, locals: set<Local>) returns (alive: set<Local>)
    ensures alive == holders * locals
  {
    alive := holders;
    var rest := holders;
    while rest != {}
      invariant rest <= holders
      invariant alive == holders - ((holders - rest) - locals)
      decreases |rest|
    {
      var dead :| dead in rest;
      if dead !in locals {
        alive := alive - {dead};
      }
      rest := rest - {dead};
    }
  }

  method UnpinOne(before: Pins, local: Local, locals: set<Local>, hash: Hash) returns (pins: Pins, sent: seq<Hash>)
    ensures Outcome(pins, sent) == Unpinned(before, local, locals, hash)
  {
    pins := before;
    var i := PinIndex(pins, hash);
    var holders;
    if i < |pins| {
      holders := DropDead(pins[i].holders, locals);
    } else {
      holders := locals;
      pins := pins + [Pin(hash, holders)];
      if |pins| >= MAX_HASHES {
        pins := pins[1..];
      }
      i := |pins| - 1;
    }
    holders := holders - {local};
    if holders == {} {
      return RemoveAt(pins, i), [hash];
    }
    return pins[i := Pin(hash, holders)], [];
  }
}
