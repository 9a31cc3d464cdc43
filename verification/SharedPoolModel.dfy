/**
 The values of the pool of shared subscriptions (src/json-rpc/upstream/shared.ts): what each
 operation does while no client is closed, and what it may do while some are.

 A subscription is identified by the fresh key under which it was acquired. Destroying one runs
 the synchronous part of its clean-up (src/json-rpc/polkadot/chain-head/state/index.ts:33-42),
 which releases it from the pool; once the clean-up is over it is released a second time.
 */
module SharedPoolModel {
  import opened Collections

  type Key = string
  type Local = string
  type Client = nat

  /** Local subscribers with their clients, in order of subscription. */
  datatype Sub = Sub(locals: seq<(Local, Client)>, destroyed: bool, cleaned: bool)

  /** `order` lists the pooled keys; `subs` also holds the subscriptions already released. */
  datatype Pool = Pool(subs: map<Key, Sub>, order: seq<Key>, index: map<Local, Key>, least: Option<Key>, gone: bool)

  const EMPTY := Pool(map[], [], map[], None, false)

  // ---------------------------------------------------------------- specification, no client closed

  function Holds(s: Sub, local: Local): bool {
    exists e :: e in s.locals && e.0 == local
  }

  function OtherThan(local: Local): ((Local, Client)) -> bool {
    (e: (Local, Client)) => e.0 != local
  }

  function Others(key: Key): Key -> bool {
    (k: Key) => k != key
  }

  function Load(subs: map<Key, Sub>, key: Key): nat {
    if key in subs then |subs[key].locals| else 0
  }

  /** The first entry of least load among `min` and then `keys`. */
  function LeastOf(keys: seq<Key>, subs: map<Key, Sub>, min: Option<Key>): Option<Key> {
    if keys == [] then min
    else LeastOf(keys[1..], subs,
                 if min.None? || Load(subs, keys[0]) < Load(subs, min.value) then Some(keys[0]) else min)
  }

  function Rescanned(p: Pool): Pool {
    p.(least := LeastOf(p.order, p.subs, None))
  }

  /** The end of a release: the key leaves the pool, and the cached entry is found anew if it was this one. */
  function Dropped(p: Pool, key: Key, wasLeast: bool): Pool {
    var q := p.(order := Filter(p.order, Others(key)));
    var r := if wasLeast then Rescanned(q) else q;
    if r.order == [] then r.(gone := true) else r
  }

  /** A subscription without locals is destroyed once; its clean-up releases it once. */
  function Destroyed(p: Pool, key: Key): Pool
    requires key in p.subs
  {
    var s := p.subs[key];
    if s.destroyed then p
    else if s.cleaned then p.(subs := p.subs[key := s.(destroyed := true)])
    else
      Dropped(p.(subs := p.subs[key := s.(destroyed := true, cleaned := true)]), key, p.least == Some(key))
  }

  function WithLocals(p: Pool, key: Key, locals: seq<(Local, Client)>): Pool
    requires key in p.subs
  {
    p.(subs := p.subs[key := p.subs[key].(locals := locals)])
  }

  /** The local leaves the subscription, which is destroyed when it was the last. */
  function Departed(p: Pool, key: Key, local: Local): (r: Pool)
    requires key in p.subs
    ensures r.subs.Keys == p.subs.Keys
  {
    var locals := Filter(p.subs[key].locals, OtherThan(local));
    var q := WithLocals(p, key, locals);
    if locals == [] then Destroyed(q, key) else q
  }

  function Left(p: Pool, key: Key, local: Local): (r: Pool)
    requires key in p.subs
    ensures r.subs.Keys == p.subs.Keys
  {
    var d := Departed(p, key, local);
    Rescanned(d.(index := d.index - {local}))
  }

  function LeftAll(p: Pool, key: Key, locals: seq<(Local, Client)>): (r: Pool)
    requires key in p.subs
    ensures r.subs.Keys == p.subs.Keys
  {
    if locals == [] then p
    else Left(LeftAll(p, key, locals[..|locals| - 1]), key, locals[|locals| - 1].0)
  }

  function Released(p: Pool, key: Key): Pool
    requires key in p.order ==> key in p.subs
  {
    var q := if key in p.order then LeftAll(p, key, p.subs[key].locals) else p;
    Dropped(q, key, p.least == Some(key))
  }

  function CleanedUp(p: Pool, key: Key): Pool
    requires key in p.subs
  {
    if p.subs[key].cleaned then p
    else Released(p.(subs := p.subs[key := p.subs[key].(cleaned := true)]), key)
  }

  /** A local enters a subscription and the index. */
  function Entered(p: Pool, key: Key, local: Local, client: Client): Pool
    requires key in p.subs
  {
    WithLocals(p, key, p.subs[key].locals + [(local, client)]).(index := p.index[local := key])
  }

  function Subscribed(p: Pool, key: Key, local: Local, client: Client): Pool
    requires key in p.subs
  {
    if Holds(p.subs[key], local) then p else Rescanned(Entered(p, key, local, client))
  }

  /** A new subscription is pooled; the cached entry is not yet compared with it. */
  function Pooled(p: Pool, key: Key): Pool {
    p.(subs := p.subs[key := Sub([], false, false)], order := p.order + [key])
  }

  function Acquired(p: Pool, key: Key): Pool {
    var q := Pooled(p, key);
    if p.least.None? || 0 < Load(q.subs, p.least.value) then q.(least := Some(key)) else q
  }

  // ---------------------------------------------------------------- validity and shrinking

  ghost predicate DistinctIds(locals: seq<(Local, Client)>) {
    forall i, j :: 0 <= i < j < |locals| ==> locals[i].0 != locals[j].0
  }

  ghost predicate SubKept(index: map<Local, Key>, key: Key, s: Sub) {
    && DistinctIds(s.locals)
    && forall e :: e in s.locals ==> e.0 in index && index[e.0] == key
  }

  /** Pooled keys are distinct, and every local held by a subscription is indexed to it. */
  ghost predicate PoolKept(p: Pool) {
    && Distinct(p.order) && (forall k :: k in p.order ==> k in p.subs)
    && (p.least.Some? ==> p.least.value in p.subs)
    && forall k :: k in p.subs ==> SubKept(p.index, k, p.subs[k])
  }

  ghost predicate SubShrinks(was: Sub, now: Sub) {
    && |now.locals| <= |was.locals| && (forall e :: e in now.locals ==> e in was.locals)
    && (was.destroyed ==> now.destroyed) && (was.cleaned ==> now.cleaned)
  }

  /** From `p` to `q` locals, pooled entries and index entries only disappear. */
  ghost predicate Shrinks(p: Pool, q: Pool) {
    && q.subs.Keys == p.subs.Keys
    && (forall k :: k in p.subs ==> SubShrinks(p.subs[k], q.subs[k]))
    && (forall k :: k in q.order ==> k in p.order)
    && (forall l :: l in q.index ==> l in p.index && q.index[l] == p.index[l])
  }

  /** The local entries whose client is closed, across all subscriptions. */
  ghost function ClosedEntries(subs: map<Key, Sub>, closed: set<Client>): set<(Key, (Local, Client))> {
    set k, e | k in subs && e in subs[k].locals && e.1 in closed :: (k, e)
  }

  ghost predicate NoneClosed(s: Sub, closed: set<Client>) {
    forall e :: e in s.locals ==> e.1 !in closed
  }

  lemma ShrinksTransitive(p: Pool, q: Pool, r: Pool)
    requires Shrinks(p, q) && Shrinks(q, r)
    ensures Shrinks(p, r)
  {
    forall k | k in p.subs ensures SubShrinks(p.subs[k], r.subs[k]) {
      assert SubShrinks(p.subs[k], q.subs[k]) && SubShrinks(q.subs[k], r.subs[k]);
    }
  }

  lemma ClosedShrink(p: Pool, q: Pool, closed: set<Client>)
    requires Shrinks(p, q)
    ensures ClosedEntries(q.subs, closed) <= ClosedEntries(p.subs, closed)
  {
    forall x | x in ClosedEntries(q.subs, closed) ensures x in ClosedEntries(p.subs, closed) {
      assert SubShrinks(p.subs[x.0], q.subs[x.0]);
    }
  }

  function OpenOnly(closed: set<Client>): ((Local, Client)) -> bool {
    (e: (Local, Client)) => e.1 !in closed
  }

  /** The locals left by an unsubscription, which also drops the entries of closed clients. */
  function Remaining(s: Sub, local: Local, closed: set<Client>): seq<(Local, Client)> {
    Filter(Filter(s.locals, OtherThan(local)), OpenOnly(closed))
  }

  ghost function ClosedElsewhere(subs: map<Key, Sub>, closed: set<Client>, key: Key): set<(Key, (Local, Client))> {
    set x | x in ClosedEntries(subs, closed) && x.0 != key
  }

  lemma {:induction false} FilterKeepsIds(locals: seq<(Local, Client)>, keep: ((Local, Client)) -> bool)
    requires DistinctIds(locals)
    ensures DistinctIds(Filter(locals, keep))
  {
    if locals != [] {
      assert DistinctIds(locals[1..]);
      FilterKeepsIds(locals[1..], keep);
      var rest := Filter(locals[1..], keep);
      forall j | 0 <= j < |rest| ensures rest[j].0 != locals[0].0 {
        assert rest[j] in locals[1..];
      }
    }
  }

  lemma LocalsReplaced(p: Pool, key: Key, locals: seq<(Local, Client)>)
    requires PoolKept(p) && key in p.subs && DistinctIds(locals)
    requires |locals| <= |p.subs[key].locals| && forall e :: e in locals ==> e in p.subs[key].locals
    ensures PoolKept(WithLocals(p, key, locals)) && Shrinks(p, WithLocals(p, key, locals))
  {
    hide DistinctIds;
    assert SubKept(p.index, key, p.subs[key]);
    assert SubKept(p.index, key, p.subs[key].(locals := locals));
    var q := WithLocals(p, key, locals);
    forall k | k in q.subs ensures SubKept(q.index, k, q.subs[k]) {
      assert SubKept(p.index, k, p.subs[k]);
    }
  }

  lemma RemainingFits(p: Pool, key: Key, local: Local, closed: set<Client>)
    requires PoolKept(p) && key in p.subs
    ensures var rest := Remaining(p.subs[key], local, closed);
            && DistinctIds(rest) && |rest| <= |p.subs[key].locals|
            && (forall e :: e in rest <==> e in p.subs[key].locals && e.0 != local && e.1 !in closed)
  {
    var was := p.subs[key].locals;
    assert SubKept(p.index, key, p.subs[key]);
    FilterKeepsIds(was, OtherThan(local));
    FilterKeepsIds(Filter(was, OtherThan(local)), OpenOnly(closed));
  }

  lemma DropLocal(p: Pool, key: Key, local: Local, closed: set<Client>)
    requires PoolKept(p) && key in p.subs
    ensures var q := WithLocals(p, key, Remaining(p.subs[key], local, closed));
            && PoolKept(q) && Shrinks(p, q)
            && !Holds(q.subs[key], local) && NoneClosed(q.subs[key], closed)
            && ClosedEntries(q.subs, closed) == ClosedElsewhere(p.subs, closed, key)
    ensures ClosedEntries(p.subs, closed) == {} ==>
              Remaining(p.subs[key], local, closed) == Filter(p.subs[key].locals, OtherThan(local))
    ensures |Remaining(p.subs[key], local, closed)| <= |p.subs[key].locals|
    ensures Holds(p.subs[key], local) ==> |Remaining(p.subs[key], local, closed)| < |p.subs[key].locals|
  {
    hide PoolKept, Shrinks, Remaining;
    RemainingFits(p, key, local, closed);
    LocalsReplaced(p, key, Remaining(p.subs[key], local, closed));
    RemainingCalm(p, key, local, closed);
    RemainingShorter(p.subs[key], local, closed);
    ClosedDropped(p, key, Remaining(p.subs[key], local, closed), closed);
  }

  lemma ClosedDropped(p: Pool, key: Key, locals: seq<(Local, Client)>, closed: set<Client>)
    requires key in p.subs && forall e :: e in locals ==> e.1 !in closed
    ensures ClosedEntries(WithLocals(p, key, locals).subs, closed) == ClosedElsewhere(p.subs, closed, key)
  {
    var q := WithLocals(p, key, locals);
    assert forall x :: x in ClosedEntries(q.subs, closed) <==> x in ClosedElsewhere(p.subs, closed, key);
  }

  lemma RemainingCalm(p: Pool, key: Key, local: Local, closed: set<Client>)
    requires key in p.subs
    ensures ClosedEntries(p.subs, closed) == {} ==>
              Remaining(p.subs[key], local, closed) == Filter(p.subs[key].locals, OtherThan(local))
  {
    var rest := Filter(p.subs[key].locals, OtherThan(local));
    if ClosedEntries(p.subs, closed) == {} {
      forall e | e in rest ensures OpenOnly(closed)(e) {
        assert (key, e) !in ClosedEntries(p.subs, closed);
      }
      FilterAll(rest, OpenOnly(closed));
    }
  }

  lemma RemainingShorter(s: Sub, local: Local, closed: set<Client>)
    ensures Holds(s, local) ==> |Remaining(s, local, closed)| < |s.locals|
  {
    if Holds(s, local) {
      FilterDropsOne(s.locals, local);
    }
  }

  lemma {:induction false} FilterDropsOne(locals: seq<(Local, Client)>, local: Local)
    requires exists e :: e in locals && e.0 == local
    ensures |Filter(locals, OtherThan(local))| < |locals|
  {
    if locals[0].0 != local {
      var e :| e in locals && e.0 == local;
      assert e in locals[1..];
      FilterDropsOne(locals[1..], local);
    }
  }

  // ---------------------------------------------------------------- what counting may drop

  /** Either nothing left, or exactly the entries of closed clients did. */
  ghost predicate Purged(was: seq<(Local, Client)>, now: seq<(Local, Client)>, closed: set<Client>) {
    now == was || now == Filter(was, OpenOnly(closed))
  }

  /** A subscription is flagged only once it is empty, and one that is emptied leaves the pool. */
  ghost predicate SubPurged(was: Sub, now: Sub, pooled: bool, closed: set<Client>) {
    && Purged(was.locals, now.locals, closed)
    && (now.locals != [] ==> now.destroyed == was.destroyed && now.cleaned == was.cleaned)
    && (now.locals == [] && was.locals != [] && !was.destroyed && !was.cleaned ==> !pooled)
  }

  ghost predicate SubsPurged(p: Pool, q: Pool, closed: set<Client>, own: set<Key>)
    requires q.subs.Keys == p.subs.Keys
  {
    forall k :: k in p.subs && k !in own ==> SubPurged(p.subs[k], q.subs[k], k in q.order, closed)
  }

  function Among(keys: seq<Key>): Key -> bool {
    (k: Key) => k in keys
  }

  /** The pooled entries keep their order, and only empty ones leave. */
  ghost predicate OrderPurged(p: Pool, q: Pool) {
    && q.order == Filter(p.order, Among(q.order))
    && forall k :: k in p.order && k !in q.order ==> Load(q.subs, k) == 0
  }

  ghost predicate MayLose(p: Pool, local: Local, closed: set<Client>, own: set<Key>) {
    exists k, e :: k in p.subs && e in p.subs[k].locals && e.0 == local && (e.1 in closed || k in own)
  }

  ghost predicate IndexPurged(p: Pool, q: Pool, closed: set<Client>, own: set<Key>) {
    forall l :: l in p.index && l !in q.index ==> MayLose(p, l, closed, own)
  }

  /**
   From `p` to `q` no client that is still open loses a subscription, its place in the index or its
   entry in the pool, except in the subscriptions `own`.
   */
  ghost predicate Purges(p: Pool, q: Pool, closed: set<Client>, own: set<Key>) {
    Shrinks(p, q) && SubsPurged(p, q, closed, own) && OrderPurged(p, q) && IndexPurged(p, q, closed, own)
  }

  lemma {:induction false} FilterTwice(s: seq<(Local, Client)>, keep: ((Local, Client)) -> bool)
    ensures Filter(Filter(s, keep), keep) == Filter(s, keep)
  {
    FilterAll(Filter(s, keep), keep);
  }

  lemma SubPurgedTransitive(a: Sub, b: Sub, c: Sub, pooled: bool, stays: bool, closed: set<Client>)
    requires SubPurged(a, b, pooled, closed) && SubPurged(b, c, stays, closed)
    requires (stays ==> pooled) && SubShrinks(b, c)
    ensures SubPurged(a, c, stays, closed)
  {
    FilterTwice(a.locals, OpenOnly(closed));
  }

  lemma SubsPurgedTransitive(p: Pool, q: Pool, r: Pool, closed: set<Client>, own: set<Key>)
    requires Shrinks(p, q) && Shrinks(q, r) && SubsPurged(p, q, closed, own) && SubsPurged(q, r, closed, own)
    ensures r.subs.Keys == p.subs.Keys && SubsPurged(p, r, closed, own)
  {
    hide SubPurged;
    forall k | k in p.subs && k !in own ensures SubPurged(p.subs[k], r.subs[k], k in r.order, closed) {
      assert SubPurged(p.subs[k], q.subs[k], k in q.order, closed);
      assert SubPurged(q.subs[k], r.subs[k], k in r.order, closed);
      SubPurgedTransitive(p.subs[k], q.subs[k], r.subs[k], k in q.order, k in r.order, closed);
    }
  }

  lemma {:induction false} FilterNarrowed(keys: seq<Key>, few: seq<Key>, fewer: seq<Key>)
    requires forall k :: k in fewer ==> k in few
    ensures Filter(Filter(keys, Among(few)), Among(fewer)) == Filter(keys, Among(fewer))
  {
    if keys != [] {
      FilterNarrowed(keys[1..], few, fewer);
      FilterAppend(if Among(few)(keys[0]) then [keys[0]] else [], Filter(keys[1..], Among(few)), Among(fewer));
    }
  }

  lemma OrderPurgedTransitive(p: Pool, q: Pool, r: Pool)
    requires Shrinks(p, q) && Shrinks(q, r) && OrderPurged(p, q) && OrderPurged(q, r)
    ensures OrderPurged(p, r)
  {
    FilterNarrowed(p.order, q.order, r.order);
    forall k | k in p.order && k !in r.order ensures Load(r.subs, k) == 0 {
      if k in r.subs {
        assert SubShrinks(q.subs[k], r.subs[k]);
      }
    }
  }

  lemma LosesIt(p: Pool, key: Key, e: (Local, Client), closed: set<Client>, own: set<Key>)
    requires key in p.subs && e in p.subs[key].locals && (e.1 in closed || key in own)
    ensures MayLose(p, e.0, closed, own)
  {
  }

  lemma LostBy(p: Pool, local: Local, closed: set<Client>, own: set<Key>) returns (key: Key, e: (Local, Client))
    requires MayLose(p, local, closed, own)
    ensures key in p.subs && e in p.subs[key].locals && e.0 == local && (e.1 in closed || key in own)
  {
    key, e :| key in p.subs && e in p.subs[key].locals && e.0 == local && (e.1 in closed || key in own);
  }

  lemma MayLoseEarlier(p: Pool, q: Pool, local: Local, closed: set<Client>, own: set<Key>)
    requires Shrinks(p, q) && MayLose(q, local, closed, own)
    ensures MayLose(p, local, closed, own)
  {
    hide MayLose;
    var k, e := LostBy(q, local, closed, own);
    assert SubShrinks(p.subs[k], q.subs[k]);
    LosesIt(p, k, e, closed, own);
  }

  lemma IndexPurgedTransitive(p: Pool, q: Pool, r: Pool, closed: set<Client>, own: set<Key>)
    requires Shrinks(p, q) && IndexPurged(p, q, closed, own) && IndexPurged(q, r, closed, own)
    ensures IndexPurged(p, r, closed, own)
  {
    hide MayLose, Shrinks;
    forall l | l in p.index && l !in r.index ensures MayLose(p, l, closed, own) {
      if l in q.index {
        MayLoseEarlier(p, q, l, closed, own);
      }
    }
  }

  lemma PurgesTransitive(p: Pool, q: Pool, r: Pool, closed: set<Client>, own: set<Key>)
    requires Purges(p, q, closed, own) && Purges(q, r, closed, own)
    ensures Purges(p, r, closed, own)
  {
    hide Shrinks, SubsPurged, OrderPurged, IndexPurged;
    ShrinksTransitive(p, q, r);
    SubsPurgedTransitive(p, q, r, closed, own);
    OrderPurgedTransitive(p, q, r);
    IndexPurgedTransitive(p, q, r, closed, own);
  }

  /** Only the cached entry and the flag of the pool itself may differ. */
  lemma PurgesNothing(p: Pool, q: Pool, closed: set<Client>, own: set<Key>)
    requires q.subs == p.subs && q.order == p.order && q.index == p.index
    ensures Purges(p, q, closed, own)
  {
    FilterAll(p.order, Among(p.order));
  }

  lemma PurgesWiden(p: Pool, q: Pool, closed: set<Client>, own: set<Key>)
    requires Purges(p, q, closed, {})
    ensures Purges(p, q, closed, own)
  {
    hide MayLose, Shrinks, SubPurged, OrderPurged;
    forall l | l in p.index && l !in q.index ensures MayLose(p, l, closed, own) {
      var k, e := LostBy(p, l, closed, {});
      LosesIt(p, k, e, closed, own);
    }
  }

  /** A subscription without locals is not an exception. */
  lemma PurgesEmptied(p: Pool, q: Pool, closed: set<Client>, key: Key)
    requires Purges(p, q, closed, {key}) && key in p.subs && p.subs[key].locals == []
    ensures Purges(p, q, closed, {})
  {
    hide MayLose, OrderPurged;
    assert SubShrinks(p.subs[key], q.subs[key]);
    forall l | l in p.index && l !in q.index ensures MayLose(p, l, closed, {}) {
      var k, e := LostBy(p, l, closed, {key});
      LosesIt(p, k, e, closed, {});
    }
  }

  /** The pool once a local is unsubscribed and nothing else has happened. */
  function Unsubscribed(p: Pool, key: Key, local: Local, closed: set<Client>): Pool
    requires key in p.subs
  {
    WithLocals(p, key, Remaining(p.subs[key], local, closed)).(index := p.index - {local})
  }

  lemma {:induction false} RemainingIsOpen(locals: seq<(Local, Client)>, e: (Local, Client), closed: set<Client>)
    requires DistinctIds(locals) && e in locals && e.1 in closed
    ensures Filter(Filter(locals, OtherThan(e.0)), OpenOnly(closed)) == Filter(locals, OpenOnly(closed))
  {
    var rest := locals[1..];
    assert DistinctIds(rest);
    if locals[0] == e {
      forall x | x in rest ensures OtherThan(e.0)(x) {
        var i :| 0 <= i < |rest| && rest[i] == x;
        assert locals[i + 1] == x;
      }
      FilterAll(rest, OtherThan(e.0));
      assert Filter(locals, OtherThan(e.0)) == rest;
    } else {
      var i :| 0 < i < |locals| && locals[i] == e;
      assert locals[0].0 != e.0;
      RemainingIsOpen(rest, e, closed);
      FilterAppend([locals[0]], Filter(rest, OtherThan(e.0)), OpenOnly(closed));
    }
  }

  lemma UnsubscribedIndex(p: Pool, q: Pool, key: Key, e: (Local, Client), closed: set<Client>, own: set<Key>)
    requires PoolKept(p) && key in p.subs && e in p.subs[key].locals && (e.1 in closed || key in own)
    requires Purges(Unsubscribed(p, key, e.0, closed), q, closed, {})
    ensures IndexPurged(p, q, closed, own)
  {
    hide MayLose, Shrinks, PoolKept, SubPurged, OrderPurged;
    var mid := Unsubscribed(p, key, e.0, closed);
    LosesIt(p, key, e, closed, own);
    forall l | l in p.index && l !in q.index ensures MayLose(p, l, closed, own) {
      if l != e.0 {
        var k, x := LostBy(mid, l, closed, {});
        assert k != key ==> mid.subs[k] == p.subs[k];
        LosesIt(p, k, x, closed, own);
      }
    }
  }

  lemma UnsubscribedShrinks(p: Pool, key: Key, local: Local, closed: set<Client>)
    requires PoolKept(p) && key in p.subs
    ensures Shrinks(p, Unsubscribed(p, key, local, closed))
  {
    DropLocal(p, key, local, closed);
  }

  /** To unsubscribe a local of a closed client is to drop closed clients. */
  lemma ClosedUnsubscribed(p: Pool, q: Pool, key: Key, e: (Local, Client), closed: set<Client>)
    requires PoolKept(p) && key in p.subs && e in p.subs[key].locals && e.1 in closed
    requires Purges(Unsubscribed(p, key, e.0, closed), q, closed, {})
    requires Remaining(p.subs[key], e.0, closed) == [] && !p.subs[key].destroyed && !p.subs[key].cleaned ==>
               key !in q.order
    ensures Purges(p, q, closed, {})
  {
    hide Remaining, IndexPurged, PoolKept;
    var mid := Unsubscribed(p, key, e.0, closed);
    UnsubscribedShrinks(p, key, e.0, closed);
    ShrinksTransitive(p, mid, q);
    UnsubscribedIndex(p, q, key, e, closed, {});
    ClosedSubPurged(p, q, key, e, closed);
  }

  lemma ClosedSubPurged(p: Pool, q: Pool, key: Key, e: (Local, Client), closed: set<Client>)
    requires PoolKept(p) && key in p.subs && e in p.subs[key].locals && e.1 in closed
    requires Purges(Unsubscribed(p, key, e.0, closed), q, closed, {})
    requires Remaining(p.subs[key], e.0, closed) == [] && !p.subs[key].destroyed && !p.subs[key].cleaned ==>
               key !in q.order
    ensures SubPurged(p.subs[key], q.subs[key], key in q.order, closed)
  {
    var mid := Unsubscribed(p, key, e.0, closed);
    assert SubKept(p.index, key, p.subs[key]);
    RemainingIsOpen(p.subs[key].locals, e, closed);
    FilterTwice(p.subs[key].locals, OpenOnly(closed));
    assert SubPurged(mid.subs[key], q.subs[key], key in q.order, closed);
  }

  /** What counting leaves of an entry once no client of it is closed. */
  lemma CountedIsOpen(p: Pool, q: Pool, key: Key, closed: set<Client>)
    requires Purges(p, q, closed, {}) && key in p.subs && NoneClosed(q.subs[key], closed)
    ensures q.subs[key].locals == Filter(p.subs[key].locals, OpenOnly(closed))
  {
    assert SubPurged(p.subs[key], q.subs[key], key in q.order, closed);
    if q.subs[key].locals == p.subs[key].locals {
      FilterAll(p.subs[key].locals, OpenOnly(closed));
    }
  }

  lemma OpenStays(p: Pool, q: Pool, key: Key, closed: set<Client>)
    requires Purges(p, q, closed, {}) && key in p.subs && NoneClosed(p.subs[key], closed)
    ensures q.subs[key].locals == p.subs[key].locals && NoneClosed(q.subs[key], closed)
  {
    assert SubPurged(p.subs[key], q.subs[key], key in q.order, closed);
    FilterAll(p.subs[key].locals, OpenOnly(closed));
  }

  // ---------------------------------------------------------------- the cached entry while clients close

  /** No pooled entry has fewer subscribers than the cached one, which is absent only from an empty pool. */
  ghost predicate CachesLight(p: Pool) {
    match p.least
    case None => p.order == []
    case Some(k) => forall j :: j in p.order ==> Load(p.subs, k) <= Load(p.subs, j)
  }

  /** The scan of the first `i` of at least two entries has counted them all but the ones that left meanwhile. */
  ghost predicate ScannedTo(keys: seq<Key>, i: nat, q: Pool, min: Key, closed: set<Client>)
    requires 1 < i <= |keys|
  {
    && min in keys[..i] && Counted(q, min, closed) && Counted(q, keys[0], closed)
    && (min == keys[0] || Load(q.subs, min) < Load(q.subs, keys[0]))
    && forall j :: 0 <= j < i && keys[j] in q.order ==>
                     Counted(q, keys[j], closed) && Load(q.subs, min) <= Load(q.subs, keys[j])
  }

  ghost predicate Counted(p: Pool, key: Key, closed: set<Client>) {
    key in p.subs && NoneClosed(p.subs[key], closed)
  }

  lemma CountedStays(p: Pool, q: Pool, key: Key, closed: set<Client>)
    requires Purges(p, q, closed, {}) && Counted(p, key, closed)
    ensures Counted(q, key, closed) && Load(q.subs, key) == Load(p.subs, key)
  {
    OpenStays(p, q, key, closed);
  }

  lemma ScannedTwo(keys: seq<Key>, q: Pool, closed: set<Client>)
    requires |keys| > 1 && Counted(q, keys[0], closed) && Counted(q, keys[1], closed)
    ensures ScannedTo(keys, 2, q, if Load(q.subs, keys[1]) < Load(q.subs, keys[0]) then keys[1] else keys[0], closed)
  {
    assert keys[0] in keys[..2] && keys[1] in keys[..2];
  }

  lemma ScannedOneMore(keys: seq<Key>, i: nat, p: Pool, q: Pool, min: Key, closed: set<Client>)
    requires 1 < i < |keys| && ScannedTo(keys, i, p, min, closed) && Purges(p, q, closed, {})
    requires Counted(q, keys[i], closed)
    ensures ScannedTo(keys, i + 1, q, if Load(q.subs, keys[i]) < Load(q.subs, min) then keys[i] else min, closed)
  {
    hide Purges, Counted;
    CountedStays(p, q, min, closed);
    CountedStays(p, q, keys[0], closed);
    ScannedStays(keys, i, p, q, min, closed);
    assert keys[..i + 1] == keys[..i] + [keys[i]];
  }

  lemma ScannedStays(keys: seq<Key>, i: nat, p: Pool, q: Pool, min: Key, closed: set<Client>)
    requires 1 < i <= |keys| && ScannedTo(keys, i, p, min, closed) && Purges(p, q, closed, {})
    ensures forall j :: 0 <= j < i && keys[j] in q.order ==>
              Counted(q, keys[j], closed) && Load(q.subs, min) <= Load(q.subs, keys[j])
  {
    hide Counted;
    CountedStays(p, q, min, closed);
    forall j | 0 <= j < i && keys[j] in q.order
      ensures Counted(q, keys[j], closed) && Load(q.subs, min) <= Load(q.subs, keys[j])
    {
      CountedStays(p, q, keys[j], closed);
    }
  }

  lemma ScannedNext(keys: seq<Key>, i: nat, p: Pool, q: Pool, min: Key, closed: set<Client>)
    requires 0 < i < |keys| && (if i == 1 then min == keys[0] else ScannedTo(keys, i, p, min, closed))
    requires Purges(p, q, closed, {}) && Counted(q, keys[i], closed) && Counted(q, min, closed)
    ensures ScannedTo(keys, i + 1, q, if Load(q.subs, keys[i]) < Load(q.subs, min) then keys[i] else min, closed)
  {
    hide Purges, Counted, ScannedTo, Load;
    if i == 1 {
      ScannedTwo(keys, q, closed);
    } else {
      ScannedOneMore(keys, i, p, q, min, closed);
    }
  }

  lemma LeastOfNext(keys: seq<Key>, i: nat, subs: map<Key, Sub>, min: Option<Key>)
    requires i < |keys|
    ensures LeastOf(keys[i..], subs, min)
         == LeastOf(keys[i + 1..], subs,
                    if min.None? || Load(subs, keys[i]) < Load(subs, min.value) then Some(keys[i]) else min)
  {
    assert keys[i..][0] == keys[i] && keys[i..][1..] == keys[i + 1..];
  }

  lemma LeastOfNone(keys: seq<Key>, subs: map<Key, Sub>, min: Option<Key>)
    ensures LeastOf(keys[|keys|..], subs, min) == min
  {
  }

  lemma EmptyIsLight(p: Pool)
    requires p.least.Some? && Load(p.subs, p.least.value) == 0
    ensures CachesLight(p)
  {
  }

  lemma RescannedLight(p: Pool)
    ensures CachesLight(Rescanned(p))
  {
    LeastOfIsLeast(p.order, p.subs, None);
  }

  lemma ScannedSkip(keys: seq<Key>, i: nat, p: Pool, min: Key, closed: set<Client>)
    requires 1 < i < |keys| && ScannedTo(keys, i, p, min, closed) && keys[i] !in p.order
    ensures ScannedTo(keys, i + 1, p, min, closed)
  {
    assert keys[..i + 1] == keys[..i] + [keys[i]];
  }

  lemma ScannedAll(keys: seq<Key>, p: Pool, min: Key, closed: set<Client>)
    requires |keys| > 1 && ScannedTo(keys, |keys|, p, min, closed) && forall k :: k in p.order ==> k in keys
    ensures CachesLight(p.(least := Some(min))) && ScannedTo(keys, |keys|, p.(least := Some(min)), min, closed)
  {
    assert keys[..|keys|] == keys;
    forall k | k in p.order ensures Counted(p, k, closed) && Load(p.subs, min) <= Load(p.subs, k) {
      var j :| 0 <= j < |keys| && keys[j] == k;
    }
  }

  lemma {:induction false} LeastOfIsLeast(keys: seq<Key>, subs: map<Key, Sub>, min: Option<Key>)
    ensures var r := LeastOf(keys, subs, min);
            && (r.None? <==> keys == [] && min.None?)
            && (r.Some? ==> r.value in keys || r == min)
            && (r.Some? ==> forall j :: j in keys ==> Load(subs, r.value) <= Load(subs, j))
            && (r.Some? && min.Some? ==> Load(subs, r.value) <= Load(subs, min.value))
  {
    if keys != [] {
      var next := if min.None? || Load(subs, keys[0]) < Load(subs, min.value) then Some(keys[0]) else min;
      LeastOfIsLeast(keys[1..], subs, next);
    }
  }

  // ---------------------------------------------------------------- the steps of the operations

  lemma PurgesShrinks(p: Pool, q: Pool, key: Key, closed: set<Client>, own: set<Key>)
    requires Purges(p, q, closed, own) && key in p.subs
    ensures Shrinks(p, q) && key in q.subs && SubShrinks(p.subs[key], q.subs[key])
  {
  }

  lemma EnteredKept(p: Pool, key: Key, local: Local, client: Client)
    requires PoolKept(p) && key in p.subs && forall k :: k in p.subs ==> !Holds(p.subs[k], local)
    ensures PoolKept(Entered(p, key, local, client))
  {
    var q := Entered(p, key, local, client);
    forall k | k in q.subs ensures SubKept(q.index, k, q.subs[k]) {
      assert SubKept(p.index, k, p.subs[k]) && !Holds(p.subs[k], local);
    }
  }

  lemma EnteredCalm(p: Pool, key: Key, local: Local, client: Client, closed: set<Client>)
    requires key in p.subs
    ensures client !in closed ==>
              ClosedEntries(Entered(p, key, local, client).subs, closed) <= ClosedEntries(p.subs, closed)
  {
    var q := Entered(p, key, local, client);
    forall x | client !in closed && x in ClosedEntries(q.subs, closed) ensures x in ClosedEntries(p.subs, closed) {
    }
  }

  lemma PooledKept(p: Pool, key: Key)
    requires PoolKept(p) && key !in p.subs
    ensures PoolKept(Pooled(p, key))
  {
    var q := Pooled(p, key);
    forall k | k in q.subs ensures SubKept(q.index, k, q.subs[k]) {
      assert k != key ==> SubKept(p.index, k, p.subs[k]);
    }
  }

  lemma PurgesOrder(p: Pool, q: Pool, closed: set<Client>, own: set<Key>)
    requires PoolKept(q) && Purges(p, q, closed, own)
    ensures forall k :: k in q.order ==> k in p.order && k in q.subs
  {
  }

  lemma PoolsItsOrder(p: Pool)
    requires PoolKept(p)
    ensures forall k :: k in p.order ==> k in p.subs
  {
  }

  lemma LeastStays(p: Pool)
    requires PoolKept(p)
    ensures p.least.Some? ==> p.least.value in p.subs
  {
  }

  lemma LeastKept(p: Pool, least: Option<Key>, gone: bool, closed: set<Client>)
    requires PoolKept(p) && (least.Some? ==> least.value in p.subs)
    ensures PoolKept(p.(least := least, gone := gone)) && Purges(p, p.(least := least, gone := gone), closed, {})
  {
    assert forall k :: k in p.subs ==> SubKept(p.index, k, p.subs[k]);
    PurgesNothing(p, p.(least := least, gone := gone), closed, {});
  }

  /** What counting needs to unsubscribe a closed client. */
  lemma ReadyToDrop(was: Pool, mid: Pool, key: Key, e: (Local, Client), closed: set<Client>)
    requires PoolKept(mid) && Purges(was, mid, closed, {})
    requires key in mid.subs && e in mid.subs[key].locals && e.1 in closed
    ensures forall k :: k in mid.subs && k != key ==> !Holds(mid.subs[k], e.0)
    ensures ClosedElsewhere(mid.subs, closed, key) < ClosedEntries(was.subs, closed)
    ensures !Counted(was, key, closed)
  {
    hide PoolKept, OrderPurged, IndexPurged, SubsPurged;
    HeldOnlyHere(mid, key, e);
    ClosedShrink(was, mid, closed);
    assert (key, e) in ClosedEntries(mid.subs, closed) && (key, e) !in ClosedElsewhere(mid.subs, closed, key);
    assert SubShrinks(was.subs[key], mid.subs[key]);
  }

  lemma AllCounted(p: Pool, q: Pool, key: Key, closed: set<Client>)
    requires Purges(p, q, closed, {}) && key in p.subs && key in q.subs
    requires forall e :: e in p.subs[key].locals ==> e !in q.subs[key].locals || e.1 !in closed
    ensures Counted(q, key, closed) && q.subs[key].locals == Filter(p.subs[key].locals, OpenOnly(closed))
  {
    assert SubShrinks(p.subs[key], q.subs[key]);
    CountedIsOpen(p, q, key, closed);
  }

  lemma CalmIsCounted(p: Pool, key: Key, closed: set<Client>)
    requires key in p.subs
    ensures ClosedEntries(p.subs, closed) == {} ==> Counted(p, key, closed)
  {
    forall e | ClosedEntries(p.subs, closed) == {} && e in p.subs[key].locals ensures e.1 !in closed {
      assert (key, e) !in ClosedEntries(p.subs, closed);
    }
  }

  lemma UnindexedPurges(p: Pool, q: Pool, local: Local, closed: set<Client>)
    requires Purges(p, q, closed, {})
    ensures Purges(p.(index := p.index - {local}), q.(index := q.index - {local}), closed, {})
  {
    hide SubPurged, MayLose;
    var p', q' := p.(index := p.index - {local}), q.(index := q.index - {local});
    forall l | l in p'.index && l !in q'.index ensures MayLose(p', l, closed, {}) {
      var k, e := LostBy(p, l, closed, {});
      LosesIt(p', k, e, closed, {});
    }
  }

  lemma RemainingStays(p: Pool, q: Pool, key: Key, local: Local, closed: set<Client>)
    requires key in p.subs && Purges(Unsubscribed(p, key, local, closed), q, closed, {})
    ensures key in q.subs && q.subs[key].locals == Remaining(p.subs[key], local, closed)
    ensures !Holds(q.subs[key], local) && Counted(q, key, closed)
  {
    OpenStays(Unsubscribed(p, key, local, closed), q, key, closed);
  }

  /** The other closed clients of the subscription leave it but stay in the index. */
  lemma StaleStays(p: Pool, q: Pool, key: Key, local: Local, e: (Local, Client), closed: set<Client>)
    requires PoolKept(p) && key in p.subs && Purges(Unsubscribed(p, key, local, closed), q, closed, {})
    requires e in p.subs[key].locals && e.0 != local && e.1 in closed
    ensures e.0 in q.index
  {
    hide SubsPurged, OrderPurged, Shrinks, MayLose;
    assert SubKept(p.index, key, p.subs[key]);
    if e.0 !in q.index {
      var mid := Unsubscribed(p, key, local, closed);
      var k, x := LostBy(mid, e.0, closed, {});
      HeldOnlyHere(p, key, e);
      assert false;
    }
  }

  /** An unsubscription as a whole: the local departs, leaves the index, and the entries are scanned again. */
  lemma UnsubscribedAfterScan(
    was: Pool, departed: Pool, mid: Pool, now: Pool, key: Key, local: Local, closed: set<Client>)
    requires PoolKept(was) && key in was.subs && mid == departed.(index := departed.index - {local})
    requires Purges(WithLocals(was, key, Remaining(was.subs[key], local, closed)), departed, closed, {})
    requires Purges(mid, now, closed, {})
    ensures Purges(Unsubscribed(was, key, local, closed), now, closed, {}) && Shrinks(was, now)
    ensures key in now.subs && now.subs[key].locals == Remaining(was.subs[key], local, closed) && local !in now.index
    ensures key !in mid.order ==> key !in now.order
    ensures forall e :: e in was.subs[key].locals && e.0 != local && e.1 in closed ==> e.0 in now.index
  {
    hide PoolKept, Purges, Remaining;
    var gone := Unsubscribed(was, key, local, closed);
    UnindexedPurges(WithLocals(was, key, Remaining(was.subs[key], local, closed)), departed, local, closed);
    PurgesTransitive(gone, mid, now, closed, {});
    UnsubscribedShrinks(was, key, local, closed);
    PurgesShrinks(gone, now, key, closed, {});
    ShrinksTransitive(was, gone, now);
    PurgesShrinks(gone, mid, key, closed, {});
    PurgesShrinks(mid, now, key, closed, {});
    RemainingStays(was, now, key, local, closed);
    forall e | e in was.subs[key].locals && e.0 != local && e.1 in closed ensures e.0 in now.index {
      StaleStays(was, now, key, local, e, closed);
    }
  }

  lemma FlaggedPurges(p: Pool, key: Key, destroyed: bool, cleaned: bool, closed: set<Client>, own: set<Key>)
    requires key in p.subs && (p.subs[key].locals == [] || key in own)
    requires (p.subs[key].destroyed ==> destroyed) && (p.subs[key].cleaned ==> cleaned)
    ensures Purges(p, p.(subs := p.subs[key := p.subs[key].(destroyed := destroyed, cleaned := cleaned)]), closed, own)
  {
    FilterAll(p.order, Among(p.order));
  }

  lemma UnpooledPurges(p: Pool, key: Key, closed: set<Client>)
    requires Distinct(p.order) && (key in p.order ==> Load(p.subs, key) == 0)
    ensures Purges(p, p.(order := Filter(p.order, Others(key))), closed, {})
  {
    var rest := Filter(p.order, Others(key));
    FilterAgree(p.order, Others(key), Among(rest));
  }

  lemma UnpooledLight(p: Pool, q: Pool)
    requires CachesLight(p) && q.subs == p.subs && q.least == p.least && forall k :: k in q.order ==> k in p.order
    ensures CachesLight(q)
  {
    if q.order != [] {
      assert q.order[0] in q.order;
    }
  }

  lemma DestroyedOnce(p: Pool, key: Key)
    requires key in p.subs && p.subs[key].destroyed
    ensures Destroyed(p, key) == p
  {
  }

  lemma SameLoadsLight(p: Pool, q: Pool)
    requires q.order == p.order && q.least == p.least
    requires q.subs.Keys == p.subs.Keys && forall k :: k in p.subs ==> q.subs[k].locals == p.subs[k].locals
    ensures CachesLight(p) ==> CachesLight(q)
  {
  }

  lemma LeftAllNone(p: Pool, key: Key)
    requires key in p.subs
    ensures LeftAll(p, key, p.subs[key].locals[..0]) == p
  {
  }

  lemma OwnLeftIndex(was: Pool, mid: Pool, now: Pool, key: Key, e: (Local, Client), closed: set<Client>)
    requires key in was.subs && e in was.subs[key].locals
    requires Shrinks(was, mid) && IndexPurged(was, mid, closed, {key}) && key in mid.subs
    requires Purges(Unsubscribed(mid, key, e.0, closed), now, closed, {})
    ensures IndexPurged(was, now, closed, {key})
  {
    hide MayLose, SubPurged, OrderPurged, Shrinks;
    var left := Unsubscribed(mid, key, e.0, closed);
    LosesIt(was, key, e, closed, {key});
    forall l | l in was.index && l !in now.index ensures MayLose(was, l, closed, {key}) {
      if l in mid.index && l != e.0 {
        var k, x := LostBy(left, l, closed, {});
        assert k != key ==> left.subs[k] == mid.subs[k];
        LosesIt(mid, k, x, closed, {key});
        MayLoseEarlier(was, mid, l, closed, {key});
      }
    }
  }

  /** One turn of the release loop, within the whole of it. */
  lemma OwnLeft(was: Pool, mid: Pool, now: Pool, key: Key, e: (Local, Client), closed: set<Client>)
    requires key in was.subs && e in was.subs[key].locals
    requires Purges(was, mid, closed, {key}) && Shrinks(mid, now)
    requires Purges(Unsubscribed(mid, key, e.0, closed), now, closed, {})
    ensures Purges(was, now, closed, {key})
  {
    hide SubPurged, IndexPurged, SubShrinks, Filter, Remaining;
    OwnLeftIndex(was, mid, now, key, e, closed);
    ShrinksTransitive(was, mid, now);
    SubsPurgedTransitive(was, mid, now, closed, {key});
    OrderPurgedTransitive(was, mid, now);
  }

  lemma SomeElement<T>(s: seq<T>)
    ensures s == [] || exists x :: x in s
  {
    if s != [] {
      assert s[0] in s;
    }
  }

  /** The first `i` turns of the release loop have taken as many locals of the subscription. */
  ghost predicate Evicted(p: Pool, q: Pool, key: Key, i: nat)
    requires key in p.subs && i <= |p.subs[key].locals|
  {
    && Shrinks(p, q) && (i == 0 ==> q == p)
    && (i > 0 ==> |q.subs[key].locals| < |p.subs[key].locals|)
    && forall j :: 0 <= j < i ==> p.subs[key].locals[j] !in q.subs[key].locals
  }

  lemma EvictedNone(p: Pool, key: Key)
    requires key in p.subs
    ensures Evicted(p, p, key, 0)
  {
  }

  lemma EvictedFewer(p: Pool, q: Pool, key: Key, i: nat)
    requires key in p.subs && i <= |p.subs[key].locals| && Evicted(p, q, key, i)
    ensures Shrinks(p, q) && key in q.subs && (q == p || |q.subs[key].locals| < |p.subs[key].locals|)
  {
  }

  lemma EvictedNext(p: Pool, mid: Pool, q: Pool, key: Key, i: nat, closed: set<Client>)
    requires key in p.subs && i < |p.subs[key].locals| && Evicted(p, mid, key, i) && Shrinks(mid, q)
    requires q.subs[key].locals == Remaining(mid.subs[key], p.subs[key].locals[i].0, closed)
    ensures Evicted(p, q, key, i + 1)
  {
    ShrinksTransitive(p, mid, q);
    assert SubShrinks(p.subs[key], mid.subs[key]) && SubShrinks(mid.subs[key], q.subs[key]);
    if i == 0 {
      RemainingShorter(p.subs[key], p.subs[key].locals[0].0, closed);
    }
  }

  lemma NoneLeft(p: Pool, q: Pool, key: Key)
    requires key in p.subs && Evicted(p, q, key, |p.subs[key].locals|)
    ensures Load(q.subs, key) == 0
  {
    assert SubShrinks(p.subs[key], q.subs[key]);
    SomeElement(q.subs[key].locals);
  }

  lemma DestroyedIsCleanedUp(p: Pool, key: Key)
    requires key in p.subs && p.subs[key].locals == [] && !p.subs[key].destroyed
    ensures Destroyed(p, key) == CleanedUp(p.(subs := p.subs[key := p.subs[key].(destroyed := true)]), key)
  {
    var s := p.subs[key];
    assert p.subs[key := s.(destroyed := true)][key := s.(destroyed := true, cleaned := true)]
        == p.subs[key := s.(destroyed := true, cleaned := true)];
  }

  lemma LeftAllSnoc(p: Pool, key: Key, locals: seq<(Local, Client)>, i: nat)
    requires key in p.subs && i < |locals|
    ensures LeftAll(p, key, locals[..i + 1]) == Left(LeftAll(p, key, locals[..i]), key, locals[i].0)
  {
    hide Left;
    assert locals[..i + 1][..i] == locals[..i];
  }

  /** What the release loop needs to unsubscribe the next local. */
  lemma ReadyToLeave(was: Pool, mid: Pool, key: Key, e: (Local, Client), closed: set<Client>)
    requires PoolKept(was) && PoolKept(mid) && Shrinks(was, mid) && key in was.subs && e in was.subs[key].locals
    ensures forall k :: k in mid.subs && k != key ==> !Holds(mid.subs[k], e.0)
    ensures ClosedElsewhere(mid.subs, closed, key) <= ClosedEntries(was.subs, closed)
    ensures |Remaining(mid.subs[key], e.0, closed)| <= |mid.subs[key].locals|
    ensures mid == was ==> |Remaining(mid.subs[key], e.0, closed)| < |was.subs[key].locals|
    ensures ClosedEntries(was.subs, closed) == {} ==> ClosedEntries(mid.subs, closed) == {}
  {
    HeldByNoOther(was, mid, key, e);
    DropLocal(mid, key, e.0, closed);
    ClosedShrink(was, mid, closed);
  }

  lemma HeldByNoOther(p: Pool, q: Pool, key: Key, e: (Local, Client))
    requires PoolKept(p) && Shrinks(p, q) && key in p.subs && e in p.subs[key].locals
    ensures forall k :: k in q.subs && k != key ==> !Holds(q.subs[k], e.0)
  {
    HeldOnlyHere(p, key, e);
    forall k | k in q.subs && k != key ensures !Holds(q.subs[k], e.0) {
      assert SubShrinks(p.subs[k], q.subs[k]);
    }
  }

  lemma LeftByNone(p: Pool, q: Pool, key: Key, local: Local)
    requires Shrinks(p, q) && key in q.subs && !Holds(q.subs[key], local)
    requires forall k :: k in p.subs && k != key ==> !Holds(p.subs[k], local)
    ensures forall k :: k in q.subs ==> !Holds(q.subs[k], local)
  {
    forall k | k in q.subs ensures !Holds(q.subs[k], local) {
      assert SubShrinks(p.subs[k], q.subs[k]);
    }
  }

  lemma StaysGone(p: Pool, q: Pool, key: Key, local: Local, closed: set<Client>)
    requires Shrinks(p, q) && key in p.subs && !Holds(p.subs[key], local) && NoneClosed(p.subs[key], closed)
    ensures !Holds(q.subs[key], local) && NoneClosed(q.subs[key], closed)
    ensures |q.subs[key].locals| <= |p.subs[key].locals|
  {
    assert SubShrinks(p.subs[key], q.subs[key]);
  }

  /** A local held by one subscription is held by no other. */
  lemma HeldOnlyHere(p: Pool, key: Key, e: (Local, Client))
    requires PoolKept(p) && key in p.subs && e in p.subs[key].locals
    ensures forall k :: k in p.subs && k != key ==> !Holds(p.subs[k], e.0)
  {
    assert SubKept(p.index, key, p.subs[key]);
    forall k | k in p.subs && k != key ensures !Holds(p.subs[k], e.0) {
      assert SubKept(p.index, k, p.subs[k]);
    }
  }
}
