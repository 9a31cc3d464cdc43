/**
 Runs of the shared-subscription pool while no client is closed: every local id stays indexed to
 the subscription that holds it, and the cached entry stays a pooled entry of least load. A
 clean-up may break the latter, and it is said exactly when; the second release mends it.
 */
module SharedPoolProperties {
  import opened Collections
  import opened SharedPoolModel

  /** The cached entry is a pooled one with the fewest subscribers, and is absent only from an empty pool. */
  ghost predicate CachesLeast(p: Pool) {
    match p.least
    case None => p.order == []
    case Some(k) => k in p.order && forall j :: j in p.order ==> Load(p.subs, k) <= Load(p.subs, j)
  }

  lemma RescannedCaches(p: Pool)
    ensures CachesLeast(Rescanned(p))
  {
    LeastOfIsLeast(p.order, p.subs, None);
  }

  // ---------------------------------------------------------------- each operation keeps the index

  lemma IndexWithout(p: Pool, local: Local)
    requires PoolKept(p) && forall k :: k in p.subs ==> !Holds(p.subs[k], local)
    ensures PoolKept(p.(index := p.index - {local}))
  {
    forall k | k in p.subs ensures SubKept(p.index - {local}, k, p.subs[k]) {
      assert SubKept(p.index, k, p.subs[k]) && !Holds(p.subs[k], local);
    }
  }

  lemma RescannedKept(p: Pool)
    requires PoolKept(p)
    ensures PoolKept(Rescanned(p))
  {
    LeastOfIsLeast(p.order, p.subs, None);
    assert forall k :: k in p.subs ==> SubKept(p.index, k, p.subs[k]);
  }

  lemma DroppedKept(p: Pool, key: Key, wasLeast: bool)
    requires PoolKept(p)
    ensures PoolKept(Dropped(p, key, wasLeast)) && key !in Dropped(p, key, wasLeast).order
  {
    FilterDistinct(p.order, Others(key));
    var q := p.(order := Filter(p.order, Others(key)));
    assert PoolKept(q) by {
      assert forall k :: k in p.subs ==> SubKept(p.index, k, p.subs[k]);
    }
    RescannedKept(q);
    assert forall k :: k in p.subs ==> SubKept(p.index, k, p.subs[k]);
  }

  lemma MarkedKept(p: Pool, key: Key, destroyed: bool, cleaned: bool)
    requires PoolKept(p) && key in p.subs
    ensures PoolKept(p.(subs := p.subs[key := p.subs[key].(destroyed := destroyed, cleaned := cleaned)]))
  {
    var subs := p.subs[key := p.subs[key].(destroyed := destroyed, cleaned := cleaned)];
    forall k | k in subs ensures SubKept(p.index, k, subs[k]) {
      assert SubKept(p.index, k, p.subs[k]);
    }
  }

  lemma DestroyedKept(p: Pool, key: Key)
    requires PoolKept(p) && key in p.subs
    ensures PoolKept(Destroyed(p, key))
    ensures forall k :: k in p.subs ==> Destroyed(p, key).subs[k].locals == p.subs[k].locals
    ensures Destroyed(p, key).index == p.index
  {
    MarkedKept(p, key, true, p.subs[key].cleaned);
    MarkedKept(p, key, true, true);
    DroppedKept(p.(subs := p.subs[key := p.subs[key].(destroyed := true, cleaned := true)]), key, p.least == Some(key));
  }

  /** Every indexed local is held by the subscription it is indexed to. */
  ghost predicate IndexExact(p: Pool) {
    forall l :: l in p.index ==> p.index[l] in p.subs && Holds(p.subs[p.index[l]], l)
  }

  lemma LeftIndex(p: Pool, key: Key, local: Local)
    requires key in p.subs
    ensures Left(p, key, local).index == p.index - {local}
    ensures IndexExact(p) ==> IndexExact(Left(p, key, local))
  {
    hide Left, PoolKept;
    var r := Left(p, key, local);
    LeftLocals(p, key, local);
    if IndexExact(p) {
      forall l | l in r.index ensures r.index[l] in r.subs && Holds(r.subs[r.index[l]], l) {
        var e :| e in p.subs[p.index[l]].locals && e.0 == l;
        assert e in r.subs[r.index[l]].locals;
      }
    }
  }

  lemma LeftSound(p: Pool, key: Key, local: Local)
    requires PoolKept(p) && key in p.subs && forall k :: k in p.subs && k != key ==> !Holds(p.subs[k], local)
    ensures PoolKept(Left(p, key, local)) && CachesLeast(Left(p, key, local))
  {
    hide CachesLeast, LeastOf, Rescanned;
    var locals := Filter(p.subs[key].locals, OtherThan(local));
    var q := WithLocals(p, key, locals);
    DropLocal(p, key, local, {});
    FilterAll(locals, OpenOnly({}));
    assert PoolKept(q) && !Holds(q.subs[key], local);
    DestroyedKept(q, key);
    var d := Departed(p, key, local);
    assert forall k :: k in d.subs ==> d.subs[k].locals == q.subs[k].locals;
    IndexWithout(d, local);
    RescannedKept(d.(index := d.index - {local}));
    RescannedCaches(d.(index := d.index - {local}));
  }

  lemma LeftLocals(p: Pool, key: Key, local: Local)
    requires key in p.subs
    ensures var r := Left(p, key, local);
            && (forall k :: k in p.subs && k != key ==> r.subs[k].locals == p.subs[k].locals)
            && r.subs[key].locals == Filter(p.subs[key].locals, OtherThan(local))
            && r.index == p.index - {local}
  {
    hide Departed, Rescanned;
    DepartedLocals(p, key, local);
    var d := Departed(p, key, local);
    RescannedLocals(d.(index := d.index - {local}));
  }

  lemma DepartedLocals(p: Pool, key: Key, local: Local)
    requires key in p.subs
    ensures var r := Departed(p, key, local);
            && (forall k :: k in p.subs && k != key ==> r.subs[k].locals == p.subs[k].locals)
            && r.subs[key].locals == Filter(p.subs[key].locals, OtherThan(local)) && r.index == p.index
  {
    hide Filter;
  }

  lemma RescannedLocals(p: Pool)
    ensures Rescanned(p).subs == p.subs && Rescanned(p).index == p.index
  {
  }

  lemma LeftKept(p: Pool, key: Key, local: Local)
    requires PoolKept(p) && key in p.subs && forall k :: k in p.subs && k != key ==> !Holds(p.subs[k], local)
    ensures var r := Left(p, key, local);
            && PoolKept(r) && CachesLeast(r)
            && (forall k :: k in p.subs && k != key ==> r.subs[k].locals == p.subs[k].locals)
            && r.subs[key].locals == Filter(p.subs[key].locals, OtherThan(local))
            && r.index == p.index - {local}
            && (IndexExact(p) ==> IndexExact(r))
  {
    hide IndexExact, CachesLeast, Left, PoolKept;
    LeftSound(p, key, local);
    LeftLocals(p, key, local);
    LeftIndex(p, key, local);
  }

  // ---------------------------------------------------------------- releasing an entry

  lemma FilterHead(locals: seq<(Local, Client)>)
    requires DistinctIds(locals) && locals != []
    ensures Filter(locals, OtherThan(locals[0].0)) == locals[1..]
  {
    FilterAll(locals[1..], OtherThan(locals[0].0));
  }

  lemma {:induction false} LeftAllKept(p: Pool, key: Key, i: nat)
    requires PoolKept(p) && key in p.subs && i <= |p.subs[key].locals|
    ensures var r, locals := LeftAll(p, key, p.subs[key].locals[..i]), p.subs[key].locals;
            && PoolKept(r) && r.subs[key].locals == locals[i..]
            && (forall k :: k in p.subs && k != key ==> r.subs[k].locals == p.subs[k].locals)
            && (IndexExact(p) ==> IndexExact(r))
            && (i > 0 ==> r.least == LeastOf(r.order, r.subs, None))
  {
    hide PoolKept, IndexExact, LeastOf, Left, LeftAll;
    var locals := p.subs[key].locals;
    if i == 0 {
      LeftAllNone(p, key);
      assert locals[0..] == locals;
    } else {
      LeftAllKept(p, key, i - 1);
      LeftAllSnoc(p, key, locals, i - 1);
      var q := LeftAll(p, key, locals[..i - 1]);
      assert locals[i - 1..][0] == locals[i - 1] && locals[i - 1..][1..] == locals[i..];
      LeftHead(q, key);
    }
  }

  lemma LeftHead(q: Pool, key: Key)
    requires PoolKept(q) && key in q.subs && q.subs[key].locals != []
    ensures var r := Left(q, key, q.subs[key].locals[0].0);
            && PoolKept(r) && r.subs[key].locals == q.subs[key].locals[1..]
            && (forall k :: k in q.subs && k != key ==> r.subs[k].locals == q.subs[k].locals)
            && (IndexExact(q) ==> IndexExact(r))
            && r.least == LeastOf(r.order, r.subs, None)
  {
    var e := q.subs[key].locals[0];
    assert e in q.subs[key].locals && SubKept(q.index, key, q.subs[key]);
    FilterHead(q.subs[key].locals);
    HeldOnlyHere(q, key, e);
    LeftKept(q, key, e.0);
  }

  lemma ReleasedKept(p: Pool, key: Key)
    requires PoolKept(p)
    ensures PoolKept(Released(p, key)) && key !in Released(p, key).order
  {
    if key in p.order {
      var locals := p.subs[key].locals;
      LeftAllKept(p, key, |locals|);
      assert locals[..|locals|] == locals;
    }
    var q := if key in p.order then LeftAll(p, key, p.subs[key].locals) else p;
    DroppedKept(q, key, p.least == Some(key));
  }

  lemma CleanedUpKept(p: Pool, key: Key)
    requires PoolKept(p) && key in p.subs
    ensures PoolKept(CleanedUp(p, key))
    ensures !p.subs[key].cleaned ==> key !in CleanedUp(p, key).order
  {
    if !p.subs[key].cleaned {
      MarkedKept(p, key, p.subs[key].destroyed, true);
      var marked := p.(subs := p.subs[key := p.subs[key].(cleaned := true)]);
      assert p.subs[key].(destroyed := p.subs[key].destroyed, cleaned := true) == p.subs[key].(cleaned := true);
      ReleasedKept(marked, key);
    }
  }

  // ---------------------------------------------------------------- when a clean-up loses the least entry

  ghost predicate EmptyBefore(p: Pool, key: Key) {
    exists i, j :: 0 <= j < i < |p.order| && p.order[i] == key && Load(p.subs, p.order[j]) == 0
  }

  /**
   The release starts a rescan of its own, or leaves the cached entry alone, or the last rescan finds
   another empty entry first.
   */
  ghost predicate SafeToCleanUp(p: Pool, key: Key)
    requires key in p.subs
  {
    || p.subs[key].cleaned || key !in p.order
    || p.subs[key].locals == [] || p.least == Some(key) || EmptyBefore(p, key)
  }

  lemma LeftKeepsOrder(p: Pool, key: Key, local: Local)
    requires key in p.subs && p.subs[key].cleaned
    ensures Left(p, key, local).order == p.order && Left(p, key, local).subs[key].cleaned
    ensures forall k :: k in p.subs && k != key ==> Left(p, key, local).subs[k] == p.subs[k]
  {
  }

  lemma {:induction false} LeftAllKeepsOrder(p: Pool, key: Key, locals: seq<(Local, Client)>)
    requires key in p.subs && p.subs[key].cleaned
    ensures var r := LeftAll(p, key, locals);
            && r.order == p.order && r.subs[key].cleaned
            && forall k :: k in p.subs && k != key ==> r.subs[k] == p.subs[k]
  {
    hide Left;
    if locals != [] {
      var n := |locals| - 1;
      LeftAllKeepsOrder(p, key, locals[..n]);
      LeftKeepsOrder(LeftAll(p, key, locals[..n]), key, locals[n].0);
    }
  }

  /** A rescan settles on the first empty entry. */
  lemma {:induction false} LeastOfFirstEmpty(keys: seq<Key>, subs: map<Key, Sub>, min: Option<Key>, i: nat)
    requires i < |keys| && Load(subs, keys[i]) == 0 && forall j :: 0 <= j < i ==> Load(subs, keys[j]) > 0
    requires min.Some? ==> Load(subs, min.value) > 0
    ensures LeastOf(keys, subs, min) == Some(keys[i])
  {
    if i == 0 {
      EmptyStays(keys[1..], subs, keys[0]);
    } else {
      var next := if min.None? || Load(subs, keys[0]) < Load(subs, min.value) then Some(keys[0]) else min;
      LeastOfFirstEmpty(keys[1..], subs, next, i - 1);
    }
  }

  lemma {:induction false} EmptyStays(keys: seq<Key>, subs: map<Key, Sub>, min: Key)
    requires Load(subs, min) == 0
    ensures LeastOf(keys, subs, Some(min)) == Some(min)
  {
    if keys != [] {
      EmptyStays(keys[1..], subs, min);
    }
  }

  lemma {:induction false} FirstEmpty(keys: seq<Key>, subs: map<Key, Sub>, n: nat) returns (i: nat)
    requires n < |keys| && Load(subs, keys[n]) == 0
    ensures i <= n && Load(subs, keys[i]) == 0 && forall j :: 0 <= j < i ==> Load(subs, keys[j]) > 0
  {
    if Load(subs, keys[0]) == 0 {
      i := 0;
    } else {
      i := FirstEmpty(keys[1..], subs, n - 1);
      i := i + 1;
    }
  }

  /** Emptying an entry that is already marked clean leaves it pooled and rescanned. */
  lemma EmptiedInPlace(p: Pool, key: Key)
    requires PoolKept(p) && key in p.order && p.subs[key].cleaned && p.subs[key].locals != []
    ensures var q := LeftAll(p, key, p.subs[key].locals);
            && PoolKept(q) && q.order == p.order && Load(q.subs, key) == 0
            && (forall k :: k in p.subs && k != key ==> Load(q.subs, k) == Load(p.subs, k))
            && q.least == LeastOf(q.order, q.subs, None)
  {
    var locals := p.subs[key].locals;
    assert locals[..|locals|] == locals;
    LeftAllKept(p, key, |locals|);
    LeftAllKeepsOrder(p, key, locals);
  }

  lemma DroppedFromFull(q: Pool, key: Key, p: Pool)
    requires PoolKept(q) && key in q.order && Load(q.subs, key) == 0 && q.least == LeastOf(q.order, q.subs, None)
    requires q.order == p.order && forall k :: k in q.order && k != key ==> Load(q.subs, k) == Load(p.subs, k)
    ensures CachesLeast(Dropped(q, key, false)) <==> EmptyBefore(p, key)
  {
    hide LeastOf, CachesLeast, Filter;
    var at :| 0 <= at < |q.order| && q.order[at] == key;
    var i := FirstEmpty(q.order, q.subs, at);
    LeastOfFirstEmpty(q.order, q.subs, None, i);
    if i < at {
      assert q.order[i] in q.order && q.order[i] != key;
      assert Load(p.subs, p.order[i]) == 0;
    }
    if EmptyBefore(p, key) {
      var m, j :| 0 <= j < m < |p.order| && p.order[m] == key && Load(p.subs, p.order[j]) == 0;
      assert m == at && p.order[j] in q.order && p.order[j] != key;
    }
    EmptyCached(q, key, q.order[i]);
  }

  /** Dropping `key` leaves an empty cached entry of least load exactly when it is another one. */
  lemma EmptyCached(q: Pool, key: Key, empty: Key)
    requires q.least == Some(empty) && empty in q.order && Load(q.subs, empty) == 0
    ensures CachesLeast(Dropped(q, key, false)) <==> empty != key
  {
  }

  /** After the clean-up of an entry the cached entry is a least-loaded pooled one exactly under the guard. */
  lemma CleanUpKeepsLeastIff(p: Pool, key: Key)
    requires PoolKept(p) && CachesLeast(p) && key in p.subs
    ensures CachesLeast(CleanedUp(p, key)) <==> SafeToCleanUp(p, key)
  {
    var s := p.subs[key];
    if !s.cleaned {
      var marked := p.(subs := p.subs[key := s.(cleaned := true)]);
      MarkedKept(p, key, s.destroyed, true);
      assert s.(destroyed := s.destroyed, cleaned := true) == s.(cleaned := true);
      var q := if key in p.order then LeftAll(marked, key, s.locals) else marked;
      assert CleanedUp(p, key) == Dropped(q, key, p.least == Some(key));
      assert forall k :: k in p.subs ==> Load(marked.subs, k) == Load(p.subs, k);
      if p.least == Some(key) {
        RescannedCaches(q.(order := Filter(q.order, Others(key))));
      } else if key !in p.order || s.locals == [] {
        UntouchedLeast(p, q, key);
      } else {
        EmptiedInPlace(marked, key);
        DroppedFromFull(q, key, p);
      }
    }
  }

  /** Two entries, of which the busier one is not the cached one. */
  const BUSY :=
    Pool(map["A" := Sub([("a", 1)], false, false), "B" := Sub([("b", 2), ("c", 3)], false, false)],
         ["A", "B"], map["a" := "A", "b" := "B", "c" := "B"], Some("A"), false)

  lemma BusyIsKept()
    ensures PoolKept(BUSY) && BUSY.order[0] == "A" && BUSY.order[1] == "B" && "A" != "B"
  {
    assert "A" != "B" && "b" != "c";
    assert SubKept(BUSY.index, "A", BUSY.subs["A"]) && SubKept(BUSY.index, "B", BUSY.subs["B"]);
    assert forall k :: k in BUSY.subs ==> k == "A" || k == "B";
  }

  /** The busier entry is cleaned up while it has subscribers: it stays cached until it is released once more. */
  lemma CleanUpMayStrandTheCache()
    ensures PoolKept(BUSY) && CachesLeast(BUSY) && !CachesLeast(CleanedUp(BUSY, "B"))
  {
    hide CleanedUp, PoolKept;
    BusyIsKept();
    assert Load(BUSY.subs, "A") == 1 && Load(BUSY.subs, "B") == 2;
    CleanUpKeepsLeastIff(BUSY, "B");
  }

  lemma UntouchedLeast(p: Pool, q: Pool, key: Key)
    requires PoolKept(p) && CachesLeast(p) && p.least != Some(key) && q.order == p.order && q.least == p.least
    requires forall k :: k in p.subs ==> Load(q.subs, k) == Load(p.subs, k)
    ensures CachesLeast(Dropped(q, key, false))
  {
  }

  // ---------------------------------------------------------------- the second release

  /** A subscription is destroyed only after its clean-up began, and one that is being cleaned up is not pooled. */
  ghost predicate FlagsKept(p: Pool) {
    forall k :: k in p.subs ==> (p.subs[k].destroyed ==> p.subs[k].cleaned) && (p.subs[k].cleaned ==> k !in p.order)
  }

  /** The cached entry is a pooled one of least load, or one that has left the pool and is released once more. */
  ghost predicate LeastOrOwed(p: Pool, owed: set<Key>) {
    CachesLeast(p) || (p.least.Some? && p.least.value in owed && p.least.value !in p.order)
  }

  function NewlyDestroyed(p: Pool, q: Pool): set<Key> {
    set k | k in p.subs && k in q.subs && !p.subs[k].destroyed && q.subs[k].destroyed
  }

  lemma LeftFlags(p: Pool, key: Key, local: Local)
    requires FlagsKept(p) && key in p.subs
    ensures FlagsKept(Left(p, key, local))
  {
    hide LeastOf, FlagsKept, Departed;
    DepartedFlags(p, key, local);
    var d := Departed(p, key, local);
    SameFlags(d, Rescanned(d.(index := d.index - {local})));
  }

  lemma SameFlags(p: Pool, q: Pool)
    requires FlagsKept(p) && q.subs == p.subs && q.order == p.order
    ensures FlagsKept(q)
  {
  }

  lemma DepartedFlags(p: Pool, key: Key, local: Local)
    requires FlagsKept(p) && key in p.subs
    ensures FlagsKept(Departed(p, key, local))
  {
    hide LeastOf;
    var locals := Filter(p.subs[key].locals, OtherThan(local));
    var q := WithLocals(p, key, locals);
    assert q.subs[key].destroyed == p.subs[key].destroyed && q.subs[key].cleaned == p.subs[key].cleaned;
    assert FlagsKept(q);
    DestroyedFlags(q, key);
  }

  lemma DestroyedFlags(p: Pool, key: Key)
    requires FlagsKept(p) && key in p.subs
    ensures FlagsKept(Destroyed(p, key))
  {
    hide LeastOf;
  }

  lemma CleanedUpFlags(p: Pool, key: Key)
    requires PoolKept(p) && FlagsKept(p) && key in p.subs
    ensures FlagsKept(CleanedUp(p, key))
  {
    hide LeftAll, LeastOf;
    if !p.subs[key].cleaned {
      CleanedUpKept(p, key);
      LeftAllKeepsOrder(p.(subs := p.subs[key := p.subs[key].(cleaned := true)]), key, p.subs[key].locals);
    }
  }

  /** The last departure destroys the subscription. */
  lemma EmptiedIsDestroyed(p: Pool, key: Key)
    requires PoolKept(p) && key in p.subs && p.subs[key].cleaned && p.subs[key].locals != []
    ensures LeftAll(p, key, p.subs[key].locals).subs[key].destroyed
  {
    hide PoolKept, IndexExact, LeastOf, Left, LeftAll;
    var locals, n := p.subs[key].locals, |p.subs[key].locals| - 1;
    assert locals == locals[..n + 1] && locals[n..] == [locals[n]];
    LeftAllKept(p, key, n);
    LeftAllSnoc(p, key, locals, n);
    LeftAllKeepsOrder(p, key, locals[..n]);
    LastDestroys(LeftAll(p, key, locals[..n]), key, locals[n]);
  }

  lemma LastDestroys(p: Pool, key: Key, e: (Local, Client))
    requires key in p.subs && p.subs[key].cleaned && p.subs[key].locals == [e]
    ensures Left(p, key, e.0).subs[key].destroyed
  {
    assert Filter([e], OtherThan(e.0)) == [];
  }

  lemma DroppedOther(q: Pool, key: Key)
    requires q.least == LeastOf(q.order, q.subs, None) && q.order != [] && q.least != Some(key)
    ensures CachesLeast(Dropped(q, key, false))
  {
    LeastOfIsLeast(q.order, q.subs, None);
  }

  /** The pool of a clean-up as its entry is dropped: marked, and emptied if it was pooled. */
  function Emptied(p: Pool, key: Key): Pool
    requires key in p.subs
  {
    var marked := p.(subs := p.subs[key := p.subs[key].(cleaned := true)]);
    if key in p.order then LeftAll(marked, key, p.subs[key].locals) else marked
  }

  lemma CleanedUpDrops(p: Pool, key: Key)
    requires key in p.subs && !p.subs[key].cleaned
    ensures CleanedUp(p, key) == Dropped(Emptied(p, key), key, p.least == Some(key))
  {
    hide LeftAll, Dropped;
  }

  lemma EmptiedQuietly(p: Pool, key: Key)
    requires key in p.subs && (key !in p.order || p.subs[key].locals == [])
    ensures var q := Emptied(p, key);
            && q.order == p.order && q.least == p.least && q.subs.Keys == p.subs.Keys
            && forall k :: k in p.subs ==> q.subs[k].locals == p.subs[k].locals
  {
    LeftAllNone(p.(subs := p.subs[key := p.subs[key].(cleaned := true)]), key);
  }

  lemma EmptiedLoudly(p: Pool, key: Key)
    requires PoolKept(p) && key in p.order && p.subs[key].locals != []
    ensures var q := Emptied(p, key);
            && key in q.subs && q.subs[key].destroyed && q.order == p.order
            && q.least == LeastOf(q.order, q.subs, None)
  {
    hide LeftAll, LeastOf;
    var s := p.subs[key];
    MarkedKept(p, key, s.destroyed, true);
    assert s.(destroyed := s.destroyed, cleaned := true) == s.(cleaned := true);
    var marked := p.(subs := p.subs[key := s.(cleaned := true)]);
    EmptiedInPlace(marked, key);
    LeftAllKeepsOrder(marked, key, s.locals);
    EmptiedIsDestroyed(marked, key);
  }

  /** At worst a clean-up leaves the cache on the entry that it has destroyed and dropped. */
  lemma CleanedUpSettles(p: Pool, key: Key, owed: set<Key>)
    requires PoolKept(p) && key in p.subs && LeastOrOwed(p, owed)
    ensures var r := CleanedUp(p, key);
            || LeastOrOwed(r, owed)
            || (!p.subs[key].cleaned && r.least == Some(key)
                && key !in r.order && key in r.subs && r.subs[key].destroyed)
  {
    hide PoolKept, LeastOf, Emptied, Dropped, CachesLeast;
    if !p.subs[key].cleaned {
      var q := Emptied(p, key);
      CleanedUpDrops(p, key);
      hide CleanedUp;
      if p.least == Some(key) {
        DroppedCached(q, key);
      } else if key !in p.order || p.subs[key].locals == [] {
        EmptiedQuietly(p, key);
        StillOwed(p, q, key, owed);
      } else {
        EmptiedLoudly(p, key);
        if q.least == Some(key) {
          DroppedStranded(q, key);
        } else {
          DroppedOther(q, key);
        }
      }
    }
  }

  lemma DroppedCached(q: Pool, key: Key)
    ensures CachesLeast(Dropped(q, key, true))
  {
    RescannedCaches(q.(order := Filter(q.order, Others(key))));
  }

  /** Dropping an entry that is not the cached one changes nothing about that. */
  lemma StillOwed(p: Pool, q: Pool, key: Key, owed: set<Key>)
    requires PoolKept(p) && LeastOrOwed(p, owed) && p.least != Some(key) && q.order == p.order && q.least == p.least
    requires q.subs.Keys == p.subs.Keys && forall k :: k in p.subs ==> q.subs[k].locals == p.subs[k].locals
    ensures LeastOrOwed(Dropped(q, key, false), owed)
  {
    if CachesLeast(p) {
      UntouchedLeast(p, q, key);
    }
  }

  lemma DroppedStranded(q: Pool, key: Key)
    ensures var r := Dropped(q, key, false); r.least == q.least && r.subs == q.subs && key !in r.order
  {
  }

  /** The second release of an entry that has left the pool finds the cached entry anew if it is that one. */
  lemma ReleasedAgain(p: Pool, key: Key, owed: set<Key>)
    requires PoolKept(p) && key !in p.order && LeastOrOwed(p, owed)
    ensures var r := Released(p, key);
            && PoolKept(r) && r.subs == p.subs && r.index == p.index && r.order == p.order
            && LeastOrOwed(r, owed - {key})
  {
    DroppedKept(p, key, p.least == Some(key));
    FilterAll(p.order, Others(key));
    if p.least == Some(key) {
      RescannedCaches(p);
    }
  }

  /** A clean-up and the second release after it leave the cached entry a pooled one of least load. */
  lemma SecondReleaseRepairs(p: Pool, key: Key)
    requires PoolKept(p) && CachesLeast(p) && key in p.subs && !p.subs[key].cleaned
    ensures CachesLeast(Released(CleanedUp(p, key), key))
  {
    CleanedUpKept(p, key);
    CleanedUpSettles(p, key, {});
    ReleasedAgain(CleanedUp(p, key), key, {key});
  }

  // ---------------------------------------------------------------- runs

  /** The pool, and the destroyed subscriptions whose second release is still to run. */
  datatype Scene = Scene(pool: Pool, owed: set<Key>)

  datatype Step =
    | Acquire(key: Key)
    | Subscribe(key: Key, local: Local, client: Client)
    | Unsubscribe(key: Key, local: Local)
    | CleanUp(key: Key)
    | ReleaseAgain(key: Key)

  /** Keys are fresh, and local ids belong to one subscription. */
  ghost predicate Legal(s: Scene, y: Step) {
    match y
    case Acquire(key) => key !in s.pool.subs
    case CleanUp(key) => key in s.pool.subs
    case ReleaseAgain(key) => key in s.owed && key in s.pool.subs
    case _ => y.key in s.pool.subs && forall k :: k in s.pool.subs && k != y.key ==> !Holds(s.pool.subs[k], y.local)
  }

  function PoolNext(p: Pool, y: Step): Pool
    requires y.Acquire? || y.key in p.subs
  {
    match y
    case Acquire(key) => Acquired(p, key)
    case Subscribe(key, local, client) => Subscribed(p, key, local, client)
    case Unsubscribe(key, local) => Left(p, key, local)
    case CleanUp(key) => CleanedUp(p, key)
    case ReleaseAgain(key) => Released(p, key)
  }

  /** Destroying a subscription starts its clean-up, and awaits it before the second release. */
  function Next(s: Scene, y: Step): Scene
    requires y.Acquire? || y.key in s.pool.subs
  {
    var q := PoolNext(s.pool, y);
    Scene(q, if y.ReleaseAgain? then s.owed - {y.key} else s.owed + NewlyDestroyed(s.pool, q))
  }

  ghost predicate Reaches(s: Scene, steps: seq<Step>, t: Scene)
    decreases |steps|
  {
    if steps == [] then s == t
    else Legal(s, steps[0]) && Reaches(Next(s, steps[0]), steps[1..], t)
  }

  /** A key awaits its second release only after its subscription was destroyed. */
  ghost predicate OwedDestroyed(s: Scene) {
    forall k :: k in s.owed ==> k in s.pool.subs && s.pool.subs[k].destroyed
  }

  ghost predicate Sound(s: Scene) {
    PoolKept(s.pool) && IndexExact(s.pool) && FlagsKept(s.pool) && OwedDestroyed(s) && LeastOrOwed(s.pool, s.owed)
  }

  lemma EnteredIndex(p: Pool, key: Key, local: Local, client: Client)
    requires IndexExact(p) && key in p.subs
    ensures IndexExact(Entered(p, key, local, client))
  {
    var q := Entered(p, key, local, client);
    assert (local, client) in q.subs[key].locals;
    forall l | l in q.index && l != local ensures q.index[l] in q.subs && Holds(q.subs[q.index[l]], l) {
      var e :| e in p.subs[p.index[l]].locals && e.0 == l;
      assert e in q.subs[q.index[l]].locals;
    }
  }

  lemma SubscribedSound(s: Scene, y: Step)
    requires Sound(s) && y.Subscribe? && Legal(s, y)
    ensures Sound(Next(s, y))
  {
    hide PoolKept, CachesLeast, Entered, LeastOf, IndexExact, FlagsKept;
    var p := s.pool;
    if !Holds(p.subs[y.key], y.local) {
      EnteredKept(p, y.key, y.local, y.client);
      EnteredIndex(p, y.key, y.local, y.client);
      RescannedKept(Entered(p, y.key, y.local, y.client));
      RescannedCaches(Entered(p, y.key, y.local, y.client));
      SubscribedFlags(p, y.key, y.local, y.client);
      RescannedIndex(Entered(p, y.key, y.local, y.client));
    }
    SubscribedOwed(s, y);
  }

  lemma RescannedIndex(p: Pool)
    requires IndexExact(p)
    ensures IndexExact(Rescanned(p))
  {
  }

  lemma SubscribedFlags(p: Pool, key: Key, local: Local, client: Client)
    requires FlagsKept(p) && key in p.subs
    ensures FlagsKept(Rescanned(Entered(p, key, local, client)))
  {
  }

  lemma SubscribedOwed(s: Scene, y: Step)
    requires OwedDestroyed(s) && y.Subscribe? && y.key in s.pool.subs
    ensures OwedDestroyed(Next(s, y)) && Next(s, y).owed == s.owed
  {
    hide LeastOf;
  }

  lemma AcquiredSound(s: Scene, y: Step)
    requires Sound(s) && y.Acquire? && Legal(s, y)
    ensures Sound(Next(s, y))
  {
    PooledKept(s.pool, y.key);
    AcquiredKept(Pooled(s.pool, y.key), Acquired(s.pool, y.key).least);
    assert NewlyDestroyed(s.pool, Acquired(s.pool, y.key)) == {};
  }

  lemma AcquiredKept(p: Pool, least: Option<Key>)
    requires PoolKept(p) && (least.Some? ==> least.value in p.subs)
    ensures PoolKept(p.(least := least))
  {
    assert forall k :: k in p.subs ==> SubKept(p.index, k, p.subs[k]);
  }

  lemma ReleasedIndex(p: Pool, key: Key)
    requires PoolKept(p) && IndexExact(p) && key in p.subs
    ensures IndexExact(Released(p, key))
  {
    hide PoolKept, IndexExact, LeftAll, LeastOf, Dropped;
    var locals := p.subs[key].locals;
    LeftAllKept(p, key, |locals|);
    assert locals[..|locals|] == locals;
    DroppedIndex(p, key, p.least == Some(key));
    DroppedIndex(LeftAll(p, key, locals), key, p.least == Some(key));
  }

  lemma DroppedIndex(p: Pool, key: Key, wasLeast: bool)
    requires IndexExact(p)
    ensures IndexExact(Dropped(p, key, wasLeast))
  {
  }

  lemma CleanedUpIndex(p: Pool, key: Key)
    requires PoolKept(p) && IndexExact(p) && key in p.subs
    ensures IndexExact(CleanedUp(p, key))
  {
    if !p.subs[key].cleaned {
      var s := p.subs[key].(cleaned := true);
      MarkedKept(p, key, p.subs[key].destroyed, true);
      assert p.subs[key].(destroyed := p.subs[key].destroyed, cleaned := true) == s;
      var marked := p.(subs := p.subs[key := s]);
      forall l | l in marked.index ensures marked.index[l] in marked.subs && Holds(marked.subs[marked.index[l]], l) {
        assert Holds(p.subs[p.index[l]], l);
      }
      ReleasedIndex(marked, key);
    }
  }

  ghost predicate StaysDestroyed(p: Pool, q: Pool) {
    forall k :: k in p.subs ==> k in q.subs && (p.subs[k].destroyed ==> q.subs[k].destroyed)
  }

  lemma OwedStays(s: Scene, y: Step)
    requires OwedDestroyed(s) && !y.ReleaseAgain? && (y.Acquire? || y.key in s.pool.subs)
    requires StaysDestroyed(s.pool, PoolNext(s.pool, y))
    ensures OwedDestroyed(Next(s, y))
  {
    hide PoolNext;
  }

  lemma LeftStaysDestroyed(p: Pool, key: Key, local: Local)
    requires key in p.subs
    ensures StaysDestroyed(p, Left(p, key, local))
  {
    hide LeastOf, Filter;
  }

  lemma LeftSceneSound(s: Scene, y: Step)
    requires Sound(s) && y.Unsubscribe? && Legal(s, y)
    ensures Sound(Next(s, y))
  {
    hide Left, PoolKept, IndexExact, FlagsKept, CachesLeast, OwedDestroyed, StaysDestroyed;
    LeftStaysDestroyed(s.pool, y.key, y.local);
    OwedStays(s, y);
    LeftKept(s.pool, y.key, y.local);
    LeftFlags(s.pool, y.key, y.local);
  }

  lemma CleanedUpStaysDestroyed(p: Pool, key: Key)
    requires key in p.subs && (p.subs[key].destroyed ==> p.subs[key].cleaned)
    ensures StaysDestroyed(p, CleanedUp(p, key))
  {
    hide LeftAll, LeastOf, Filter;
    if !p.subs[key].cleaned {
      LeftAllKeepsOrder(p.(subs := p.subs[key := p.subs[key].(cleaned := true)]), key, p.subs[key].locals);
    }
  }

  lemma CleanedUpOwes(s: Scene, y: Step)
    requires FlagsKept(s.pool) && y.CleanUp? && y.key in s.pool.subs
    requires var r := CleanedUp(s.pool, y.key);
             || LeastOrOwed(r, s.owed)
             || (!s.pool.subs[y.key].cleaned && r.least == Some(y.key) && y.key !in r.order && y.key in r.subs
                 && r.subs[y.key].destroyed)
    ensures LeastOrOwed(Next(s, y).pool, Next(s, y).owed)
  {
    hide CleanedUp;
  }

  lemma CleanedUpSound(s: Scene, y: Step)
    requires Sound(s) && y.CleanUp? && Legal(s, y)
    ensures Sound(Next(s, y))
  {
    CleanedUpStaysDestroyed(s.pool, y.key);
    hide CleanedUp, PoolKept, IndexExact, FlagsKept, OwedDestroyed, LeastOrOwed, StaysDestroyed;
    OwedStays(s, y);
    CleanedUpKept(s.pool, y.key);
    CleanedUpIndex(s.pool, y.key);
    CleanedUpFlags(s.pool, y.key);
    CleanedUpSettles(s.pool, y.key, s.owed);
    CleanedUpOwes(s, y);
  }

  lemma ReleasedAgainSound(s: Scene, y: Step)
    requires Sound(s) && y.ReleaseAgain? && Legal(s, y)
    ensures Sound(Next(s, y))
  {
    hide Released, PoolKept, LeastOrOwed;
    assert y.key in s.pool.subs && y.key !in s.pool.order;
    ReleasedAgain(s.pool, y.key, s.owed);
  }

  lemma StepStaysSound(s: Scene, y: Step)
    requires Sound(s) && Legal(s, y)
    ensures Sound(Next(s, y))
  {
    hide Sound, Next;
    match y {
      case Acquire(_) => AcquiredSound(s, y);
      case Subscribe(_, _, _) => SubscribedSound(s, y);
      case Unsubscribe(_, _) => LeftSceneSound(s, y);
      case CleanUp(_) => CleanedUpSound(s, y);
      case ReleaseAgain(_) => ReleasedAgainSound(s, y);
    }
  }

  /**
   Every run of acquisitions under fresh keys, subscriptions, departures, clean-ups and second
   releases, in any order, keeps the pool sound.
   */
  lemma {:induction false} RunsStaySound(s: Scene, steps: seq<Step>, t: Scene)
    requires Sound(s) && Reaches(s, steps, t)
    ensures Sound(t)
    decreases |steps|
  {
    hide Sound, Next;
    if steps != [] {
      StepStaysSound(s, steps[0]);
      RunsStaySound(Next(s, steps[0]), steps[1..], t);
    }
  }

  // ---------------------------------------------------------------- runs whose clean-ups are safe

  ghost predicate SafeStep(s: Scene, y: Step) {
    y.CleanUp? && y.key in s.pool.subs ==> SafeToCleanUp(s.pool, y.key)
  }

  /** Every clean-up of the run meets the guard at its state. */
  ghost predicate SafeCleanUps(s: Scene, steps: seq<Step>)
    decreases |steps|
  {
    steps != [] && Legal(s, steps[0]) ==> SafeStep(s, steps[0]) && SafeCleanUps(Next(s, steps[0]), steps[1..])
  }

  lemma AcquiredLeast(p: Pool, key: Key)
    requires PoolKept(p) && CachesLeast(p) && key !in p.subs
    ensures CachesLeast(Acquired(p, key))
  {
  }

  lemma SubscribedLeast(p: Pool, key: Key, local: Local, client: Client)
    requires CachesLeast(p) && key in p.subs
    ensures CachesLeast(Subscribed(p, key, local, client))
  {
    hide CachesLeast, LeastOf, Rescanned, Entered;
    RescannedCaches(Entered(p, key, local, client));
  }

  lemma SafeStepStaysLeast(s: Scene, y: Step)
    requires Sound(s) && CachesLeast(s.pool) && Legal(s, y) && SafeStep(s, y)
    ensures CachesLeast(Next(s, y).pool)
  {
    hide PoolKept, CachesLeast, IndexExact, LeastOrOwed, SafeToCleanUp, Acquired, Subscribed, Left, CleanedUp, Released;
    match y {
      case Acquire(key) => AcquiredLeast(s.pool, key);
      case Subscribe(key, local, client) => SubscribedLeast(s.pool, key, local, client);
      case Unsubscribe(key, local) => LeftSound(s.pool, key, local);
      case CleanUp(key) => CleanUpKeepsLeastIff(s.pool, key);
      case ReleaseAgain(key) => ReleaseKeepsLeast(s.pool, key);
    }
  }

  lemma ReleaseKeepsLeast(p: Pool, key: Key)
    requires PoolKept(p) && CachesLeast(p) && key !in p.order
    ensures CachesLeast(Released(p, key))
  {
    hide CachesLeast;
    ReleasedAgain(p, key, {});
  }

  /**
   As long as every clean-up is a safe one, the cached entry is a pooled one of least load, whatever is
   still to be released.
   */
  lemma {:induction false} SafeRunsStayLeast(s: Scene, steps: seq<Step>, t: Scene)
    requires Sound(s) && CachesLeast(s.pool) && Reaches(s, steps, t) && SafeCleanUps(s, steps)
    ensures CachesLeast(t.pool)
    decreases |steps|
  {
    hide Sound, Next, CachesLeast, SafeStep;
    if steps != [] {
      StepStaysSound(s, steps[0]);
      SafeStepStaysLeast(s, steps[0]);
      SafeRunsStayLeast(Next(s, steps[0]), steps[1..], t);
    }
  }

  lemma LastRelease(p: Pool, key: Key)
    requires p.least == Some(key) && key !in p.order
    ensures CachesLeast(Released(p, key))
  {
    FilterAll(p.order, Others(key));
    RescannedCaches(p);
  }

  const NOTHING_YET := Scene(EMPTY, {})

  lemma NothingIsSound()
    ensures Sound(NOTHING_YET)
  {
  }

  /**
   After every run from an empty pool each local held by a subscription is indexed to it and nothing
   else is indexed; the cached entry is a pooled one of least load, unless it is itself to be released
   once more; and that release finds such an entry again.
   */
  lemma EveryRunIsSound(steps: seq<Step>, t: Scene)
    requires Reaches(NOTHING_YET, steps, t)
    ensures PoolKept(t.pool) && IndexExact(t.pool)
    ensures CachesLeast(t.pool) || (t.pool.least.Some? && t.pool.least.value in t.owed)
    ensures t.owed == {} ==> CachesLeast(t.pool)
    ensures forall k :: t.pool.least == Some(k) && k in t.owed ==>
              Legal(t, ReleaseAgain(k)) && CachesLeast(Next(t, ReleaseAgain(k)).pool)
  {
    NothingIsSound();
    hide Reaches, PoolKept, IndexExact, CachesLeast;
    RunsStaySound(NOTHING_YET, steps, t);
    hide Released;
    forall k | t.pool.least == Some(k) && k in t.owed ensures CachesLeast(Next(t, ReleaseAgain(k)).pool) {
      assert k in t.pool.subs && t.pool.subs[k].cleaned && k !in t.pool.order;
      LastRelease(t.pool, k);
    }
  }

  /** From the empty pool: the cached entry is a pooled one of least load after every run whose clean-ups are safe. */
  lemma SafeRunsCacheLeast(steps: seq<Step>, t: Scene)
    requires Reaches(NOTHING_YET, steps, t) && SafeCleanUps(NOTHING_YET, steps)
    ensures CachesLeast(t.pool)
  {
    hide Reaches, SafeCleanUps;
    NothingIsSound();
    SafeRunsStayLeast(NOTHING_YET, steps, t);
  }

  // ---------------------------------------------------------------- a run that strands the cache for a while

  lemma OneStep(steps: seq<Step>, k: nat, s: Scene, t: Scene, u: Scene)
    requires k < |steps| && Legal(s, steps[k]) && Next(s, steps[k]) == t && Reaches(t, steps[k + 1..], u)
    ensures Reaches(s, steps[k..], u)
  {
    assert steps[k..][0] == steps[k] && steps[k..][1..] == steps[k + 1..];
  }

  lemma AcquireStep(p: Pool, key: Key)
    requires key !in p.subs
    ensures Next(Scene(p, {}), Acquire(key)) == Scene(Acquired(p, key), {})
  {
    assert NewlyDestroyed(p, Acquired(p, key)) == {};
  }

  lemma SubscribeStep(p: Pool, key: Key, local: Local, client: Client)
    requires key in p.subs && !Holds(p.subs[key], local)
    ensures Next(Scene(p, {}), Subscribe(key, local, client)) == Scene(Rescanned(Entered(p, key, local, client)), {})
  {
    hide LeastOf;
    assert NewlyDestroyed(p, Subscribed(p, key, local, client)) == {};
  }

  /** A pool of one entry, and a pool of two with the first one cached. */
  function OnlyA(locals: seq<(Local, Client)>, index: map<Local, Key>): Pool {
    Pool(map["A" := Sub(locals, false, false)], ["A"], index, Some("A"), false)
  }

  function AAndB(locals: seq<(Local, Client)>, index: map<Local, Key>, least: Key): Pool {
    Pool(map["A" := Sub([("a", 1)], false, false), "B" := Sub(locals, false, false)],
         ["A", "B"], index, Some(least), false)
  }

  lemma FirstOfTwo(subs: map<Key, Sub>)
    requires Load(subs, "A") <= Load(subs, "B")
    ensures LeastOf(["A", "B"], subs, None) == Some("A")
  {
    assert ["A", "B"][1..] == ["B"] && ["B"][1..] == [];
    assert LeastOf(["B"], subs, Some("A")) == LeastOf([], subs, Some("A"));
  }

  lemma FillA()
    ensures Acquired(EMPTY, "A") == OnlyA([], map[])
    ensures Rescanned(Entered(OnlyA([], map[]), "A", "a", 1)) == OnlyA([("a", 1)], map["a" := "A"])
    ensures Acquired(OnlyA([("a", 1)], map["a" := "A"]), "B") == AAndB([], map["a" := "A"], "B")
  {
    assert [] + ["A"] == ["A"] && ["A"] + ["B"] == ["A", "B"] && "A" != "B";
    var e := Entered(OnlyA([], map[]), "A", "a", 1);
    assert e.subs == map["A" := Sub([("a", 1)], false, false)] by {
      assert [] + [("a", 1)] == [("a", 1)];
    }
    assert ["A"][1..] == [];
  }

  lemma FillB(locals: seq<(Local, Client)>, index: map<Local, Key>, least: Key, e: (Local, Client))
    ensures Rescanned(Entered(AAndB(locals, index, least), "B", e.0, e.1))
            == AAndB(locals + [e], index[e.0 := "B"], "A")
  {
    assert "A" != "B";
    var p := Entered(AAndB(locals, index, least), "B", e.0, e.1);
    assert p.subs == AAndB(locals + [e], index, "A").subs;
    FirstOfTwo(p.subs);
  }

  /** Two entries are acquired and subscribed to, as it takes for a clean-up to strand the cache for a while. */
  lemma BusyIsReached()
    ensures Reaches(NOTHING_YET, [Acquire("A"), Subscribe("A", "a", 1), Acquire("B"), Subscribe("B", "b", 2),
                                  Subscribe("B", "c", 3)], Scene(BUSY, {}))
  {
    hide Reaches, Acquired, Entered, Rescanned, Next;
    var steps := [Acquire("A"), Subscribe("A", "a", 1), Acquire("B"), Subscribe("B", "b", 2), Subscribe("B", "c", 3)];
    var none, one := OnlyA([], map[]), OnlyA([("a", 1)], map["a" := "A"]);
    FillA();
    FillingB(steps);
    SubscribeStep(none, "A", "a", 1);
    OneStep(steps, 1, Scene(none, {}), Scene(one, {}), Scene(BUSY, {}));
    AcquireStep(EMPTY, "A");
    OneStep(steps, 0, NOTHING_YET, Scene(none, {}), Scene(BUSY, {}));
    assert steps[0..] == steps;
  }

  lemma FillingB(steps: seq<Step>)
    requires |steps| == 5 && steps[2..] == [Acquire("B"), Subscribe("B", "b", 2), Subscribe("B", "c", 3)]
    ensures Reaches(Scene(OnlyA([("a", 1)], map["a" := "A"]), {}), steps[2..], Scene(BUSY, {}))
  {
    hide Reaches, Acquired, Entered, Rescanned, Next;
    assert "A" != "B" && "b" != "c" && "a" != "b" && "a" != "c";
    assert steps[2] == steps[2..][0] && steps[3] == steps[2..][1] && steps[4] == steps[2..][2];
    FillA();
    var one := OnlyA([("a", 1)], map["a" := "A"]);
    var two := AAndB([], map["a" := "A"], "B");
    var three := AAndB([("b", 2)], map["a" := "A", "b" := "B"], "A");
    assert BUSY == AAndB([("b", 2), ("c", 3)], map["a" := "A", "b" := "B", "c" := "B"], "A");
    FillB([], map["a" := "A"], "B", ("b", 2));
    FillB([("b", 2)], map["a" := "A", "b" := "B"], "A", ("c", 3));
    assert [] + [("b", 2)] == [("b", 2)] && [("b", 2)] + [("c", 3)] == [("b", 2), ("c", 3)];
    var busy := Scene(BUSY, {});
    StaysThere(busy);
    assert steps[5..] == [];
    SubscribeStep(three, "B", "c", 3);
    OneStep(steps, 4, Scene(three, {}), busy, busy);
    SubscribeStep(two, "B", "b", 2);
    OneStep(steps, 3, Scene(two, {}), Scene(three, {}), busy);
    AcquireStep(one, "B");
    OneStep(steps, 2, Scene(one, {}), Scene(two, {}), busy);
  }

  lemma StaysThere(s: Scene)
    ensures Reaches(s, [], s)
  {
  }
}
