/**
 What each step of a run does to the pool of shared subscriptions, said without its operations: who is
 subscribed where, which entries are pooled, and when the pool itself is given up.
 */
module SharedPoolRuns {
  import opened Collections
  import opened SharedPoolModel
  import opened SharedPoolProperties

  /** The step takes the last local of its entry, or finds none there. */
  predicate Empties(p: Pool, y: Step)
    requires y.Unsubscribe? ==> y.key in p.subs
  {
    y.Unsubscribe? && forall e :: e in p.subs[y.key].locals ==> e.0 == y.local
  }

  /** The pooled keys after a step, in the order in which they were acquired. */
  function OrderAfter(p: Pool, y: Step): seq<Key>
    requires y.Unsubscribe? ==> y.key in p.subs
  {
    if y.Acquire? then p.order + [y.key]
    else if y.CleanUp? || y.ReleaseAgain? || Empties(p, y) then Filter(p.order, Others(y.key))
    else p.order
  }

  /** After the step `y` the subscription `k` has the local `e.0` of client `e.1`. */
  predicate HasAfter(p: Pool, y: Step, k: Key, e: (Local, Client)) {
    || (y == Subscribe(k, e.0, e.1) && k in p.subs && !Holds(p.subs[k], e.0))
    || (k in p.subs && e in p.subs[k].locals && y != Unsubscribe(k, e.0) && !(y == CleanUp(k) && k in p.order))
  }

  ghost predicate LocalsTold(p: Pool, y: Step, q: Pool) {
    forall k, e :: (k in q.subs && e in q.subs[k].locals) <==> HasAfter(p, y, k, e)
  }

  /** A pool that has had an entry and has none any more was given up. */
  ghost predicate GoneWhenEmpty(p: Pool) {
    p.order == [] && p.subs != map[] ==> p.gone
  }

  ghost predicate GoneTold(p: Pool, q: Pool) {
    q.gone <==> p.gone || (q.order == [] && q.subs != map[])
  }

  // ---------------------------------------------------------------- departures

  lemma {:induction false} FilterIsEmpty(locals: seq<(Local, Client)>, local: Local)
    ensures Filter(locals, OtherThan(local)) == [] <==> forall e :: e in locals ==> e.0 == local
  {
    var rest := Filter(locals, OtherThan(local));
    if rest != [] {
      assert rest[0] in rest;
    }
  }

  lemma DestroyedOrder(p: Pool, key: Key)
    requires PoolKept(p) && FlagsKept(p) && key in p.subs && (p.order == [] ==> p.gone)
    ensures var r := Destroyed(p, key);
            r.order == Filter(p.order, Others(key)) && (r.gone <==> p.gone || r.order == [])
  {
    hide LeastOf;
    if p.subs[key].cleaned {
      FilterAll(p.order, Others(key));
    }
  }

  /** Leaving is departing, and a rescan after it. */
  lemma LeftIsDeparted(p: Pool, key: Key, local: Local)
    requires key in p.subs
    ensures var r, d := Left(p, key, local), Departed(p, key, local); r.order == d.order && r.gone == d.gone
  {
    hide Departed, LeastOf;
  }

  lemma StaysInKept(p: Pool, key: Key, local: Local)
    requires PoolKept(p) && FlagsKept(p) && key in p.subs
    ensures var q := WithLocals(p, key, Filter(p.subs[key].locals, OtherThan(local))); PoolKept(q) && FlagsKept(q)
  {
    var locals := Filter(p.subs[key].locals, OtherThan(local));
    DropLocal(p, key, local, {});
    FilterAll(locals, OpenOnly({}));
  }

  lemma LeftTells(p: Pool, key: Key, local: Local)
    requires PoolKept(p) && FlagsKept(p) && key in p.subs && (p.order == [] ==> p.gone)
    ensures var r := Left(p, key, local);
            && r.order == OrderAfter(p, Unsubscribe(key, local))
            && (r.gone <==> p.gone || r.order == [])
  {
    hide Left, Destroyed, PoolKept, FlagsKept, Filter;
    var locals := Filter(p.subs[key].locals, OtherThan(local));
    LeftIsDeparted(p, key, local);
    FilterIsEmpty(p.subs[key].locals, local);
    StaysInKept(p, key, local);
    if locals == [] {
      DestroyedOrder(WithLocals(p, key, locals), key);
    }
  }

  lemma UnsubscribeTells(p: Pool, y: Step)
    requires PoolKept(p) && FlagsKept(p) && y.Unsubscribe? && y.key in p.subs && (p.order == [] ==> p.gone)
    ensures var q := PoolNext(p, y);
            LocalsTold(p, y, q) && q.order == OrderAfter(p, y) && (q.gone <==> p.gone || q.order == [])
  {
    hide Left, PoolKept, FlagsKept;
    LeftTells(p, y.key, y.local);
    LeftLocals(p, y.key, y.local);
  }

  // ---------------------------------------------------------------- clean-ups

  lemma LeftKeepsGone(p: Pool, key: Key, local: Local)
    requires key in p.subs && p.subs[key].cleaned
    ensures Left(p, key, local).gone == p.gone
  {
  }

  lemma {:induction false} LeftAllKeepsGone(p: Pool, key: Key, locals: seq<(Local, Client)>)
    requires key in p.subs && p.subs[key].cleaned
    ensures LeftAll(p, key, locals).gone == p.gone
  {
    if locals != [] {
      hide Left;
      var n := |locals| - 1;
      LeftAllKeepsGone(p, key, locals[..n]);
      LeftAllKeepsOrder(p, key, locals[..n]);
      LeftKeepsGone(LeftAll(p, key, locals[..n]), key, locals[n].0);
    }
  }

  lemma EmptiedTells(p: Pool, key: Key)
    requires PoolKept(p) && key in p.subs && !p.subs[key].cleaned
    ensures var q := Emptied(p, key);
            && q.order == p.order && q.gone == p.gone && q.subs.Keys == p.subs.Keys
            && (forall k :: k in p.subs && k != key ==> q.subs[k].locals == p.subs[k].locals)
            && q.subs[key].locals == if key in p.order then [] else p.subs[key].locals
  {
    hide LeftAll, LeastOf, PoolKept;
    var s := p.subs[key];
    MarkedKept(p, key, s.destroyed, true);
    assert s.(destroyed := s.destroyed, cleaned := true) == s.(cleaned := true);
    var marked := p.(subs := p.subs[key := s.(cleaned := true)]);
    if key in p.order {
      LeftAllKept(marked, key, |s.locals|);
      assert s.locals[..|s.locals|] == s.locals && s.locals[|s.locals|..] == [];
      LeftAllKeepsOrder(marked, key, s.locals);
      LeftAllKeepsGone(marked, key, s.locals);
    }
  }

  lemma DroppedTells(q: Pool, key: Key, wasLeast: bool)
    ensures var r := Dropped(q, key, wasLeast);
            && r.order == Filter(q.order, Others(key)) && r.subs == q.subs
            && (r.gone <==> q.gone || r.order == [])
  {
    hide LeastOf;
  }

  lemma CleanUpTells(p: Pool, y: Step)
    requires PoolKept(p) && FlagsKept(p) && y.CleanUp? && y.key in p.subs && (p.order == [] ==> p.gone)
    ensures var q := PoolNext(p, y);
            LocalsTold(p, y, q) && q.order == OrderAfter(p, y) && (q.gone <==> p.gone || q.order == [])
  {
    hide Emptied, Dropped, PoolKept, CleanedUp, LocalsTold;
    if p.subs[y.key].cleaned {
      CleanedOnce(p, y.key);
      EmptiedLocals(p, y, p);
      FilterAll(p.order, Others(y.key));
    } else {
      EmptiedTells(p, y.key);
      CleanedUpDrops(p, y.key);
      DroppedTells(Emptied(p, y.key), y.key, p.least == Some(y.key));
      EmptiedLocals(p, y, PoolNext(p, y));
    }
  }

  lemma EmptiedLocals(p: Pool, y: Step, q: Pool)
    requires y.CleanUp? && y.key in p.subs && q.subs.Keys == p.subs.Keys
    requires forall k :: k in p.subs && k != y.key ==> q.subs[k].locals == p.subs[k].locals
    requires q.subs[y.key].locals == if y.key in p.order then [] else p.subs[y.key].locals
    ensures LocalsTold(p, y, q)
  {
  }

  lemma CleanedOnce(p: Pool, key: Key)
    requires key in p.subs && p.subs[key].cleaned
    ensures CleanedUp(p, key) == p
  {
  }

  // ---------------------------------------------------------------- every step

  lemma ReleaseTells(p: Pool, y: Step)
    requires y.ReleaseAgain? && y.key in p.subs && y.key !in p.order && (p.order == [] ==> p.gone)
    ensures var q := PoolNext(p, y);
            LocalsTold(p, y, q) && q.order == OrderAfter(p, y) && (q.gone <==> p.gone || q.order == [])
  {
    hide Dropped;
    DroppedTells(p, y.key, p.least == Some(y.key));
  }

  lemma SubscribeTells(p: Pool, y: Step)
    requires y.Subscribe? && y.key in p.subs && (p.order == [] ==> p.gone)
    ensures var q := PoolNext(p, y);
            LocalsTold(p, y, q) && q.order == OrderAfter(p, y) && (q.gone <==> p.gone || q.order == [])
  {
    hide LeastOf;
  }

  lemma AcquireTells(p: Pool, y: Step)
    requires y.Acquire? && y.key !in p.subs
    ensures var q := PoolNext(p, y); LocalsTold(p, y, q) && q.order == OrderAfter(p, y) && GoneTold(p, q)
  {
  }

  /**
   Every step of a run: a subscription gains just the local that subscribes and loses just the one that
   unsubscribes, or all of them when it is cleaned up while pooled; an entry is pooled from its acquisition
   until it is cleaned up or its last local leaves; the pool is given up when its last entry goes.
   */
  lemma StepTells(s: Scene, y: Step)
    requires Sound(s) && Legal(s, y) && GoneWhenEmpty(s.pool)
    ensures var p, q := s.pool, Next(s, y).pool;
            LocalsTold(p, y, q) && q.order == OrderAfter(p, y) && GoneTold(p, q) && GoneWhenEmpty(q)
  {
    hide PoolKept, IndexExact, LeastOrOwed, PoolNext, LocalsTold, OrderAfter, Legal;
    NextKeepsKeys(s, y);
    match y {
      case Acquire(key) => AcquireTells(s.pool, y);
      case Subscribe(_, _, _) => SubscribeTells(s.pool, y);
      case Unsubscribe(_, _) => UnsubscribeTells(s.pool, y);
      case CleanUp(_) => CleanUpTells(s.pool, y);
      case ReleaseAgain(_) => ReleaseTells(s.pool, y);
    }
  }

  lemma NextKeepsKeys(s: Scene, y: Step)
    requires Legal(s, y) && Sound(s)
    ensures y.Acquire? <==> y.key !in s.pool.subs
    ensures Next(s, y).pool.subs != map[]
    ensures y.ReleaseAgain? ==> y.key !in s.pool.order
    ensures s.pool.order != [] ==> s.pool.subs != map[]
  {
    StepStaysSound(s, y);
  }

  /** At some state of the run the pool has had an entry and has none. */
  ghost predicate RunsEmpty(s: Scene, steps: seq<Step>)
    decreases |steps|
  {
    && steps != [] && Legal(s, steps[0])
    && (Next(s, steps[0]).pool.order == [] || RunsEmpty(Next(s, steps[0]), steps[1..]))
  }

  lemma {:induction false} GoneAfterRun(s: Scene, steps: seq<Step>, t: Scene)
    requires Sound(s) && GoneWhenEmpty(s.pool) && Reaches(s, steps, t)
    ensures t.pool.gone <==> s.pool.gone || RunsEmpty(s, steps)
    decreases |steps|
  {
    if steps != [] {
      hide Sound, Next, Legal;
      var mid := Next(s, steps[0]);
      StepTells(s, steps[0]);
      NextKeepsKeys(s, steps[0]);
      StepStaysSound(s, steps[0]);
      GoneAfterRun(mid, steps[1..], t);
    }
  }

  /** The pool is given up in just those runs in which it loses its last entry, for good or not. */
  lemma GoneIffEmptied(steps: seq<Step>, t: Scene)
    requires Reaches(NOTHING_YET, steps, t)
    ensures t.pool.gone <==> RunsEmpty(NOTHING_YET, steps)
  {
    NothingIsSound();
    GoneAfterRun(NOTHING_YET, steps, t);
  }

  /** A new entry is cached unless the cached one has no locals either. */
  lemma NewIsCachedIff(p: Pool, key: Key)
    requires key !in p.subs && (p.least.Some? ==> p.least.value in p.subs)
    ensures var q := Acquired(p, key);
            && (q.least == Some(key) <==> p.least == None || p.subs[p.least.value].locals != [])
            && (q.least != Some(key) ==> q.least == p.least)
  {
  }
}
