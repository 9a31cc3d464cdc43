/**
 The pool of shared subscriptions (src/json-rpc/upstream/shared.ts). Wrapped subscribe and
 unsubscribe operations keep an index of local ids and a cached least-loaded entry; counting the
 subscribers of an entry drops closed clients, which may destroy and release entries in turn.
 */
module SharedPool {
  import opened Collections
  import opened SharedPoolModel

  class SharedSubscriptionPool {
    var subs: map<Key, Sub>
    var order: seq<Key>
    var index: map<Local, Key>
    var least: Option<Key>
    var gone: bool
    /** Clients whose sockets are closed. */
    var closed: set<Client>

    function State(): Pool
      reads this
    {
      Pool(subs, order, index, least, gone)
    }

    ghost predicate Valid()
      reads this
    {
      PoolKept(State())
    }

    ghost function Closing(): set<(Key, (Local, Client))>
      reads this
    {
      ClosedEntries(subs, closed)
    }

    constructor ()
      ensures Valid() && State() == EMPTY && closed == {}
    {
      subs, order, index, least, gone, closed := map[], [], map[], None, false, {};
    }

    /** A client's socket closes; its entries stay until they are next counted or unsubscribed. */
    method SocketCloses(client: Client)
      requires Valid()
      modifies this`closed
      ensures Valid() && closed == old(closed) + {client}
    {
      closed := closed + {client};
    }

    /** Pools a new subscription under a fresh key; it is cached unless the cached entry has nobody left. */
    method Acquire(key: Key)
      requires Valid() && key !in subs
      modifies this
      ensures Valid() && closed == old(closed) && key in subs
      ensures Purges(Pooled(old(State()), key), State(), closed, {})
      ensures old(least).Some? && Filter(old(subs)[old(least).value].locals, OpenOnly(closed)) != [] ==>
                least == Some(key)
      ensures old(least).None? || Counted(old(State()), old(least).value, closed) ==>
                State() == Acquired(old(State()), key)
      ensures old(CachesLight(State())) ==> CachesLight(State())
    {
      hide Purges, PoolKept, CachesLight;
      PooledKept(State(), key);
      subs := subs[key := Sub([], false, false)];
      order := order + [key];
      ghost var added := State();
      var n := SubscribersCount(key);
      PurgesNothing(added, added, closed, {});
      if least == None {
        least := Some(key);
        LeastKept(added, least, gone, closed);
        EmptyIsLight(State());
      } else {
        var m := SubscribersCount(least.value);
        ghost var counted := State();
        PurgesShrinks(added, counted, key, closed, {});
        if n < m {
          least := Some(key);
          LeastKept(counted, least, gone, closed);
          PurgesTransitive(added, counted, State(), closed, {});
          EmptyIsLight(State());
        } else if counted == added {
          EmptyIsLight(added);
        }
      }
    }

    /** The wrapped `subscribeLocal`; it fails when the local is already subscribed. */
    method SubscribeLocal(key: Key, local: Local, client: Client) returns (ok: bool)
      requires Valid() && key in subs && forall k :: k in subs && k != key ==> !Holds(subs[k], local)
      modifies this
      ensures Valid() && closed == old(closed) && ok == !Holds(old(subs[key]), local)
      ensures !ok ==> State() == old(State())
      ensures ok ==> Purges(Entered(old(State()), key, local, client), State(), closed, {}) && CachesLight(State())
      ensures old(Closing()) == {} && client !in closed ==> State() == Subscribed(old(State()), key, local, client)
    {
      hide Purges, PoolKept, CachesLight;
      if Holds(subs[key], local) {
        return false;
      }
      Enter(key, local, client);
      Rescan();
      return true;
    }

    method Enter(key: Key, local: Local, client: Client)
      requires Valid() && key in subs && forall k :: k in subs ==> !Holds(subs[k], local)
      modifies this`subs, this`index
      ensures Valid() && State() == Entered(old(State()), key, local, client)
      ensures old(Closing()) == {} && client !in closed ==> Closing() == {}
    {
      EnteredKept(State(), key, local, client);
      EnteredCalm(State(), key, local, client, closed);
      subs := subs[key := subs[key].(locals := subs[key].locals + [(local, client)])];
      index := index[local := key];
    }

    /** The number of subscribers, after unsubscribing those whose client is closed. */
    method SubscribersCount(key: Key) returns (n: nat)
      requires Valid() && key in subs
      modifies this
      ensures Valid() && closed == old(closed) && Purges(old(State()), State(), closed, {})
      ensures Counted(State(), key, closed) && n == |subs[key].locals|
      ensures subs[key].locals == Filter(old(subs)[key].locals, OpenOnly(closed))
      ensures State() == old(State()) || CachesLight(State())
      ensures old(Counted(State(), key, closed)) || old(Closing()) == {} ==> State() == old(State())
      decreases Closing(), 0, 1
    {
      hide PoolKept, Purges, CachesLight, Counted;
      var entries := subs[key].locals;
      ghost var was := State();
      PurgesNothing(was, was, closed, {});
      CalmIsCounted(was, key, closed);
      var i := 0;
      while i < |entries|
        invariant Valid() && closed == old(closed) && Purges(was, State(), closed, {}) && key in subs
        invariant i <= |entries|
        invariant forall k :: 0 <= k < i ==> entries[k] !in subs[key].locals || entries[k].1 !in closed
        invariant Counted(was, key, closed) ==> State() == was
        invariant State() == was || CachesLight(State())
      {
        var e := entries[i];
        if e in subs[key].locals && e.1 in closed {
          ghost var mid := State();
          ReadyToDrop(was, mid, key, e, closed);
          UnsubscribeLocal(key, e.0);
          ClosedUnsubscribed(mid, State(), key, e, closed);
          PurgesTransitive(was, mid, State(), closed, {});
          PurgesShrinks(mid, State(), key, closed, {});
        }
        i := i + 1;
      }
      AllCounted(was, State(), key, closed);
      return |subs[key].locals|;
    }

    /** Whether entry `a` has fewer subscribers than entry `b`, both counted now. */
    method IsLighter(a: Key, b: Key) returns (lighter: bool)
      requires Valid() && a in subs && b in subs
      modifies this
      ensures Valid() && closed == old(closed) && Purges(old(State()), State(), closed, {})
      ensures Counted(State(), a, closed) && Counted(State(), b, closed)
      ensures lighter == (Load(subs, a) < Load(subs, b))
      ensures old(Closing()) == {} ==> State() == old(State())
      decreases Closing(), 0, 2
    {
      hide PoolKept, Purges, NoneClosed, CachesLight;
      ghost var was := State();
      var m := SubscribersCount(a);
      ghost var mid := State();
      PurgesShrinks(was, mid, b, closed, {});
      ClosedShrink(was, mid, closed);
      var n := SubscribersCount(b);
      CountedStays(mid, State(), a, closed);
      PurgesTransitive(was, mid, State(), closed, {});
      return m < n;
    }

    /** The loop that finds the least-loaded entry again; a single entry is not counted. */
    method Rescan()
      requires Valid()
      modifies this
      ensures Valid() && closed == old(closed) && Purges(old(State()), State(), closed, {})
      ensures CachesLight(State())
      ensures |old(order)| > 1 ==> least.Some? && ScannedTo(old(order), |old(order)|, State(), least.value, closed)
      ensures |old(order)| <= 1 || old(Closing()) == {} ==> State() == Rescanned(old(State()))
      decreases Closing(), 0, 3
    {
      hide PoolKept, Purges, ScannedTo, CachesLight, LeastOf, Load, Counted;
      ghost var was := State();
      var min := Scan();
      ghost var scanned := State();
      if |was.order| > 1 {
        ScannedAll(was.order, scanned, min.value, closed);
      } else {
        RescannedLight(was);
      }
      least := min;
      LeastKept(scanned, min, gone, closed);
      PurgesTransitive(was, scanned, State(), closed, {});
    }

    method Scan() returns (min: Option<Key>)
      requires Valid()
      modifies this
      ensures Valid() && closed == old(closed) && Purges(old(State()), State(), closed, {})
      ensures min.Some? ==> min.value in subs
      ensures forall k :: k in order ==> k in old(order)
      ensures |old(order)| > 1 ==> min.Some? && ScannedTo(old(order), |old(order)|, State(), min.value, closed)
      ensures |old(order)| <= 1 || old(Closing()) == {} ==>
                State() == old(State()) && min == Rescanned(old(State())).least
      decreases Closing(), 0, 3, 0
    {
      hide PoolKept, Purges, ScannedTo, Load, Counted, LeastOf;
      PoolsItsOrder(State());
      var keys := order;
      ghost var was := State();
      PurgesNothing(was, was, closed, {});
      min := None;
      var i := 0;
      while i < |keys|
        invariant Valid() && closed == old(closed) && Purges(was, State(), closed, {})
        invariant i <= |keys| && (keys != [] ==> keys[0] in was.subs)
        invariant (min.Some? <==> i > 0) && (min.Some? ==> min.value in subs)
        invariant i <= 1 ==> State() == was
        invariant i == 1 ==> min == Some(keys[0])
        invariant i > 1 ==> ScannedTo(keys, i, State(), min.value, closed)
        invariant old(Closing()) == {} || |keys| <= 1 ==> State() == was
        invariant old(Closing()) == {} || |keys| <= 1 ==>
                    LeastOf(keys, was.subs, None) == LeastOf(keys[i..], was.subs, min)
      {
        var k := keys[i];
        LeastOfNext(keys, i, was.subs, min);
        PurgesOrder(was, State(), closed, {});
        if k in order {
          if min == None {
            min := Some(k);
          } else {
            ghost var mid := State();
            PurgesShrinks(was, mid, keys[0], closed, {});
            ClosedShrink(was, mid, closed);
            var lighter := IsLighter(k, min.value);
            PurgesShrinks(mid, State(), k, closed, {});
            ScannedNext(keys, i, mid, State(), min.value, closed);
            PurgesTransitive(was, mid, State(), closed, {});
            if lighter {
              min := Some(k);
            }
          }
        } else {
          ScannedSkip(keys, i, State(), min.value, closed);
        }
        i := i + 1;
      }
      PurgesOrder(was, State(), closed, {});
      LeastOfNone(keys, was.subs, min);
    }

    /** The wrapped `unsubscribeLocal`. Local ids belong to one subscription. */
    method UnsubscribeLocal(key: Key, local: Local)
      requires Valid() && key in subs && forall k :: k in subs && k != key ==> !Holds(subs[k], local)
      modifies this
      ensures Valid() && closed == old(closed) && Shrinks(old(State()), State())
      ensures Purges(Unsubscribed(old(State()), key, local, closed), State(), closed, {})
      ensures subs[key].locals == Remaining(old(subs)[key], local, closed) && local !in index
      ensures Remaining(old(subs)[key], local, closed) == [] && !old(subs)[key].destroyed && !old(subs)[key].cleaned ==>
                key !in order
      ensures forall e :: e in old(subs)[key].locals && e.0 != local && e.1 in closed ==> e.0 in index
      ensures CachesLight(State())
      ensures old(Closing()) == {} ==> State() == Left(old(State()), key, local)
      decreases ClosedElsewhere(subs, closed, key), |Remaining(subs[key], local, closed)|, 9
    {
      hide PoolKept, Purges, CachesLight, Remaining, ScannedTo;
      ghost var was := State();
      Depart(key, local);
      ghost var departed := State();
      LeftByNone(was, departed, key, local);
      Unindex(local);
      ghost var mid := State();
      Rescan();
      UnsubscribedAfterScan(was, departed, mid, State(), key, local, closed);
    }

    /** The original `unsubscribeLocal`. */
    method Depart(key: Key, local: Local)
      requires Valid() && key in subs
      modifies this
      ensures Valid() && closed == old(closed) && Shrinks(old(State()), State())
      ensures Purges(WithLocals(old(State()), key, Remaining(old(subs)[key], local, closed)), State(), closed, {})
      ensures !Holds(subs[key], local)
      ensures Remaining(old(subs)[key], local, closed) == [] && !old(subs)[key].destroyed && !old(subs)[key].cleaned ==>
                key !in order
      ensures Closing() <= ClosedElsewhere(old(subs), old(closed), key)
      ensures old(Closing()) == {} ==> State() == Departed(old(State()), key, local)
      decreases ClosedElsewhere(subs, closed, key), |Remaining(subs[key], local, closed)|, 8
    {
      hide PoolKept, Purges, CachesLight, Remaining, SubShrinks;
      ghost var was := State();
      DropLocal(was, key, local, closed);
      subs := subs[key := subs[key].(locals := Remaining(subs[key], local, closed))];
      ghost var dropped := State();
      PurgesNothing(dropped, dropped, closed, {});
      if subs[key].locals == [] {
        DoDestroy(key);
        PurgesShrinks(dropped, State(), key, closed, {});
        ShrinksTransitive(was, dropped, State());
        ClosedShrink(dropped, State(), closed);
        StaysGone(dropped, State(), key, local, closed);
      }
    }

    method Unindex(local: Local)
      requires Valid() && forall k :: k in subs ==> !Holds(subs[k], local)
      modifies this`index
      ensures Valid() && index == old(index) - {local}
    {
      index := index - {local};
      forall k | k in subs ensures SubKept(index, k, subs[k]) {
        assert SubKept(old(index), k, subs[k]);
        assert !Holds(subs[k], local);
      }
    }

    method DoDestroy(key: Key)
      requires Valid() && key in subs && subs[key].locals == []
      modifies this
      ensures Valid() && closed == old(closed) && Purges(old(State()), State(), closed, {})
      ensures !old(subs)[key].destroyed && !old(subs)[key].cleaned ==> key !in order
      ensures old(Closing()) == {} ==> State() == Destroyed(old(State()), key)
      decreases Closing(), 0, 7
    {
      hide PoolKept, Purges, CachesLight, CleanedUp, Destroyed;
      ghost var was := State();
      PurgesNothing(was, was, closed, {});
      if subs[key].destroyed {
        DestroyedOnce(was, key);
        return;
      }
      DestroyedIsCleanedUp(was, key);
      MarkDestroyed(key);
      ghost var marked := State();
      FlaggedPurges(was, key, true, subs[key].cleaned, closed, {});
      PurgesShrinks(was, marked, key, closed, {});
      ClosedShrink(was, marked, closed);
      CleanUp(key);
      PurgesEmptied(marked, State(), closed, key);
      PurgesTransitive(was, marked, State(), closed, {});
    }

    /** The synchronous part of the clean-up of a follow, which runs once. */
    method CleanUp(key: Key)
      requires Valid() && key in subs
      modifies this
      ensures Valid() && closed == old(closed) && Purges(old(State()), State(), closed, {key})
      ensures if old(subs)[key].cleaned then State() == old(State())
              else key !in order && (key in old(order) ==> Load(subs, key) == 0)
      ensures old(CachesLight(State())) ==> CachesLight(State())
      ensures old(Closing()) == {} ==> State() == CleanedUp(old(State()), key)
      decreases Closing(), Load(subs, key), 6
    {
      hide PoolKept, Purges, Released;
      ghost var was := State();
      PurgesNothing(was, was, closed, {key});
      if subs[key].cleaned {
        return;
      }
      MarkCleaned(key);
      ghost var marked := State();
      FlaggedPurges(was, key, subs[key].destroyed, true, closed, {key});
      PurgesShrinks(was, marked, key, closed, {key});
      ClosedShrink(was, marked, closed);
      SameLoadsLight(was, marked);
      Release(key);
      PurgesTransitive(was, marked, State(), closed, {key});
    }

    /** Called by the clean-up, and once more when a destruction has awaited it. */
    method Release(key: Key)
      requires Valid()
      modifies this
      ensures Valid() && closed == old(closed) && Purges(old(State()), State(), closed, {key})
      ensures key !in order && (key in old(order) ==> Load(subs, key) == 0)
      ensures old(CachesLight(State())) ==> CachesLight(State())
      ensures old(Closing()) == {} ==> State() == Released(old(State()), key)
      decreases Closing(), Load(subs, key), 5
    {
      hide Purges, CachesLight, Dropped, LeftAll;
      var wasLeast := least == Some(key);
      ghost var was := State();
      PurgesNothing(was, was, closed, {key});
      if key in order {
        UnsubscribeAll(key);
        PurgesShrinks(was, State(), key, closed, {key});
      }
      ghost var mid := State();
      ClosedShrink(was, mid, closed);
      DropEntry(key, wasLeast);
      PurgesWiden(mid, State(), closed, {key});
      PurgesTransitive(was, mid, State(), closed, {key});
      if key in was.order {
        PurgesShrinks(mid, State(), key, closed, {key});
      }
    }

    method DropEntry(key: Key, wasLeast: bool)
      requires Valid() && (key in order ==> Load(subs, key) == 0)
      modifies this
      ensures Valid() && closed == old(closed) && Purges(old(State()), State(), closed, {}) && key !in order
      ensures old(CachesLight(State())) ==> CachesLight(State())
      ensures old(Closing()) == {} ==> State() == Dropped(old(State()), key, wasLeast)
      decreases Closing(), 0, 4
    {
      hide Purges, CachesLight, PoolKept, Filter, LeastOf, ScannedTo;
      ghost var was := State();
      Unpool(key);
      ghost var dropped := State();
      if CachesLight(was) {
        UnpooledLight(was, dropped);
      }
      PurgesNothing(dropped, dropped, closed, {});
      if wasLeast {
        Rescan();
        PurgesTransitive(was, dropped, State(), closed, {});
      }
      ghost var scanned := State();
      PurgesOrder(dropped, scanned, closed, {});
      if order == [] {
        gone := true;
        LeastStays(scanned);
        LeastKept(scanned, least, true, closed);
        SameLoadsLight(scanned, State());
        PurgesTransitive(was, scanned, State(), closed, {});
      }
    }

    method Unpool(key: Key)
      requires Valid() && (key in order ==> Load(subs, key) == 0)
      modifies this`order
      ensures Valid() && order == Filter(old(order), Others(key)) && Purges(old(State()), State(), closed, {})
    {
      hide Purges;
      UnpooledPurges(State(), key, closed);
      order := Filter(order, Others(key));
      FilterDistinct(old(order), Others(key));
      assert forall k :: k in subs ==> SubKept(index, k, subs[k]);
    }

    /** One turn of the release loop; the second deletion from the index finds nothing left. */
    method Evict(key: Key, local: Local)
      requires Valid() && key in subs && forall k :: k in subs && k != key ==> !Holds(subs[k], local)
      modifies this
      ensures Valid() && closed == old(closed) && Shrinks(old(State()), State())
      ensures Purges(Unsubscribed(old(State()), key, local, closed), State(), closed, {})
      ensures subs[key].locals == Remaining(old(subs)[key], local, closed) && local !in index
      ensures CachesLight(State())
      ensures old(Closing()) == {} ==> State() == Left(old(State()), key, local)
      decreases ClosedElsewhere(subs, closed, key), |Remaining(subs[key], local, closed)|, 10
    {
      hide PoolKept, Purges, CachesLight, Remaining, Shrinks, Unsubscribed, Left;
      UnsubscribeLocal(key, local);
      assert index - {local} == index;
      index := index - {local};
    }

    /** The loop of a release that unsubscribes every local of the entry. */
    method UnsubscribeAll(key: Key)
      requires Valid() && key in subs
      modifies this
      ensures Valid() && closed == old(closed) && Purges(old(State()), State(), closed, {key})
      ensures Load(subs, key) == 0
      ensures State() == old(State()) || CachesLight(State())
      ensures old(Closing()) == {} ==> State() == LeftAll(old(State()), key, old(subs[key].locals))
      decreases Closing(), Load(subs, key), 4
    {
      hide PoolKept, Purges, CachesLight, Remaining, LeftAll, Left, Unsubscribed, Evicted;
      var locals := subs[key].locals;
      ghost var was, calm := State(), Closing() == {};
      PurgesNothing(was, was, closed, {key});
      LeftAllNone(was, key);
      EvictedNone(was, key);
      var i := 0;
      while i < |locals|
        invariant Valid() && closed == old(closed) && Purges(was, State(), closed, {key})
        invariant i <= |locals| && Evicted(was, State(), key, i)
        invariant State() == was || CachesLight(State())
        invariant calm ==> State() == LeftAll(was, key, locals[..i])
      {
        ghost var mid := State();
        EvictedFewer(was, mid, key, i);
        ReadyToLeave(was, mid, key, locals[i], closed);
        Evict(key, locals[i].0);
        OwnLeft(was, mid, State(), key, locals[i], closed);
        EvictedNext(was, mid, State(), key, i, closed);
        LeftAllSnoc(was, key, locals, i);
        i := i + 1;
      }
      assert locals[..i] == locals;
      NoneLeft(was, State(), key);
    }

    method MarkCleaned(key: Key)
      requires Valid() && key in subs
      modifies this`subs
      ensures Valid() && subs == old(subs)[key := old(subs)[key].(cleaned := true)]
    {
      subs := subs[key := subs[key].(cleaned := true)];
      forall k | k in subs ensures SubKept(index, k, subs[k]) {
        assert SubKept(index, k, old(subs)[k]);
      }
    }

    method MarkDestroyed(key: Key)
      requires Valid() && key in subs
      modifies this`subs
      ensures Valid() && subs == old(subs)[key := old(subs)[key].(destroyed := true)]
    {
      subs := subs[key := subs[key].(destroyed := true)];
      forall k | k in subs ensures SubKept(index, k, subs[k]) {
        assert SubKept(index, k, old(subs)[k]);
      }
    }
  }
}
