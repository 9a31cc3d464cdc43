/**
 What a least-recently-used cache remembers, over whole runs: never a stale value, and exactly the
 keys whose reuse distance is below the capacity.
 */
module LruProperties {
  import opened Collections
  import opened Lru

  ghost predicate DistinctKeys<T>(s: Recency<T>) {
    forall i, j :: 0 <= i < j < |s| ==> s[i].0 != s[j].0
  }

  lemma FindAt<T>(s: Recency<T>, i: nat)
    requires DistinctKeys(s) && i < |s|
    ensures Find(s, s[i].0) == i
  {
    var j := Find(s, s[i].0);
    assert s[j].0 == s[i].0;
  }

  lemma LookupIn<T>(s: Recency<T>, key: string, value: T)
    requires DistinctKeys(s)
    ensures Lookup(s, key) == Some(value) <==> (key, value) in s
  {
    if (key, value) in s {
      var i :| 0 <= i < |s| && s[i] == (key, value);
      FindAt(s, i);
    }
  }

  lemma MovedDistinct<T>(s: Recency<T>, i: nat)
    requires DistinctKeys(s) && i < |s|
    ensures DistinctKeys([s[i]] + RemoveAt(s, i))
  {
    var r := [s[i]] + RemoveAt(s, i);
    forall a, b | 0 <= a < b < |r| ensures r[a].0 != r[b].0 {
      assert r[b] == s[if b <= i then b - 1 else b];
      assert r[a] == s[if a == 0 then i else if a <= i then a - 1 else a];
    }
  }

  lemma RemovedDistinct<T>(s: Recency<T>, i: nat)
    requires DistinctKeys(s) && i < |s|
    ensures DistinctKeys(RemoveAt(s, i))
    ensures forall p :: p in RemoveAt(s, i) <==> p in s && p.0 != s[i].0
  {
    RemovedElements(s, i);
    var r := RemoveAt(s, i);
    forall a, b | 0 <= a < b < |r| ensures r[a].0 != r[b].0 {
      assert r[b] == s[if b < i then b else b + 1];
      assert r[a] == s[if a < i then a else a + 1];
    }
  }

  lemma RemovedElements<T>(s: Recency<T>, i: nat)
    requires DistinctKeys(s) && i < |s|
    ensures forall p :: p in RemoveAt(s, i) <==> p in s && p.0 != s[i].0
  {
    var r := RemoveAt(s, i);
    forall p | p in s && p.0 != s[i].0 ensures p in r {
      var k :| 0 <= k < |s| && s[k] == p;
      assert r[if k < i then k else k - 1] == p;
    }
    forall p | p in r ensures p in s && p.0 != s[i].0 {
      var k :| 0 <= k < |r| && r[k] == p;
      assert r[k] == s[if k < i then k else k + 1];
    }
  }

  /** A hit moves its key to the front and changes no binding. */
  lemma GotMovesToFront<T>(s: Recency<T>, key: string)
    requires DistinctKeys(s) && Has(s, key)
    ensures var r := Got(s, key);
            && DistinctKeys(r) && |r| == |s| && r[0] == s[Find(s, key)]
            && multiset(r) == multiset(s)
            && r[1..] == RemoveAt(s, Find(s, key))
  {
    var i := Find(s, key);
    MoveToFrontMultiset(s, i);
    MovedDistinct(s, i);
  }

  /** Inserting into a full cache drops exactly the least recently used key; otherwise nothing is dropped. */
  lemma PutDropsOldest<T>(s: Recency<T>, key: string, value: T, max: nat)
    requires DistinctKeys(s) && |s| <= max
    ensures var r := Put(s, key, value, max);
            && DistinctKeys(r) && |r| <= max
            && (max > 0 ==> r != [] && r[0] == (key, value))
            && (Has(s, key) ==> r[1..] == RemoveAt(s, Find(s, key)))
            && (!Has(s, key) && 0 < |s| == max ==> r[1..] == s[..|s| - 1])
            && (!Has(s, key) && |s| < max ==> r[1..] == s)
  {
    hide DistinctKeys;
    if Has(s, key) {
      ReplacedDistinct(s, Find(s, key), value);
    } else {
      GrownDistinct(s, key, value, max);
    }
  }

  lemma ReplacedDistinct<T>(s: Recency<T>, i: nat, value: T)
    requires DistinctKeys(s) && i < |s|
    ensures DistinctKeys([(s[i].0, value)] + RemoveAt(s, i))
  {
    MovedDistinct(s, i);
    var r, moved := [(s[i].0, value)] + RemoveAt(s, i), [s[i]] + RemoveAt(s, i);
    forall a, b | 0 <= a < b < |r| ensures r[a].0 != r[b].0 {
      assert r[a].0 == moved[a].0 && r[b] == moved[b];
    }
  }

  lemma GrownDistinct<T>(s: Recency<T>, key: string, value: T, max: nat)
    requires DistinctKeys(s) && !Has(s, key)
    ensures var grown := [(key, value)] + s; DistinctKeys(grown) && (max <= |grown| ==> DistinctKeys(grown[..max]))
  {
    var grown := [(key, value)] + s;
    forall a, b | 0 <= a < b < |grown| ensures grown[a].0 != grown[b].0 {
      assert grown[b] == s[b - 1] && (a > 0 ==> grown[a] == s[a - 1]);
    }
  }

  lemma RemovedKeepsRest<T>(s: Recency<T>, key: string)
    requires DistinctKeys(s)
    ensures var r := Removed(s, key);
            && DistinctKeys(r) && |r| <= |s|
            && forall p :: p in r <==> p in s && p.0 != key
  {
    if Has(s, key) {
      RemovedDistinct(s, Find(s, key));
    }
  }

  // ---------------------------------------------------------------- every run is coherent

  datatype Call<T> = GetCall(key: string) | SetCall(key: string, value: T) | RemoveCall(key: string) | ClearCall
  {
    predicate Stores(k: string) { SetCall? && key == k }
  }

  function After<T>(calls: seq<Call<T>>, max: nat): Recency<T> {
    if calls == [] then []
    else
      var s := After(calls[..|calls| - 1], max);
      match calls[|calls| - 1]
      case GetCall(k) => Got(s, k)
      case SetCall(k, v) => Put(s, k, v, max)
      case RemoveCall(k) => Removed(s, k)
      case ClearCall => []
  }

  /** The value last set for `key` and not removed since. */
  function LastSet<T>(calls: seq<Call<T>>, key: string): Option<T> {
    if calls == [] then None
    else
      var was := LastSet(calls[..|calls| - 1], key);
      match calls[|calls| - 1]
      case GetCall(_) => was
      case SetCall(k, v) => if k == key then Some(v) else was
      case RemoveCall(k) => if k == key then None else was
      case ClearCall => None
  }

  /** After any calls the keys are distinct, the size is bounded, and a lookup finds the last value set or nothing. */
  lemma {:induction false} NeverStale<T(!new)>(calls: seq<Call<T>>, max: nat)
    ensures var s := After(calls, max);
            && DistinctKeys(s) && |s| <= max
            && forall key :: Lookup(s, key).Some? ==> Lookup(s, key) == LastSet(calls, key)
  {
    if calls != [] {
      var n := |calls| - 1;
      NeverStale(calls[..n], max);
      var was, s := After(calls[..n], max), After(calls, max);
      match calls[n] {
        case GetCall(k) => if Has(was, k) { GotMovesToFront(was, k); }
        case SetCall(k, v) => PutDropsOldest(was, k, v, max);
        case RemoveCall(k) => RemovedKeepsRest(was, k);
        case ClearCall =>
      }
      forall key | Lookup(s, key).Some? ensures Lookup(s, key) == LastSet(calls, key) {
        CoherentStep(was, calls[n], key, max);
      }
    }
  }

  lemma CoherentStep<T(!new)>(was: Recency<T>, call: Call<T>, key: string, max: nat)
    requires DistinctKeys(was) && |was| <= max
    ensures var s := match call
                     case GetCall(k) => Got(was, k)
                     case SetCall(k, v) => Put(was, k, v, max)
                     case RemoveCall(k) => Removed(was, k)
                     case ClearCall => [];
            Lookup(s, key).Some? ==>
              Lookup(s, key) == match call
                                case SetCall(k, v) => if k == key then Some(v) else Lookup(was, key)
                                case RemoveCall(k) => if k == key then None else Lookup(was, key)
                                case _ => Lookup(was, key)
  {
    match call {
      case GetCall(k) =>
        if Has(was, k) {
          GotMovesToFront(was, k);
          if Has(Got(was, k), key) {
            var value := Lookup(Got(was, k), key).value;
            LookupIn(Got(was, k), key, value);
            assert (key, value) in multiset(was);
            LookupIn(was, key, value);
          }
        }
      case SetCall(k, v) =>
        PutDropsOldest(was, k, v, max);
        var s := Put(was, k, v, max);
        if Has(s, key) {
          var i := Find(s, key);
          if i == 0 {
          } else {
            assert s[0].0 == k && s[i] == s[1..][i - 1];
            assert s[i] in was;
            LookupIn(was, key, s[i].1);
          }
        }
      case RemoveCall(k) =>
        RemovedKeepsRest(was, k);
        var s := Removed(was, k);
        if Has(s, key) {
          assert s[Find(s, key)] in s;
          LookupIn(was, key, s[Find(s, key)].1);
        }
      case ClearCall =>
    }
  }

  // ---------------------------------------------------------------- reuse distance

  /**
   Whether a key is held, from the calls alone: it was stored or found, and at no time since were
   `max` others in front of it. A lookup counts as a use only of a key that is held.
   */
  predicate Held<T>(calls: seq<Call<T>>, key: string, max: nat)
    decreases |calls|, 1
  {
    if calls == [] then false
    else
      var was, call := calls[..|calls| - 1], calls[|calls| - 1];
      if call.ClearCall? then false
      else if call.RemoveCall? then call.key != key && Held(was, key, max)
      else (Held(was, key, max) || call.Stores(key)) && |Newer(calls, key, max)| < max
  }

  /** The keys used after the last use of `key` and not removed since. */
  function Newer<T>(calls: seq<Call<T>>, key: string, max: nat): set<string>
    decreases |calls|, 0
  {
    if calls == [] then {}
    else
      var was, call := calls[..|calls| - 1], calls[|calls| - 1];
      if call.ClearCall? then {}
      else if call.RemoveCall? then Newer(was, key, max) - {call.key}
      else if call.GetCall? && !Held(was, call.key, max) then Newer(was, key, max)
      else if call.key == key then {} else Newer(was, key, max) + {call.key}
  }

  /** Keys in front of position `i`. */
  function Ahead<T>(s: Recency<T>, i: nat): set<string>
    requires i <= |s|
  {
    set k | 0 <= k < i :: s[k].0
  }

  lemma {:induction false} AheadSize<T>(s: Recency<T>, i: nat)
    requires DistinctKeys(s) && i <= |s|
    ensures |Ahead(s, i)| == i
  {
    if i > 0 {
      AheadSize(s, i - 1);
      assert Ahead(s, i) == Ahead(s, i - 1) + {s[i - 1].0};
    } else {
      assert Ahead(s, i) == {};
    }
  }

  /** The list holds the held keys, and what stands before a key is what was used since. */
  ghost predicate ByRecency<T>(calls: seq<Call<T>>, s: Recency<T>, max: nat) {
    && DistinctKeys(s) && |s| <= max
    && (forall key :: Has(s, key) <==> Held(calls, key, max))
    && (forall i :: 0 <= i < |s| ==> Newer(calls, s[i].0, max) == Ahead(s, i))
  }

  lemma NewerHeld<T>(calls: seq<Call<T>>, s: Recency<T>, key: string, max: nat)
    requires ByRecency(calls, s, max) && Has(s, key)
    ensures Newer(calls, key, max) == Ahead(s, Find(s, key)) && |Newer(calls, key, max)| == Find(s, key)
  {
    assert s[Find(s, key)].0 == key;
    AheadSize(s, Find(s, key));
  }

  /** What one more call does to `Newer` and `Held`. */
  lemma OneMoreCall<T>(calls: seq<Call<T>>, call: Call<T>, key: string, max: nat)
    ensures Newer(calls + [call], key, max) ==
            if call.ClearCall? then {}
            else if call.RemoveCall? then Newer(calls, key, max) - {call.key}
            else if call.GetCall? && !Held(calls, call.key, max) then Newer(calls, key, max)
            else if call.key == key then {} else Newer(calls, key, max) + {call.key}
    ensures Held(calls + [call], key, max) <==>
            if call.ClearCall? then false
            else if call.RemoveCall? then call.key != key && Held(calls, key, max)
            else (Held(calls, key, max) || call.Stores(key)) && |Newer(calls + [call], key, max)| < max
  {
    assert (calls + [call])[..|calls|] == calls;
  }

  function HitSource(i: nat, j: nat): nat {
    if j == 0 then i else if j <= i then j - 1 else j
  }

  lemma HitAhead<T>(s: Recency<T>, i: nat, value: T, j: nat)
    requires i < |s| && j < |s|
    ensures var r := [(s[i].0, value)] + RemoveAt(s, i);
            r[j].0 == s[HitSource(i, j)].0
            && Ahead(r, j) == if j == 0 then {} else Ahead(s, HitSource(i, j)) + {s[i].0}
  {
    var r, was := [(s[i].0, value)] + RemoveAt(s, i), HitSource(i, j);
    forall k | j > 0 && k in Ahead(s, was) + {s[i].0} ensures k in Ahead(r, j) {
      if k == s[i].0 {
        assert r[0].0 == k;
      } else {
        var a :| 0 <= a < was && s[a].0 == k;
        assert r[if a < i then a + 1 else a] == s[a];
      }
    }
    forall k | k in Ahead(r, j) ensures k in Ahead(s, was) + {s[i].0} {
      var a :| 0 <= a < j && r[a].0 == k;
      assert r[a].0 == s[HitSource(i, a)].0;
    }
  }

  lemma HitKeys<T>(s: Recency<T>, i: nat, value: T, key: string)
    requires DistinctKeys(s) && i < |s|
    ensures Has([(s[i].0, value)] + RemoveAt(s, i), key) <==> Has(s, key)
  {
    var r := [(s[i].0, value)] + RemoveAt(s, i);
    RemovedElements(s, i);
    assert r[0].0 == s[i].0;
    if Has(s, key) {
      var p := s[Find(s, key)];
      assert p in s && (p.0 != s[i].0 ==> p in r);
    }
    if Has(r, key) {
      var p := r[Find(r, key)];
      assert p in r && (p == r[0] || p in RemoveAt(s, i));
    }
  }

  /** In a list ordered by recency a key that is present has fewer than `max` newer ones. */
  lemma InRoom<T>(calls: seq<Call<T>>, r: Recency<T>, key: string, max: nat)
    requires DistinctKeys(r) && |r| <= max && Has(r, key)
    requires forall j :: 0 <= j < |r| ==> Newer(calls, r[j].0, max) == Ahead(r, j)
    ensures |Newer(calls, key, max)| < max
  {
    assert r[Find(r, key)].0 == key;
    AheadSize(r, Find(r, key));
  }

  /** A key that is present is looked up, or stored once more. */
  lemma HitStep<T>(calls: seq<Call<T>>, s: Recency<T>, call: Call<T>, i: nat, value: T, max: nat)
    requires ByRecency(calls, s, max) && i < |s| && (call == GetCall(s[i].0) || call == SetCall(s[i].0, value))
    ensures ByRecency(calls + [call], [(s[i].0, value)] + RemoveAt(s, i), max)
  {
    hide Held, Newer;
    var r, after := [(s[i].0, value)] + RemoveAt(s, i), calls + [call];
    ReplacedDistinct(s, i, value);
    FindAt(s, i);
    forall j | 0 <= j < |r| ensures Newer(after, r[j].0, max) == Ahead(r, j) {
      HitAhead(s, i, value, j);
      OneMoreCall(calls, call, r[j].0, max);
      assert j > 0 ==> r[j].0 != r[0].0;
    }
    forall key ensures Has(r, key) <==> Held(after, key, max) {
      HitKeys(s, i, value, key);
      OneMoreCall(calls, call, key, max);
      if Has(r, key) {
        InRoom(after, r, key, max);
      }
    }
  }

  lemma MissAhead<T>(s: Recency<T>, u: (string, T), j: nat)
    requires j <= |s|
    ensures Ahead([u] + s, j) == if j == 0 then {} else Ahead(s, j - 1) + {u.0}
  {
    var grown := [u] + s;
    forall k | j > 0 && k in Ahead(s, j - 1) + {u.0} ensures k in Ahead(grown, j) {
      if k == u.0 {
        assert grown[0].0 == k;
      } else {
        var a :| 0 <= a < j - 1 && s[a].0 == k;
        assert grown[a + 1] == s[a];
      }
    }
  }

  /** Who is still there after a new key is stored: the new key, and those that were in front of the last place. */
  lemma MissKeys<T>(s: Recency<T>, u: (string, T), key: string, max: nat)
    requires !Has(s, u.0) && |s| <= max
    ensures Has(Put(s, u.0, u.1, max), key) <==> if key == u.0 then max > 0 else Has(s, key) && Find(s, key) + 1 < max
  {
    var r, i := Put(s, u.0, u.1, max), Find(s, key);
    var grown := [u] + s;
    assert r == grown[..|r|];
    if Has(r, key) && key != u.0 {
      assert s[Find(r, key) - 1].0 == key;
    }
    assert r != [] ==> r[0] == grown[0] == u;
    if Has(s, key) && i + 1 < max {
      assert i + 1 < |r| && r[i + 1] == grown[i + 1] == s[i];
    }
  }

  lemma AheadInFront<T>(s: Recency<T>, n: nat, j: nat)
    requires j <= n <= |s|
    ensures Ahead(s[..n], j) == Ahead(s, j)
  {
    assert forall a :: 0 <= a < j ==> s[..n][a] == s[a];
  }

  lemma MissNewer<T>(calls: seq<Call<T>>, s: Recency<T>, u: (string, T), j: nat, max: nat)
    requires ByRecency(calls, s, max) && !Has(s, u.0) && j < |Put(s, u.0, u.1, max)|
    ensures var r := Put(s, u.0, u.1, max); Newer(calls + [SetCall(u.0, u.1)], r[j].0, max) == Ahead(r, j)
  {
    hide Held, Newer, Ahead, Find;
    var r, grown := Put(s, u.0, u.1, max), [u] + s;
    assert r == grown[..|r|] && r[j] == grown[j];
    AheadInFront(grown, |r|, j);
    MissAhead(s, u, j);
    OneMoreCall(calls, SetCall(u.0, u.1), r[j].0, max);
    if j > 0 {
      assert r[j] == s[j - 1];
      Absent(s, u.0, j - 1);
    }
  }

  lemma Absent<T>(s: Recency<T>, key: string, j: nat)
    requires !Has(s, key) && j < |s|
    ensures s[j].0 != key
  {
  }

  lemma MissHeld<T>(calls: seq<Call<T>>, s: Recency<T>, u: (string, T), key: string, max: nat)
    requires ByRecency(calls, s, max) && !Has(s, u.0)
    ensures Has(Put(s, u.0, u.1, max), key) <==> Held(calls + [SetCall(u.0, u.1)], key, max)
  {
    hide Held, Newer, Put;
    OneMoreCall(calls, SetCall(u.0, u.1), key, max);
    MissKeys(s, u, key, max);
    if key != u.0 && Has(s, key) {
      NewerHeld(calls, s, key, max);
      assert u.0 !in Ahead(s, Find(s, key));
    }
  }

  /** A new key is stored. */
  lemma MissStep<T>(calls: seq<Call<T>>, s: Recency<T>, u: (string, T), max: nat)
    requires ByRecency(calls, s, max) && !Has(s, u.0)
    ensures ByRecency(calls + [SetCall(u.0, u.1)], Put(s, u.0, u.1, max), max)
  {
    hide Held, Newer, Put, Ahead, Has;
    PutDropsOldest(s, u.0, u.1, max);
    forall j | 0 <= j < |Put(s, u.0, u.1, max)|
      ensures var r := Put(s, u.0, u.1, max); Newer(calls + [SetCall(u.0, u.1)], r[j].0, max) == Ahead(r, j)
    {
      MissNewer(calls, s, u, j, max);
    }
    forall key ensures Has(Put(s, u.0, u.1, max), key) <==> Held(calls + [SetCall(u.0, u.1)], key, max) {
      MissHeld(calls, s, u, key, max);
    }
  }

  lemma RemovedAhead<T>(s: Recency<T>, i: nat, j: nat)
    requires DistinctKeys(s) && i < |s| && j < |s| - 1
    ensures Ahead(RemoveAt(s, i), j) == Ahead(s, if j < i then j else j + 1) - {s[i].0}
  {
    var r, was := RemoveAt(s, i), if j < i then j else j + 1;
    forall k | k in Ahead(s, was) - {s[i].0} ensures k in Ahead(r, j) {
      var a :| 0 <= a < was && s[a].0 == k;
      assert r[if a < i then a else a - 1] == s[a];
    }
    forall k | k in Ahead(r, j) ensures k in Ahead(s, was) - {s[i].0} {
      var a :| 0 <= a < j && r[a].0 == k;
      assert r[a] == s[if a < i then a else a + 1];
    }
  }

  lemma RemovedKeys<T>(s: Recency<T>, gone: string, key: string)
    requires DistinctKeys(s)
    ensures Has(Removed(s, gone), key) <==> key != gone && Has(s, key)
  {
    RemovedKeepsRest(s, gone);
    var r := Removed(s, gone);
    if Has(s, key) && key != gone {
      assert s[Find(s, key)] in r;
    }
    if Has(r, key) {
      assert r[Find(r, key)] in s;
    }
  }

  lemma RemoveStep<T>(calls: seq<Call<T>>, s: Recency<T>, gone: string, max: nat)
    requires ByRecency(calls, s, max)
    ensures ByRecency(calls + [RemoveCall(gone)], Removed(s, gone), max)
  {
    hide Held, Newer;
    var r, after, i := Removed(s, gone), calls + [RemoveCall(gone)], Find(s, gone);
    RemovedKeepsRest(s, gone);
    forall j | 0 <= j < |r| ensures Newer(after, r[j].0, max) == Ahead(r, j) {
      OneMoreCall(calls, RemoveCall(gone), r[j].0, max);
      if i < |s| {
        RemovedAhead(s, i, j);
      } else {
        assert gone !in Ahead(s, j);
      }
    }
    forall key ensures Has(r, key) <==> Held(after, key, max) {
      OneMoreCall(calls, RemoveCall(gone), key, max);
      RemovedKeys(s, gone, key);
    }
  }

  lemma {:induction false} AfterIsByRecency<T>(calls: seq<Call<T>>, max: nat)
    ensures ByRecency(calls, After(calls, max), max)
  {
    if calls != [] {
      var was, call := calls[..|calls| - 1], calls[|calls| - 1];
      assert calls == was + [call];
      AfterIsByRecency(was, max);
      var s := After(was, max);
      match call {
        case GetCall(k) =>
          if Has(s, k) {
            HitStep(was, s, call, Find(s, k), s[Find(s, k)].1, max);
          } else {
            MissedLookup(was, s, k, max);
          }
        case SetCall(k, v) =>
          if Has(s, k) {
            HitStep(was, s, call, Find(s, k), v, max);
          } else {
            MissStep(was, s, (k, v), max);
          }
        case RemoveCall(k) => RemoveStep(was, s, k, max);
        case ClearCall =>
      }
    }
  }

  lemma MissedLookup<T>(calls: seq<Call<T>>, s: Recency<T>, k: string, max: nat)
    requires ByRecency(calls, s, max) && !Has(s, k)
    ensures ByRecency(calls + [GetCall(k)], s, max)
  {
    hide Held, Newer;
    forall j | 0 <= j < |s| ensures Newer(calls + [GetCall(k)], s[j].0, max) == Ahead(s, j) {
      OneMoreCall(calls, GetCall(k), s[j].0, max);
    }
    forall key ensures Has(s, key) <==> Held(calls + [GetCall(k)], key, max) {
      OneMoreCall(calls, GetCall(k), key, max);
      if Has(s, key) {
        NewerHeld(calls, s, key, max);
      }
    }
  }

  /**
   After any calls the cache has exactly the keys that were used and never since had `max` others in
   front of them.
   */
  lemma CachedIffHeld<T>(calls: seq<Call<T>>, key: string, max: nat)
    ensures Has(After(calls, max), key) <==> Held(calls, key, max)
  {
    AfterIsByRecency(calls, max);
  }

  /** Whether the key was stored since the cache was last cleared. */
  predicate Stored<T>(calls: seq<Call<T>>, key: string) {
    if calls == [] then false
    else
      var was, call := calls[..|calls| - 1], calls[|calls| - 1];
      !call.ClearCall? && (call.Stores(key) || Stored(was, key))
  }

  /**
   Without removals the present decides: a key is cached exactly when it was stored and fewer than `max`
   others were used since.
   */
  lemma {:induction false} CachedIffRecentlyUsed<T>(calls: seq<Call<T>>, key: string, max: nat)
    requires forall call :: call in calls ==> !call.RemoveCall?
    ensures Has(After(calls, max), key) <==> Stored(calls, key) && |Newer(calls, key, max)| < max
  {
    CachedIffHeld(calls, key, max);
    HeldIffStored(calls, key, max);
  }

  lemma {:induction false} HeldIffStored<T>(calls: seq<Call<T>>, key: string, max: nat)
    requires forall call :: call in calls ==> !call.RemoveCall?
    ensures Held(calls, key, max) <==> Stored(calls, key) && |Newer(calls, key, max)| < max
  {
    if calls != [] {
      var was, call := calls[..|calls| - 1], calls[|calls| - 1];
      assert call in calls && forall c :: c in was ==> c in calls;
      HeldIffStored(was, key, max);
      if !call.ClearCall? && Newer(was, key, max) <= Newer(calls, key, max) {
        SubsetCardinality(Newer(was, key, max), Newer(calls, key, max));
      }
    }
  }
}
