/**
 What a client is given: it keeps its connection while that is ready and moves otherwise, the pools that
 support a method take turns, and each pool opens and stops the connections it should.
 */
module RegistryProperties {
  import opened Collections
  import opened MinHeap
  import opened UpstreamPool
  import opened UpstreamRegistry
  import opened UpstreamProperties

  // ---------------------------------------------------------------- sticky connections

  /** The clients counted on connection `c` of pool `i`. */
  function CountIn(r: RegistryState, i: nat, c: Conn): nat {
    if i < |r.pools| && c in r.pools[i].clients then r.pools[i].clients[c] else 0
  }

  predicate Supports(configs: seq<Config>, method_: string, i: nat) {
    i < |configs| && (configs[i].methods == None || method_ in configs[i].methods.value)
  }

  /** In every run: a client whose connection is ready is given that one, and nothing changes. */
  lemma StickyWhileReady(
    configs: seq<Config>, steps: seq<Step>, client: ClientId, method_: string, ready: set<Assignment>)
    requires var r := Run(configs, steps); client in r.clients && r.clients[client] in ready
    ensures var r := Run(configs, steps);
            Resolved(r, configs, client, method_, ready) == (r, Some(r.clients[client]))
  {
  }

  /** A pool gives no connection only when it has none and may open none. */
  lemma GivesNoneIff(p: PoolState, config: Config)
    requires PoolKept(p)
    ensures Acquired(p, config).1 == None <==> p.heap == [] && config.maxConnections == 0
  {
    hide Opened;
    if p.heap != [] {
      assert p.heap[0] in p.heap;
    }
  }

  /** One client leaves connection `from` and joins connection `to`, and every other count stays. */
  ghost predicate CountsMove(r: RegistryState, q: RegistryState, from: Option<Assignment>, to: Option<Assignment>) {
    forall i: nat, c: Conn ::
      CountIn(q, i, c)
      == (if from == Some(Assignment(i, c)) && CountIn(r, i, c) > 0 then CountIn(r, i, c) - 1 else CountIn(r, i, c))
         + (if to == Some(Assignment(i, c)) then 1 else 0)
  }

  function AssignedTo(r: RegistryState, client: ClientId): Option<Assignment> {
    if client in r.clients then Some(r.clients[client]) else None
  }

  lemma DisconnectMoves(r: RegistryState, client: ClientId)
    requires Refers(r)
    ensures var q := Disconnected(r, client);
            && CountsMove(r, q, AssignedTo(r, client), None) && q.clients == r.clients - {client}
            && |q.pools| == |r.pools| && q.last == r.last
  {
    hide Repaired, PositionOf;
    assert client !in r.clients ==> r.clients - {client} == r.clients;
  }

  /** The pool whose turn it is among those that support the method. */
  function Turn(r: RegistryState, configs: seq<Config>, method_: string): Option<nat> {
    var candidates := Candidates(configs, method_, |configs|);
    if candidates == [] then None else Some(candidates[(r.last + 1) % |candidates|])
  }

  /** A pick asks the pool whose turn it is, and no other. */
  lemma PickAsksTheTurn(r: RegistryState, configs: seq<Config>, method_: string, exact: bool)
    requires Counts(r, configs, exact)
    ensures var (q, picked) := Picked(r, configs, method_);
            && q.clients == r.clients && CountsMove(r, q, None, picked)
            && match Turn(r, configs, method_)
               case None => q == r && picked == None && forall i :: !Supports(configs, method_, i)
               case Some(i) =>
                 && Supports(configs, method_, i)
                 && (picked.None? <==> r.pools[i].heap == [] && configs[i].maxConnections == 0)
                 && (picked.Some? ==>
                       && picked.value.pool == i
                       && Acquired(r.pools[i], configs[i]) == (q.pools[i], Some(picked.value.server)))
                 && |q.pools| == |r.pools|
                 && forall j :: 0 <= j < |r.pools| && j != i ==> q.pools[j] == r.pools[j]
  {
    hide Acquired, CountsAt, Refers;
    var candidates := Candidates(configs, method_, |configs|);
    if candidates == [] {
      assert forall i: nat :: i in candidates <==> Supports(configs, method_, i);
    } else {
      var i := candidates[(r.last + 1) % |candidates|];
      assert i in candidates && CountsAt(r, i, exact);
      PoolOfCounts(r, i, exact);
      GivesNoneIff(r.pools[i], configs[i]);
      AcquiredKept(r.pools[i], configs[i]);
    }
  }

  lemma PoolOfCounts(r: RegistryState, i: nat, exact: bool)
    requires i < |r.pools| && CountsAt(r, i, exact)
    ensures PoolKept(r.pools[i])
  {
  }

  /**
   In every run: a client without a ready connection leaves the one it had and is mapped to a connection
   acquired from the pool whose turn it is, one that supports the method; it gets none exactly when no pool
   supports the method or that pool neither has nor may open a connection.
   */
  lemma OtherwiseMoves(
    configs: seq<Config>, steps: seq<Step>, client: ClientId, method_: string, ready: set<Assignment>)
    requires var r := Run(configs, steps); !(client in r.clients && r.clients[client] in ready)
    ensures var r := Run(configs, steps);
            var left := Disconnected(r, client);
            var (q, given) := Resolved(r, configs, client, method_, ready);
            && CountsMove(r, left, AssignedTo(r, client), None) && CountsMove(left, q, None, given)
            && q.clients == (if given.Some? then r.clients[client := given.value] else r.clients - {client})
            && |left.pools| == |q.pools| == |configs|
            && match Turn(r, configs, method_)
               case None => given == None && forall i :: !Supports(configs, method_, i)
               case Some(i) =>
                 && Supports(configs, method_, i)
                 && (given.None? <==> left.pools[i].heap == [] && configs[i].maxConnections == 0)
                 && (given.Some? ==>
                       && given.value.pool == i
                       && Acquired(left.pools[i], configs[i]) == (q.pools[i], Some(given.value.server)))
                 && forall j :: 0 <= j < |configs| && j != i ==> q.pools[j] == left.pools[j]
  {
    hide Run, Acquired, CountsAt, Picked, Disconnected, CountsMove, Supports;
    var r := Run(configs, steps);
    DisconnectMoves(r, client);
    DisconnectedCounts(r, configs, client, false);
    PickAsksTheTurn(Disconnected(r, client), configs, method_, false);
    SameCounts(Disconnected(r, client), configs, client, method_);
    assert (r.clients - {client}).Keys == r.clients.Keys - {client};
  }

  lemma SameCounts(left: RegistryState, configs: seq<Config>, client: ClientId, method_: string)
    requires |configs| == |left.pools|
    requires var (q, picked) := Picked(left, configs, method_); CountsMove(left, q, None, picked)
    ensures var (q, picked) := Picked(left, configs, method_);
            CountsMove(left, if picked.Some? then q.(clients := q.clients[client := picked.value]) else q, None, picked)
  {
    hide Picked;
    var (q, picked) := Picked(left, configs, method_);
    var mapped := if picked.Some? then q.(clients := q.clients[client := picked.value]) else q;
    assert forall i: nat, c: Conn :: CountIn(mapped, i, c) == CountIn(q, i, c);
  }

  // ---------------------------------------------------------------- taking turns

  /** The state after `n` picks for one method. */
  function PickedTimes(r: RegistryState, configs: seq<Config>, method_: string, n: nat): (q: RegistryState)
    requires |configs| == |r.pools|
    ensures |q.pools| == |r.pools|
  {
    if n == 0 then r else Picked(PickedTimes(r, configs, method_, n - 1), configs, method_).0
  }

  ghost predicate Ascending(s: seq<nat>) {
    forall i, j :: 0 <= i < j < |s| ==> s[i] < s[j]
  }

  lemma {:induction false} CandidatesAscend(configs: seq<Config>, method_: string, n: nat)
    requires n <= |configs|
    ensures Ascending(Candidates(configs, method_, n))
  {
    if n > 0 {
      CandidatesAscend(configs, method_, n - 1);
      var was := Candidates(configs, method_, n - 1);
      assert forall i :: 0 <= i < |was| ==> was[i] in was;
      assert Ascending(was + [n - 1]);
    }
  }

  /** Counting on from `at`, below `m`, and from the start again. */
  function Around(at: nat, n: nat, m: nat): int {
    if at + n < m then at + n else at + n - m
  }

  lemma {:induction false} TurnAfterPicks(r: RegistryState, configs: seq<Config>, method_: string, n: nat)
    requires |configs| == |r.pools| && Candidates(configs, method_, |configs|) != []
    ensures var m := |Candidates(configs, method_, |configs|)|;
            n < m ==> (PickedTimes(r, configs, method_, n).last + 1) % m == Around((r.last + 1) % m, n, m)
  {
    hide Candidates, Acquired;
    var m := |Candidates(configs, method_, |configs|)|;
    if 0 < n < m {
      TurnAfterPicks(r, configs, method_, n - 1);
      var was := PickedTimes(r, configs, method_, n - 1);
      assert PickedTimes(r, configs, method_, n).last == (was.last + 1) % m;
      NextTurn((was.last + 1) % m, m);
    }
  }

  lemma NextTurn(at: nat, m: nat)
    requires at < m
    ensures (at + 1) % m == if at + 1 < m then at + 1 else 0
  {
  }

  /**
   Round robin: of any picks in a row for one method, as many as pools support it, each of these pools
   is asked exactly once.
   */
  lemma PoolsTakeTurns(r: RegistryState, configs: seq<Config>, method_: string, i: nat)
    requires |configs| == |r.pools| && Supports(configs, method_, i)
    ensures var m := |Candidates(configs, method_, |configs|)|;
            && (exists n :: 0 <= n < m && AskedAt(r, configs, method_, n, i))
            && forall n, k :: 0 <= n < k < m ==>
                 !(AskedAt(r, configs, method_, n, i) && AskedAt(r, configs, method_, k, i))
  {
    hide AskedAt, Candidates;
    var candidates := Candidates(configs, method_, |configs|);
    var m := |candidates|;
    assert i in candidates;
    var at :| 0 <= at < m && candidates[at] == i;
    var first := (r.last + 1) % m;
    forall n: nat | n < m ensures AskedAt(r, configs, method_, n, i) <==> Around(first, n, m) == at {
      AskedAround(r, configs, method_, n, at);
    }
    var n := if first <= at then at - first else at + m - first;
    assert AskedAt(r, configs, method_, n, i);
  }

  lemma AskedAround(r: RegistryState, configs: seq<Config>, method_: string, n: nat, at: nat)
    requires |configs| == |r.pools|
    requires var m := |Candidates(configs, method_, |configs|)|; n < m && at < m
    ensures var c := Candidates(configs, method_, |configs|);
            AskedAt(r, configs, method_, n, c[at]) <==> Around((r.last + 1) % |c|, n, |c|) == at
  {
    hide PickedTimes, Candidates;
    CandidatesAscend(configs, method_, |configs|);
    TurnAfterPicks(r, configs, method_, n);
  }

  /** After `n` picks it is the turn of pool `i`. */
  ghost predicate AskedAt(r: RegistryState, configs: seq<Config>, method_: string, n: nat, i: nat)
    requires |configs| == |r.pools|
  {
    Turn(PickedTimes(r, configs, method_, n), configs, method_) == Some(i)
  }

  // ---------------------------------------------------------------- starting and sweeping

  /** The pool `q` has, beside all that `p` has, `n` more connections with one client each. */
  ghost predicate HasMore(p: PoolState, q: PoolState, n: nat) {
    && q.next == p.next + n && |q.heap| == |p.heap| + n
    && (forall c :: c in q.heap <==> c in p.heap || p.next <= c < q.next)
    && (forall c :: c in q.clients <==> c in p.clients || p.next <= c < q.next)
    && (forall c :: c in q.clients ==> q.clients[c] == if c in p.clients then p.clients[c] else 1)
    && (forall c :: c in q.started <==> c in p.started || p.next <= c < q.next)
  }

  lemma NoneMore(p: PoolState)
    requires PoolKept(p)
    ensures HasMore(p, p, 0)
  {
  }

  lemma OneMore(p: PoolState)
    requires PoolKept(p)
    ensures HasMore(p, StartedOne(p), 1)
  {
    hide Opened;
    OpenedKept(p);
    StartedKept(p);
  }

  lemma MoreAndMore(p: PoolState, q: PoolState, r: PoolState, n: nat)
    requires HasMore(p, q, n) && HasMore(q, r, 1) && PoolKept(q)
    ensures HasMore(p, r, n + 1)
  {
  }

  /** `start` opens that many connections, each with one client, and touches no other. */
  lemma {:induction false} StartOpensThatMany(p: PoolState, n: nat)
    requires PoolKept(p)
    ensures PoolKept(Started(p, n)) && HasMore(p, Started(p, n), n)
    ensures PoolOrdered(p) ==> PoolOrdered(Started(p, n))
  {
    hide StartedOne, PoolOrdered, HasMore, PoolKept;
    if n == 0 {
      NoneMore(p);
    } else {
      StartOpensThatMany(p, n - 1);
      StartedKept(Started(p, n - 1));
      OneMore(Started(p, n - 1));
      MoreAndMore(p, Started(p, n - 1), Started(p, n), n - 1);
    }
  }

  /** A connection without clients that has been idle for too long as it is visited at position `i`. */
  predicate Idle(p: PoolState, i: nat, idle: (nat, Conn) -> bool)
    requires i < |p.heap|
  {
    p.heap[i] in p.clients && p.clients[p.heap[i]] == 0 && idle(i, p.heap[i])
  }

  /** A sweep stops a connection exactly when the pool is above its minimum and some connection is idle. */
  lemma {:induction false} SweepStopsIff(p: PoolState, i: nat, idle: (nat, Conn) -> bool, config: Config)
    ensures Swept(p, i, idle, config).1 != [] <==>
              |p.heap| > config.minConnections && exists k :: i <= k < |p.heap| && Idle(p, k, idle)
    decreases |p.heap| - i
  {
    if i < |p.heap| {
      assert Sweepable(p, i, idle, config) <==> Idle(p, i, idle) && |p.heap| > config.minConnections;
      if !Sweepable(p, i, idle, config) {
        SweepStopsIff(p, i + 1, idle, config);
      }
    }
  }

  /**
   Every connection stopped was idle at the position where it was visited, and as the connection that
   takes its place is passed over, a sweep stops at most every other one.
   */
  lemma {:induction false} SweepStopsTheIdle(p: PoolState, i: nat, idle: (nat, Conn) -> bool, config: Config)
    ensures var stopped := Swept(p, i, idle, config).1;
            && (forall c :: c in stopped ==> exists k: nat :: i <= k < |p.heap| && idle(k, c))
            && 2 * |stopped| <= if i < |p.heap| then |p.heap| - i + 1 else 0
    decreases |p.heap| - i
  {
    if i < |p.heap| {
      if Sweepable(p, i, idle, config) {
        SweepStopsTheIdle(Stopped(p, i), i + 1, idle, config);
      } else {
        SweepStopsTheIdle(p, i + 1, idle, config);
      }
    }
  }
}
