/**
 Runs of the connection pools and the registry: client counts are conserved, connections are opened
 only when all are full, and sweeping spares every connection in use.
 */
module UpstreamProperties {
  import opened Collections
  import opened MinHeap
  import opened UpstreamPool
  import opened UpstreamRegistry

  // ---------------------------------------------------------------- one pool

  ghost predicate PoolKept(p: PoolState) {
    && Distinct(p.heap) && (forall c :: c in p.heap ==> c in p.clients)
    && (forall c :: c in p.clients ==> c < p.next) && p.started <= p.clients.Keys
  }

  ghost predicate PoolOrdered(p: PoolState) {
    HeapOrdered(p.heap, KeyOf(p.clients))
  }

  lemma DistinctPermutation(s: seq<Conn>, t: seq<Conn>)
    requires multiset(s) == multiset(t) && Distinct(s)
    ensures Distinct(t)
  {
    forall i, j | 0 <= i < j < |t| ensures t[i] != t[j] {
      if t[i] == t[j] {
        RepeatedCount(t, i, j);
        DistinctCount(s, t[i]);
        assert false;
      }
    }
  }

  lemma OrderAgrees(s: seq<Conn>, one: Conn -> int, other: Conn -> int)
    requires HeapOrdered(s, one) && forall c :: c in s ==> one(c) == other(c)
    ensures HeapOrdered(s, other)
  {
    forall i | 0 <= i < |s| ensures OrderedAt(s, other, i) {
      assert OrderedAt(s, one, i);
    }
  }

  lemma CountedKept(p: PoolState, c: Conn, n: nat)
    requires PoolKept(p) && c in p.clients
    ensures var r := Counted(p, c, n);
            && PoolKept(r) && |r.heap| == |p.heap| && (forall x :: x in r.heap <==> x in p.heap)
            && (PoolOrdered(p) ==> PoolOrdered(r))
  {
    var r, i := Counted(p, c, n), PositionOf(p.heap, c);
    if c in p.heap {
      RepairKeepsItems(p.heap, i, KeyOf(r.clients));
      SameItems(p.heap, r.heap);
      DistinctPermutation(p.heap, r.heap);
      if PoolOrdered(p) {
        OneKeyChanged(p.heap, i, KeyOf(p.clients), KeyOf(r.clients));
        RepairRestores(p.heap, i, KeyOf(r.clients));
      }
    } else if PoolOrdered(p) {
      OrderAgrees(p.heap, KeyOf(p.clients), KeyOf(r.clients));
    }
  }

  lemma CreatedKept(p: PoolState)
    requires PoolKept(p)
    ensures var r := Created(p);
            && PoolKept(r) && |r.heap| == |p.heap| + 1 && (forall x :: x in r.heap <==> x in p.heap || x == p.next)
            && (PoolOrdered(p) ==> PoolOrdered(r))
  {
    var r := Created(p);
    assert p.next !in p.heap;
    PushTakesAll(p.heap, p.next, KeyOf(r.clients));
    SiftedUpLength(p.heap + [p.next], |p.heap|, KeyOf(r.clients));
    DistinctPermutation(p.heap + [p.next], r.heap);
    if PoolOrdered(p) {
      OrderAgrees(p.heap, KeyOf(p.clients), KeyOf(r.clients));
      PushRestores(p.heap, p.next, KeyOf(r.clients));
    }
  }

  lemma OpenedKept(p: PoolState)
    requires PoolKept(p)
    ensures var r := Opened(p);
            && PoolKept(r) && |r.heap| == |p.heap| + 1 && (forall x :: x in r.heap <==> x in p.heap || x == p.next)
            && r.clients == p.clients[p.next := 1] && r.started == p.started && r.next == p.next + 1
            && (PoolOrdered(p) ==> PoolOrdered(r))
  {
    hide PoolKept, PoolOrdered, Repaired, Pushed, KeyOf;
    CreatedKept(p);
    CountedKept(Created(p), p.next, 1);
  }

  /**
   A connection is opened exactly when there is room and every open connection is at capacity;
   otherwise the client goes to a connection with the fewest clients.
   */
  lemma OpensOnlyWhenFull(p: PoolState, config: Config)
    requires PoolKept(p) && PoolOrdered(p)
    ensures var (r, server) := Acquired(p, config);
            && (r.next != p.next <==>
                  |p.heap| < config.maxConnections && forall c :: c in p.heap ==> p.clients[c] >= config.maxClients)
            && (r.next != p.next ==> server == Some(p.next))
            && (r.next == p.next && p.heap != [] ==>
                  server.Some? && server.value in p.heap
                  && forall c :: c in p.heap ==> p.clients[server.value] <= p.clients[c])
  {
    forall c | c in p.heap ensures p.clients[p.heap[0]] <= p.clients[c] {
      PeekIsLeast(p.heap, KeyOf(p.clients), PositionOf(p.heap, c));
    }
    if p.heap != [] {
      assert p.heap[0] in p.heap;
    }
  }

  lemma AcquiredKept(p: PoolState, config: Config)
    requires PoolKept(p)
    ensures var (r, server) := Acquired(p, config);
            && PoolKept(r) && (PoolOrdered(p) ==> PoolOrdered(r)) && r.started == p.started
            && (server.None? ==> r == p)
            && (server.Some? ==>
                  r.clients == p.clients[server.value :=
                    (if server.value in p.clients then p.clients[server.value] else 0) + 1])
  {
    hide Opened, PoolOrdered, Repaired;
    if (p.heap == [] || AtCapacity(p, p.heap[0], config)) && |p.heap| < config.maxConnections {
      OpenedKept(p);
    } else if p.heap != [] {
      assert p.heap[0] in p.heap;
      CountedKept(p, p.heap[0], p.clients[p.heap[0]] + 1);
    }
  }

  lemma StartedKept(p: PoolState)
    requires PoolKept(p)
    ensures var r := StartedOne(p);
            && PoolKept(r) && (PoolOrdered(p) ==> PoolOrdered(r))
            && r.clients == p.clients[p.next := 1] && r.started == p.started + {p.next} && p.next !in p.clients
  {
    OpenedKept(p);
  }

  lemma StoppedKept(p: PoolState, i: nat)
    requires PoolKept(p) && i < |p.heap|
    ensures var r := Stopped(p, i);
            && PoolKept(r) && (PoolOrdered(p) ==> PoolOrdered(r))
            && (forall x :: x in r.heap <==> x in p.heap && x != p.heap[i])
  {
    var r := Stopped(p, i);
    RemoveTakesOne(p.heap, i, KeyOf(p.clients));
    if PoolOrdered(p) {
      RemoveRestores(p.heap, i, KeyOf(p.clients));
    }
    RemoveAtDistinct(p.heap, i);
    DistinctPermutation(RemoveAt(p.heap, i), r.heap);
    SameItems(RemoveAt(p.heap, i), r.heap);
  }

  /** A sweep stops only connections without clients, changes no count, and keeps the minimum of connections. */
  lemma {:induction false} SweepSpares(p: PoolState, i: nat, idle: (nat, Conn) -> bool, config: Config)
    requires PoolKept(p)
    ensures var (r, stopped) := Swept(p, i, idle, config);
            && PoolKept(r) && (PoolOrdered(p) ==> PoolOrdered(r)) && r == p.(heap := r.heap)
            && (forall c :: c in stopped ==> c in p.clients && p.clients[c] == 0)
            && (forall c :: c in p.heap <==> c in r.heap || c in stopped)
            && |r.heap| + |stopped| == |p.heap|
            && (|r.heap| >= config.minConnections || stopped == [])
    decreases |p.heap| - i
  {
    if i < |p.heap| {
      if Sweepable(p, i, idle, config) {
        StoppedKept(p, i);
        SweepSpares(Stopped(p, i), i + 1, idle, config);
      } else {
        SweepSpares(p, i + 1, idle, config);
      }
    }
  }

  // ---------------------------------------------------------------- the registry

  datatype Step =
    | Start(pool: nat)
    | Resolve(client: ClientId, method_: string, ready: set<Assignment>)
    | Disconnect(client: ClientId)
    | Sweep(pool: nat, idle: set<(nat, Conn)>)
    | Reset(pool: nat, server: Conn)

  function Opening(configs: seq<Config>): RegistryState {
    RegistryState(seq(|configs|, _ => NO_CONNECTIONS), map[], -1)
  }

  function IdleIn(idle: set<(nat, Conn)>): (nat, Conn) -> bool {
    (i: nat, c: Conn) => (i, c) in idle
  }

  /** One step; a start is one turn of the loop in `start`, a reset is the loss of one upstream connection. */
  function Next(r: RegistryState, y: Step, configs: seq<Config>): RegistryState
    requires Refers(r) && |configs| == |r.pools|
  {
    match y
    case Start(i) => if i < |r.pools| then r.(pools := r.pools[i := StartedOne(r.pools[i])]) else r
    case Resolve(client, method_, ready) => Resolved(r, configs, client, method_, ready).0
    case Disconnect(client) => Disconnected(r, client)
    case Sweep(i, idle) =>
      if i < |r.pools| then r.(pools := r.pools[i := Swept(r.pools[i], 0, IdleIn(idle), configs[i]).0]) else r
    case Reset(i, c) =>
      if i < |r.pools| && c in r.pools[i].clients
      then r.(pools := r.pools[i := r.pools[i].(clients := r.pools[i].clients[c := 0])]) else r
  }

  /** The clients mapped to connection `c` of pool `i`. */
  function MappedTo(clients: map<ClientId, Assignment>, i: nat, c: Conn): set<ClientId> {
    set cl | cl in clients && clients[cl] == Assignment(i, c)
  }

  function Mapped(clients: map<ClientId, Assignment>, i: nat, c: Conn): nat {
    |MappedTo(clients, i, c)|
  }

  /** The clients mapped to the connection, and one more when `start` created it. */
  function Expected(r: RegistryState, i: nat, c: Conn): nat
    requires i < |r.pools|
  {
    Mapped(r.clients, i, c) + if c in r.pools[i].started then 1 else 0
  }

  ghost predicate CountsAt(r: RegistryState, i: nat, exact: bool)
    requires i < |r.pools|
  {
    && PoolKept(r.pools[i]) && (exact ==> PoolOrdered(r.pools[i]))
    && forall c :: c in r.pools[i].clients ==>
         r.pools[i].clients[c] <= Expected(r, i, c) && (exact ==> r.pools[i].clients[c] == Expected(r, i, c))
  }

  /** Counts never exceed what is expected; without resets they equal it and the heaps are ordered. */
  ghost predicate Counts(r: RegistryState, configs: seq<Config>, exact: bool) {
    && |configs| == |r.pools| && Refers(r) && r.last >= -1
    && forall i :: 0 <= i < |r.pools| ==> CountsAt(r, i, exact)
  }

  lemma MappedWith(clients: map<ClientId, Assignment>, cl: ClientId, a: Assignment, i: nat, c: Conn)
    requires cl !in clients
    ensures Mapped(clients[cl := a], i, c) == Mapped(clients, i, c) + if a == Assignment(i, c) then 1 else 0
  {
    var was, now := MappedTo(clients, i, c), MappedTo(clients[cl := a], i, c);
    assert now == if a == Assignment(i, c) then was + {cl} else was;
  }

  lemma MappedWithout(clients: map<ClientId, Assignment>, cl: ClientId, i: nat, c: Conn)
    requires cl in clients
    ensures Mapped(clients, i, c) == Mapped(clients - {cl}, i, c) + if clients[cl] == Assignment(i, c) then 1 else 0
  {
    MappedWith(clients - {cl}, cl, clients[cl], i, c);
    assert (clients - {cl})[cl := clients[cl]] == clients;
  }

  lemma DisconnectedCount(r: RegistryState, client: ClientId, i: nat, c: Conn, exact: bool)
    requires Refers(r) && client in r.clients && i < |r.pools| && CountsAt(r, i, exact) && c in r.pools[i].clients
    ensures var q := Disconnected(r, client);
            && c in q.pools[i].clients && q.pools[i].clients[c] <= Expected(q, i, c)
            && (exact ==> q.pools[i].clients[c] == Expected(q, i, c))
  {
    hide PoolKept, PoolOrdered;
    MappedWithout(r.clients, client, i, c);
  }

  lemma DisconnectedCounts(r: RegistryState, configs: seq<Config>, client: ClientId, exact: bool)
    requires Counts(r, configs, exact)
    ensures Counts(Disconnected(r, client), configs, exact)
  {
    if client in r.clients {
      var a, q := r.clients[client], Disconnected(r, client);
      var p := r.pools[a.pool];
      assert CountsAt(r, a.pool, exact);
      CountedKept(p, a.server, if p.clients[a.server] > 0 then p.clients[a.server] - 1 else 0);
      forall i | 0 <= i < |q.pools| ensures CountsAt(q, i, exact) {
        assert CountsAt(r, i, exact);
        forall c | c in q.pools[i].clients
          ensures q.pools[i].clients[c] <= Expected(q, i, c) && (exact ==> q.pools[i].clients[c] == Expected(q, i, c))
        {
          DisconnectedCount(r, client, i, c, exact);
        }
      }
    }
  }

  lemma PickedCounts(r: RegistryState, configs: seq<Config>, client: ClientId, method_: string, exact: bool)
    requires Counts(r, configs, exact) && client !in r.clients
    ensures var (q, picked) := Picked(r, configs, method_);
            Counts(if picked.Some? then q.(clients := q.clients[client := picked.value]) else q, configs, exact)
  {
    hide CountsAt, Acquired, Candidates, Refers;
    var candidates := Candidates(configs, method_, |configs|);
    if candidates != [] {
      var last := (r.last + 1) % |candidates|;
      var at := candidates[last];
      assert at in candidates;
      PickedFromCounts(r, configs, client, at, last, exact);
    }
  }

  lemma PickedFromCounts(r: RegistryState, configs: seq<Config>, client: ClientId, at: nat, last: nat, exact: bool)
    requires Counts(r, configs, exact) && client !in r.clients && at < |configs|
    ensures var (p, server) := Acquired(r.pools[at], configs[at]);
            var q := r.(pools := r.pools[at := p], last := last);
            Counts(
              if server.Some? then q.(clients := q.clients[client := Assignment(at, server.value)]) else q,
              configs, exact)
  {
    hide Acquired, PoolKept, PoolOrdered;
    assert CountsAt(r, at, exact);
    AcquiredKept(r.pools[at], configs[at]);
    var (p, server) := Acquired(r.pools[at], configs[at]);
    if server.None? {
      forall i | 0 <= i < |r.pools| ensures CountsAt(r.(last := last), i, exact) {
        assert CountsAt(r, i, exact);
      }
      assert r.pools[at := p] == r.pools;
    } else {
      AssignedCounts(r, configs, client, at, last, p, server.value, exact);
    }
  }

  /** One more client counted and mapped, on a connection old or new. */
  lemma AssignedCounts(
    r: RegistryState, configs: seq<Config>, client: ClientId, at: nat, last: nat, p: PoolState, server: Conn,
    exact: bool)
    requires Counts(r, configs, exact) && client !in r.clients && at < |configs| && PoolKept(p)
    requires (exact ==> PoolOrdered(p)) && p.started == r.pools[at].started
    requires p.clients == r.pools[at].clients[server :=
               (if server in r.pools[at].clients then r.pools[at].clients[server] else 0) + 1]
    ensures Counts(r.(pools := r.pools[at := p], last := last, clients := r.clients[client := Assignment(at, server)]),
                   configs, exact)
  {
    var final := r.(pools := r.pools[at := p], last := last, clients := r.clients[client := Assignment(at, server)]);
    forall i | 0 <= i < |final.pools| ensures CountsAt(final, i, exact) {
      assert CountsAt(r, i, exact);
      forall c | c in final.pools[i].clients
        ensures final.pools[i].clients[c] <= Expected(final, i, c)
             && (exact ==> final.pools[i].clients[c] == Expected(final, i, c))
      {
        MappedWith(r.clients, client, Assignment(at, server), i, c);
        if c !in r.pools[i].clients {
          NoneMapped(r, i, c);
        }
      }
    }
  }

  lemma NoneMapped(r: RegistryState, i: nat, c: Conn)
    requires Refers(r) && i < |r.pools| && c !in r.pools[i].clients
    ensures Mapped(r.clients, i, c) == 0
  {
    assert MappedTo(r.clients, i, c) == {};
  }

  lemma PoolCounts(r: RegistryState, configs: seq<Config>, i: nat, p: PoolState, exact: bool)
    requires Counts(r, configs, exact) && i < |r.pools| && r.pools[i].clients.Keys <= p.clients.Keys
    requires CountsAt(r.(pools := r.pools[i := p]), i, exact)
    ensures Counts(r.(pools := r.pools[i := p]), configs, exact)
  {
    var q := r.(pools := r.pools[i := p]);
    forall j | 0 <= j < |q.pools| ensures CountsAt(q, j, exact) {
      assert CountsAt(r, j, exact);
    }
  }

  lemma StepCounts(r: RegistryState, configs: seq<Config>, y: Step, exact: bool)
    requires Counts(r, configs, exact) && (exact ==> !y.Reset?)
    ensures Counts(Next(r, y, configs), configs, exact)
  {
    match y {
      case Resolve(client, method_, ready) =>
        if !(client in r.clients && r.clients[client] in ready) {
          DisconnectedCounts(r, configs, client, exact);
          PickedCounts(Disconnected(r, client), configs, client, method_, exact);
        }
      case Disconnect(client) => DisconnectedCounts(r, configs, client, exact);
      case Start(i) => if i < |r.pools| { StartCounts(r, configs, i, exact); }
      case Sweep(i, idle) =>
        if i < |r.pools| {
          assert CountsAt(r, i, exact);
          SweepSpares(r.pools[i], 0, IdleIn(idle), configs[i]);
          PoolCounts(r, configs, i, Swept(r.pools[i], 0, IdleIn(idle), configs[i]).0, exact);
        }
      case Reset(i, c) =>
        if i < |r.pools| && c in r.pools[i].clients {
          assert CountsAt(r, i, exact);
          PoolCounts(r, configs, i, r.pools[i].(clients := r.pools[i].clients[c := 0]), exact);
        }
    }
  }

  lemma StartCounts(r: RegistryState, configs: seq<Config>, i: nat, exact: bool)
    requires Counts(r, configs, exact) && i < |r.pools|
    ensures Counts(r.(pools := r.pools[i := StartedOne(r.pools[i])]), configs, exact)
  {
    hide StartedOne, PoolKept, PoolOrdered;
    assert CountsAt(r, i, exact);
    StartedKept(r.pools[i]);
    NoneMapped(r, i, r.pools[i].next);
    var p := StartedOne(r.pools[i]);
    var q := r.(pools := r.pools[i := p]);
    forall c | c in p.clients
      ensures p.clients[c] <= Expected(q, i, c) && (exact ==> p.clients[c] == Expected(q, i, c))
    {
      if c == r.pools[i].next {
        assert Expected(q, i, c) == 1;
      } else {
        assert Expected(q, i, c) == Expected(r, i, c);
      }
    }
    PoolCounts(r, configs, i, p, exact);
  }

  // ---------------------------------------------------------------- every run

  function Run(configs: seq<Config>, steps: seq<Step>): (r: RegistryState)
    ensures Counts(r, configs, false)
  {
    if steps == [] then
      OpeningCounts(configs);
      Opening(configs)
    else
      var was := Run(configs, steps[..|steps| - 1]);
      StepCounts(was, configs, steps[|steps| - 1], false);
      Next(was, steps[|steps| - 1], configs)
  }

  lemma OpeningCounts(configs: seq<Config>)
    ensures Counts(Opening(configs), configs, true) && Counts(Opening(configs), configs, false)
  {
    forall i | 0 <= i < |configs| ensures CountsAt(Opening(configs), i, true) && CountsAt(Opening(configs), i, false) {
      assert PoolKept(NO_CONNECTIONS) && PoolOrdered(NO_CONNECTIONS);
    }
  }

  ghost predicate NoReset(steps: seq<Step>) {
    forall y :: y in steps ==> !y.Reset?
  }

  lemma {:induction false} RunCounts(configs: seq<Config>, steps: seq<Step>)
    requires NoReset(steps)
    ensures Counts(Run(configs, steps), configs, true)
  {
    if steps == [] {
      OpeningCounts(configs);
    } else {
      var n := |steps| - 1;
      assert steps[n] in steps;
      RunCounts(configs, steps[..n]);
      StepCounts(Run(configs, steps[..n]), configs, steps[n], true);
    }
  }

  /**
   Conservation. In every run without resets the client count of each connection is the number of
   clients mapped to it, plus one when `start` created it; in every run at all it is at most that,
   and the heap holds distinct connections of the pool.
   */
  lemma ClientCountsAreConserved(configs: seq<Config>, steps: seq<Step>, i: nat, c: Conn)
    requires i < |configs| && c in Run(configs, steps).pools[i].clients
    ensures Run(configs, steps).pools[i].clients[c] <= Expected(Run(configs, steps), i, c)
    ensures NoReset(steps) ==> Run(configs, steps).pools[i].clients[c] == Expected(Run(configs, steps), i, c)
    ensures Distinct(Run(configs, steps).pools[i].heap)
  {
    assert CountsAt(Run(configs, steps), i, false);
    if NoReset(steps) {
      RunCounts(configs, steps);
      assert CountsAt(Run(configs, steps), i, true);
    }
  }

  /**
   After any run without resets a pool opens a connection exactly when it has room and every open one is
   at capacity.
   */
  lemma ConnectionsOpenOnlyWhenAllAreFull(configs: seq<Config>, steps: seq<Step>, i: nat)
    requires NoReset(steps) && i < |configs|
    ensures var p := Run(configs, steps).pools[i];
            Acquired(p, configs[i]).0.next != p.next <==>
              |p.heap| < configs[i].maxConnections
              && forall c :: c in p.heap ==> c in p.clients && p.clients[c] >= configs[i].maxClients
  {
    RunCounts(configs, steps);
    assert CountsAt(Run(configs, steps), i, true);
    OpensOnlyWhenFull(Run(configs, steps).pools[i], configs[i]);
  }

  /**
   After any run without resets a sweep stops no connection with a mapped client and none that `start`
   created, and keeps the minimum.
   */
  lemma SweepsSpareMappedConnections(configs: seq<Config>, steps: seq<Step>, i: nat, idle: (nat, Conn) -> bool)
    requires NoReset(steps) && i < |configs|
    ensures var r := Run(configs, steps);
            var (p, stopped) := Swept(r.pools[i], 0, idle, configs[i]);
            && (forall c :: c in stopped ==> Mapped(r.clients, i, c) == 0 && c !in r.pools[i].started)
            && (stopped == [] || |p.heap| >= configs[i].minConnections)
  {
    RunCounts(configs, steps);
    var r := Run(configs, steps);
    assert CountsAt(r, i, true);
    SweepSpares(r.pools[i], 0, idle, configs[i]);
    forall c | c in Swept(r.pools[i], 0, idle, configs[i]).1
      ensures Mapped(r.clients, i, c) == 0 && c !in r.pools[i].started
    {
      assert Expected(r, i, c) == 0;
    }
  }

  /** A connection is opened only when every open one is at capacity. */
  ghost predicate OpensOnlyIfAllFull(p: PoolState, config: Config) {
    Acquired(p, config).0.next != p.next ==> forall c :: c in p.heap ==> AtCapacity(p, c, config)
  }

  ghost predicate RootIsLeast(p: PoolState)
    requires PoolKept(p)
  {
    forall c :: c in p.heap ==> p.clients[p.heap[0]] <= p.clients[c]
  }

  /**
   Whatever resets did to the keys: no free capacity can stay hidden, under any limits, exactly when
   the connection on top of the heap still has the fewest clients.
   */
  lemma NoCapacityHiddenIff(p: PoolState)
    requires PoolKept(p)
    ensures (forall config: Config :: OpensOnlyIfAllFull(p, config)) <==> RootIsLeast(p)
  {
    hide Opened;
    OpenedKept(p);
    if forall config: Config :: OpensOnlyIfAllFull(p, config) {
      forall c | c in p.heap ensures p.clients[p.heap[0]] <= p.clients[c] {
        var config := Config(|p.heap| + 1, 0, p.clients[p.heap[0]], None);
        assert OpensOnlyIfAllFull(p, config) && Acquired(p, config).0 == Opened(p);
      }
    }
    if RootIsLeast(p) {
      forall config: Config ensures OpensOnlyIfAllFull(p, config) {
        if p.heap != [] && AtCapacity(p, p.heap[0], config) {
          assert forall c :: c in p.heap ==> AtCapacity(p, c, config);
        }
      }
    }
  }

  /**
   Two clients take a connection each, the first connection is lost and reconnects: a third one is opened
   for the next client.
   */
  lemma ResetHidesCapacity()
    ensures var config := Config(3, 0, 1, None);
            var p := Run([config], [Resolve(0, "m", {}), Resolve(1, "m", {}), Reset(0, 0)]).pools[0];
            && p == PoolState([1, 0], map[0 := 0, 1 := 1], 2, {})
            && Acquired(p, config).1 == Some(2) && !OpensOnlyIfAllFull(p, config)
  {
    hide Acquired, Opened, OpensOnlyIfAllFull, Run;
    var config := Config(3, 0, 1, None);
    var p := PoolState([1, 0], map[0 := 0, 1 := 1], 2, {});
    TwoClients([config]);
    var steps := [Resolve(0, "m", {}), Resolve(1, "m", {})];
    assert steps + [Reset(0, 0)] == [Resolve(0, "m", {}), Resolve(1, "m", {}), Reset(0, 0)];
    RunSnoc([config], steps, Reset(0, 0));
    assert map[0 := 1, 1 := 1][0 := 0] == map[0 := 0, 1 := 1];
    FreeBehindTheRoot(p, config);
  }

  lemma FreeBehindTheRoot(p: PoolState, config: Config)
    requires PoolKept(p) && |p.heap| == 2 && config.maxConnections > 2
    requires AtCapacity(p, p.heap[0], config) && !AtCapacity(p, p.heap[1], config)
    ensures Acquired(p, config).1 == Some(p.next) && !OpensOnlyIfAllFull(p, config)
  {
    hide Opened;
    OpenedKept(p);
    assert p.heap[1] in p.heap;
  }

  lemma RunSnoc(configs: seq<Config>, steps: seq<Step>, y: Step)
    ensures Run(configs, steps + [y]) == Next(Run(configs, steps), y, configs)
  {
    assert (steps + [y])[..|steps|] == steps;
  }

  lemma TwoClients(configs: seq<Config>)
    requires configs == [Config(3, 0, 1, None)]
    ensures Run(configs, [Resolve(0, "m", {}), Resolve(1, "m", {})])
          == RegistryState([PoolState([1, 0], map[0 := 1, 1 := 1], 2, {})],
                           map[0 := Assignment(0, 0), 1 := Assignment(0, 1)], 0)
  {
    hide Opened, Next, Resolved;
    var none := Opening(configs);
    assert Run(configs, []) == none && none == RegistryState([NO_CONNECTIONS], map[], -1);
    RunSnoc(configs, [], Resolve(0, "m", {}));
    assert [] + [Resolve(0, "m", {})] == [Resolve(0, "m", {})];
    OneConnection();
    ResolveOpens(configs, none, 0, PoolState([0], map[0 := 1], 1, {}));
    RunSnoc(configs, [Resolve(0, "m", {})], Resolve(1, "m", {}));
    assert [Resolve(0, "m", {})] + [Resolve(1, "m", {})] == [Resolve(0, "m", {}), Resolve(1, "m", {})];
    TwoConnections();
    var one := RegistryState([PoolState([0], map[0 := 1], 1, {})], map[0 := Assignment(0, 0)], 0);
    ResolveOpens(configs, one, 1, PoolState([1, 0], map[0 := 1, 1 := 1], 2, {}));
  }

  lemma OneConnection()
    ensures Opened(NO_CONNECTIONS) == PoolState([0], map[0 := 1], 1, {})
  {
    hide PositionOf;
    assert Created(NO_CONNECTIONS).heap == [0];
    assert map[0 := 0][0 := 1] == map[0 := 1];
  }

  lemma TwoConnections()
    ensures Opened(PoolState([0], map[0 := 1], 1, {})) == PoolState([1, 0], map[0 := 1, 1 := 1], 2, {})
  {
    hide PositionOf;
    var created := Created(PoolState([0], map[0 := 1], 1, {}));
    var key := KeyOf(map[0 := 1, 1 := 0]);
    assert created.clients == map[0 := 1, 1 := 0];
    assert [0] + [1] == [0, 1] && Parent(1) == 0 && key(1) < key(0);
    assert Swapped([0, 1], 1, 0) == [1, 0];
    assert created.heap == [1, 0];
    assert map[0 := 1, 1 := 0][1 := 1] == map[0 := 1, 1 := 1];
    var even: Conn -> int := KeyOf(map[0 := 1, 1 := 1]);
    assert SiftedDown<Conn>([1, 0], 0, even) == [1, 0];
  }

  /** A client without a connection, when every open one is full. */
  lemma ResolveOpens(configs: seq<Config>, r: RegistryState, client: ClientId, p: PoolState)
    requires configs == [Config(3, 0, 1, None)] && |r.pools| == 1 && Refers(r) && client !in r.clients && r.last >= -1
    requires var q := r.pools[0];
             (q.heap == [] || AtCapacity(q, q.heap[0], configs[0])) && |q.heap| < 3 && Opened(q) == p
    ensures Next(r, Resolve(client, "m", {}), configs)
         == RegistryState([p], r.clients[client := Assignment(0, r.pools[0].next)], 0)
  {
    assert Candidates(configs, "m", 1) == [0] by {
      assert Candidates(configs, "m", 0) == [];
    }
    assert r.pools[0 := p] == [p];
  }
}
