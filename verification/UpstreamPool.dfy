/**
 The connections of one upstream (src/json-rpc/upstream/pool.ts): a heap ordered by client count
 gives the least-loaded connection, and idle connections are swept.
 */
module UpstreamPool {
  import opened Collections
  import opened MinHeap

  type Conn = nat

  datatype Config = Config(maxConnections: nat, minConnections: nat, maxClients: nat, methods: Option<set<string>>)

  /** `clients` counts per connection ever created; `started` are those `start` created. */
  datatype PoolState = PoolState(heap: seq<Conn>, clients: map<Conn, nat>, next: Conn, started: set<Conn>)

  const NO_CONNECTIONS := PoolState([], map[], 0, {})

  // ---------------------------------------------------------------- specification functions

  /** The heap key: the connection's client count. */
  function KeyOf(clients: map<Conn, nat>): Conn -> int {
    (c: Conn) => if c in clients then clients[c] else 0
  }

  predicate SupportsMethod(config: Config, method_: string) {
    config.methods.None? || method_ in config.methods.value
  }

  /** The client count of `c` becomes `n`, and the heap is told. */
  function Counted(p: PoolState, c: Conn, n: nat): PoolState {
    var clients := p.clients[c := n];
    p.(clients := clients,
       heap := if c in p.heap then Repaired(p.heap, PositionOf(p.heap, c), KeyOf(clients)) else p.heap)
  }

  function Created(p: PoolState): PoolState {
    var clients := p.clients[p.next := 0];
    p.(clients := clients, heap := Pushed(p.heap, p.next, KeyOf(clients)), next := p.next + 1)
  }

  /** A new connection with one client. */
  function Opened(p: PoolState): PoolState {
    Counted(Created(p), p.next, 1)
  }

  /** One turn of `start`. */
  function StartedOne(p: PoolState): PoolState {
    Opened(p).(started := p.started + {p.next})
  }

  function Started(p: PoolState, n: nat): PoolState {
    if n == 0 then p else StartedOne(Started(p, n - 1))
  }

  predicate AtCapacity(p: PoolState, c: Conn, config: Config) {
    c in p.clients && p.clients[c] >= config.maxClients
  }

  function Acquired(p: PoolState, config: Config): (PoolState, Option<Conn>) {
    if (p.heap == [] || AtCapacity(p, p.heap[0], config)) && |p.heap| < config.maxConnections then
      (Opened(p), Some(p.next))
    else if p.heap != [] && p.heap[0] in p.clients then
      (Counted(p, p.heap[0], p.clients[p.heap[0]] + 1), Some(p.heap[0]))
    else (p, None)
  }

  function Released(p: PoolState, c: Conn): PoolState
    requires c in p.clients
  {
    Counted(p, c, if p.clients[c] > 0 then p.clients[c] - 1 else 0)
  }

  function Sweepable(p: PoolState, i: nat, idle: (nat, Conn) -> bool, config: Config): bool
    requires i < |p.heap|
  {
    var c := p.heap[i];
    c in p.clients && p.clients[c] == 0 && |p.heap| > config.minConnections && idle(i, c)
  }

  function Stopped(p: PoolState, i: nat): (r: PoolState)
    requires i < |p.heap|
    ensures |r.heap| == |p.heap| - 1
  {
    RemoveTakesOne(p.heap, i, KeyOf(p.clients));
    p.(heap := RemovedAt(p.heap, i, KeyOf(p.clients)))
  }

  /** The sweep from position `i` on: it walks the heap array while removals rearrange it. */
  function Swept(p: PoolState, i: nat, idle: (nat, Conn) -> bool, config: Config): (PoolState, seq<Conn>)
    decreases |p.heap| - i
  {
    if i >= |p.heap| then (p, [])
    else if Sweepable(p, i, idle, config) then
      var r := Swept(Stopped(p, i), i + 1, idle, config);
      (r.0, [p.heap[i]] + r.1)
    else Swept(p, i + 1, idle, config)
  }

  lemma SweptNext(p: PoolState, i: nat, idle: (nat, Conn) -> bool, config: Config)
    requires i < |p.heap|
    ensures Swept(p, i, idle, config)
         == if Sweepable(p, i, idle, config) then
              (Swept(Stopped(p, i), i + 1, idle, config).0, [p.heap[i]] + Swept(Stopped(p, i), i + 1, idle, config).1)
            else Swept(p, i + 1, idle, config)
  {
  }

  lemma SweptAll(p: PoolState, i: nat, idle: (nat, Conn) -> bool, config: Config)
    requires i >= |p.heap|
    ensures Swept(p, i, idle, config) == (p, [])
  {
  }

  // ---------------------------------------------------------------- the pool itself

  class UpstreamServerPool {
    const config: Config
    const heap: MinHeap<Conn>
    var clients: map<Conn, nat>
    var next: Conn
    ghost var started: set<Conn>

    ghost function State(): PoolState
      reads this, heap
    {
      PoolState(heap.heap, clients, next, started)
    }

    ghost predicate Valid()
      reads this, heap
    {
      && heap.Valid()
      && (forall c :: c in heap.heap ==> c in clients)
      && (forall c :: c in clients ==> c < next)
    }

    constructor (config: Config)
      ensures Valid() && State() == NO_CONNECTIONS && this.config == config && fresh(heap)
    {
      this.config := config;
      heap := new MinHeap<Conn>();
      clients, next, started := map[], 0, {};
    }

    method SetClients(c: Conn, n: nat)
      requires Valid() && c in clients
      modifies this, heap
      ensures Valid() && State() == Counted(old(State()), c, n)
    {
      heap.IndexIsPosition(c);
      clients := clients[c := n];
      if c in heap.heap {
        RepairKeepsItems(heap.heap, PositionOf(heap.heap, c), KeyOf(clients));
        SameItems(heap.heap, Repaired(heap.heap, PositionOf(heap.heap, c), KeyOf(clients)));
      }
      heap.Update(c, KeyOf(clients));
    }

    method CreateNewConn() returns (c: Conn)
      requires Valid()
      modifies this, heap
      ensures Valid() && State() == Created(old(State())) && c == old(next) && c in clients
    {
      c := next;
      assert c !in heap.heap;
      clients := clients[c := 0];
      next := next + 1;
      PushTakesAll(heap.heap, c, KeyOf(clients));
      heap.Push(c, KeyOf(clients));
    }

    method Start()
      requires Valid()
      modifies this, heap
      ensures Valid() && State() == Started(old(State()), config.minConnections)
    {
      var i := 0;
      while i < config.minConnections
        invariant Valid() && i <= config.minConnections
        invariant State() == Started(old(State()), i)
      {
        StartOne();
        i := i + 1;
      }
    }

    method StartOne()
      requires Valid()
      modifies this, heap
      ensures Valid() && State() == StartedOne(old(State()))
    {
      var c := CreateNewConn();
      SetClients(c, 1);
      started := started + {c};
    }

    method AcquireServerConnection() returns (server: Option<Conn>)
      requires Valid()
      modifies this, heap
      ensures Valid() && (State(), server) == Acquired(old(State()), config)
    {
      hide Created, Counted, KeyOf;
      var best := heap.Peek();
      if best == None || clients[best.value] >= config.maxClients {
        if |heap.heap| < config.maxConnections {
          var c := CreateNewConn();
          SetClients(c, 1);
          return Some(c);
        }
      }
      if best.Some? {
        SetClients(best.value, clients[best.value] + 1);
      }
      return best;
    }

    method ReleaseConn(c: Conn)
      requires Valid() && c in clients
      modifies this, heap
      ensures Valid() && State() == Released(old(State()), c)
    {
      SetClients(c, if clients[c] > 0 then clients[c] - 1 else 0);
    }

    /** `idle` says which visited connections have been idle for longer than the jittered limit. */
    method Sweep(idle: (nat, Conn) -> bool) returns (stopped: seq<Conn>)
      requires Valid()
      modifies this, heap
      ensures Valid() && (State(), stopped) == Swept(old(State()), 0, idle, config)
    {
      hide Swept, Stopped, KeyOf;
      stopped := [];
      ghost var rest := Swept(State(), 0, idle, config);
      ghost var all := rest;
      assert [] + rest.1 == rest.1;
      var i := 0;
      while i < |heap.heap|
        invariant Valid() && rest == Swept(State(), i, idle, config)
        invariant all == (rest.0, stopped + rest.1)
        decreases |heap.heap| - i
      {
        var c := heap.heap[i];
        SweptNext(State(), i, idle, config);
        if clients[c] == 0 && |heap.heap| > config.minConnections && idle(i, c) {
          StopConn(i, c);
          assert stopped + rest.1 == (stopped + [c]) + rest.1[1..];
          stopped := stopped + [c];
        }
        i := i + 1;
        rest := Swept(State(), i, idle, config);
      }
      SweptAll(State(), i, idle, config);
      assert stopped + [] == stopped;
    }

    method StopConn(ghost i: nat, c: Conn)
      requires Valid() && i < |heap.heap| && heap.heap[i] == c
      modifies heap
      ensures Valid() && State() == Stopped(old(State()), i)
    {
      heap.IndexIsPosition(c);
      RemoveTakesOne(heap.heap, i, KeyOf(clients));
      assert PositionOf(heap.heap, c) == i;
      FewerItems(heap.heap, i, RemovedAt(heap.heap, i, KeyOf(clients)));
      heap.Remove(c, KeyOf(clients));
    }

    /** The connection to `c` is lost: its server forgets all its clients without telling the heap. */
    method Reset(c: Conn)
      requires Valid() && c in clients
      modifies this`clients
      ensures Valid() && State() == old(State()).(clients := old(clients)[c := 0])
    {
      clients := clients[c := 0];
    }
  }

  lemma SameItems(s: seq<Conn>, t: seq<Conn>)
    requires multiset(s) == multiset(t)
    ensures forall c :: c in t <==> c in s
  {
    assert forall c :: c in s <==> c in multiset(s);
    assert forall c :: c in t <==> c in multiset(t);
  }

  lemma FewerItems(s: seq<Conn>, i: nat, t: seq<Conn>)
    requires i < |s| && multiset(t) == multiset(s) - multiset{s[i]}
    ensures forall c :: c in t ==> c in s
  {
    assert forall c :: c in t <==> c in multiset(t);
    assert forall c :: c in s <==> c in multiset(s);
  }

  lemma PushTakesAll(s: seq<Conn>, c: Conn, key: Conn -> int)
    ensures multiset(Pushed(s, c, key)) == multiset(s) + multiset{c}
    ensures forall x :: x in Pushed(s, c, key) <==> x in s || x == c
  {
    SiftedUpLength(s + [c], |s|, key);
    SameItems(s + [c], Pushed(s, c, key));
  }
}
