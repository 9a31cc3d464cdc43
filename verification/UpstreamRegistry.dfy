/**
 Sticky assignment of clients to upstream connections (src/json-rpc/upstream/registry.ts): round
 robin over the pools that support a method, least-loaded connection within the pool.
 */
module UpstreamRegistry {
  import opened Collections
  import opened UpstreamPool

  type ClientId = nat

  /** The connection a client is mapped to, within its pool. */
  datatype Assignment = Assignment(pool: nat, server: Conn)

  datatype RegistryState = RegistryState(pools: seq<PoolState>, clients: map<ClientId, Assignment>, last: int)

  // ---------------------------------------------------------------- specification functions

  /** Positions below `n` of the pools that support the method. */
  function Candidates(configs: seq<Config>, method_: string, n: nat): (r: seq<nat>)
    requires n <= |configs|
    ensures forall i: nat :: i in r <==> i < n && SupportsMethod(configs[i], method_)
  {
    if n == 0 then []
    else
      var was := Candidates(configs, method_, n - 1);
      if SupportsMethod(configs[n - 1], method_) then was + [n - 1] else was
  }

  /** Every assignment refers to a connection of its pool. */
  ghost predicate Refers(r: RegistryState) {
    forall cl :: cl in r.clients ==>
      r.clients[cl].pool < |r.pools| && r.clients[cl].server in r.pools[r.clients[cl].pool].clients
  }

  function ReleasedIn(r: RegistryState, a: Assignment): RegistryState
    requires a.pool < |r.pools| && a.server in r.pools[a.pool].clients
  {
    r.(pools := r.pools[a.pool := Released(r.pools[a.pool], a.server)])
  }

  function Disconnected(r: RegistryState, client: ClientId): RegistryState
    requires Refers(r)
  {
    if client !in r.clients then r
    else ReleasedIn(r, r.clients[client]).(clients := r.clients - {client})
  }

  /** A connection of the pool whose turn it is. */
  function PickedFrom(r: RegistryState, configs: seq<Config>, candidates: seq<nat>): (RegistryState, Option<Assignment>)
    requires |configs| == |r.pools| && candidates != [] && forall i :: i in candidates ==> i < |configs|
  {
    var last := (r.last + 1) % |candidates|;
    var i := candidates[last];
    assert i in candidates;
    var (p, server) := Acquired(r.pools[i], configs[i]);
    (r.(pools := r.pools[i := p], last := last), if server.Some? then Some(Assignment(i, server.value)) else None)
  }

  function Picked(r: RegistryState, configs: seq<Config>, method_: string): (RegistryState, Option<Assignment>)
    requires |configs| == |r.pools|
  {
    var candidates := Candidates(configs, method_, |configs|);
    if candidates == [] then (r, None) else PickedFrom(r, configs, candidates)
  }

  /** `ready` are the connections that are open and healthy. */
  function Resolved(r: RegistryState, configs: seq<Config>, client: ClientId, method_: string, ready: set<Assignment>)
    : (RegistryState, Option<Assignment>)
    requires Refers(r) && |configs| == |r.pools|
  {
    if client in r.clients && r.clients[client] in ready then (r, Some(r.clients[client]))
    else
      var (next, picked) := Picked(Disconnected(r, client), configs, method_);
      (if picked.Some? then next.(clients := next.clients[client := picked.value]) else next, picked)
  }

  // ---------------------------------------------------------------- the registry itself

  class Registry {
    const configs: seq<Config>
    const pools: seq<UpstreamServerPool>
    ghost const footprint: set<object>
    var clientUpstream: map<ClientId, Assignment>
    var lastPoolIndex: int

    /** Pools and their heaps are distinct objects. */
    ghost predicate Separate()
      reads this
    {
      && this !in footprint && |configs| == |pools|
      && (forall i :: 0 <= i < |pools| ==> pools[i] in footprint && pools[i].heap in footprint)
      && forall i, j :: 0 <= i < j < |pools| ==> pools[i] != pools[j] && pools[i].heap != pools[j].heap
    }

    ghost function State(): RegistryState
      requires Separate()
      reads this, footprint
    {
      RegistryState(seq(|pools|, i requires 0 <= i < |pools| && Separate() reads this, footprint => pools[i].State()),
                    clientUpstream, lastPoolIndex)
    }

    ghost predicate Valid()
      reads this, footprint
    {
      && Separate() && lastPoolIndex >= -1
      && (forall i :: 0 <= i < |pools| ==> pools[i].Valid() && pools[i].config == configs[i])
      && Refers(State())
    }

    constructor (configs: seq<Config>)
      ensures Valid() && this.configs == configs && fresh(footprint)
      ensures State() == RegistryState(seq(|configs|, _ => NO_CONNECTIONS), map[], -1)
    {
      var pools: seq<UpstreamServerPool> := [];
      ghost var footprint: set<object> := {};
      var i := 0;
      while i < |configs|
        invariant i == |pools| <= |configs|
        invariant forall k :: 0 <= k < i ==>
          && pools[k] in footprint && pools[k].heap in footprint
          && pools[k].Valid() && pools[k].State() == NO_CONNECTIONS && pools[k].config == configs[k]
        invariant forall k, j :: 0 <= k < j < i ==> pools[k] != pools[j] && pools[k].heap != pools[j].heap
        invariant fresh(footprint)
      {
        var pool := new UpstreamServerPool(configs[i]);
        pools := pools + [pool];
        footprint := footprint + {pool, pool.heap};
        i := i + 1;
      }
      this.configs, this.pools, this.footprint := configs, pools, footprint;
      clientUpstream, lastPoolIndex := map[], -1;
    }

    /** Positions of the pools that support the method. */
    method SupportingPools(method_: string) returns (candidates: seq<nat>)
      requires Valid()
      ensures candidates == Candidates(configs, method_, |configs|)
    {
      candidates := [];
      var i := 0;
      while i < |pools|
        invariant i <= |pools| && candidates == Candidates(configs, method_, i)
      {
        if SupportsMethod(pools[i].config, method_) {
          candidates := candidates + [i];
        }
        i := i + 1;
      }
    }

    method PickServer(method_: string) returns (picked: Option<Assignment>)
      requires Valid()
      modifies this, footprint
      ensures Valid() && clientUpstream == old(clientUpstream)
      ensures (State(), picked) == Picked(old(State()), configs, method_)
    {
      var candidates := SupportingPools(method_);
      if candidates == [] {
        return None;
      }
      picked := AcquireNext(candidates);
    }

    method AcquireNext(candidates: seq<nat>) returns (picked: Option<Assignment>)
      requires Valid() && candidates != [] && forall i :: i in candidates ==> i < |configs|
      modifies this, footprint
      ensures Valid() && clientUpstream == old(clientUpstream)
      ensures (State(), picked) == PickedFrom(old(State()), configs, candidates)
    {
      hide Acquired, Refers;
      var at := Turn(candidates);
      var server := AcquireIn(at);
      return if server.Some? then Some(Assignment(at, server.value)) else None;
    }

    /** Round robin over the candidates. */
    method Turn(candidates: seq<nat>) returns (at: nat)
      requires Valid() && candidates != []
      modifies this`lastPoolIndex
      ensures var last := (old(lastPoolIndex) + 1) % |candidates|;
              at == candidates[last] && State() == old(State()).(last := last)
      ensures Valid() && at in candidates
    {
      lastPoolIndex := (lastPoolIndex + 1) % |candidates|;
      assert State().pools == old(State()).pools;
      return candidates[lastPoolIndex];
    }

    method Assign(client: ClientId, a: Assignment)
      requires Valid() && a.pool < |pools| && a.server in pools[a.pool].clients
      modifies this`clientUpstream
      ensures Valid() && State() == old(State()).(clients := old(clientUpstream)[client := a])
    {
      clientUpstream := clientUpstream[client := a];
      assert State().pools == old(State()).pools;
    }

    method Disconnect(client: ClientId)
      requires Valid()
      modifies this, footprint
      ensures Valid() && State() == Disconnected(old(State()), client)
    {
      if client in clientUpstream {
        ReleaseIn(clientUpstream[client]);
      }
      Unassign(client);
      assert client !in old(clientUpstream) ==> old(clientUpstream) - {client} == old(clientUpstream);
    }

    method Unassign(client: ClientId)
      requires Valid()
      modifies this`clientUpstream
      ensures Valid() && State() == old(State()).(clients := old(clientUpstream) - {client})
    {
      clientUpstream := clientUpstream - {client};
      assert State().pools == old(State()).pools;
    }

    method ReleaseIn(a: Assignment)
      requires Valid() && a.pool < |pools| && a.server in pools[a.pool].clients
      modifies pools[a.pool], pools[a.pool].heap
      ensures Valid() && clientUpstream == old(clientUpstream) && lastPoolIndex == old(lastPoolIndex)
      ensures State() == ReleasedIn(old(State()), a)
    {
      pools[a.pool].ReleaseConn(a.server);
      OnlyOnePool(a.pool);
    }

    method ResolveUpstream(client: ClientId, method_: string, ready: set<Assignment>)
      returns (upstream: Option<Assignment>)
      requires Valid()
      modifies this, footprint
      ensures Valid() && (State(), upstream) == Resolved(old(State()), configs, client, method_, ready)
    {
      if client in clientUpstream {
        var a := clientUpstream[client];
        if a in ready {
          return Some(a);
        }
        Disconnect(client);
      }
      ghost var left := State();
      upstream := PickServer(method_);
      if upstream.Some? {
        PickedRefers(left, configs, method_);
        Assign(client, upstream.value);
      }
    }

    /** Changing one pool leaves the others, and every assignment stays good as long as no connection is forgotten. */
    twostate lemma OnlyOnePool(at: nat)
      requires old(Valid()) && at < |pools| && pools[at].Valid()
      requires clientUpstream == old(clientUpstream) && lastPoolIndex == old(lastPoolIndex)
      requires forall j :: 0 <= j < |pools| && j != at ==> unchanged(pools[j]) && unchanged(pools[j].heap)
      requires old(pools[at].State()).clients.Keys <= pools[at].State().clients.Keys
      ensures Valid() && State() == old(State()).(pools := old(State()).pools[at := pools[at].State()])
    {
      forall j | 0 <= j < |pools| && j != at ensures pools[j].Valid() && pools[j].State() == old(pools[j].State()) {
        assert old(pools[j].Valid());
      }
      assert State().pools == old(State()).pools[at := pools[at].State()];
    }

    method AcquireIn(at: nat) returns (server: Option<Conn>)
      requires Valid() && at < |pools|
      modifies pools[at], pools[at].heap
      ensures Valid() && clientUpstream == old(clientUpstream) && lastPoolIndex == old(lastPoolIndex)
      ensures var r := Acquired(old(State()).pools[at], configs[at]);
              server == r.1 && State() == old(State()).(pools := old(State()).pools[at := r.0])
    {
      AcquiredKeeps(pools[at].State(), configs[at]);
      server := pools[at].AcquireServerConnection();
      OnlyOnePool(at);
    }
  }

  /** A picked connection exists in its pool. */
  lemma PickedRefers(r: RegistryState, configs: seq<Config>, method_: string)
    requires |configs| == |r.pools|
    ensures var (next, picked) := Picked(r, configs, method_);
            picked.Some? ==>
              picked.value.pool < |next.pools| && picked.value.server in next.pools[picked.value.pool].clients
  {
  }

  lemma AcquiredKeeps(p: PoolState, config: Config)
    ensures p.clients.Keys <= Acquired(p, config).0.clients.Keys
  {
  }
}
