/**
 Shared chainHead operations (src/json-rpc/polkadot/chain-head/ops/handler.ts): one upstream
 operation serves the client that started it, clients that join while it runs and clients that
 join after it completed, through a least-recently-used cache of operations.
 */
module Operations {
  import opened Collections
  import opened Lru

  /** The upstream connection, its follow subscription, and the operation id it assigned. */
  datatype Tag = Tag(upstream: nat, subscription: string, operation: string)

  datatype Note = Note(tag: Tag, event: string, payload: string)

  datatype Message =
    | StartedMessage(id: int, operation: string)
    | NoteMessage(subscription: string, operation: string, event: string, payload: string)

  datatype Role = Initiator | Attached | Replayed

  /** One client's request for an operation, with everything it was sent for it. */
  datatype Session = Session(client: nat, local: string, op: nat, role: Role, sent: seq<Message>)

  /** `live` lists the sessions subscribed to the operation's live stream. */
  datatype Op = Op(key: string, tag: Tag, initiator: nat, buffer: seq<Note>, errored: bool, done: bool, live: seq<nat>)

  /** A cache entry refers to its operation, so that the buffer is shared while the operation runs. */
  datatype Entry = Entry(op: nat, complete: bool)

  datatype OpsState = OpsState(cache: Recency<Entry>, ops: seq<Op>, sessions: seq<Session>)

  datatype Step =
    | Request(client: nat, local: string, id: int, key: string)
    | Begin(client: nat, local: string, id: int, key: string, tag: Tag)
    | Notify(note: Note)
    | Close(client: nat)

  const FLUSH_EVENTS := {"operationInaccessible", "operationError", "operationWaitingForContinue"}

  datatype Config = Config(maxSize: nat, terminalEvents: set<string>) {
    predicate IsTerminal(event: string) {
      event in FLUSH_EVENTS || event in terminalEvents
    }
  }

  // ---------------------------------------------------------------- specification functions

  function Rewritten(local: string, note: Note): Message {
    NoteMessage(local, note.tag.operation, note.event, note.payload)
  }

  function RewrittenAll(local: string, notes: seq<Note>): (r: seq<Message>)
    ensures |r| == |notes| && forall i :: 0 <= i < |r| ==> r[i] == Rewritten(local, notes[i])
  {
    seq(|notes|, i requires 0 <= i < |notes| => Rewritten(local, notes[i]))
  }

  /** References stay within bounds, and no session is subscribed twice. */
  ghost predicate WellShaped(s: OpsState) {
    && (forall e :: e in s.cache ==> e.1.op < |s.ops|)
    && (forall i :: 0 <= i < |s.ops| ==> WellShapedOp(s.ops[i], |s.sessions|))
  }

  ghost predicate WellShapedOp(op: Op, sessions: nat) {
    && op.initiator < sessions && Distinct(op.live)
    && forall k :: k in op.live ==> k < sessions
  }

  function Forwarded(sessions: seq<Session>, targets: seq<nat>, note: Note): (r: seq<Session>)
    ensures |r| == |sessions|
  {
    seq(|sessions|, k requires 0 <= k < |sessions| =>
      if k in targets then sessions[k].(sent := sessions[k].sent + [Rewritten(sessions[k].local, note)])
      else sessions[k])
  }

  lemma ForwardedNone(sessions: seq<Session>, live: seq<nat>, note: Note)
    ensures Forwarded(sessions, live[..0], note) == sessions
  {
  }

  lemma ForwardedNext(sessions: seq<Session>, live: seq<nat>, i: nat, note: Note)
    requires i < |live| && live[i] !in live[..i]
    ensures Forwarded(Forwarded(sessions, live[..i], note), [live[i]], note) == Forwarded(sessions, live[..i + 1], note)
  {
    assert live[..i + 1] == live[..i] + [live[i]];
  }

  /** A request that finds an operation in the cache is answered from it; otherwise it goes upstream. */
  function Requested(s: OpsState, client: nat, local: string, id: int, key: string): OpsState
    requires WellShaped(s)
  {
    var cache := Got(s.cache, key);
    match Lookup(s.cache, key)
    case None => s.(cache := cache)
    case Some(e) =>
      LookupOp(s, key);
      var op := s.ops[e.op];
      var sent := [StartedMessage(id, op.tag.operation)] + RewrittenAll(local, op.buffer);
      var session := Session(client, local, e.op, if e.complete then Replayed else Attached, sent);
      OpsState(cache,
            if e.complete then s.ops else s.ops[e.op := op.(live := op.live + [|s.sessions|])],
            s.sessions + [session])
  }

  lemma LookupOp(s: OpsState, key: string)
    requires WellShaped(s)
    ensures Lookup(s.cache, key).Some? ==> Lookup(s.cache, key).value.op < |s.ops|
  {
    if Has(s.cache, key) {
      assert s.cache[Find(s.cache, key)] in s.cache;
    }
  }

  function Begun(s: OpsState, client: nat, local: string, id: int, key: string, tag: Tag, c: Config): OpsState {
    OpsState(Put(s.cache, key, Entry(|s.ops|, false), c.maxSize),
          s.ops + [Op(key, tag, |s.sessions|, [], false, false, [])],
          s.sessions + [Session(client, local, |s.ops|, Initiator, [StartedMessage(id, tag.operation)])])
  }

  function OpNext(op: Op, note: Note, c: Config): Op {
    if op.done || op.tag != note.tag then op
    else if !c.IsTerminal(note.event) then op.(buffer := op.buffer + [note])
    else
      var errored := note.event in FLUSH_EVENTS;
      op.(buffer := op.buffer + (if errored then [] else [note]), errored := errored, done := true, live := [])
  }

  function SessionsNext(sessions: seq<Session>, op: Op, note: Note, c: Config): (r: seq<Session>)
    ensures |r| == |sessions|
  {
    if op.done || op.tag != note.tag then sessions
    else
      var told := Forwarded(sessions, [op.initiator], note);
      if c.IsTerminal(note.event) then told else Forwarded(told, op.live, note)
  }

  /** One notification, as handled on behalf of operation `i`. */
  function Handled(s: OpsState, i: nat, note: Note, c: Config): OpsState
    requires i < |s.ops|
  {
    var op := s.ops[i];
    var cache := if op.done || op.tag != note.tag || !c.IsTerminal(note.event) then s.cache
                 else if note.event in FLUSH_EVENTS then Removed(s.cache, op.key)
                 else Put(s.cache, op.key, Entry(i, true), c.maxSize);
    OpsState(cache, s.ops[i := OpNext(op, note, c)], SessionsNext(s.sessions, op, note, c))
  }

  /** One notification handled by the first `n` operations, in the order in which they began. */
  function Notified(s: OpsState, note: Note, n: nat, c: Config): (r: OpsState)
    requires n <= |s.ops|
    ensures |r.ops| == |s.ops|
  {
    if n == 0 then s else Handled(Notified(s, note, n - 1, c), n - 1, note, c)
  }

  lemma NotifiedNext(s: OpsState, note: Note, n: nat, c: Config)
    requires n < |s.ops|
    ensures Notified(s, note, n + 1, c) == Handled(Notified(s, note, n, c), n, note, c)
    ensures |Notified(s, note, n + 1, c).ops| == |s.ops|
  {
  }

  function StillOpen(sessions: seq<Session>, client: nat): nat -> bool {
    (k: nat) => k < |sessions| && sessions[k].client != client
  }

  function Closed(s: OpsState, client: nat): OpsState {
    s.(ops := seq(|s.ops|, i requires 0 <= i < |s.ops| =>
                s.ops[i].(live := Filter(s.ops[i].live, StillOpen(s.sessions, client)))))
  }

  function Next(s: OpsState, step: Step, c: Config): OpsState
    requires WellShaped(s)
  {
    match step
    case Request(client, local, id, key) => Requested(s, client, local, id, key)
    case Begin(client, local, id, key, tag) => Begun(s, client, local, id, key, tag, c)
    case Notify(note) => Notified(s, note, |s.ops|, c)
    case Close(client) => Closed(s, client)
  }

  // ---------------------------------------------------------------- bounds

  lemma GotWithin<T>(s: Recency<T>, key: string)
    ensures forall e :: e in Got(s, key) ==> e in s
  {
  }

  lemma PutWithin<T>(s: Recency<T>, key: string, value: T, max: nat)
    ensures forall e :: e in Put(s, key, value, max) ==> e in s || e == (key, value)
  {
  }

  lemma RemovedWithin<T>(s: Recency<T>, key: string)
    ensures forall e :: e in Removed(s, key) ==> e in s
  {
  }

  ghost predicate SameShape(s: OpsState, r: OpsState) {
    WellShaped(r) && |r.sessions| == |s.sessions| && |r.ops| == |s.ops|
  }

  lemma HandledShape(s: OpsState, i: nat, note: Note, c: Config)
    requires WellShaped(s) && i < |s.ops|
    ensures SameShape(s, Handled(s, i, note, c))
  {
    PutWithin(s.cache, s.ops[i].key, Entry(i, true), c.maxSize);
    RemovedWithin(s.cache, s.ops[i].key);
  }

  lemma HandledAlso(s: OpsState, r: OpsState, i: nat, note: Note, c: Config)
    requires SameShape(s, r) && i < |s.ops|
    ensures SameShape(s, Handled(r, i, note, c))
  {
    HandledShape(r, i, note, c);
  }

  lemma SameShapeItself(s: OpsState)
    requires WellShaped(s)
    ensures SameShape(s, s)
  {
  }

  lemma {:induction false} NotifiedShape(s: OpsState, note: Note, n: nat, c: Config)
    requires WellShaped(s) && n <= |s.ops|
    ensures SameShape(s, Notified(s, note, n, c))
  {
    hide Handled, WellShaped, SameShape;
    SameShapeItself(s);
    if n > 0 {
      NotifiedShape(s, note, n - 1, c);
      HandledAlso(s, Notified(s, note, n - 1, c), n - 1, note, c);
    }
  }

  lemma NextShape(s: OpsState, step: Step, c: Config)
    requires WellShaped(s)
    ensures WellShaped(Next(s, step, c))
  {
    match step {
      case Request(client, local, id, key) =>
        GotWithin(s.cache, key);
        LookupOp(s, key);
        var r := Next(s, step, c);
        forall i | 0 <= i < |r.ops| ensures WellShapedOp(r.ops[i], |r.sessions|) {
          assert WellShapedOp(s.ops[i], |s.sessions|);
          assert |s.sessions| !in s.ops[i].live;
        }
      case Begin(client, local, id, key, tag) =>
        PutWithin(s.cache, key, Entry(|s.ops|, false), c.maxSize);
        var r := Next(s, step, c);
        forall i | 0 <= i < |r.ops| ensures WellShapedOp(r.ops[i], |r.sessions|) {
          assert i < |s.ops| ==> WellShapedOp(s.ops[i], |s.sessions|);
        }
      case Notify(note) => NotifiedShape(s, note, |s.ops|, c);
      case Close(client) =>
        var r := Next(s, step, c);
        forall i | 0 <= i < |r.ops| ensures WellShapedOp(r.ops[i], |r.sessions|) {
          assert WellShapedOp(s.ops[i], |s.sessions|);
          FilterDistinct(s.ops[i].live, StillOpen(s.sessions, client));
        }
    }
  }

  // ---------------------------------------------------------------- the handler itself

  class OperationCache {
    const config: Config
    const cache: LruCache<Entry>
    var ops: seq<Op>
    var sessions: seq<Session>

    ghost function State(): OpsState
      reads `ops, `sessions, cache`nodes, cache.nodes`value
    {
      OpsState(cache.Contents(), ops, sessions)
    }

    ghost predicate Valid()
      reads this, cache, cache.nodes`value, cache.footprint
    {
      cache.Valid() && cache.maxSize == config.maxSize && WellShaped(State())
    }

    constructor (config: Config)
      ensures Valid() && State() == OpsState([], [], []) && this.config == config
      ensures fresh(cache) && fresh(cache.footprint)
    {
      this.config := config;
      cache := new LruCache(config.maxSize);
      ops, sessions := [], [];
    }

    /** Returns whether the request was answered from the cache. */
    method BeforeRequest(client: nat, local: string, id: int, key: string) returns (stop: bool)
      requires Valid()
      modifies this, cache, cache.footprint
      ensures Valid() && State() == Next(old(State()), Request(client, local, id, key), config)
      ensures stop <==> Has(old(State()).cache, key)
      ensures cache.footprint == old(cache.footprint)
    {
      hide WellShapedOp, Got, Find, RewrittenAll;
      ghost var was := State();
      NextShape(was, Request(client, local, id, key), config);
      var cached := cache.Get(key);
      if cached == None {
        return false;
      }
      LookupOp(was, key);
      Answer(client, local, id, cached.value);
      return true;
    }

    /** Replays the operation, and attaches the client to its live stream while that lasts. */
    method Answer(client: nat, local: string, id: int, entry: Entry)
      requires entry.op < |ops|
      modifies this`ops, this`sessions
      ensures ops == (if entry.complete then old(ops)
                      else old(ops)[entry.op :=
                        old(ops)[entry.op].(live := old(ops)[entry.op].live + [|old(sessions)|])])
      ensures sessions == old(sessions) + [Session(
                client, local, entry.op, if entry.complete then Replayed else Attached,
                [StartedMessage(id, old(ops)[entry.op].tag.operation)]
                + RewrittenAll(local, old(ops)[entry.op].buffer))]
    {
      var op := ops[entry.op];
      var sent := Replay(id, local, op);
      if !entry.complete {
        ops := ops[entry.op := op.(live := op.live + [|sessions|])];
      }
      sessions := sessions + [Session(client, local, entry.op, if entry.complete then Replayed else Attached, sent)];
    }

    /** The started message and the buffered notifications, as a joiner is sent them. */
    method Replay(id: int, local: string, op: Op) returns (sent: seq<Message>)
      ensures sent == [StartedMessage(id, op.tag.operation)] + RewrittenAll(local, op.buffer)
    {
      sent := [StartedMessage(id, op.tag.operation)];
      var i := 0;
      while i < |op.buffer|
        invariant i <= |op.buffer|
        invariant sent == [StartedMessage(id, op.tag.operation)] + RewrittenAll(local, op.buffer)[..i]
      {
        sent := sent + [Rewritten(local, op.buffer[i])];
        i := i + 1;
      }
    }

    /** The upstream answered `started`. */
    method AfterResponse(client: nat, local: string, id: int, key: string, tag: Tag)
      requires Valid()
      modifies this, cache, cache.footprint
      ensures Valid() && State() == Next(old(State()), Begin(client, local, id, key, tag), config)
      ensures fresh(cache.footprint - old(cache.footprint))
    {
      hide WellShaped, Put;
      NextShape(State(), Begin(client, local, id, key, tag), config);
      cache.Set(key, Entry(|ops|, false));
      ops := ops + [Op(key, tag, |sessions|, [], false, false, [])];
      sessions := sessions + [Session(client, local, |ops| - 1, Initiator, [StartedMessage(id, tag.operation)])];
    }

    method Send(k: nat, note: Note)
      requires k < |sessions|
      modifies this`sessions
      ensures sessions == Forwarded(old(sessions), [k], note)
    {
      sessions := sessions[k := sessions[k].(sent := sessions[k].sent + [Rewritten(sessions[k].local, note)])];
    }

    method SendLive(live: seq<nat>, note: Note)
      requires Distinct(live) && forall k :: k in live ==> k < |sessions|
      modifies this`sessions
      ensures sessions == Forwarded(old(sessions), live, note)
    {
      hide Forwarded;
      ghost var was := sessions;
      ForwardedNone(was, live, note);
      var i := 0;
      while i < |live|
        invariant i <= |live| && |sessions| == |was|
        invariant sessions == Forwarded(was, live[..i], note)
      {
        assert live[i] in live && live[i] !in live[..i];
        Send(live[i], note);
        ForwardedNext(was, live, i, note);
        i := i + 1;
      }
      assert live[..i] == live;
    }

    /** One notification, as seen by the subscriptions of operation `i`. */
    method OnUpstream(i: nat, note: Note)
      requires Valid() && i < |ops|
      modifies this, cache, cache.footprint
      ensures Valid() && State() == Handled(old(State()), i, note, config)
      ensures fresh(cache.footprint - old(cache.footprint))
    {
      HandledShape(State(), i, note, config);
      var op := ops[i];
      if op.done || op.tag != note.tag {
        return;
      }
      if !config.IsTerminal(note.event) {
        Relay(i, note);
      } else {
        Finish(i, note);
      }
    }

    /** A notification that is not terminal: buffered, then sent to the initiator and to the live stream. */
    method Relay(i: nat, note: Note)
      requires Valid() && i < |ops| && !ops[i].done && ops[i].tag == note.tag && !config.IsTerminal(note.event)
      modifies this`ops, this`sessions
      ensures cache.Valid() && State() == Handled(old(State()), i, note, config)
    {
      var op := ops[i];
      assert WellShapedOp(op, |sessions|);
      ops := ops[i := op.(buffer := op.buffer + [note])];
      Send(op.initiator, note);
      SendLive(op.live, note);
    }

    /** The terminal notification: the live stream ends, and the operation is cached or flushed. */
    method Finish(i: nat, note: Note)
      requires Valid() && i < |ops| && !ops[i].done && ops[i].tag == note.tag && config.IsTerminal(note.event)
      modifies this, cache, cache.footprint
      ensures cache.Valid() && State() == Handled(old(State()), i, note, config)
      ensures fresh(cache.footprint - old(cache.footprint))
    {
      hide Put, Removed, Forwarded;
      ghost var contents := cache.Contents();
      var op := ops[i];
      assert WellShapedOp(op, |sessions|);
      var errored := note.event in FLUSH_EVENTS;
      MarkDone(i, note, errored);
      assert cache.Contents() == contents;
      Settle(op.key, i, errored);
    }

    method MarkDone(i: nat, note: Note, errored: bool)
      requires i < |ops| && ops[i].initiator < |sessions|
      modifies this`ops, this`sessions
      ensures ops == old(ops)[i := old(ops[i]).(buffer := old(ops[i].buffer) + (if errored then [] else [note]),
                                                errored := errored, done := true, live := [])]
      ensures sessions == Forwarded(old(sessions), [old(ops[i].initiator)], note)
    {
      var op := ops[i];
      var buffer := if errored then op.buffer else op.buffer + [note];
      assert buffer == op.buffer + (if errored then [] else [note]);
      ops := ops[i := op.(buffer := buffer, errored := errored, done := true, live := [])];
      Send(op.initiator, note);
    }

    method Settle(key: string, i: nat, errored: bool)
      requires cache.Valid()
      modifies cache, cache.footprint
      ensures cache.Valid() && fresh(cache.footprint - old(cache.footprint))
      ensures cache.Contents() == if errored then Removed(old(cache.Contents()), key)
                                  else Put(old(cache.Contents()), key, Entry(i, true), cache.maxSize)
    {
      if errored {
        cache.Remove(key);
      } else {
        cache.Set(key, Entry(i, true));
      }
    }

    method Receive(note: Note)
      requires Valid()
      modifies this, cache, cache.footprint
      ensures Valid() && State() == Next(old(State()), Notify(note), config)
      ensures fresh(cache.footprint - old(cache.footprint))
    {
      hide WellShaped, Handled;
      ghost var was := State();
      var i := 0;
      while i < |ops|
        invariant Valid() && i <= |ops| == |was.ops|
        invariant State() == Notified(was, note, i, config)
        invariant fresh(cache.footprint - old(cache.footprint))
      {
        OnUpstream(i, note);
        NotifiedNext(was, note, i, config);
        i := i + 1;
      }
    }

    method CloseClient(client: nat)
      requires Valid()
      modifies this`ops
      ensures Valid() && State() == Next(old(State()), Close(client), config)
    {
      hide WellShaped;
      NextShape(State(), Close(client), config);
      ghost var was := ops;
      var i := 0;
      while i < |ops|
        invariant i <= |ops| == |was|
        invariant forall k :: 0 <= k < i ==> ops[k] == was[k].(live := Filter(was[k].live, StillOpen(sessions, client)))
        invariant forall k :: i <= k < |ops| ==> ops[k] == was[k]
      {
        ops := ops[i := ops[i].(live := Filter(ops[i].live, StillOpen(sessions, client)))];
        i := i + 1;
      }
      assert State() == Closed(old(State()), client);
    }
  }
}
