/**
 What every client of a shared operation is sent, over every interleaving of requests, starts,
 notifications and disconnects, and what a complete cache entry holds.
 */
module OperationsProperties {
  import opened Collections
  import opened Lru
  import opened LruProperties
  import opened Operations

  function Run(steps: seq<Step>, c: Config): (s: OpsState)
    ensures WellShaped(s)
  {
    if steps == [] then OpsState([], [], [])
    else
      var was := Run(steps[..|steps| - 1], c);
      NextShape(was, steps[|steps| - 1], c);
      Next(was, steps[|steps| - 1], c)
  }

  // ---------------------------------------------------------------- what the upstream sent

  predicate Ended(heard: seq<Note>, c: Config) {
    heard != [] && c.IsTerminal(heard[|heard| - 1].event)
  }

  /** The notifications carrying `tag`, up to and including the first terminal one. */
  function Heard(steps: seq<Step>, tag: Tag, c: Config): seq<Note> {
    if steps == [] then []
    else HeardNext(Heard(steps[..|steps| - 1], tag, c), steps[|steps| - 1], tag, c)
  }

  function HeardNext(heard: seq<Note>, step: Step, tag: Tag, c: Config): seq<Note> {
    if step.Notify? && step.note.tag == tag && !Ended(heard, c) then heard + [step.note] else heard
  }

  function Ongoing(c: Config): Note -> bool {
    (note: Note) => !c.IsTerminal(note.event)
  }

  function Unflushed(): Note -> bool {
    (note: Note) => note.event !in FLUSH_EVENTS
  }

  /** The first position from `from` on at which `client` closes, or the end of the run. */
  function CloseTime(steps: seq<Step>, from: nat, client: nat): (e: nat)
    requires from <= |steps|
    ensures from <= e <= |steps|
    decreases |steps| - from
  {
    if from == |steps| || steps[from] == Close(client) then from else CloseTime(steps, from + 1, client)
  }

  /** Positions of the starts, one for each operation, in order. */
  function Births(steps: seq<Step>): (r: seq<nat>)
    ensures forall i :: 0 <= i < |r| ==> r[i] < |steps| && steps[r[i]].Begin?
  {
    if steps == [] then []
    else
      var was := Births(steps[..|steps| - 1]);
      if steps[|steps| - 1].Begin? then was + [|steps| - 1] else was
  }

  // ---------------------------------------------------------------- facts about Heard

  /** Only the last notification may be terminal, and all carry the tag. */
  ghost predicate OneEnding(heard: seq<Note>, tag: Tag, c: Config) {
    && (forall i :: 0 <= i < |heard| - 1 ==> !c.IsTerminal(heard[i].event))
    && (forall i :: 0 <= i < |heard| ==> heard[i].tag == tag)
  }

  lemma {:induction false} HeardShape(steps: seq<Step>, tag: Tag, c: Config)
    ensures OneEnding(Heard(steps, tag, c), tag, c)
  {
    if steps != [] {
      HeardShape(steps[..|steps| - 1], tag, c);
    }
  }

  lemma HeardSnoc(steps: seq<Step>, step: Step, from: nat, tag: Tag, c: Config)
    requires from <= |steps|
    ensures Heard((steps + [step])[from..], tag, c) == HeardNext(Heard(steps[from..], tag, c), step, tag, c)
  {
    var all := (steps + [step])[from..];
    assert all == steps[from..] + [step];
    assert all[..|all| - 1] == steps[from..];
  }

  /** Nothing is heard after the terminal notification. */
  lemma {:induction false} HeardFinal(steps: seq<Step>, more: seq<Step>, tag: Tag, c: Config)
    requires Ended(Heard(steps, tag, c), c)
    ensures Heard(steps + more, tag, c) == Heard(steps, tag, c)
  {
    if more == [] {
      assert steps + more == steps;
    } else {
      var n := |more| - 1;
      HeardFinal(steps, more[..n], tag, c);
      var all := steps + more;
      assert all[..|all| - 1] == steps + more[..n] && all[|all| - 1] == more[n];
    }
  }

  lemma {:induction false} CloseTimeSnoc(steps: seq<Step>, step: Step, from: nat, client: nat)
    requires from <= |steps|
    ensures var e, all := CloseTime(steps, from, client), steps + [step];
            CloseTime(all, from, client) == if e < |steps| || step == Close(client) then e else |steps| + 1
    decreases |steps| - from
  {
    var all := steps + [step];
    if from < |steps| {
      assert all[from] == steps[from];
      if steps[from] != Close(client) {
        CloseTimeSnoc(steps, step, from + 1, client);
      }
    } else {
      assert all[from] == step;
    }
  }

  // ---------------------------------------------------------------- what a session is due

  /** The part of the run that a session created at `a`, for an operation begun at `b`, hears. */
  function Source(x: Session, steps: seq<Step>, a: nat, b: nat): seq<Step>
    requires b <= a < |steps| && (b < a || x.role == Initiator)
  {
    match x.role
    case Initiator => steps[b + 1..]
    case Attached => steps[b + 1..CloseTime(steps, a, x.client)]
    case Replayed => steps[b + 1..a]
  }

  function Opening(step: Step, tag: Tag): Message {
    StartedMessage(if step.Begin? || step.Request? then step.id else 0, tag.operation)
  }

  /**
   Everything a session is sent: the start, then the notifications, without the terminal one for a client
   that joined midway.
   */
  function Due(x: Session, tag: Tag, steps: seq<Step>, a: nat, b: nat, c: Config): seq<Message>
    requires b <= a < |steps| && (b < a || x.role == Initiator)
  {
    [Opening(steps[a], tag)] + Told(x, Heard(Source(x, steps, a, b), tag, c), c)
  }

  function Told(x: Session, heard: seq<Note>, c: Config): seq<Message> {
    RewrittenAll(x.local, if x.role == Attached then Filter(heard, Ongoing(c)) else heard)
  }

  lemma ToldSnoc(x: Session, heard: seq<Note>, note: Note, c: Config)
    ensures Told(x, heard + [note], c)
         == Told(x, heard, c)
            + (if x.role == Attached && c.IsTerminal(note.event) then [] else [Rewritten(x.local, note)])
  {
    FilterSnoc(heard, note, Ongoing(c));
    RewrittenSnoc(x.local, heard, note);
    RewrittenSnoc(x.local, Filter(heard, Ongoing(c)), note);
  }

  ghost predicate IsOpen(x: Session, steps: seq<Step>, a: nat)
    requires a < |steps|
  {
    x.role == Initiator || (x.role == Attached && CloseTime(steps, a, x.client) == |steps|)
  }

  /** Whether the step `y` sends the session one more message. */
  ghost predicate Hears(x: Session, y: Step, tag: Tag, steps: seq<Step>, a: nat, b: nat, c: Config)
    requires b <= a < |steps|
  {
    && IsOpen(x, steps, a) && y.Notify? && y.note.tag == tag
    && !Ended(Heard(steps[b + 1..], tag, c), c)
    && (x.role == Attached ==> !c.IsTerminal(y.note.event))
  }

  lemma RewrittenSnoc(local: string, notes: seq<Note>, note: Note)
    ensures RewrittenAll(local, notes + [note]) == RewrittenAll(local, notes) + [Rewritten(local, note)]
  {
  }

  lemma FilterSnoc<T(!new)>(s: seq<T>, x: T, keep: T -> bool)
    ensures Filter(s + [x], keep) == Filter(s, keep) + (if keep(x) then [x] else [])
  {
    FilterAppend(s, [x], keep);
  }

  lemma SourceSnoc(x: Session, y: Step, steps: seq<Step>, a: nat, b: nat)
    requires b <= a < |steps| && (b < a || x.role == Initiator)
    ensures IsOpen(x, steps, a) ==> Source(x, steps, a, b) == steps[b + 1..]
    ensures Source(x, steps + [y], a, b)
         == if IsOpen(x, steps, a) && !(x.role == Attached && y == Close(x.client)) then Source(x, steps, a, b) + [y]
            else Source(x, steps, a, b)
    ensures IsOpen(x, steps + [y], a)
        <==> IsOpen(x, steps, a) && !(x.role == Attached && y == Close(x.client))
  {
    CloseTimeSnoc(steps, y, a, x.client);
    var all := steps + [y];
    match x.role {
      case Initiator => assert all[b + 1..] == steps[b + 1..] + [y];
      case Attached =>
        var e := CloseTime(steps, a, x.client);
        assert steps[..|steps|] == steps;
        if e == |steps| && y != Close(x.client) {
          assert all[b + 1..|all|] == steps[b + 1..e] + [y];
        } else {
          assert all[b + 1..e] == steps[b + 1..e];
        }
      case Replayed => assert all[b + 1..a] == steps[b + 1..a];
    }
  }

  lemma DueSnoc(x: Session, y: Step, tag: Tag, steps: seq<Step>, a: nat, b: nat, c: Config)
    requires b <= a < |steps| && (b < a || x.role == Initiator)
    ensures Due(x, tag, steps + [y], a, b, c)
          == Due(x, tag, steps, a, b, c)
             + (if Hears(x, y, tag, steps, a, b, c) then [Rewritten(x.local, y.note)] else [])
  {
    hide Told, Source, CloseTime;
    SourceSnoc(x, y, steps, a, b);
    var source := Source(x, steps, a, b);
    var heard := Heard(source, tag, c);
    assert (source + [y])[..|source|] == source;
    assert Heard(source + [y], tag, c) == HeardNext(heard, y, tag, c);
    assert (steps + [y])[a] == steps[a];
    if y.Notify? {
      ToldSnoc(x, heard, y.note, c);
    }
  }

  // ---------------------------------------------------------------- the invariant

  /** The operation's buffer and flags are what the notifications heard so far make of them. */
  ghost predicate OpHeard(op: Op, heard: seq<Note>, c: Config) {
    && op.buffer == Filter(heard, Unflushed())
    && op.done == Ended(heard, c)
    && (op.done ==> op.errored == (heard[|heard| - 1].event in FLUSH_EVENTS) && op.live == [])
  }

  /** The operation begun at `b` has buffered what it heard since, short of a flush event. */
  ghost predicate OpKept(op: Op, steps: seq<Step>, b: nat, c: Config)
    requires b < |steps|
  {
    && steps[b].Begin? && steps[b].key == op.key && steps[b].tag == op.tag
    && OpHeard(op, Heard(steps[b + 1..], op.tag, c), c)
  }

  ghost predicate SessionKept(x: Session, k: nat, op: Op, steps: seq<Step>, a: nat, b: nat, c: Config)
    requires a < |steps| && b < |steps|
  {
    && b <= a && (b == a <==> x.role == Initiator)
    && (if x.role == Initiator then steps[a].Begin? && op.initiator == k else steps[a].Request?)
    && steps[a].client == x.client && steps[a].local == x.local
    && x.sent == Due(x, op.tag, steps, a, b, c)
    && (k in op.live <==> x.role == Attached && !op.done && IsOpen(x, steps, a))
    && (x.role == Replayed ==> op.done && !op.errored && Ended(Heard(steps[b + 1..a], op.tag, c), c))
  }

  ghost predicate OpsKept(s: OpsState, births: seq<nat>, before: seq<Step>, after: seq<Step>, n: nat, c: Config) {
    && |before| <= |after| && |births| == |s.ops|
    && (forall i :: 0 <= i < |births| ==> births[i] < |before|)
    && (forall i :: 0 <= i < |s.ops| ==> OpRefs(s, i))
    && (forall i :: 0 <= i < |s.ops| ==> OpKept(s.ops[i], if i < n then after else before, births[i], c))
  }

  ghost predicate SessionsKept(s: OpsState, births: seq<nat>, arrivals: seq<nat>,
                               before: seq<Step>, after: seq<Step>, n: nat, c: Config)
    requires OpsKept(s, births, before, after, n, c)
  {
    && |arrivals| == |s.sessions|
    && (forall k :: 0 <= k < |arrivals| ==> arrivals[k] < |before|)
    && (forall k :: 0 <= k < |s.sessions| ==> s.sessions[k].op < |s.ops|)
    && (forall k :: 0 <= k < |s.sessions| ==>
          var i := s.sessions[k].op;
          SessionKept(s.sessions[k], k, s.ops[i], if i < n then after else before, arrivals[k], births[i], c))
  }

  /** The state after `before`, of which the first `n` operations have also handled the step that ends `after`. */
  ghost predicate Between(s: OpsState, births: seq<nat>, arrivals: seq<nat>,
                          before: seq<Step>, after: seq<Step>, n: nat, c: Config)
  {
    && OpsKept(s, births, before, after, n, c)
    && SessionsKept(s, births, arrivals, before, after, n, c)
    && CacheKept(s, c)
  }

  /** An operation's initiator and live sessions are sessions for that operation. */
  ghost predicate OpRefs(s: OpsState, i: nat)
    requires i < |s.ops|
  {
    && s.ops[i].initiator < |s.sessions| && s.sessions[s.ops[i].initiator].op == i
    && s.sessions[s.ops[i].initiator].role == Initiator
    && forall k :: k in s.ops[i].live ==> k < |s.sessions| && s.sessions[k].op == i
  }

  /** An entry is marked complete exactly when its operation is done, and then it ended well. */
  ghost predicate EntryKept(s: OpsState, e: (string, Entry)) {
    && e.1.op < |s.ops| && s.ops[e.1.op].key == e.0
    && e.1.complete == s.ops[e.1.op].done
    && (e.1.complete ==> !s.ops[e.1.op].errored)
  }

  ghost predicate CacheKept(s: OpsState, c: Config) {
    DistinctKeys(s.cache) && |s.cache| <= c.maxSize && forall e :: e in s.cache ==> EntryKept(s, e)
  }

  ghost predicate Inv(s: OpsState, births: seq<nat>, arrivals: seq<nat>, steps: seq<Step>, c: Config) {
    Between(s, births, arrivals, steps, steps, 0, c)
  }

  // ---------------------------------------------------------------- one notification

  lemma OpHandled(op: Op, steps: seq<Step>, b: nat, note: Note, c: Config)
    requires b < |steps| && OpKept(op, steps, b, c)
    ensures OpKept(OpNext(op, note, c), steps + [Notify(note)], b, c)
  {
    hide Heard, OpHeard, HeardNext;
    HeardSnoc(steps, Notify(note), b + 1, op.tag, c);
    OpHears(op, Heard(steps[b + 1..], op.tag, c), note, c);
    assert (steps + [Notify(note)])[b] == steps[b];
  }

  lemma OpHears(op: Op, heard: seq<Note>, note: Note, c: Config)
    requires OpHeard(op, heard, c)
    ensures OpHeard(OpNext(op, note, c), HeardNext(heard, Notify(note), op.tag, c), c)
  {
    FilterSnoc(heard, note, Unflushed());
  }

  lemma SessionTold(sessions: seq<Session>, k: nat, op: Op, note: Note, c: Config)
    requires k < |sessions|
    ensures var x := SessionsNext(sessions, op, note, c)[k];
            x == sessions[k].(sent := x.sent)
    ensures SessionsNext(sessions, op, note, c)[k].sent
         == sessions[k].sent
            + (if !op.done && op.tag == note.tag && k == op.initiator then [Rewritten(sessions[k].local, note)] else [])
            + (if !op.done && op.tag == note.tag && !c.IsTerminal(note.event) && k in op.live
               then [Rewritten(sessions[k].local, note)] else [])
  {
  }

  lemma SessionHears(x: Session, k: nat, op: Op, steps: seq<Step>, a: nat, b: nat, note: Note, c: Config)
    requires a < |steps| && b < |steps| && SessionKept(x, k, op, steps, a, b, c) && OpKept(op, steps, b, c)
    requires k == op.initiator ==> x.role == Initiator
    ensures Hears(x, Notify(note), op.tag, steps, a, b, c)
       <==> !op.done && op.tag == note.tag && (k == op.initiator || (!c.IsTerminal(note.event) && k in op.live))
    ensures k == op.initiator ==> k !in op.live
  {
  }

  lemma SessionHandled(sessions: seq<Session>, k: nat, op: Op, steps: seq<Step>, a: nat, b: nat, note: Note, c: Config)
    requires k < |sessions| && a < |steps| && b < |steps|
    requires SessionKept(sessions[k], k, op, steps, a, b, c) && OpKept(op, steps, b, c)
    requires op.initiator < |sessions| && sessions[op.initiator].role == Initiator
    ensures SessionKept(SessionsNext(sessions, op, note, c)[k], k, OpNext(op, note, c), steps + [Notify(note)], a, b, c)
  {
    var x, next := sessions[k], SessionsNext(sessions, op, note, c)[k];
    SessionTold(sessions, k, op, note, c);
    SessionHears(x, k, op, steps, a, b, note, c);
    SessionStep(x, next.sent, k, op, OpNext(op, note, c), steps, a, b, Notify(note), c);
  }

  /** A session stays kept when it is sent what it hears and its subscription ends when it should. */
  lemma SessionStep(x: Session, sent: seq<Message>, k: nat, op: Op, op': Op, steps: seq<Step>, a: nat, b: nat,
                    y: Step, c: Config)
    requires a < |steps| && b < |steps| && SessionKept(x, k, op, steps, a, b, c)
    requires sent == x.sent + (if Hears(x, y, op.tag, steps, a, b, c) then [Rewritten(x.local, y.note)] else [])
    requires op'.tag == op.tag && op'.initiator == op.initiator
    requires op.done ==> op'.done && op'.errored == op.errored
    requires k in op'.live <==> k in op.live && !op'.done && y != Close(x.client)
    ensures SessionKept(x.(sent := sent), k, op', steps + [y], a, b, c)
  {
    var after, next := steps + [y], x.(sent := sent);
    DueSnoc(x, y, op.tag, steps, a, b, c);
    SourceSnoc(x, y, steps, a, b);
    assert after[a] == steps[a];
    assert Source(next, after, a, b) == Source(x, after, a, b);
    assert Due(next, op.tag, after, a, b, c) == Due(x, op.tag, after, a, b, c);
    if x.role == Replayed {
      assert after[b + 1..a] == steps[b + 1..a];
    }
  }

  lemma CacheHandled(s: OpsState, i: nat, note: Note, c: Config)
    requires i < |s.ops| && CacheKept(s, c)
    ensures CacheKept(Handled(s, i, note, c), c)
  {
    var op, r := s.ops[i], Handled(s, i, note, c);
    PutDropsOldest(s.cache, op.key, Entry(i, true), c.maxSize);
    RemovedKeepsRest(s.cache, op.key);
    PutReplaces(s.cache, op.key, Entry(i, true), c.maxSize);
    forall e | e in r.cache ensures EntryKept(r, e) {
      assert e in s.cache || e == (op.key, Entry(i, true));
      assert e in s.cache ==> EntryKept(s, e);
    }
  }

  lemma PutReplaces<T(!new)>(s: Recency<T>, key: string, value: T, max: nat)
    requires DistinctKeys(s)
    ensures forall e :: e in Put(s, key, value, max) ==> e == (key, value) || (e in s && e.0 != key)
  {
    hide Find, DistinctKeys;
    if Has(s, key) {
      RemovedDistinct(s, Find(s, key));
    } else {
      var grown := [(key, value)] + s;
      assert Put(s, key, value, max) <= grown;
      assert forall e :: e in grown ==> e == (key, value) || e in s;
      assert forall e :: e in s ==> e.0 != key;
    }
  }

  lemma RefsHandled(s: OpsState, i: nat, note: Note, c: Config, j: nat)
    requires i < |s.ops| && j < |s.ops| && OpRefs(s, j)
    ensures OpRefs(Handled(s, i, note, c), j)
  {
    var r := Handled(s, i, note, c);
    forall k: nat | k < |s.sessions| ensures r.sessions[k] == s.sessions[k].(sent := r.sessions[k].sent) {
      SessionTold(s.sessions, k, s.ops[i], note, c);
    }
  }

  lemma HandledBetween(
    s: OpsState, births: seq<nat>, arrivals: seq<nat>, steps: seq<Step>, note: Note, i: nat, c: Config)
    requires i < |s.ops| && Between(s, births, arrivals, steps, steps + [Notify(note)], i, c)
    ensures Between(Handled(s, i, note, c), births, arrivals, steps, steps + [Notify(note)], i + 1, c)
  {
    hide OpKept, SessionKept, CacheKept, OpRefs;
    var r, after := Handled(s, i, note, c), steps + [Notify(note)];
    CacheHandled(s, i, note, c);
    forall j | 0 <= j < |r.ops| ensures OpRefs(r, j) {
      RefsHandled(s, i, note, c, j);
    }
    forall j | 0 <= j < |r.ops| ensures OpKept(r.ops[j], if j < i + 1 then after else steps, births[j], c) {
      if j == i {
        OpHandled(s.ops[j], steps, births[j], note, c);
      }
    }
    forall k | 0 <= k < |r.sessions|
      ensures var j := s.sessions[k].op;
              r.sessions[k].op == j &&
              SessionKept(r.sessions[k], k, r.ops[j], if j < i + 1 then after else steps, arrivals[k], births[j], c)
    {
      SessionBetween(s, births, arrivals, steps, note, i, k, c);
    }
  }

  lemma SessionBetween(s: OpsState, births: seq<nat>, arrivals: seq<nat>, steps: seq<Step>, note: Note, i: nat, k: nat,
                       c: Config)
    requires i < |s.ops| && k < |s.sessions| && Between(s, births, arrivals, steps, steps + [Notify(note)], i, c)
    ensures var r, j := Handled(s, i, note, c), s.sessions[k].op;
            r.sessions[k].op == j &&
            SessionKept(r.sessions[k], k, r.ops[j], if j < i + 1 then steps + [Notify(note)] else steps,
                        arrivals[k], births[j], c)
  {
    SessionTold(s.sessions, k, s.ops[i], note, c);
    assert OpRefs(s, i);
    if s.sessions[k].op == i {
      SessionHandled(s.sessions, k, s.ops[i], steps, arrivals[k], births[i], note, c);
    } else {
      assert Handled(s, i, note, c).sessions[k].sent == s.sessions[k].sent;
      assert Handled(s, i, note, c).sessions[k] == s.sessions[k];
    }
  }

  lemma {:induction false} NotifiedBetween(s: OpsState, births: seq<nat>, arrivals: seq<nat>, steps: seq<Step>,
                                           note: Note, n: nat, c: Config)
    requires Inv(s, births, arrivals, steps, c) && n <= |s.ops|
    ensures Between(Notified(s, note, n, c), births, arrivals, steps, steps + [Notify(note)], n, c)
  {
    hide OpsKept, SessionsKept, CacheKept, Handled;
    if n == 0 {
      NothingHandledYet(s, births, arrivals, steps, note, c);
    } else {
      NotifiedBetween(s, births, arrivals, steps, note, n - 1, c);
      var was := Notified(s, note, n - 1, c);
      HandledBetween(was, births, arrivals, steps, note, n - 1, c);
      assert Notified(s, note, n, c) == Handled(was, n - 1, note, c);
    }
  }

  lemma NothingHandledYet(s: OpsState, births: seq<nat>, arrivals: seq<nat>, steps: seq<Step>, note: Note, c: Config)
    requires Inv(s, births, arrivals, steps, c)
    ensures Between(s, births, arrivals, steps, steps + [Notify(note)], 0, c)
  {
  }

  // ---------------------------------------------------------------- the other steps

  lemma OpQuiet(op: Op, live: seq<nat>, steps: seq<Step>, b: nat, y: Step, c: Config)
    requires b < |steps| && OpKept(op, steps, b, c) && !y.Notify? && (op.done ==> live == [])
    ensures OpKept(op.(live := live), steps + [y], b, c)
  {
    HeardSnoc(steps, y, b + 1, op.tag, c);
    assert (steps + [y])[b] == steps[b];
  }

  lemma SessionQuiet(x: Session, k: nat, op: Op, live: seq<nat>, steps: seq<Step>, a: nat, b: nat, y: Step, c: Config)
    requires a < |steps| && b < |steps| && SessionKept(x, k, op, steps, a, b, c) && !y.Notify?
    requires k in live <==> k in op.live && y != Close(x.client)
    ensures SessionKept(x, k, op.(live := live), steps + [y], a, b, c)
  {
    var op' := op.(live := live);
    SessionStep(x, x.sent, k, op, op', steps, a, b, y, c);
    assert x.(sent := x.sent) == x;
  }

  lemma CloseInv(s: OpsState, births: seq<nat>, arrivals: seq<nat>, steps: seq<Step>, client: nat, c: Config)
    requires Inv(s, births, arrivals, steps, c)
    ensures Inv(Closed(s, client), births, arrivals, steps + [Close(client)], c)
  {
    hide SessionKept, OpKept, OpRefs, CacheKept, Closed;
    var r, y := Closed(s, client), Close(client);
    ClosedShape(s, client);
    CloseOps(s, births, steps, client, c);
    forall k | 0 <= k < |r.sessions|
      ensures var j := r.sessions[k].op; SessionKept(r.sessions[k], k, r.ops[j], steps + [y], arrivals[k], births[j], c)
    {
      var j := s.sessions[k].op;
      CloseSession(s, k, j, steps, arrivals[k], births[j], client, c);
    }
    CloseCache(s, client, c);
  }

  lemma ClosedShape(s: OpsState, client: nat)
    ensures var r := Closed(s, client); |r.ops| == |s.ops| && r.sessions == s.sessions && r.cache == s.cache
  {
  }

  lemma CloseOps(s: OpsState, births: seq<nat>, steps: seq<Step>, client: nat, c: Config)
    requires OpsKept(s, births, steps, steps, 0, c)
    ensures OpsKept(Closed(s, client), births, steps + [Close(client)], steps + [Close(client)], 0, c)
  {
    hide OpKept;
    var r, y := Closed(s, client), Close(client);
    forall j | 0 <= j < |r.ops| ensures OpRefs(r, j) && OpKept(r.ops[j], steps + [y], births[j], c) {
      assert OpRefs(s, j);
      CloseOp(s, j, steps, births[j], client, c);
    }
  }

  lemma CloseOp(s: OpsState, j: nat, steps: seq<Step>, b: nat, client: nat, c: Config)
    requires j < |s.ops| && b < |steps| && OpKept(s.ops[j], steps, b, c)
    ensures OpKept(Closed(s, client).ops[j], steps + [Close(client)], b, c)
  {
    OpQuiet(s.ops[j], Closed(s, client).ops[j].live, steps, b, Close(client), c);
  }

  lemma CloseSession(s: OpsState, k: nat, j: nat, steps: seq<Step>, a: nat, b: nat, client: nat, c: Config)
    requires k < |s.sessions| && j < |s.ops| && a < |steps| && b < |steps|
    requires SessionKept(s.sessions[k], k, s.ops[j], steps, a, b, c)
    ensures SessionKept(s.sessions[k], k, Closed(s, client).ops[j], steps + [Close(client)], a, b, c)
  {
    hide SessionKept;
    SessionQuiet(s.sessions[k], k, s.ops[j], Closed(s, client).ops[j].live, steps, a, b, Close(client), c);
  }

  lemma CloseCache(s: OpsState, client: nat, c: Config)
    requires CacheKept(s, c)
    ensures CacheKept(Closed(s, client), c)
  {
    var r := Closed(s, client);
    forall e | e in r.cache ensures EntryKept(r, e) {
      assert EntryKept(s, e);
    }
  }

  lemma BeginOps(s: OpsState, births: seq<nat>, steps: seq<Step>, y: Step, c: Config)
    requires OpsKept(s, births, steps, steps, 0, c) && y.Begin?
    ensures OpsKept(
              Begun(s, y.client, y.local, y.id, y.key, y.tag, c),
              births + [|steps|], steps + [y], steps + [y], 0, c)
  {
    var r, after, n := Begun(s, y.client, y.local, y.id, y.key, y.tag, c), steps + [y], |s.ops|;
    assert after[|steps| + 1..] == [];
    forall j | 0 <= j < |r.ops| ensures OpRefs(r, j) && OpKept(r.ops[j], after, (births + [|steps|])[j], c) {
      if j < n {
        assert OpRefs(s, j);
        OpQuiet(s.ops[j], s.ops[j].live, steps, births[j], y, c);
      }
    }
  }

  lemma BeginInv(s: OpsState, births: seq<nat>, arrivals: seq<nat>, steps: seq<Step>, y: Step, c: Config)
    requires Inv(s, births, arrivals, steps, c) && y.Begin?
    ensures Inv(
              Begun(s, y.client, y.local, y.id, y.key, y.tag, c),
              births + [|steps|], arrivals + [|steps|], steps + [y], c)
  {
    hide SessionKept, OpKept, OpRefs, CacheKept, AllKept;
    var r := Begun(s, y.client, y.local, y.id, y.key, y.tag, c);
    BeginOps(s, births, steps, y, c);
    BeginOldSessions(s, births, arrivals, steps, y, r.ops[|s.ops|], c);
    BeginNewSession(r, |s.ops|, |s.sessions|, steps, y, c);
    AppendSession(r, s.sessions, r.sessions[|s.sessions|], births + [|steps|], arrivals, steps + [y], c);
    BeginCache(s, y, c);
  }

  lemma BeginOldSessions(
    s: OpsState, births: seq<nat>, arrivals: seq<nat>, steps: seq<Step>, y: Step, op: Op, c: Config)
    requires Inv(s, births, arrivals, steps, c) && y.Begin?
    ensures |births| == |s.ops| && forall j :: 0 <= j < |births| ==> births[j] < |steps|
    ensures AllKept(s.sessions, s.ops + [op], births + [|steps|], arrivals, steps + [y], c)
  {
    hide SessionKept, OpKept, OpRefs, CacheKept;
    forall k | 0 <= k < |s.sessions|
      ensures var j := s.sessions[k].op;
              SessionKept(s.sessions[k], k, s.ops[j], steps + [y], arrivals[k], births[j], c)
    {
      QuietSession(s.sessions[k], k, s.ops[s.sessions[k].op], steps, arrivals[k], births[s.sessions[k].op], y, c);
    }
  }

  lemma QuietSession(x: Session, k: nat, op: Op, steps: seq<Step>, a: nat, b: nat, y: Step, c: Config)
    requires a < |steps| && b < |steps| && SessionKept(x, k, op, steps, a, b, c) && y.Begin?
    ensures SessionKept(x, k, op, steps + [y], a, b, c)
  {
    hide SessionKept;
    SessionQuiet(x, k, op, op.live, steps, a, b, y, c);
    assert op.(live := op.live) == op;
  }

  lemma BeginNewSession(r: OpsState, i: nat, k: nat, steps: seq<Step>, y: Step, c: Config)
    requires y.Begin? && i < |r.ops| && k < |r.sessions|
    requires r.ops[i] == Op(y.key, y.tag, k, [], false, false, [])
    requires r.sessions[k] == Session(y.client, y.local, i, Initiator, [StartedMessage(y.id, y.tag.operation)])
    ensures SessionKept(r.sessions[k], k, r.ops[i], steps + [y], |steps|, |steps|, c)
  {
    assert (steps + [y])[|steps| + 1..] == [];
  }

  lemma BeginCache(s: OpsState, y: Step, c: Config)
    requires CacheKept(s, c) && y.Begin?
    ensures CacheKept(Begun(s, y.client, y.local, y.id, y.key, y.tag, c), c)
  {
    var r, entry := Begun(s, y.client, y.local, y.id, y.key, y.tag, c), Entry(|s.ops|, false);
    PutDropsOldest(s.cache, y.key, entry, c.maxSize);
    PutReplaces(s.cache, y.key, entry, c.maxSize);
    forall e | e in r.cache ensures EntryKept(r, e) {
      assert e in s.cache ==> EntryKept(s, e);
    }
  }

  /** An operation still running has buffered all it heard; a completed one that is cached ended well. */
  lemma BufferIsHeard(op: Op, steps: seq<Step>, b: nat, c: Config)
    requires b < |steps| && OpKept(op, steps, b, c)
    ensures var heard := Heard(steps[b + 1..], op.tag, c);
            && (!op.done ==> op.buffer == heard == Filter(heard, Ongoing(c)))
            && (op.done && !op.errored ==> op.buffer == heard && Ended(heard, c))
  {
    var heard := Heard(steps[b + 1..], op.tag, c);
    HeardShape(steps[b + 1..], op.tag, c);
    if !op.done {
      FilterAll(heard, Ongoing(c));
    }
    if !op.done || !op.errored {
      FilterAll(heard, Unflushed());
    }
  }

  lemma JoinedKept(op: Op, live: seq<nat>, x: Session, k: nat, steps: seq<Step>, b: nat, y: Step, c: Config)
    requires b < |steps| && OpKept(op, steps, b, c) && y.Request? && (op.done ==> !op.errored)
    requires x == Session(y.client, y.local, x.op, if op.done then Replayed else Attached,
                          [StartedMessage(y.id, op.tag.operation)] + RewrittenAll(y.local, op.buffer))
    requires k in live <==> !op.done
    ensures SessionKept(x, k, op.(live := live), steps + [y], |steps|, b, c)
  {
    hide Heard, OpHeard;
    var after, a := steps + [y], |steps|;
    BufferIsHeard(op, steps, b, c);
    HeardSnoc(steps, y, b + 1, op.tag, c);
    assert CloseTime(after, a, x.client) == CloseTime(after, a + 1, x.client) == |after|;
    assert after[..|after|] == after;
    assert after[b + 1..|after|] == after[b + 1..];
    assert after[b + 1..a] == steps[b + 1..];
    assert after[a] == y;
  }

  lemma RequestInv(s: OpsState, births: seq<nat>, arrivals: seq<nat>, steps: seq<Step>, y: Step, c: Config)
    requires Inv(s, births, arrivals, steps, c) && y.Request? && WellShaped(s)
    ensures Inv(Requested(s, y.client, y.local, y.id, y.key), births,
                if Has(s.cache, y.key) then arrivals + [|steps|] else arrivals, steps + [y], c)
  {
    var r, after := Requested(s, y.client, y.local, y.id, y.key), steps + [y];
    GotWithin(s.cache, y.key);
    if Has(s.cache, y.key) {
      GotMovesToFront(s.cache, y.key);
      HitInv(s, births, arrivals, steps, y, c);
    } else {
      forall j | 0 <= j < |r.ops| ensures OpRefs(r, j) && OpKept(r.ops[j], after, births[j], c) {
        assert OpRefs(s, j);
        OpQuiet(s.ops[j], r.ops[j].live, steps, births[j], y, c);
      }
      MissSessions(s, births, arrivals, steps, y, c);
      forall x | x in r.cache ensures EntryKept(r, x) {
        assert EntryKept(s, x);
      }
    }
  }

  lemma MissSessions(s: OpsState, births: seq<nat>, arrivals: seq<nat>, steps: seq<Step>, y: Step, c: Config)
    requires Inv(s, births, arrivals, steps, c) && y.Request?
    ensures forall k :: 0 <= k < |s.sessions| ==>
              var j := s.sessions[k].op;
              SessionKept(s.sessions[k], k, s.ops[j], steps + [y], arrivals[k], births[j], c)
  {
    forall k | 0 <= k < |s.sessions|
      ensures var j := s.sessions[k].op;
              SessionKept(s.sessions[k], k, s.ops[j], steps + [y], arrivals[k], births[j], c)
    {
      var j := s.sessions[k].op;
      SessionQuiet(s.sessions[k], k, s.ops[j], s.ops[j].live, steps, arrivals[k], births[j], y, c);
    }
  }

  /** The state once session `x` has joined operation `i`, which it hears live unless that is done. */
  function Attaching(s: OpsState, i: nat, x: Session): OpsState
    requires i < |s.ops|
  {
    var live := if s.ops[i].done then [] else s.ops[i].live + [|s.sessions|];
    OpsState(s.cache, s.ops[i := s.ops[i].(live := live)], s.sessions + [x])
  }

  lemma HitOps(
    s: OpsState, births: seq<nat>, arrivals: seq<nat>, steps: seq<Step>, y: Step, i: nat, x: Session, c: Config)
    requires Inv(s, births, arrivals, steps, c) && i < |s.ops| && y.Request? && x.op == i
    ensures OpsKept(Attaching(s, i, x), births, steps + [y], steps + [y], 0, c)
  {
    hide SessionsKept, CacheKept, Heard, RewrittenAll;
    var r := Attaching(s, i, x);
    forall j | 0 <= j < |r.ops| ensures OpRefs(r, j) && OpKept(r.ops[j], steps + [y], births[j], c) {
      assert OpRefs(s, j);
      OpQuiet(s.ops[j], r.ops[j].live, steps, births[j], y, c);
      assert r.ops[j] == s.ops[j].(live := r.ops[j].live);
    }
  }

  lemma HitSessions(
    s: OpsState, births: seq<nat>, arrivals: seq<nat>, steps: seq<Step>, y: Step, i: nat, x: Session, c: Config)
    requires Inv(s, births, arrivals, steps, c) && i < |s.ops| && y.Request?
    requires OpsKept(Attaching(s, i, x), births, steps + [y], steps + [y], 0, c)
    requires s.ops[i].done ==> !s.ops[i].errored
    requires x == Session(y.client, y.local, i, if s.ops[i].done then Replayed else Attached,
                          [StartedMessage(y.id, s.ops[i].tag.operation)] + RewrittenAll(y.local, s.ops[i].buffer))
    ensures SessionsKept(Attaching(s, i, x), births, arrivals + [|steps|], steps + [y], steps + [y], 0, c)
  {
    hide SessionKept, OpKept, OpRefs, CacheKept, RewrittenAll;
    HitOldSessions(s, births, arrivals, steps, y, i, x, c);
    HitNewSession(s, births, arrivals, steps, y, i, x, c);
    AppendSession(Attaching(s, i, x), s.sessions, x, births, arrivals, steps + [y], c);
  }

  ghost predicate AllKept(sessions: seq<Session>, ops: seq<Op>, births: seq<nat>, arrivals: seq<nat>,
                          after: seq<Step>, c: Config)
    requires |births| == |ops| && forall i :: 0 <= i < |births| ==> births[i] < |after|
  {
    && |arrivals| == |sessions|
    && (forall k :: 0 <= k < |sessions| ==> arrivals[k] < |after| && sessions[k].op < |ops|)
    && (forall k :: 0 <= k < |sessions| ==>
          SessionKept(sessions[k], k, ops[sessions[k].op], after, arrivals[k], births[sessions[k].op], c))
  }

  lemma AppendSession(
    r: OpsState, sessions: seq<Session>, x: Session, births: seq<nat>, arrivals: seq<nat>, after: seq<Step>,
    c: Config)
    requires OpsKept(r, births, after, after, 0, c) && r.sessions == sessions + [x] && after != []
    requires AllKept(sessions, r.ops, births, arrivals, after, c)
    requires x.op < |r.ops| && SessionKept(x, |sessions|, r.ops[x.op], after, |after| - 1, births[x.op], c)
    ensures SessionsKept(r, births, arrivals + [|after| - 1], after, after, 0, c)
  {
    hide SessionKept, OpKept, OpRefs;
  }

  lemma HitNewSession(
    s: OpsState, births: seq<nat>, arrivals: seq<nat>, steps: seq<Step>, y: Step, i: nat, x: Session, c: Config)
    requires Inv(s, births, arrivals, steps, c) && i < |s.ops| && y.Request?
    requires s.ops[i].done ==> !s.ops[i].errored
    requires x == Session(y.client, y.local, i, if s.ops[i].done then Replayed else Attached,
                          [StartedMessage(y.id, s.ops[i].tag.operation)] + RewrittenAll(y.local, s.ops[i].buffer))
    ensures SessionKept(x, |s.sessions|, Attaching(s, i, x).ops[i], steps + [y], |steps|, births[i], c)
  {
    var op := s.ops[i];
    assert OpKept(op, steps, births[i], c);
    JoinedKept(op, Attaching(s, i, x).ops[i].live, x, |s.sessions|, steps, births[i], y, c);
  }

  lemma HitOldSession(s: OpsState, births: seq<nat>, arrivals: seq<nat>, steps: seq<Step>, y: Step, i: nat, x: Session,
                      k: nat, c: Config)
    requires Inv(s, births, arrivals, steps, c) && i < |s.ops| && y.Request? && k < |s.sessions|
    ensures var j := s.sessions[k].op;
            SessionKept(s.sessions[k], k, Attaching(s, i, x).ops[j], steps + [y], arrivals[k], births[j], c)
  {
    hide SessionKept, Heard, CacheKept;
    var j, r := s.sessions[k].op, Attaching(s, i, x);
    assert OpKept(s.ops[j], steps, births[j], c);
    assert k in r.ops[j].live <==> k in s.ops[j].live;
    SessionQuiet(s.sessions[k], k, s.ops[j], r.ops[j].live, steps, arrivals[k], births[j], y, c);
    assert r.ops[j] == s.ops[j].(live := r.ops[j].live);
  }

  lemma HitOldSessions(
    s: OpsState, births: seq<nat>, arrivals: seq<nat>, steps: seq<Step>, y: Step, i: nat, x: Session, c: Config)
    requires Inv(s, births, arrivals, steps, c) && i < |s.ops| && y.Request?
    ensures |births| == |s.ops| && forall j :: 0 <= j < |births| ==> births[j] < |steps + [y]|
    ensures AllKept(s.sessions, Attaching(s, i, x).ops, births, arrivals, steps + [y], c)
  {
    forall k | 0 <= k < |s.sessions|
      ensures SessionKept(s.sessions[k], k, Attaching(s, i, x).ops[s.sessions[k].op], steps + [y], arrivals[k],
                          births[s.sessions[k].op], c)
    {
      HitOldSession(s, births, arrivals, steps, y, i, x, k, c);
    }
  }

  lemma HitState(s: OpsState, births: seq<nat>, arrivals: seq<nat>, steps: seq<Step>, y: Step, c: Config)
    returns (i: nat, x: Session)
    requires Inv(s, births, arrivals, steps, c) && y.Request? && WellShaped(s) && Has(s.cache, y.key)
    ensures i < |s.ops| && (s.ops[i].done ==> !s.ops[i].errored)
    ensures x == Session(y.client, y.local, i, if s.ops[i].done then Replayed else Attached,
                         [StartedMessage(y.id, s.ops[i].tag.operation)] + RewrittenAll(y.local, s.ops[i].buffer))
    ensures Requested(s, y.client, y.local, y.id, y.key) == Attaching(s, i, x).(cache := Got(s.cache, y.key))
    ensures Lookup(s.cache, y.key) == Some(Entry(i, s.ops[i].done))
  {
    var e := s.cache[Find(s.cache, y.key)];
    assert e in s.cache && EntryKept(s, e);
    i := e.1.op;
    x := Requested(s, y.client, y.local, y.id, y.key).sessions[|s.sessions|];
    assert OpKept(s.ops[i], steps, births[i], c);
  }

  lemma HitInv(s: OpsState, births: seq<nat>, arrivals: seq<nat>, steps: seq<Step>, y: Step, c: Config)
    requires Inv(s, births, arrivals, steps, c) && y.Request? && WellShaped(s) && Has(s.cache, y.key)
    requires DistinctKeys(Got(s.cache, y.key)) && |Got(s.cache, y.key)| <= c.maxSize
    ensures Inv(Requested(s, y.client, y.local, y.id, y.key), births, arrivals + [|steps|], steps + [y], c)
  {
    hide Requested, Got, Lookup, Find, Has, WellShaped, OpsKept, SessionsKept;
    var i, x := HitState(s, births, arrivals, steps, y, c);
    HitOps(s, births, arrivals, steps, y, i, x, c);
    HitSessions(s, births, arrivals, steps, y, i, x, c);
    WithCache(Attaching(s, i, x), births, arrivals + [|steps|], steps + [y], Got(s.cache, y.key), c);
    GotWithin(s.cache, y.key);
    forall e | e in Got(s.cache, y.key) ensures EntryKept(Attaching(s, i, x), e) {
      assert EntryKept(s, e);
    }
  }

  lemma WithCache(s: OpsState, births: seq<nat>, arrivals: seq<nat>, steps: seq<Step>, cache: Recency<Entry>, c: Config)
    requires OpsKept(s, births, steps, steps, 0, c) && SessionsKept(s, births, arrivals, steps, steps, 0, c)
    ensures OpsKept(s.(cache := cache), births, steps, steps, 0, c)
    ensures SessionsKept(s.(cache := cache), births, arrivals, steps, steps, 0, c)
  {
    forall i | 0 <= i < |s.ops| ensures OpRefs(s.(cache := cache), i) {
      assert OpRefs(s, i);
    }
  }

  // ---------------------------------------------------------------- every run

  /** Positions of the steps that created the sessions, one for each session, in order. */
  function Arrivals(steps: seq<Step>, c: Config): (r: seq<nat>)
    ensures forall i :: 0 <= i < |r| ==> r[i] < |steps|
  {
    if steps == [] then []
    else
      var n := |steps| - 1;
      var was := Arrivals(steps[..n], c);
      if |Run(steps, c).sessions| > |Run(steps[..n], c).sessions| then was + [n] else was
  }

  lemma {:induction false} NotifiedSizes(s: OpsState, note: Note, n: nat, c: Config)
    requires n <= |s.ops|
    ensures |Notified(s, note, n, c).sessions| == |s.sessions|
    ensures forall k :: 0 <= k < |s.sessions| ==> SameSession(Notified(s, note, n, c).sessions[k], s.sessions[k])
  {
    if n > 0 {
      NotifiedSizes(s, note, n - 1, c);
      var was := Notified(s, note, n - 1, c);
      forall k | 0 <= k < |s.sessions| ensures SameSession(Notified(s, note, n, c).sessions[k], s.sessions[k]) {
        SessionTold(was.sessions, k, was.ops[n - 1], note, c);
      }
    }
  }

  /** The same session, whatever it was sent meanwhile. */
  ghost predicate SameSession(x: Session, y: Session) {
    x.client == y.client && x.local == y.local && x.op == y.op && x.role == y.role
  }

  ghost predicate SameSessions(before: seq<Session>, after: seq<Session>) {
    |before| <= |after| && forall k :: 0 <= k < |before| ==> SameSession(after[k], before[k])
  }

  lemma SameSessionsTwice(a: seq<Session>, b: seq<Session>, d: seq<Session>)
    requires SameSessions(a, b) && SameSessions(b, d)
    ensures SameSessions(a, d)
  {
  }

  lemma SessionsPersist(s: OpsState, y: Step, c: Config)
    requires WellShaped(s)
    ensures |Next(s, y, c).sessions|
         == |s.sessions| + (if y.Begin? || (y.Request? && Has(s.cache, y.key)) then 1 else 0)
    ensures SameSessions(s.sessions, Next(s, y, c).sessions)
  {
    match y {
      case Notify(note) => NotifiedSizes(s, note, |s.ops|, c);
      case Request(client, local, id, key) => LookupOp(s, key);
      case Begin(client, local, id, key, tag) =>
      case Close(client) =>
    }
  }

  lemma {:induction false} RunKept(steps: seq<Step>, c: Config)
    ensures Inv(Run(steps, c), Births(steps), Arrivals(steps, c), steps, c)
  {
    if steps != [] {
      var n := |steps| - 1;
      var front, y := steps[..n], steps[n];
      assert steps == front + [y];
      RunKept(front, c);
      var s := Run(front, c);
      SessionsPersist(s, y, c);
      match y {
        case Request(client, local, id, key) => RequestInv(s, Births(front), Arrivals(front, c), front, y, c);
        case Begin(client, local, id, key, tag) => BeginInv(s, Births(front), Arrivals(front, c), front, y, c);
        case Notify(note) =>
          NotifiedBetween(s, Births(front), Arrivals(front, c), front, note, |s.ops|, c);
          Settled(Run(steps, c), Births(front), Arrivals(front, c), front, steps, c);
        case Close(client) => CloseInv(s, Births(front), Arrivals(front, c), front, client, c);
      }
    }
  }

  lemma Settled(s: OpsState, births: seq<nat>, arrivals: seq<nat>, before: seq<Step>, after: seq<Step>, c: Config)
    requires Between(s, births, arrivals, before, after, |s.ops|, c)
    ensures Inv(s, births, arrivals, after, c)
  {
    assert OpsKept(s, births, after, after, 0, c);
  }

  lemma {:induction false} BirthsGrow(steps: seq<Step>, j: nat)
    requires j <= |steps|
    ensures Births(steps[..j]) <= Births(steps)
  {
    if j == |steps| {
      assert steps[..j] == steps;
    } else {
      BirthsGrow(steps[..|steps| - 1], j);
      assert steps[..|steps| - 1][..j] == steps[..j];
    }
  }

  lemma {:induction false} ArrivalsGrow(steps: seq<Step>, j: nat, c: Config)
    requires j <= |steps|
    ensures Arrivals(steps[..j], c) <= Arrivals(steps, c)
  {
    if j == |steps| {
      assert steps[..j] == steps;
    } else {
      ArrivalsGrow(steps[..|steps| - 1], j, c);
      assert steps[..|steps| - 1][..j] == steps[..j];
    }
  }

  lemma SameSessionsItself(sessions: seq<Session>)
    ensures SameSessions(sessions, sessions)
  {
  }

  lemma {:induction false} SessionsGrow(steps: seq<Step>, j: nat, c: Config)
    requires j <= |steps|
    ensures SameSessions(Run(steps[..j], c).sessions, Run(steps, c).sessions)
  {
    hide SameSessions, SameSession, Next, WellShaped;
    if j == |steps| {
      assert steps[..j] == steps;
      SameSessionsItself(Run(steps, c).sessions);
    } else {
      var n := |steps| - 1;
      SessionsGrow(steps[..n], j, c);
      assert steps[..n][..j] == steps[..j];
      SessionsPersist(Run(steps[..n], c), steps[n], c);
      SameSessionsTwice(Run(steps[..j], c).sessions, Run(steps[..n], c).sessions, Run(steps, c).sessions);
    }
  }

  lemma OneArrivalEach(steps: seq<Step>, c: Config)
    ensures |Arrivals(steps, c)| == |Run(steps, c).sessions|
  {
    hide OpKept, OpRefs, SessionKept, CacheKept;
    RunKept(steps, c);
  }

  lemma ArrivedAt(steps: seq<Step>, j: nat, c: Config)
    requires j < |steps|
    requires steps[j].Begin? || (steps[j].Request? && Has(Run(steps[..j], c).cache, steps[j].key))
    ensures var k := |Run(steps[..j], c).sessions|;
            && k < |Run(steps, c).sessions| == |Arrivals(steps, c)| && Arrivals(steps, c)[k] == j
            && k < |Run(steps[..j + 1], c).sessions|
            && SameSession(Run(steps, c).sessions[k], Run(steps[..j + 1], c).sessions[k])
  {
    hide Next, SameSession, WellShaped;
    var to := steps[..j + 1];
    assert to[..j] == steps[..j] && to[j] == steps[j];
    OneArrivalEach(steps, c);
    OneArrivalEach(steps[..j], c);
    SessionsPersist(Run(steps[..j], c), steps[j], c);
    SessionsGrow(steps, j + 1, c);
    ArrivalsGrow(steps, j + 1, c);
    var k := |Run(steps[..j], c).sessions|;
    assert Arrivals(to, c) == Arrivals(steps[..j], c) + [j];
    assert Arrivals(to, c)[k] == j;
  }

  /**
   The messages of one request: its answer, under its own id, and then the notifications, each with the
   client's own subscription id in place of the upstream's and everything else unchanged.
   */
  ghost predicate Carries(sent: seq<Message>, id: int, operation: string, local: string, notes: seq<Note>) {
    && |sent| == |notes| + 1 && sent[0] == StartedMessage(id, operation)
    && forall i :: 0 <= i < |notes| ==>
         sent[i + 1] == NoteMessage(local, notes[i].tag.operation, notes[i].event, notes[i].payload)
  }

  lemma CarriesAll(id: int, operation: string, local: string, notes: seq<Note>)
    ensures Carries([StartedMessage(id, operation)] + RewrittenAll(local, notes), id, operation, local, notes)
  {
  }

  /**
   The client that starts an operation is sent everything about it, through its terminal event, each once
   and in order.
   */
  lemma InitiatorHearsAll(steps: seq<Step>, b: nat, c: Config)
    requires b < |steps| && steps[b].Begin?
    ensures var k, y := |Run(steps[..b], c).sessions|, steps[b];
            && k < |Run(steps, c).sessions|
            && Run(steps, c).sessions[k].client == y.client
            && Carries(Run(steps, c).sessions[k].sent, y.id, y.tag.operation, y.local,
                       Heard(steps[b + 1..], y.tag, c))
  {
    hide Carries, WellShaped, Next, Heard, OpRefs;
    RunKept(steps, c);
    ArrivedAt(steps, b, c);
    var k, s, y := |Run(steps[..b], c).sessions|, Run(steps, c), steps[b];
    var i := s.sessions[k].op;
    assert SessionKept(s.sessions[k], k, s.ops[i], steps, b, Births(steps)[i], c);
    assert OpKept(s.ops[i], steps, Births(steps)[i], c);
    CarriesAll(y.id, y.tag.operation, y.local, Heard(steps[b + 1..], y.tag, c));
  }

  /**
   What a client that joined at step `j` an operation begun at step `b` is sent. If the operation was
   complete it is sent the whole sequence, which ends well. If it was running it is sent the
   non-terminal notifications - those buffered before it joined, then those that arrive until it
   closes - each once and in order.
   */
  ghost predicate HearsAsJoiner(x: Session, steps: seq<Step>, j: nat, b: nat, complete: bool, c: Config)
    requires b < |steps| && j < |steps|
  {
    && b < j && steps[b].Begin? && steps[j].Request? && steps[b].key == steps[j].key
    && x.client == steps[j].client
    && Carries(x.sent, steps[j].id, steps[b].tag.operation, steps[j].local,
         if complete then Heard(steps[b + 1..], steps[b].tag, c)
         else Filter(Heard(steps[b + 1..CloseTime(steps, j, steps[j].client)], steps[b].tag, c), Ongoing(c)))
    && (complete ==> EndedWell(Heard(steps[b + 1..], steps[b].tag, c), c))
  }

  /** A client whose request hits the cache hears what it should of the cached operation. */
  lemma JoinersHear(steps: seq<Step>, j: nat, c: Config)
    requires j < |steps| && steps[j].Request? && Has(Run(steps[..j], c).cache, steps[j].key)
    ensures var k, e := |Run(steps[..j], c).sessions|, Lookup(Run(steps[..j], c).cache, steps[j].key).value;
            && e.op < |Births(steps)| && k < |Run(steps, c).sessions|
            && HearsAsJoiner(Run(steps, c).sessions[k], steps, j, Births(steps)[e.op], e.complete, c)
  {
    var k, e := |Run(steps[..j], c).sessions|, Lookup(Run(steps[..j], c).cache, steps[j].key).value;
    var b := JoinedAt(steps, j, c);
    JoinedSent(Run(steps, c).sessions[k], k, Run(steps, c).ops[e.op], steps, j, b, c);
  }

  lemma JoinedSent(x: Session, k: nat, op: Op, steps: seq<Step>, j: nat, b: nat, c: Config)
    requires b < |steps| && j < |steps| && SessionKept(x, k, op, steps, j, b, c) && OpKept(op, steps, b, c)
    requires x.role != Initiator && steps[b].key == steps[j].key
    ensures HearsAsJoiner(x, steps, j, b, x.role == Replayed, c)
  {
    hide Carries, Heard, Filter, CloseTime, OpHeard;
    var y := steps[j];
    if x.role == Replayed {
      WholeByThen(steps, j, b, op, c);
      CarriesAll(y.id, op.tag.operation, y.local, Heard(steps[b + 1..], op.tag, c));
    } else {
      var heard := Heard(steps[b + 1..CloseTime(steps, j, y.client)], op.tag, c);
      CarriesAll(y.id, op.tag.operation, y.local, Filter(heard, Ongoing(c)));
    }
  }

  lemma JoinedAt(steps: seq<Step>, j: nat, c: Config) returns (b: nat)
    requires j < |steps| && steps[j].Request? && Has(Run(steps[..j], c).cache, steps[j].key)
    ensures var was, s, y := Run(steps[..j], c), Run(steps, c), steps[j];
            var k, e := |was.sessions|, Lookup(was.cache, y.key).value;
            && e.op < |Births(steps)| == |s.ops| && b == Births(steps)[e.op] < |steps| && k < |s.sessions|
            && s.sessions[k].role == (if e.complete then Replayed else Attached)
            && OpKept(s.ops[e.op], steps, b, c) && steps[b].Begin? && steps[b].key == y.key
            && SessionKept(s.sessions[k], k, s.ops[e.op], steps, j, b, c)
  {
    RunKept(steps, c);
    RunKept(steps[..j], c);
    ArrivedAt(steps, j, c);
    JoinCreates(steps, j, c);
    BirthsGrow(steps, j);
    SessionsGrow(steps, j, c);
    var was, e := Run(steps[..j], c), Lookup(Run(steps[..j], c).cache, steps[j].key).value;
    assert (steps[j].key, e) in was.cache && EntryKept(was, (steps[j].key, e));
    b := Births(steps)[e.op];
    assert b == Births(steps[..j])[e.op];
    assert OpKept(was.ops[e.op], steps[..j], b, c);
  }

  predicate Fails(event: string) {
    event == "operationInaccessible" || event == "operationError" || event == "operationWaitingForContinue"
  }

  predicate EndedWell(heard: seq<Note>, c: Config) {
    Ended(heard, c) && forall n :: n in heard ==> !Fails(n.event)
  }

  lemma JoinCreates(steps: seq<Step>, j: nat, c: Config)
    requires j < |steps| && steps[j].Request? && Has(Run(steps[..j], c).cache, steps[j].key)
    ensures var was := Run(steps[..j], c);
            var x, e := Run(steps[..j + 1], c).sessions, Lookup(was.cache, steps[j].key).value;
            |x| == |was.sessions| + 1 && x[|was.sessions|].op == e.op
            && x[|was.sessions|].role == if e.complete then Replayed else Attached
  {
    var to := steps[..j + 1];
    assert to[..j] == steps[..j] && to[j] == steps[j];
    LookupOp(Run(steps[..j], c), steps[j].key);
  }

  lemma WholeByThen(steps: seq<Step>, j: nat, b: nat, op: Op, c: Config)
    requires b < j < |steps| && OpKept(op, steps, b, c) && op.done && !op.errored
    requires Ended(Heard(steps[b + 1..j], op.tag, c), c)
    ensures Heard(steps[b + 1..j], op.tag, c) == Heard(steps[b + 1..], op.tag, c)
    ensures EndedWell(Heard(steps[b + 1..], op.tag, c), c)
  {
    assert steps[b + 1..] == steps[b + 1..j] + steps[j..];
    HeardFinal(steps[b + 1..j], steps[j..], op.tag, c);
    HeardShape(steps[b + 1..], op.tag, c);
  }

  ghost predicate ToldTheEnd(sent: seq<Message>, c: Config) {
    exists m :: m in sent && m.NoteMessage? && c.IsTerminal(m.event)
  }

  lemma ToldTheEndIff(x: Session, steps: seq<Step>, j: nat, b: nat, complete: bool, c: Config)
    requires b < |steps| && j < |steps| && HearsAsJoiner(x, steps, j, b, complete, c)
    ensures ToldTheEnd(x.sent, c) <==> complete
  {
    var y := steps[j];
    if complete {
      var heard := Heard(steps[b + 1..], steps[b].tag, c);
      var last := x.sent[|heard| - 1 + 1];
      assert last.event == heard[|heard| - 1].event && last in x.sent;
    } else {
      var heard := Filter(Heard(steps[b + 1..CloseTime(steps, j, y.client)], steps[b].tag, c), Ongoing(c));
      forall m | m in x.sent && m.NoteMessage? ensures !c.IsTerminal(m.event) {
        var i :| 0 <= i < |x.sent| && x.sent[i] == m;
        assert m == x.sent[i - 1 + 1] && heard[i - 1] in heard;
      }
    }
  }

  /**
   A client answered from the cache is ever told the terminal event exactly when the operation was
   complete as it joined.
   */
  lemma OnlyLateJoinersAreToldTheEnd(steps: seq<Step>, j: nat, c: Config)
    requires j < |steps| && steps[j].Request? && Has(Run(steps[..j], c).cache, steps[j].key)
    ensures var k := |Run(steps[..j], c).sessions|;
            && k < |Run(steps, c).sessions|
            && (ToldTheEnd(Run(steps, c).sessions[k].sent, c)
                <==> Lookup(Run(steps[..j], c).cache, steps[j].key).value.complete)
  {
    JoinersHear(steps, j, c);
    var k, e := |Run(steps[..j], c).sessions|, Lookup(Run(steps[..j], c).cache, steps[j].key).value;
    ToldTheEndIff(Run(steps, c).sessions[k], steps, j, Births(steps)[e.op], e.complete, c);
  }

  /** A run in which the client that joined midway is not told the end that the initiator is told. */
  lemma MidwayJoinerMissesTheEnd(tag: Tag, event: string, c: Config)
    requires c.maxSize > 0 && c.IsTerminal(event)
    ensures var note := Note(tag, event, "");
            var steps := [Begin(0, "first", 1, "key", tag), Request(1, "second", 2, "key"), Notify(note)];
            && |Run(steps, c).sessions| >= 2
            && Run(steps, c).sessions[0].sent
               == [StartedMessage(1, tag.operation), NoteMessage("first", tag.operation, event, "")]
            && !ToldTheEnd(Run(steps, c).sessions[1].sent, c)
  {
    hide Run, Next, Heard;
    var note := Note(tag, event, "");
    var steps := [Begin(0, "first", 1, "key", tag), Request(1, "second", 2, "key"), Notify(note)];
    assert steps[..0] == [] && steps[..1] == [steps[0]] && steps[1..] == [steps[1], steps[2]];
    OneBegun(steps[0], c);
    OnlyLateJoinersAreToldTheEnd(steps, 1, c);
    InitiatorHearsAll(steps, 0, c);
    EndHeard(steps[1], note, c);
    var sent, heard := Run(steps, c).sessions[0].sent, Heard(steps[0 + 1..], tag, c);
    assert heard == [note] && heard[0].event == event;
    assert sent == [sent[0], sent[0 + 1]];
  }

  lemma EndHeard(y: Step, note: Note, c: Config)
    requires y.Request?
    ensures Heard([y, Notify(note)], note.tag, c) == [note]
  {
    HeardSnoc([], y, 0, note.tag, c);
    HeardSnoc([y], Notify(note), 0, note.tag, c);
    assert ([] + [y])[0..] == [y] && ([y] + [Notify(note)])[0..] == [y, Notify(note)];
  }

  lemma OneBegun(y: Step, c: Config)
    requires y.Begin? && c.maxSize > 0
    ensures |Run([], c).sessions| == 0 && |Run([y], c).sessions| == 1
    ensures Lookup(Run([y], c).cache, y.key) == Some(Entry(0, false))
  {
    assert [y][..0] == [];
    assert Run([y], c).cache == [(y.key, Entry(0, false))];
  }

  ghost function OpAt(steps: seq<Step>, i: nat, c: Config): Option<Op> {
    var ops := Run(steps, c).ops;
    if i < |ops| then Some(ops[i]) else None
  }

  /** Once an operation is done its buffer never changes. */
  lemma {:induction false} DoneIsFinal(steps: seq<Step>, more: seq<Step>, i: nat, op: Op, c: Config)
    requires OpAt(steps, i, c) == Some(op) && op.done
    ensures OpAt(steps + more, i, c) == Some(op)
  {
    if more == [] {
      assert steps + more == steps;
    } else {
      var n := |more| - 1;
      assert steps + more == (steps + more[..n]) + [more[n]];
      DoneIsFinal(steps, more[..n], i, op, c);
      DoneOneMore(steps + more[..n], more[n], i, op, c);
    }
  }

  lemma DoneOneMore(steps: seq<Step>, y: Step, i: nat, op: Op, c: Config)
    requires OpAt(steps, i, c) == Some(op) && op.done
    ensures OpAt(steps + [y], i, c) == Some(op)
  {
    var all := steps + [y];
    assert all[..|all| - 1] == steps;
    DoneStays(Run(steps, c), y, steps, i, c);
  }

  lemma DoneStays(s: OpsState, y: Step, steps: seq<Step>, i: nat, c: Config)
    requires s == Run(steps, c) && i < |s.ops| && s.ops[i].done
    ensures i < |Next(s, y, c).ops| && Next(s, y, c).ops[i] == s.ops[i]
  {
    RunKept(steps, c);
    assert OpKept(s.ops[i], steps, Births(steps)[i], c);
    match y {
      case Notify(note) => DoneIgnores(s, note, |s.ops|, i, c);
      case Request(client, local, id, key) =>
        LookupOp(s, key);
        if Has(s.cache, key) {
          assert EntryKept(s, s.cache[Find(s.cache, key)]);
        }
      case Begin(client, local, id, key, tag) =>
      case Close(client) =>
    }
  }

  lemma OnlyThatOp(s: OpsState, i: nat, j: nat, note: Note, c: Config)
    requires i < |s.ops| && j < |s.ops|
    ensures Handled(s, i, note, c).ops[j] == if j == i then OpNext(s.ops[j], note, c) else s.ops[j]
  {
  }

  lemma {:induction false} DoneIgnores(s: OpsState, note: Note, n: nat, i: nat, c: Config)
    requires n <= |s.ops| && i < |s.ops| && s.ops[i].done
    ensures Notified(s, note, n, c).ops[i] == s.ops[i]
  {
    if n > 0 {
      DoneIgnores(s, note, n - 1, i, c);
      hide Handled;
      OnlyThatOp(Notified(s, note, n - 1, c), n - 1, i, note, c);
    }
  }

  /**
   A cache entry marked complete holds every notification of its own operation, up to and including
   one successful terminal event, no flush event, and never changes, whatever other operations share
   its key and whatever is evicted meanwhile.
   */
  lemma CompleteEntriesAreExact(steps: seq<Step>, e: (string, Entry), more: seq<Step>, c: Config)
    requires e in Run(steps, c).cache && e.1.complete
    ensures var s := Run(steps, c);
            && e.1.op < |s.ops| == |Births(steps)|
            && var op, b := s.ops[e.1.op], Births(steps)[e.1.op];
               && steps[b].key == e.0 && steps[b].tag == op.tag
               && op.buffer == Heard(steps[b + 1..], op.tag, c) && EndedWell(op.buffer, c)
               && (forall i :: 0 <= i < |op.buffer| - 1 ==> !c.IsTerminal(op.buffer[i].event))
               && OpAt(steps + more, e.1.op, c) == Some(op)
  {
    hide Next, SessionsKept;
    RunKept(steps, c);
    var s := Run(steps, c);
    assert EntryKept(s, e);
    CompleteBuffer(s.ops[e.1.op], steps, Births(steps)[e.1.op], c);
    DoneIsFinal(steps, more, e.1.op, s.ops[e.1.op], c);
  }

  lemma CompleteBuffer(op: Op, steps: seq<Step>, b: nat, c: Config)
    requires b < |steps| && OpKept(op, steps, b, c) && op.done && !op.errored
    ensures op.buffer == Heard(steps[b + 1..], op.tag, c) && EndedWell(op.buffer, c)
    ensures forall i :: 0 <= i < |op.buffer| - 1 ==> !c.IsTerminal(op.buffer[i].event)
  {
    BufferIsHeard(op, steps, b, c);
    HeardShape(steps[b + 1..], op.tag, c);
  }
}
