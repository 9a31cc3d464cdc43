/**
 Requests and messages told apart by the steps alone: which request each step made and under which ids,
 which requests still wait, and where each incoming message goes.
 */
module UpstreamServerRuns {
  import opened Collections
  import opened UpstreamServer
  import opened UpstreamServerProperties

  // ---------------------------------------------------------------- the requests

  /** The steps that made requests, in order. */
  function AskedAt(steps: seq<Step>): (r: seq<nat>)
    ensures forall i :: 0 <= i < |r| ==> r[i] < |steps| && steps[r[i]].Ask?
  {
    if steps == [] then []
    else
      var n := |steps| - 1;
      AskedAt(steps[..n]) + if steps[n].Ask? then [n] else []
  }

  /** How many upstream ids were handed out. */
  function IdsTaken(steps: seq<Step>): nat {
    if steps == [] then 0
    else
      var n := |steps| - 1;
      IdsTaken(steps[..n]) + if steps[n].Ask? || steps[n].TakeId? then 1 else 0
  }

  predicate ChangesLink(step: Step) {
    step.Opened? || step.LinkClosing? || step.Closed?
  }

  /** The socket opened at some step and has neither closed nor begun to since. */
  ghost predicate IsOpen(steps: seq<Step>) {
    exists i :: 0 <= i < |steps| && OpenedAt(steps, i)
  }

  ghost predicate OpenedAt(steps: seq<Step>, i: nat)
    requires i < |steps|
  {
    steps[i].Opened? && forall j :: i < j < |steps| ==> !ChangesLink(steps[j]) || steps[j].Opened?
  }

  lemma OpenSnoc(steps: seq<Step>, step: Step)
    ensures IsOpen(steps + [step]) <==> step.Opened? || (IsOpen(steps) && !ChangesLink(step))
  {
    var all := steps + [step];
    forall i | 0 <= i < |steps|
      ensures OpenedAt(all, i) <==> OpenedAt(steps, i) && (!ChangesLink(step) || step.Opened?)
    {
      assert all[i] == steps[i] && all[|steps|] == step;
      assert forall j :: i < j < |steps| ==> all[j] == steps[j];
    }
    assert OpenedAt(all, |steps|) <==> step.Opened?;
  }

  lemma LinkNext(s: Server, step: Step)
    ensures var t := Next(s, step);
            && (t.link == Up <==> step.Opened? || (s.link == Up && !ChangesLink(step)))
            && t.nextId == s.nextId + if step.Ask? || step.TakeId? then 1 else 0
  {
  }

  lemma {:induction false} UpIffOpen(steps: seq<Step>)
    ensures Run(steps).link == Up <==> IsOpen(steps)
    ensures Run(steps).nextId == IdsTaken(steps)
  {
    hide IsOpen, Next, ChangesLink;
    if steps == [] {
      NotOpenYet();
    } else {
      var n := |steps| - 1;
      assert steps == steps[..n] + [steps[n]];
      UpIffOpen(steps[..n]);
      OpenSnoc(steps[..n], steps[n]);
      LinkNext(Run(steps[..n]), steps[n]);
    }
  }

  lemma NotOpenYet()
    ensures !IsOpen([])
  {
  }

  function ClientIdOf(step: Step): Id
    requires step.Ask?
  {
    match step.id
    case Some(id) => id
    case None => Null
  }

  /** A request made at the last of `steps`, whatever became of it since. */
  ghost predicate MadeBy(q: Request, steps: seq<Step>)
    requires steps != [] && steps[|steps| - 1].Ask?
  {
    var n := |steps| - 1;
    && q.clientId == ClientIdOf(steps[n])
    && q.upstreamId == IdsTaken(steps[..n])
    && (q.sent <==> IsOpen(steps[..n]))
  }

  lemma MadeNow(steps: seq<Step>, step: Step)
    requires step.Ask?
    ensures var made := Next(Run(steps), step).requests;
            |made| == |Run(steps).requests| + 1 && MadeBy(made[|made| - 1], steps + [step])
  {
    hide Run, IsOpen;
    UpIffOpen(steps);
    assert (steps + [step])[..|steps|] == steps;
  }

  lemma SameRequests(s: Server, step: Step)
    requires !step.Ask?
    ensures |Next(s, step).requests| == |s.requests|
  {
  }

  /**
   In every run the `i`-th request is the one made by the `i`-th asking step: it carries the id of that
   step, null when there was none, the next free upstream id, and counts as sent exactly when the socket
   was open then. Any reply carries the same id.
   */
  lemma {:induction false} RequestsAreTheAsks(steps: seq<Step>)
    ensures |Run(steps).requests| == |AskedAt(steps)|
    ensures forall i :: 0 <= i < |AskedAt(steps)| ==> IsTheAsk(steps, i)
  {
    if steps != [] {
      hide Run, Next, IsTheAsk;
      var front, step := steps[..|steps| - 1], steps[|steps| - 1];
      assert steps == front + [step];
      RequestsAreTheAsks(front);
      AskedSnoc(front, step);
      RunSnoc(front, step);
      if step.Ask? {
        MadeNow(front, step);
        AskIsNew(front, step);
      } else {
        SameRequests(Run(front), step);
      }
      forall i | 0 <= i < |AskedAt(front)| ensures IsTheAsk(steps, i) {
        AskStays(front, step, i);
      }
    }
  }

  lemma AskedSnoc(steps: seq<Step>, step: Step)
    ensures AskedAt(steps + [step]) == AskedAt(steps) + if step.Ask? then [|steps|] else []
  {
    assert (steps + [step])[..|steps|] == steps;
  }

  lemma AskIsNew(steps: seq<Step>, step: Step)
    requires step.Ask? && |Run(steps).requests| == |AskedAt(steps)|
    ensures IsTheAsk(steps + [step], |AskedAt(steps)|)
  {
    hide Run, Next, MadeBy, RequestSound, Sound;
    var all, i := steps + [step], |AskedAt(steps)|;
    AskedSnoc(steps, step);
    MadeNow(steps, step);
    RunSnoc(steps, step);
    RunsAreSound(all);
    EveryRequestSound(Run(all));
    assert all[..|steps| + 1] == all;
    RepliesAsAsked(Run(all).requests[i], all, |steps|);
  }

  lemma AskStays(steps: seq<Step>, step: Step, i: nat)
    requires IsTheAsk(steps, i)
    ensures IsTheAsk(steps + [step], i)
  {
    hide Run, Next, MadeBy, Kept, RequestSound, Sound, AskedAt;
    var all, k := steps + [step], AskedAt(steps)[i];
    AskedSnoc(steps, step);
    RunSnoc(steps, step);
    StepKeeps(Run(steps), step);
    RunsAreSound(all);
    EveryRequestSound(Run(all));
    assert all[..|steps|] == steps;
    MadeStays(Run(steps).requests[i], Run(all).requests[i], steps, all, k);
    RepliesAsAsked(Run(all).requests[i], all, k);
  }

  lemma EveryRequestSound(s: Server)
    requires Sound(s)
    ensures forall i :: 0 <= i < |s.requests| ==> RequestSound(s.requests[i])
  {
  }

  ghost predicate IsTheAsk(steps: seq<Step>, i: nat) {
    && i < |AskedAt(steps)| && i < |Run(steps).requests|
    && var q, k := Run(steps).requests[i], AskedAt(steps)[i];
       && MadeBy(q, steps[..k + 1])
       && (q.settled.Some? ==> q.settled.value.id == ClientIdOf(steps[k]))
  }

  lemma MadeStays(q: Request, t: Request, before: seq<Step>, steps: seq<Step>, k: nat)
    requires k < |before| < |steps| && before == steps[..|before|] && steps[k].Ask?
    requires MadeBy(q, before[..k + 1]) && Kept(q, t)
    ensures MadeBy(t, steps[..k + 1])
  {
    assert before[..k + 1] == steps[..k + 1];
  }

  lemma RepliesAsAsked(q: Request, steps: seq<Step>, k: nat)
    requires k < |steps| && steps[k].Ask? && MadeBy(q, steps[..k + 1]) && RequestSound(q)
    ensures q.settled.Some? ==> q.settled.value.id == ClientIdOf(steps[k])
  {
  }

  // ---------------------------------------------------------------- where each message goes

  /** The upstream id that a message would answer. */
  function AnswerTo(message: Message): Option<nat> {
    if message.id.Some? && message.id.value.Number? && message.id.value.n >= 0 then Some(message.id.value.n) else None
  }

  /** The step takes request `r`, sent under `id`, off the waiting list. */
  predicate Ends(step: Step, r: nat, id: nat) {
    || step.Closed?
    || step == Fire(r)
    || (step.Receive? && step.data.Some? && AnswerTo(step.data.value) == Some(id))
  }

  /** Request `r` was sent and since then neither answered, timed out nor forgotten at a disconnect. */
  ghost predicate Waits(steps: seq<Step>, r: nat)
    requires r < |AskedAt(steps)|
  {
    var k := AskedAt(steps)[r];
    IsOpen(steps[..k]) && forall j :: k < j < |steps| ==> !Ends(steps[j], r, IdsTaken(steps[..k]))
  }

  ghost predicate WaitsUnder(steps: seq<Step>, r: nat, id: nat) {
    r < |AskedAt(steps)| && IdsTaken(steps[..AskedAt(steps)[r]]) == id && Waits(steps, r)
  }

  /** The messages that answered no waiting request, in order. */
  ghost function Notices(steps: seq<Step>): seq<Message> {
    if steps == [] then []
    else
      var n := |steps| - 1;
      Notices(steps[..n])
      + if steps[n].Receive? && steps[n].data.Some? && !Answers(steps[..n], steps[n].data.value)
        then [steps[n].data.value] else []
  }

  ghost predicate Answers(steps: seq<Step>, message: Message) {
    AnswerTo(message).Some? && exists r :: WaitsUnder(steps, r, AnswerTo(message).value)
  }

  lemma WaitsSnoc(steps: seq<Step>, step: Step, r: nat, id: nat)
    ensures WaitsUnder(steps + [step], r, id) <==>
              || (WaitsUnder(steps, r, id) && !Ends(step, r, id))
              || (step.Ask? && r == |AskedAt(steps)| && id == IdsTaken(steps) && IsOpen(steps))
  {
    hide IsOpen, Ends, AskedAt, IdsTaken;
    var all := steps + [step];
    AskedSnoc(steps, step);
    if r < |AskedAt(steps)| {
      var k := AskedAt(steps)[r];
      assert all[..k] == steps[..k];
      assert forall j :: k < j < |steps| ==> all[j] == steps[j];
      assert all[|steps|] == step;
    } else if r < |AskedAt(all)| {
      assert all[..|steps|] == steps;
    }
  }

  /** The map of pending callbacks holds the requests that wait, each under its own upstream id. */
  ghost predicate PendingTold(s: Server, steps: seq<Step>) {
    forall n: nat, r: nat :: PendingAs(s, n, r) <==> WaitsUnder(steps, r, n)
  }

  ghost predicate PendingAs(s: Server, n: nat, r: nat) {
    n in s.pending && s.pending[n] == r
  }

  lemma PendingNext(s: Server, step: Step, n: nat, r: nat)
    requires Sound(s)
    ensures PendingAs(Next(s, step), n, r) <==>
              || (PendingAs(s, n, r) && !Ends(step, r, n))
              || (step.Ask? && r == |s.requests| && n == s.nextId && s.link == Up)
  {
    assert EntrySound(s, n) && EntrySound(s, s.nextId);
    match step {
      case Fire(q) =>
        if q < |s.requests| && s.requests[q].armed && n != s.requests[q].upstreamId {
          assert PendingAs(s, n, r) ==> r != q;
        }
      case Receive(data) =>
        if data.Some? {
          assert Match(s.pending, data.value)
              == if AnswerTo(data.value).Some? && AnswerTo(data.value).value in s.pending then AnswerTo(data.value)
                 else None;
        }
      case _ =>
    }
  }

  /** In every run the pending callbacks are those of the requests that wait, and the rest is notified, in order. */
  lemma {:induction false} EveryMessageFindsItsPlace(steps: seq<Step>)
    ensures PendingTold(Run(steps), steps)
    ensures Run(steps).notified == Notices(steps)
  {
    hide Run, Next, PendingAs, WaitsUnder, IsOpen, Ends;
    if steps == [] {
      NothingPending();
    } else {
      var n := |steps| - 1;
      var before, step, s := steps[..n], steps[n], Run(steps[..n]);
      assert steps == before + [step];
      EveryMessageFindsItsPlace(before);
      RunSnoc(before, step);
      RunsAreSound(before);
      RequestsAreTheAsks(before);
      UpIffOpen(before);
      forall id: nat, r: nat ensures PendingAs(Run(steps), id, r) <==> WaitsUnder(steps, r, id) {
        PendingNext(s, step, id, r);
        WaitsSnoc(before, step, r, id);
      }
      NotifiedNext(s, before, step);
    }
  }

  lemma NothingPending()
    ensures PendingTold(Run([]), []) && Run([]).notified == Notices([])
  {
  }

  lemma NotifiedNext(s: Server, steps: seq<Step>, step: Step)
    requires PendingTold(s, steps)
    ensures Next(s, step).notified
         == s.notified
            + if step.Receive? && step.data.Some? && !Answers(steps, step.data.value) then [step.data.value] else []
  {
    hide WaitsUnder;
    if step.Receive? && step.data.Some? && AnswerTo(step.data.value).Some? {
      var n := AnswerTo(step.data.value).value;
      if n in s.pending {
        assert PendingAs(s, n, s.pending[n]);
      } else {
        assert forall r: nat :: !PendingAs(s, n, r);
      }
    }
  }

  // ---------------------------------------------------------------- the queue

  /** The task that a step puts into the ring. */
  function Queues(s: Server, step: Step): Option<Task> {
    if step.OtherTask? then Some(Other)
    else if step.Receive? && step.data.Some? && Match(s.pending, step.data.value).Some? then
      Some(Resolve(s.pending[Match(s.pending, step.data.value).value], step.data.value))
    else None
  }

  /** Only a turn takes a task from the queue, the first one; no disconnect or timeout does. */
  lemma QueueNext(s: Server, step: Step)
    ensures var q := Next(s, step).queue;
            && (step.RunTask? ==> q == if s.queue == [] then [] else s.queue[1..])
            && (!step.RunTask? && |s.queue| < 4095 ==>
                  q == s.queue + match Queues(s, step) case Some(task) => [task] case None => [])
  {
    assert s.queue + [] == s.queue;
  }

  function TurnsIn(steps: seq<Step>): nat {
    if steps == [] then 0 else (if steps[0].RunTask? then 1 else 0) + TurnsIn(steps[1..])
  }

  /** The ring is never full while `more` follows `steps`. */
  ghost predicate KeepsRoom(steps: seq<Step>, more: seq<Step>) {
    forall i :: 0 <= i < |more| ==> |Run(steps + more[..i]).queue| < 4095
  }

  /** What becomes of the request of a queued response. */
  ghost predicate Comes(before: Request, after: Request, body: string, fired: bool) {
    if before.settled.Some? then after.settled == before.settled
    else
      && after.settled.Some?
      && (after.settled.value.reply == Answered(body) || (fired && after.settled.value.reply == TimedOut))
  }

  lemma OneStepFurther(steps: seq<Step>, more: seq<Step>, i: nat)
    requires i < |more|
    ensures steps + [more[0]] + more[1..][..i] == steps + more[..i + 1]
  {
  }

  lemma KeepsRoomTail(steps: seq<Step>, more: seq<Step>)
    requires more != [] && KeepsRoom(steps, more)
    ensures |Run(steps).queue| < 4095 && KeepsRoom(steps + [more[0]], more[1..])
  {
    hide Run;
    assert steps + more[..0] == steps;
    forall i: nat | i < |more[1..]| ensures |Run(steps + [more[0]] + more[1..][..i]).queue| < 4095 {
      OneStepFurther(steps, more, i);
    }
  }

  lemma TurnSettles(s: Server)
    requires Sound(s) && s.queue != [] && s.queue[0].Resolve?
    ensures var task, next := s.queue[0], Next(s, RunTask);
            && task.request < |s.requests| && task.request < |next.requests|
            && Comes(s.requests[task.request], next.requests[task.request], task.message.body, false)
            && next.requests[task.request].settled.Some?
  {
    assert TaskSound(s, s.queue[0]);
  }

  lemma OtherStepSettles(s: Server, step: Step, k: nat)
    requires Sound(s) && k < |s.queue| && s.queue[k].Resolve? && (step.RunTask? ==> k > 0)
    ensures var r, next := s.queue[k].request, Next(s, step);
            && r < |s.requests| && r < |next.requests|
            && (s.requests[r].settled.Some? ==> next.requests[r].settled == s.requests[r].settled)
            && (s.requests[r].settled.None? && next.requests[r].settled.Some? ==>
                  step == Fire(r) && next.requests[r].settled.value.reply == TimedOut)
  {
    assert TaskSound(s, s.queue[k]);
    assert step.RunTask? && s.queue[0].Resolve? ==> s.queue[0].request != s.queue[k].request;
  }

  /**
   A queued response settles its request once its turn has come, whatever disconnects, reconnects and other
   messages come in between, as long as the ring has room; only the request's own timeout can be first.
   */
  lemma {:induction false} DeliveredInTurn(steps: seq<Step>, more: seq<Step>, k: nat)
    requires k < |Run(steps).queue| && Run(steps).queue[k].Resolve?
    requires KeepsRoom(steps, more) && TurnsIn(more) > k
    ensures var task, before, after := Run(steps).queue[k], Run(steps).requests, Run(steps + more).requests;
            && task.request < |before| && task.request < |after|
            && Comes(before[task.request], after[task.request], task.message.body, Fire(task.request) in more)
    decreases |more|
  {
    hide Run, Sound, Next, KeepsRoom;
    var s, step, rest := Run(steps), more[0], more[1..];
    var task, next := s.queue[k], steps + [step];
    assert more == [step] + rest && next + rest == steps + more;
    RunsAreSound(steps);
    RunSnoc(steps, step);
    KeepsRoomTail(steps, more);
    QueueNext(s, step);
    SettledForGood(next, rest);
    if step.RunTask? && k == 0 {
      TurnSettles(s);
    } else {
      OtherStepSettles(s, step, k);
      var at := if step.RunTask? then k - 1 else k;
      assert Run(next).queue[at] == task;
      DeliveredInTurn(next, rest, at);
    }
  }
}
