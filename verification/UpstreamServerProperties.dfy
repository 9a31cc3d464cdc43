/** Request correlation over every interleaving of requests, messages, timeouts, disconnects and task turns. */
module UpstreamServerProperties {
  import opened Collections
  import opened UpstreamServer
  import Ring = TaskQueue

  function Run(steps: seq<Step>): Server {
    if steps == [] then START else Next(Run(steps[..|steps| - 1]), steps[|steps| - 1])
  }

  lemma RunSnoc(steps: seq<Step>, step: Step)
    ensures Run(steps + [step]) == Next(Run(steps), step)
  {
    assert (steps + [step])[..|steps|] == steps;
  }

  // ---------------------------------------------------------------- the invariant

  /** Upstream ids are handed out in increasing order. */
  ghost predicate IdsIncrease(s: Server) {
    && (forall i :: 0 <= i < |s.requests| ==> s.requests[i].upstreamId < s.nextId)
    && forall i, j :: 0 <= i < j < |s.requests| ==> s.requests[i].upstreamId < s.requests[j].upstreamId
  }

  /** A request that never went out failed at once; one that did and is unsettled has its timer. */
  ghost predicate RequestSound(r: Request) {
    && (!r.sent ==> !r.armed && r.settled == Some(Response(r.clientId, NotConnected)))
    && (r.armed <==> r.sent && r.settled.None?)
    && (r.sent && r.settled.Some? ==> r.settled.value.reply != NotConnected)
    && (r.settled.Some? ==> r.settled.value.id == r.clientId)
  }

  ghost predicate EntrySound(s: Server, n: nat) {
    n in s.pending ==>
      var r := s.pending[n];
      r < |s.requests| && s.requests[r].upstreamId == n && s.requests[r].sent
      && s.requests[r].armed && s.requests[r].settled.None?
  }

  ghost predicate TaskSound(s: Server, task: Task) {
    task.Resolve? ==>
      && task.request < |s.requests|
      && s.requests[task.request].sent
      && s.requests[task.request].upstreamId !in s.pending
      && task.message.id == Some(Number(s.requests[task.request].upstreamId))
      && (s.requests[task.request].settled.Some? ==> s.requests[task.request].settled.value.reply.TimedOut?)
  }

  /** No request has two callbacks waiting. */
  ghost predicate OneTaskEach(queue: seq<Task>) {
    forall i, j :: 0 <= i < j < |queue| && queue[i].Resolve? && queue[j].Resolve? ==>
      queue[i].request != queue[j].request
  }

  ghost predicate Sound(s: Server) {
    && IdsIncrease(s)
    && (forall i :: 0 <= i < |s.requests| ==> RequestSound(s.requests[i]))
    && (forall n :: EntrySound(s, n))
    && (forall i :: 0 <= i < |s.queue| ==> TaskSound(s, s.queue[i]))
    && OneTaskEach(s.queue)
  }

  lemma SoundAfterAsk(s: Server, id: Option<Id>)
    requires Sound(s)
    ensures Sound(Next(s, Ask(id)))
  {
    var t := Next(s, Ask(id));
    forall n ensures EntrySound(t, n) {
      assert EntrySound(s, n);
    }
    forall i | 0 <= i < |t.queue| ensures TaskSound(t, t.queue[i]) {
      assert TaskSound(s, s.queue[i]);
    }
  }

  /** Whatever is taken out of the map or added to the notifications, requests and tasks stay sound. */
  lemma SoundAfterReceive(s: Server, message: Message)
    requires Sound(s)
    ensures Sound(Next(s, Receive(Some(message))))
  {
    var t := Next(s, Receive(Some(message)));
    var m := Match(s.pending, message);
    forall n ensures EntrySound(t, n) {
      assert EntrySound(s, n);
    }
    if m.Some? {
      assert EntrySound(s, m.value);
      forall i | 0 <= i < |t.queue| ensures TaskSound(t, t.queue[i]) {
        if i < |s.queue| {
          assert TaskSound(s, s.queue[i]);
        }
      }
      forall i | 0 <= i < |s.queue| && s.queue[i].Resolve? ensures s.queue[i].request != s.pending[m.value] {
        assert TaskSound(s, s.queue[i]);
      }
    } else {
      forall i | 0 <= i < |t.queue| ensures TaskSound(t, t.queue[i]) {
        assert TaskSound(s, s.queue[i]);
      }
    }
  }

  lemma SoundAfterFire(s: Server, r: nat)
    requires Sound(s)
    ensures Sound(Next(s, Fire(r)))
  {
    var t := Next(s, Fire(r));
    if r < |s.requests| && s.requests[r].armed {
      assert RequestSound(s.requests[r]);
      forall n ensures EntrySound(t, n) {
        assert EntrySound(s, n);
      }
      forall i | 0 <= i < |t.queue| ensures TaskSound(t, t.queue[i]) {
        assert TaskSound(s, s.queue[i]);
      }
    }
  }

  lemma SoundAfterTask(s: Server)
    requires Sound(s) && s.queue != []
    ensures Sound(Next(s, RunTask))
  {
    var t := Next(s, RunTask);
    assert TaskSound(s, s.queue[0]);
    forall n ensures EntrySound(t, n) {
      assert EntrySound(s, n);
    }
    forall i | 0 <= i < |t.queue| ensures TaskSound(t, t.queue[i]) {
      assert t.queue[i] == s.queue[i + 1] && TaskSound(s, s.queue[i + 1]);
    }
    if s.queue[0].Resolve? {
      assert RequestSound(s.requests[s.queue[0].request]);
    }
  }

  lemma SoundAfterQuietStep(s: Server, step: Step)
    requires Sound(s)
    requires || step.Opened? || step.LinkClosing? || step.Closed? || step.TakeId? || step.OtherTask?
             || step == Receive(None)
    ensures Sound(Next(s, step))
  {
    var t := Next(s, step);
    forall n ensures EntrySound(t, n) {
      assert EntrySound(s, n);
    }
    forall i | 0 <= i < |t.queue| ensures TaskSound(t, t.queue[i]) {
      if i < |s.queue| {
        assert TaskSound(s, s.queue[i]);
      }
    }
  }

  /** Every step keeps the invariant. */
  lemma StepKeepsSound(s: Server, step: Step)
    requires Sound(s)
    ensures Sound(Next(s, step))
  {
    match step
    case Ask(id) => SoundAfterAsk(s, id);
    case Receive(data) => if data.Some? { SoundAfterReceive(s, data.value); } else { SoundAfterQuietStep(s, step); }
    case Fire(r) => SoundAfterFire(s, r);
    case RunTask => if s.queue != [] { SoundAfterTask(s); }
    case _ => SoundAfterQuietStep(s, step);
  }

  lemma {:induction false} RunsAreSound(steps: seq<Step>)
    ensures Sound(Run(steps))
  {
    if steps != [] {
      RunsAreSound(steps[..|steps| - 1]);
      StepKeepsSound(Run(steps[..|steps| - 1]), steps[|steps| - 1]);
    }
  }

  // ---------------------------------------------------------------- what every run guarantees

  /** In every run upstream ids are pairwise distinct, and a sent, unsettled request has an armed timer. */
  lemma NoRequestHangs(steps: seq<Step>, i: nat, j: nat)
    requires i < |Run(steps).requests| && j < |Run(steps).requests|
    ensures var q := Run(steps).requests;
            && (i != j ==> q[i].upstreamId != q[j].upstreamId)
            && (q[i].armed <==> q[i].sent && q[i].settled.None?)
            && (q[i].armed ==> Run(steps + [Fire(i)]).requests[i].settled.Some?)
            && (!q[i].sent ==> q[i].settled == Some(Response(q[i].clientId, NotConnected)))
            && (q[i].settled.Some? ==> q[i].settled.value.id == q[i].clientId)
  {
    RunsAreSound(steps);
    RunSnoc(steps, Fire(i));
    assert RequestSound(Run(steps).requests[i]);
  }

  /** Nothing about a request changes except that its timer goes and its promise settles. */
  ghost predicate Kept(a: Request, b: Request) {
    && a.clientId == b.clientId && a.upstreamId == b.upstreamId && a.sent == b.sent
    && (!a.armed ==> !b.armed)
    && (a.settled.Some? ==> b.settled == a.settled)
  }

  /** A request settles at most once: whatever happens later, a reply stays. */
  lemma {:induction false} SettledForGood(steps: seq<Step>, more: seq<Step>)
    ensures |Run(steps).requests| <= |Run(steps + more).requests|
    ensures forall i :: 0 <= i < |Run(steps).requests|
              ==> Kept(Run(steps).requests[i], Run(steps + more).requests[i])
    decreases |more|
  {
    if more == [] {
      assert steps + more == steps;
    } else {
      var n := |more| - 1;
      assert (steps + more)[..|steps + more| - 1] == steps + more[..n];
      SettledForGood(steps, more[..n]);
      StepKeeps(Run(steps + more[..n]), more[n]);
    }
  }

  lemma StepKeeps(s: Server, step: Step)
    ensures |s.requests| <= |Next(s, step).requests|
    ensures forall i :: 0 <= i < |s.requests| ==> Kept(s.requests[i], Next(s, step).requests[i])
  {
  }

  // ---------------------------------------------------------------- only its own response

  /** At some step after request `r` was made, this message arrived. */
  ghost predicate Heard(steps: seq<Step>, r: nat, message: Message) {
    exists i :: 0 <= i < |steps| && steps[i] == Receive(Some(message)) && r < |Run(steps[..i]).requests|
  }

  lemma HeardBefore(steps: seq<Step>, step: Step, r: nat, message: Message)
    requires Heard(steps, r, message)
    ensures Heard(steps + [step], r, message)
  {
    var i :| 0 <= i < |steps| && steps[i] == Receive(Some(message)) && r < |Run(steps[..i]).requests|;
    assert (steps + [step])[i] == steps[i] && (steps + [step])[..i] == steps[..i];
  }

  lemma HeardNow(steps: seq<Step>, r: nat, message: Message)
    requires r < |Run(steps).requests|
    ensures Heard(steps + [Receive(Some(message))], r, message)
  {
    var all := steps + [Receive(Some(message))];
    assert all[|steps|] == Receive(Some(message)) && all[..|steps|] == steps;
  }

  ghost predicate HeardOwn(steps: seq<Step>, r: nat, upstreamId: nat, body: string) {
    Heard(steps, r, Message(Some(Number(upstreamId)), body))
  }

  ghost predicate TaskHeard(steps: seq<Step>, task: Task) {
    task.Resolve? ==> Heard(steps, task.request, task.message)
  }

  ghost predicate AnswerHeard(steps: seq<Step>, requests: seq<Request>, r: nat)
    requires r < |requests|
  {
    requests[r].settled.Some? && requests[r].settled.value.reply.Answered?
    ==> HeardOwn(steps, r, requests[r].upstreamId, requests[r].settled.value.reply.body)
  }

  lemma {:induction false} EverythingWasHeard(steps: seq<Step>)
    ensures var s := Run(steps);
            && (forall i :: 0 <= i < |s.queue| ==> TaskHeard(steps, s.queue[i]))
            && (forall r :: 0 <= r < |s.requests| ==> AnswerHeard(steps, s.requests, r))
  {
    if steps != [] {
      var before, step := steps[..|steps| - 1], steps[|steps| - 1];
      assert steps == before + [step];
      EverythingWasHeard(before);
      RunsAreSound(before);
      var s, t := Run(before), Run(steps);
      forall i | 0 <= i < |t.queue| ensures TaskHeard(steps, t.queue[i]) {
        QueuedWasHeard(before, step, i);
      }
      forall r | 0 <= r < |t.requests| ensures AnswerHeard(steps, t.requests, r) {
        AnswerWasHeard(before, step, r);
      }
    }
  }

  lemma QueuedWasHeard(before: seq<Step>, step: Step, i: nat)
    requires Sound(Run(before))
    requires forall k :: 0 <= k < |Run(before).queue| ==> TaskHeard(before, Run(before).queue[k])
    requires i < |Next(Run(before), step).queue|
    ensures TaskHeard(before + [step], Next(Run(before), step).queue[i])
  {
    hide Heard, Run, Sound;
    var s := Run(before);
    var task := Next(s, step).queue[i];
    var from := if step.RunTask? then i + 1 else i;
    if from < |s.queue| && s.queue[from] == task {
      assert TaskHeard(before, s.queue[from]);
      if task.Resolve? {
        HeardBefore(before, step, task.request, task.message);
      }
    } else if task.Resolve? {
      assert step == Receive(Some(task.message)) && Match(s.pending, task.message).Some?;
      MatchIsSound(s, task.message);
      HeardNow(before, task.request, task.message);
    }
  }

  lemma FrontIsSound(s: Server)
    requires Sound(s) && s.queue != [] && s.queue[0].Resolve?
    ensures var r := s.queue[0].request;
            r < |s.requests| && s.queue[0].message.id == Some(Number(s.requests[r].upstreamId))
  {
    assert TaskSound(s, s.queue[0]);
  }

  lemma MatchIsSound(s: Server, message: Message)
    requires Sound(s) && Match(s.pending, message).Some?
    ensures s.pending[Match(s.pending, message).value] < |s.requests|
  {
    assert EntrySound(s, Match(s.pending, message).value);
  }

  lemma AnswerWasHeard(before: seq<Step>, step: Step, r: nat)
    requires Sound(Run(before))
    requires forall k :: 0 <= k < |Run(before).queue| ==> TaskHeard(before, Run(before).queue[k])
    requires forall k :: 0 <= k < |Run(before).requests| ==> AnswerHeard(before, Run(before).requests, k)
    requires r < |Next(Run(before), step).requests|
    ensures AnswerHeard(before + [step], Next(Run(before), step).requests, r)
  {
    hide Heard, Run, Sound, TaskSound;
    var s, q := Run(before), Next(Run(before), step).requests;
    if q[r].settled.Some? && q[r].settled.value.reply.Answered? {
      if r < |s.requests| && s.requests[r].settled.Some? {
        assert AnswerHeard(before, s.requests, r);
        StepKeeps(s, step);
        HeardBefore(before, step, r, Message(Some(Number(q[r].upstreamId)), q[r].settled.value.reply.body));
      } else {
        assert step.RunTask? && s.queue != [] && s.queue[0].Resolve? && s.queue[0].request == r;
        FrontIsSound(s);
        assert TaskHeard(before, s.queue[0]);
        HeardBefore(before, step, r, s.queue[0].message);
      }
    }
  }

  /**
   An answered request carries its client's id and the body of a message with its own upstream id that
   arrived after it was made.
   */
  lemma OnlyItsOwnResponse(steps: seq<Step>, r: nat)
    requires r < |Run(steps).requests|
    requires var q := Run(steps).requests[r]; q.settled.Some? && q.settled.value.reply.Answered?
    ensures var q := Run(steps).requests[r];
            && q.settled.value.id == q.clientId
            && Heard(steps, r, Message(Some(Number(q.upstreamId)), q.settled.value.reply.body))
  {
    EverythingWasHeard(steps);
    RunsAreSound(steps);
    assert AnswerHeard(steps, Run(steps).requests, r) && RequestSound(Run(steps).requests[r]);
  }

  // ---------------------------------------------------------------- delivery

  function Turns(k: nat): (r: seq<Step>)
    ensures |r| == k
  {
    seq(k, _ => RunTask)
  }

  /** A queued response is delivered when its turn comes, unless the timeout was first. */
  lemma {:induction false} QueuedIsDelivered(steps: seq<Step>, k: nat)
    requires k < |Run(steps).queue| && Run(steps).queue[k].Resolve?
    ensures var task := Run(steps).queue[k];
            var before, after := Run(steps).requests, Run(steps + Turns(k + 1)).requests;
            && task.request < |before| && task.request < |after|
            && after[task.request].settled
            == (if before[task.request].settled.Some? then before[task.request].settled
                else Some(Response(before[task.request].clientId, Answered(task.message.body))))
    decreases k
  {
    RunsAreSound(steps);
    RunSnoc(steps, RunTask);
    var s, next := Run(steps), steps + [RunTask];
    assert TaskSound(s, s.queue[k]);
    if k == 0 {
      assert Turns(1) == [RunTask];
    } else {
      assert Run(next).queue[k - 1] == s.queue[k];
      QueuedIsDelivered(next, k - 1);
      assert next + Turns(k) == steps + Turns(k + 1);
    }
  }

  /** A response to a pending request, queued with room and turned over in time, answers it; a second copy does not. */
  lemma ResponseAnswers(steps: seq<Step>, message: Message)
    requires Match(Run(steps).pending, message).Some? && |Run(steps).queue| < Ring.ROOM
    ensures var s := Run(steps);
            var n := Match(s.pending, message).value;
            var r := s.pending[n];
            var heard := steps + [Receive(Some(message))];
            && r < |s.requests| && s.requests[r].upstreamId == n && s.requests[r].settled.None?
            && r < |Run(heard + Turns(|s.queue| + 1)).requests|
            && Run(heard + Turns(|s.queue| + 1)).requests[r].settled
            == Some(Response(s.requests[r].clientId, Answered(message.body)))
            && Run(heard + [Receive(Some(message))]).notified == s.notified + [message]
  {
    hide Run, Sound, Next, Turns, Match;
    RunsAreSound(steps);
    var s := Run(steps);
    var heard := steps + [Receive(Some(message))];
    MatchIsPending(s, message);
    Matched(s, message);
    RunSnoc(steps, Receive(Some(message)));
    RunSnoc(heard, Receive(Some(message)));
    QueuedIsDelivered(heard, |s.queue|);
  }

  lemma MatchIsPending(s: Server, message: Message)
    requires Sound(s) && Match(s.pending, message).Some?
    ensures var n := Match(s.pending, message).value;
            n in s.pending
            && var r := s.pending[n];
               r < |s.requests| && s.requests[r].upstreamId == n && s.requests[r].settled.None?
  {
    assert EntrySound(s, Match(s.pending, message).value);
  }

  /** A matching message is taken out and queued; its copy is then a notification. */
  lemma Matched(s: Server, message: Message)
    requires Match(s.pending, message).Some? && |s.queue| < Ring.ROOM
    ensures var n := Match(s.pending, message).value;
            var t := Next(s, Receive(Some(message)));
            && n in s.pending && t.requests == s.requests && t.queue == s.queue + [Resolve(s.pending[n], message)]
            && Next(t, Receive(Some(message))).notified == s.notified + [message]
  {
  }

  // ---------------------------------------------------------------- disconnects

  /** No response to the request waits for its turn. */
  ghost predicate NotQueued(queue: seq<Task>, r: nat) {
    forall i :: 0 <= i < |queue| && queue[i].Resolve? ==> queue[i].request != r
  }

  /** The request cannot be answered any more. */
  ghost predicate OutOfReach(s: Server, r: nat) {
    && r < |s.requests|
    && s.requests[r].upstreamId !in s.pending
    && NotQueued(s.queue, r)
    && (s.requests[r].settled.Some? ==> !s.requests[r].settled.value.reply.Answered?)
  }

  lemma StaysOutOfReach(s: Server, step: Step, r: nat)
    requires Sound(s) && OutOfReach(s, r)
    ensures OutOfReach(Next(s, step), r)
  {
    var t := Next(s, step);
    assert forall n :: n in t.pending ==> n in s.pending || n == s.nextId;
    if step.Receive? && step.data.Some? && Match(s.pending, step.data.value).Some? {
      assert EntrySound(s, Match(s.pending, step.data.value).value);
    }
    if step.RunTask? && s.queue != [] {
      assert s.queue[0].Resolve? ==> s.queue[0].request != r;
      assert forall i :: 0 <= i < |t.queue| ==> t.queue[i] == s.queue[i + 1];
    }
  }

  lemma {:induction false} OutOfReachForGood(steps: seq<Step>, more: seq<Step>, r: nat)
    requires OutOfReach(Run(steps), r)
    ensures OutOfReach(Run(steps + more), r)
    decreases |more|
  {
    if more == [] {
      assert steps + more == steps;
    } else {
      var n := |more| - 1;
      hide OutOfReach, Sound, Next, Run;
      assert steps + more == (steps + more[..n]) + [more[n]];
      RunSnoc(steps + more[..n], more[n]);
      OutOfReachForGood(steps, more[..n], r);
      RunsAreSound(steps + more[..n]);
      StaysOutOfReach(Run(steps + more[..n]), more[n], r);
    }
  }

  /**
   * A disconnect forgets every request that no response has reached: reconnecting does not bring
   * its answer back, and firing its timer is the only way it settles.
   */
  lemma DisconnectLeavesOnlyTheTimeout(steps: seq<Step>, more: seq<Step>, r: nat)
    requires r < |Run(steps).requests| && Run(steps).requests[r].settled.None?
    requires NotQueued(Run(steps).queue, r)
    ensures var q := Run(steps + [Closed] + more).requests;
            && r < |q|
            && (q[r].settled.None? ==> q[r].armed)
            && (q[r].settled.Some? ==> q[r].settled == Some(Response(q[r].clientId, TimedOut)))
  {
    RunsAreSound(steps);
    RunSnoc(steps, Closed);
    OutOfReachForGood(steps + [Closed], more, r);
    SettledForGood(steps, [Closed] + more);
    assert steps + ([Closed] + more) == steps + [Closed] + more;
    RunsAreSound(steps + [Closed] + more);
    assert RequestSound(Run(steps).requests[r]);
    assert RequestSound(Run(steps + [Closed] + more).requests[r]);
  }
}
