/** The micro-task ring: a fixed array with a head and a tail, drained by one scheduled flush. */
module TaskQueue {
  import opened Collections
  import opened Bits

  const MAX_PENDING_TASKS: nat := 4096

  /** The most tasks that can wait: with one more the tail meets the head. */
  const ROOM: nat := MAX_PENDING_TASKS - 1

  /** The next slot; the mask wraps because the length is a power of two. */
  function NextSlot(slot: nat): nat {
    And(slot + 1, MAX_PENDING_TASKS - 1)
  }

  lemma NextWraps(slot: nat)
    ensures NextSlot(slot) == (slot + 1) % MAX_PENDING_TASKS
  {
    assert Pow2(6) == 64;
    Pow2Sum(6, 6);
    AndLowMask(slot + 1, 12);
  }

  /** What waits after one more task arrives. */
  function Enqueued<T>(queued: seq<T>, task: T): seq<T> {
    if |queued| < ROOM then queued + [task] else []
  }

  function EnqueuedAll<T>(queued: seq<T>, tasks: seq<T>): seq<T> {
    if tasks == [] then queued
    else Enqueued(EnqueuedAll(queued, tasks[..|tasks| - 1]), tasks[|tasks| - 1])
  }

  ghost function TotalSize<T>(tasks: seq<T>, size: T -> nat): nat {
    if tasks == [] then 0 else TotalSize(tasks[..|tasks| - 1], size) + size(tasks[|tasks| - 1])
  }

  /** What a task enqueues is smaller than the task, all together. */
  ghost predicate Finite<T(!new)>(spawn: T -> seq<T>, size: T -> nat) {
    forall t :: TotalSize(spawn(t), size) < size(t)
  }

  lemma {:induction false} TotalSizeAppend<T>(a: seq<T>, b: seq<T>, size: T -> nat)
    ensures TotalSize(a + b, size) == TotalSize(a, size) + TotalSize(b, size)
  {
    if b == [] {
      assert a + b == a;
    } else {
      var n := |b| - 1;
      assert (a + b)[..|a + b| - 1] == a + b[..n];
      TotalSizeAppend(a, b[..n], size);
    }
  }

  lemma {:induction false} EnqueuedSize<T>(queued: seq<T>, tasks: seq<T>, size: T -> nat)
    ensures TotalSize(EnqueuedAll(queued, tasks), size) <= TotalSize(queued, size) + TotalSize(tasks, size)
  {
    if tasks != [] {
      var n := |tasks| - 1;
      EnqueuedSize(queued, tasks[..n], size);
      TotalSizeAppend(EnqueuedAll(queued, tasks[..n]), [tasks[n]], size);
      assert TotalSize([tasks[n]], size) == size(tasks[n]) by {
        assert [tasks[n]][..0] == [];
      }
    }
  }

  lemma SpawnShrinks<T(!new)>(queued: seq<T>, spawn: T -> seq<T>, size: T -> nat)
    requires queued != [] && Finite(spawn, size)
    ensures TotalSize(EnqueuedAll(queued[1..], spawn(queued[0])), size) < TotalSize(queued, size)
  {
    assert queued == [queued[0]] + queued[1..] && [queued[0]][..0] == [];
    TotalSizeAppend([queued[0]], queued[1..], size);
    EnqueuedSize(queued[1..], spawn(queued[0]), size);
  }

  /** What one flush does to the ring: the tasks it runs, in order, and what it leaves waiting. */
  datatype Flushed<T> = Flushed(ran: seq<T>, left: seq<T>)

  lemma DrainedNext<T(!new)>(queued: seq<T>, spawn: T -> seq<T>, throws: T -> bool, size: T -> nat)
    requires Finite(spawn, size)
    ensures queued == [] ==> Drained(queued, spawn, throws, size) == Flushed([], [])
    ensures queued != [] ==>
              var next := EnqueuedAll(queued[1..], spawn(queued[0]));
              var rest := Drained(next, spawn, throws, size);
              Drained(queued, spawn, throws, size)
              == if throws(queued[0]) then Flushed([queued[0]], next) else Flushed([queued[0]] + rest.ran, rest.left)
  {
  }

  /**
   One flush: the oldest task, then what the others and its own additions to the ring leave to run.
   A task that throws is the last one.
   */
  ghost function Drained<T(!new)>(queued: seq<T>, spawn: T -> seq<T>, throws: T -> bool, size: T -> nat): Flushed<T>
    requires Finite(spawn, size)
    decreases TotalSize(queued, size)
  {
    if queued == [] then Flushed([], [])
    else
      SpawnShrinks(queued, spawn, size);
      var next := EnqueuedAll(queued[1..], spawn(queued[0]));
      if throws(queued[0]) then Flushed([queued[0]], next)
      else
        var rest := Drained(next, spawn, throws, size);
        Flushed([queued[0]] + rest.ran, rest.left)
  }

  /** A flush stops right after the first task that throws, and otherwise leaves nothing. */
  lemma {:induction false} StopsAtTheFirstThrow<T(!new)>(
    queued: seq<T>, spawn: T -> seq<T>, throws: T -> bool, size: T -> nat)
    requires Finite(spawn, size)
    ensures var r := Drained(queued, spawn, throws, size);
            && (forall i :: 0 <= i < |r.ran| && throws(r.ran[i]) ==> i == |r.ran| - 1)
            && ((forall t :: t in r.ran ==> !throws(t)) ==> r.left == [])
    decreases TotalSize(queued, size)
  {
    if queued != [] {
      hide Finite, TotalSize, Drained, EnqueuedAll;
      DrainedNext(queued, spawn, throws, size);
      SpawnShrinks(queued, spawn, size);
      if !throws(queued[0]) {
        var next := EnqueuedAll(queued[1..], spawn(queued[0]));
        StopsAtTheFirstThrow(next, spawn, throws, size);
        var rest := Drained(next, spawn, throws, size);
        assert forall t :: t in rest.ran ==> t in [queued[0]] + rest.ran;
      }
    } else {
      DrainedNext(queued, spawn, throws, size);
    }
  }

  function SpawnedBy<T>(tasks: seq<T>, spawn: T -> seq<T>): seq<T> {
    if tasks == [] then [] else spawn(tasks[0]) + SpawnedBy(tasks[1..], spawn)
  }

  lemma {:induction false} LengthBelowSize<T(!new)>(tasks: seq<T>, spawn: T -> seq<T>, size: T -> nat)
    requires Finite(spawn, size)
    ensures |tasks| <= TotalSize(tasks, size)
  {
    if tasks != [] {
      var n := |tasks| - 1;
      LengthBelowSize(tasks[..n], spawn, size);
      assert TotalSize(spawn(tasks[n]), size) < size(tasks[n]);
    }
  }

  lemma {:induction false} RoomForAll<T>(queued: seq<T>, tasks: seq<T>)
    requires |queued| + |tasks| <= ROOM
    ensures EnqueuedAll(queued, tasks) == queued + tasks
  {
    if tasks == [] {
      assert queued + tasks == queued;
    } else {
      var n := |tasks| - 1;
      RoomForAll(queued, tasks[..n]);
      assert queued + tasks == queued + tasks[..n] + [tasks[n]];
    }
  }

  /** What is left and what one task enqueues fit as well. */
  lemma RoomForSpawned<T(!new)>(queued: seq<T>, spawn: T -> seq<T>, size: T -> nat)
    requires Finite(spawn, size) && queued != [] && TotalSize(queued, size) <= ROOM
    ensures EnqueuedAll(queued[1..], spawn(queued[0])) == queued[1..] + spawn(queued[0])
    ensures TotalSize(queued[1..] + spawn(queued[0]), size) <= ROOM
  {
    hide TotalSize;
    SingleSize(queued[0], size);
    assert queued == [queued[0]] + queued[1..];
    TotalSizeAppend([queued[0]], queued[1..], size);
    TotalSizeAppend(queued[1..], spawn(queued[0]), size);
    LengthBelowSize(queued[1..] + spawn(queued[0]), spawn, size);
    RoomForAll(queued[1..], spawn(queued[0]));
  }

  lemma DrainStep<T(!new)>(queued: seq<T>, spawn: T -> seq<T>, throws: T -> bool, size: T -> nat)
    requires Finite(spawn, size) && queued != [] && !throws(queued[0]) && TotalSize(queued, size) <= ROOM
    ensures var next := queued[1..] + spawn(queued[0]);
            var rest := Drained(next, spawn, throws, size);
            && TotalSize(next, size) < TotalSize(queued, size)
            && Drained(queued, spawn, throws, size) == Flushed([queued[0]] + rest.ran, rest.left)
  {
    hide TotalSize, Drained, EnqueuedAll;
    RoomForSpawned(queued, spawn, size);
    SpawnShrinks(queued, spawn, size);
    DrainedNext(queued, spawn, throws, size);
  }

  lemma SingleSize<T>(task: T, size: T -> nat)
    ensures TotalSize([task], size) == size(task)
  {
    assert [task][..0] == [];
  }

  /**
   A flush whose tasks all fit runs in rounds: those waiting, in order, then all that they enqueued, in
   order, and so on, as long as none of them throws.
   */
  lemma {:induction false} RunsInRounds<T(!new)>(
    front: seq<T>, back: seq<T>, spawn: T -> seq<T>, throws: T -> bool, size: T -> nat)
    requires Finite(spawn, size) && TotalSize(front + back, size) <= ROOM
    requires forall t :: t in front ==> !throws(t)
    ensures var later := Drained(back + SpawnedBy(front, spawn), spawn, throws, size);
            Drained(front + back, spawn, throws, size) == Flushed(front + later.ran, later.left)
    decreases |front|
  {
    hide Drained, TotalSize, Finite;
    var later := Drained(back + SpawnedBy(front, spawn), spawn, throws, size);
    if front == [] {
      assert front + back == back && back + [] == back && front + later.ran == later.ran;
    } else {
      var added, rest := spawn(front[0]), front[1..];
      assert front == [front[0]] + rest;
      assert (front + back)[0] == front[0] && (front + back)[1..] + added == rest + (back + added);
      DrainStep(front + back, spawn, throws, size);
      RunsInRounds(rest, back + added, spawn, throws, size);
      assert back + added + SpawnedBy(rest, spawn) == back + SpawnedBy(front, spawn);
      assert [front[0]] + (rest + later.ran) == front + later.ran;
    }
  }

  lemma SpawnedByCons<T>(task: T, rest: seq<T>, spawn: T -> seq<T>)
    ensures SpawnedBy([task] + rest, spawn) == spawn(task) + SpawnedBy(rest, spawn)
  {
    assert ([task] + rest)[1..] == rest;
  }

  /**
   A flush whose tasks all fit loses none: those that ran and those left behind one that threw are, in
   order, those that waited and all that were enqueued meanwhile.
   */
  lemma {:induction false} FlushLosesNothing<T(!new)>(
    queued: seq<T>, spawn: T -> seq<T>, throws: T -> bool, size: T -> nat)
    requires Finite(spawn, size) && TotalSize(queued, size) <= ROOM
    ensures var r := Drained(queued, spawn, throws, size);
            r.ran + r.left == queued + SpawnedBy(r.ran, spawn)
    decreases TotalSize(queued, size)
  {
    hide Finite, TotalSize, Drained, EnqueuedAll, SpawnedBy;
    DrainedNext(queued, spawn, throws, size);
    if queued == [] {
      SpawnedByNone(spawn);
    } else {
      var first, rest := queued[0], queued[1..];
      RoomForSpawned(queued, spawn, size);
      SpawnShrinks(queued, spawn, size);
      assert queued == [first] + rest;
      if throws(first) {
        SpawnedByCons(first, [], spawn);
        SpawnedByNone(spawn);
        assert [first] + [] == [first] && spawn(first) + [] == spawn(first);
      } else {
        var later := Drained(rest + spawn(first), spawn, throws, size);
        FlushLosesNothing(rest + spawn(first), spawn, throws, size);
        SpawnedByCons(first, later.ran, spawn);
        assert [first] + later.ran + later.left == [first] + (later.ran + later.left);
        assert [first] + (rest + spawn(first) + SpawnedBy(later.ran, spawn))
            == [first] + rest + (spawn(first) + SpawnedBy(later.ran, spawn));
      }
    }
  }

  lemma SpawnedByNone<T>(spawn: T -> seq<T>)
    ensures SpawnedBy([], spawn) == []
  {
  }

  /** Some task that ran enqueued another one. */
  ghost predicate AnySpawns<T>(ran: seq<T>, spawn: T -> seq<T>) {
    exists t :: t in ran && spawn(t) != []
  }

  lemma AnySpawnsNone<T>(spawn: T -> seq<T>)
    ensures !AnySpawns([], spawn)
  {
  }

  lemma AnySpawnsSnoc<T>(ran: seq<T>, task: T, spawn: T -> seq<T>)
    ensures AnySpawns(ran + [task], spawn) <==> AnySpawns(ran, spawn) || spawn(task) != []
  {
    assert task in ran + [task];
    assert forall t :: t in ran ==> t in ran + [task];
  }

  /** The slot `i` places after the head. */
  function Slot(head: nat, i: nat): (r: nat)
    ensures r < MAX_PENDING_TASKS
  {
    (head + i) % MAX_PENDING_TASKS
  }

  lemma SlotsDiffer(head: nat, i: nat, j: nat)
    requires i < j < MAX_PENDING_TASKS
    ensures Slot(head, i) != Slot(head, j)
  {
  }

  lemma HeadSlot(head: nat)
    requires head < MAX_PENDING_TASKS
    ensures Slot(head, 0) == head
  {
  }

  lemma FullTurn(x: nat)
    ensures (x + MAX_PENDING_TASKS) % MAX_PENDING_TASKS == x % MAX_PENDING_TASKS
    ensures x < MAX_PENDING_TASKS ==> x % MAX_PENDING_TASKS == x
  {
  }

  lemma SlotShift(head: nat, i: nat)
    requires head < MAX_PENDING_TASKS
    ensures Slot((head + 1) % MAX_PENDING_TASKS, i) == Slot(head, i + 1)
  {
    if head + 1 < MAX_PENDING_TASKS {
      FullTurn(head + 1);
    } else {
      FullTurn(0);
      FullTurn(i);
    }
  }

  /** How many slots lie from the head up to the tail. */
  function Between(head: nat, tail: nat): (r: nat)
    ensures r < MAX_PENDING_TASKS
  {
    (tail - head) % MAX_PENDING_TASKS
  }

  lemma HeadSteps(head: nat, tail: nat)
    requires head < MAX_PENDING_TASKS && tail < MAX_PENDING_TASKS && head != tail
    ensures Between(head, tail) > 0
    ensures Between((head + 1) % MAX_PENDING_TASKS, tail) == Between(head, tail) - 1
  {
  }

  lemma TailSteps(head: nat, tail: nat)
    requires head < MAX_PENDING_TASKS && tail < MAX_PENDING_TASKS
    ensures var n := Between(head, tail);
            Between(head, (tail + 1) % MAX_PENDING_TASKS) == if n < ROOM then n + 1 else 0
  {
  }

  lemma TailSlot(head: nat, tail: nat)
    requires tail < MAX_PENDING_TASKS
    ensures Slot(head, Between(head, tail)) == tail
  {
  }

  class TaskQueue<T(0, !new)> {
    const tasks: array<Option<T>>
    var head: nat
    var tail: nat
    var scheduled: bool

    ghost function Count(): nat
      reads this
    {
      Between(head, tail)
    }

    ghost predicate Valid()
      reads this, tasks
    {
      && tasks.Length == MAX_PENDING_TASKS
      && head < MAX_PENDING_TASKS && tail < MAX_PENDING_TASKS
      && forall i :: 0 <= i < Count() ==> tasks[Slot(head, i)].Some?
    }

    /** The waiting tasks, oldest first. */
    ghost function Queued(): (r: seq<T>)
      requires Valid()
      reads this, tasks
      ensures |r| == Count()
    {
      seq(Count(), i requires Valid() && 0 <= i < Count() reads this, tasks => tasks[Slot(head, i)].value)
    }

    constructor ()
      ensures Valid() && Queued() == [] && !scheduled && fresh(tasks)
    {
      tasks := new Option<T>[MAX_PENDING_TASKS](_ => None);
      head, tail, scheduled := 0, 0, false;
    }

    /** Stores a task; `requested` says whether a flush was asked for. */
    method Enqueue(task: T) returns (requested: bool)
      requires Valid()
      modifies this, tasks
      ensures Valid() && Queued() == Enqueued(old(Queued()), task)
      ensures scheduled && requested == !old(scheduled)
    {
      Store(task);
      requested := !scheduled;
      if !scheduled {
        scheduled := true;
      }
    }

    method Store(task: T)
      requires Valid()
      modifies this`tail, tasks
      ensures Valid() && Queued() == Enqueued(old(Queued()), task)
    {
      hide Slot, Between, NextSlot;
      ghost var n, was := Count(), Queued();
      TailSlot(head, tail);
      TailSteps(head, tail);
      forall i | 0 <= i < n ensures Slot(head, i) != tail {
        SlotsDiffer(head, i, n);
      }
      tasks[tail] := Some(task);
      assert Queued() == was && tasks[Slot(head, n)] == Some(task);
      NextWraps(tail);
      tail := NextSlot(tail);
    }

    /** Takes the oldest task out of its slot. */
    method Take() returns (task: T)
      requires Valid() && head != tail
      modifies this`head, tasks
      ensures Valid() && old(Queued()) == [task] + Queued()
    {
      hide Slot, Between, NextSlot;
      ghost var n, was := Count(), Queued();
      HeadSteps(head, tail);
      NextWraps(head);
      HeadSlot(head);
      task := tasks[head].value;
      tasks[head] := None;
      head := NextSlot(head);
      forall i | 0 <= i < n - 1 ensures tasks[Slot(head, i)] == Some(was[i + 1]) {
        SlotsDiffer(old(head), 0, i + 1);
        SlotShift(old(head), i);
      }
      assert Queued() == was[1..];
    }

    /**
     Runs what waits, oldest first, and what those tasks enqueue while they run, up to a task that throws;
     `spawn` tells what a task enqueues, and tasks that start only finitely many others have a `size`.
     */
    method Flush(spawn: T -> seq<T>, throws: T -> bool, ghost size: T -> nat) returns (ran: seq<T>)
      requires Valid() && Finite(spawn, size)
      modifies this, tasks
      ensures Valid() && Flushed(ran, Queued()) == Drained(old(Queued()), spawn, throws, size)
      ensures scheduled <==> AnySpawns(ran, spawn)
    {
      hide Drained, TotalSize, Finite, EnqueuedAll, Slot, AnySpawns;
      scheduled := false;
      ran := [];
      AnySpawnsNone(spawn);
      ghost var all := Drained(old(Queued()), spawn, throws, size);
      assert Queued() == old(Queued()) && [] + all.ran == all.ran;
      while head != tail
        invariant Valid()
        invariant scheduled <==> AnySpawns(ran, spawn)
        invariant var rest := Drained(Queued(), spawn, throws, size);
                  all == Flushed(ran + rest.ran, rest.left)
        decreases TotalSize(Queued(), size)
      {
        ghost var was := Queued();
        var task := Take();
        EnqueueAll(spawn(task));
        SpawnShrinks(was, spawn, size);
        DrainedNext(was, spawn, throws, size);
        assert was == [task] + was[1..];
        AnySpawnsSnoc(ran, task, spawn);
        ran := ran + [task];
        if throws(task) {
          return;
        }
      }
      DrainedNext(Queued(), spawn, throws, size);
    }

    /** What one task enqueues while it runs. */
    method EnqueueAll(spawned: seq<T>)
      requires Valid()
      modifies this, tasks
      ensures Valid() && Queued() == EnqueuedAll(old(Queued()), spawned)
      ensures scheduled == (old(scheduled) || spawned != [])
    {
      var i := 0;
      while i < |spawned|
        invariant i <= |spawned| && Valid() && scheduled == (old(scheduled) || i > 0)
        invariant Queued() == EnqueuedAll(old(Queued()), spawned[..i])
      {
        var _ := Enqueue(spawned[i]);
        assert spawned[..i + 1][..i] == spawned[..i];
        i := i + 1;
      }
      assert spawned[..i] == spawned;
    }
  }

  // ---------------------------------------------------------------- whole runs

  /**
   `flushing` is the flush's call frame and `calling` says that it has called a task; `ran` records the
   tasks called so far.
   */
  datatype Ring<T> = Ring(queued: seq<T>, scheduled: bool, flushing: bool, calling: bool, ran: seq<T>)

  /** `Throw` ends the task called last, and the flush with it. */
  datatype Step<T> =
    | Arrive(task: T)
    | BeginFlush
    | RunNext
    | Throw
    | EndFlush

  function After<T>(s: Ring<T>, step: Step<T>): Ring<T> {
    match step
    case Arrive(task) => s.(queued := Enqueued(s.queued, task), scheduled := true)
    case BeginFlush =>
      if s.scheduled && !s.flushing then s.(scheduled := false, flushing := true, calling := false) else s
    case RunNext =>
      if s.flushing && s.queued != [] then
        s.(queued := s.queued[1..], calling := true, ran := s.ran + [s.queued[0]])
      else s
    case Throw => if s.flushing && s.calling then s.(flushing := false) else s
    case EndFlush => if s.flushing && s.queued == [] then s.(flushing := false) else s
  }

  function Run<T>(steps: seq<Step<T>>): Ring<T> {
    if steps == [] then Ring([], false, false, false, [])
    else After(Run(steps[..|steps| - 1]), steps[|steps| - 1])
  }

  function Arrivals<T>(steps: seq<Step<T>>): seq<T> {
    if steps == [] then []
    else
      Arrivals(steps[..|steps| - 1])
      + match steps[|steps| - 1] case Arrive(task) => [task] case _ => []
  }

  /** No task arrives while the ring is full. */
  ghost predicate NeverFull<T>(steps: seq<Step<T>>) {
    forall i :: 0 <= i < |steps| && steps[i].Arrive? ==> |Run(steps[..i]).queued| < ROOM
  }

  lemma {:induction false} NothingInvented<T>(steps: seq<Step<T>>)
    ensures var s := Run(steps);
            && |s.queued| <= ROOM
            && |s.ran + s.queued| <= |Arrivals(steps)|
            && (!NeverFull(steps) ==> |s.ran + s.queued| < |Arrivals(steps)|)
  {
    if steps != [] {
      var n := |steps| - 1;
      NothingInvented(steps[..n]);
      NeverFullSnoc(steps);
    }
  }

  lemma NeverFullSnoc<T>(steps: seq<Step<T>>)
    requires steps != []
    ensures var n := |steps| - 1;
            NeverFull(steps) <==> NeverFull(steps[..n]) && (steps[n].Arrive? ==> |Run(steps[..n]).queued| < ROOM)
  {
    var n := |steps| - 1;
    assert forall i :: 0 <= i <= n ==> steps[..n][..i] == steps[..i];
  }

  /** Each task runs once and in order, over every interleaving, exactly when none arrives while the ring is full. */
  lemma {:induction false} FirstInFirstOutIff<T>(steps: seq<Step<T>>)
    ensures var s := Run(steps);
            s.ran + s.queued == Arrivals(steps) <==> NeverFull(steps)
  {
    if steps != [] {
      hide After, NeverFull;
      var n := |steps| - 1;
      FirstInFirstOutIff(steps[..n]);
      NothingInvented(steps);
      NeverFullSnoc(steps);
      if NeverFull(steps) {
        StaysInOrder(Run(steps[..n]), steps[n]);
      }
    }
  }

  lemma StaysInOrder<T>(s: Ring<T>, step: Step<T>)
    requires step.Arrive? ==> |s.queued| < ROOM
    ensures var t := After(s, step);
            t.ran + t.queued == s.ran + s.queued + match step case Arrive(task) => [task] case _ => []
  {
  }

  /** No flush is under way or asked for. */
  predicate Idle<T>(s: Ring<T>) {
    !s.scheduled && !s.flushing
  }

  /** A task throws while others wait and none has arrived since the flush began. */
  predicate Strands<T>(s: Ring<T>, step: Step<T>) {
    step.Throw? && s.flushing && s.calling && !s.scheduled && s.queued != []
  }

  /** Some task threw while others waited and no flush was asked for, and nothing has arrived since. */
  ghost predicate LeftByThrow<T>(steps: seq<Step<T>>) {
    exists k :: 0 <= k < |steps| && ThrewAt(steps, k)
  }

  ghost predicate ThrewAt<T>(steps: seq<Step<T>>, k: nat)
    requires k < |steps|
  {
    Strands(Run(steps[..k]), steps[k]) && forall j :: k < j < |steps| ==> !steps[j].Arrive?
  }

  lemma LeftByThrowSnoc<T>(steps: seq<Step<T>>)
    requires steps != []
    ensures var n := |steps| - 1;
            LeftByThrow(steps) <==>
            Strands(Run(steps[..n]), steps[n]) || (LeftByThrow(steps[..n]) && !steps[n].Arrive?)
  {
    hide Run, Strands;
    var n := |steps| - 1;
    forall k | 0 <= k < n ensures ThrewAt(steps, k) <==> ThrewAt(steps[..n], k) && !steps[n].Arrive? {
      assert steps[..n][..k] == steps[..k] && steps[..n][k] == steps[k];
      assert steps[k + 1..][n - k - 1] == steps[n];
    }
    assert Strands(Run(steps[..n]), steps[n]) <==> ThrewAt(steps, n);
  }

  /** Waiting tasks have no flush under way or asked for exactly when a task that threw left them so. */
  lemma {:induction false} StrandedIffLeftByThrow<T>(steps: seq<Step<T>>)
    ensures Idle(Run(steps)) && Run(steps).queued != [] <==> LeftByThrow(steps)
  {
    if steps != [] {
      hide LeftByThrow;
      StrandedIffLeftByThrow(steps[..|steps| - 1]);
      LeftByThrowSnoc(steps);
    }
  }

  /** With no flush under way or asked for, every task has run, in order, unless one that threw left some. */
  lemma IdleMeansAllRanIff<T>(steps: seq<Step<T>>)
    requires NeverFull(steps) && Idle(Run(steps))
    ensures Run(steps).ran == Arrivals(steps) <==> !LeftByThrow(steps)
  {
    StrandedIffLeftByThrow(steps);
    FirstInFirstOutIff(steps);
    assert Run(steps).queued == [] ==> Run(steps).ran + Run(steps).queued == Run(steps).ran;
  }

  function Arriving<T>(tasks: seq<T>): (r: seq<Step<T>>)
    ensures |r| == |tasks|
  {
    seq(|tasks|, i requires 0 <= i < |tasks| => Arrive(tasks[i]))
  }

  /** Tasks that arrive with no turn in between wait in order of arrival, up to 4095 of them. */
  lemma {:induction false} ArrivalsWait<T>(tasks: seq<T>)
    requires |tasks| <= ROOM
    ensures Run(Arriving(tasks)) == Ring(tasks, tasks != [], false, false, [])
  {
    if tasks != [] {
      var n := |tasks| - 1;
      ArrivalsWait(tasks[..n]);
      assert Arriving(tasks)[..n] == Arriving(tasks[..n]);
      assert tasks[..n] + [tasks[n]] == tasks;
    }
  }

  /** Of two tasks waiting for one flush, the first throws: the second waits, and no flush is asked for. */
  lemma ThrowStrands<T>(first: T, second: T)
    ensures var steps := [Arrive(first), Arrive(second), BeginFlush, RunNext, Throw];
            Run(steps) == Ring([second], false, false, true, [first]) && LeftByThrow(steps)
  {
    var steps := [Arrive(first), Arrive(second), BeginFlush, RunNext, Throw];
    var waiting := [Arrive(first), Arrive(second)];
    assert waiting == Arriving([first, second]);
    ArrivalsWait([first, second]);
    assert (waiting + [BeginFlush])[..2] == waiting;
    assert Run(waiting + [BeginFlush]) == Ring([first, second], false, true, false, []);
    assert (waiting + [BeginFlush, RunNext])[..3] == waiting + [BeginFlush];
    assert Run(waiting + [BeginFlush, RunNext]) == Ring([second], false, true, true, [first]);
    assert steps[..4] == waiting + [BeginFlush, RunNext];
    StrandedIffLeftByThrow(steps);
  }

  /** 4096 tasks that arrive with no turn in between are all lost: none waits, none has run. */
  lemma FullRingForgetsAll<T>(tasks: seq<T>)
    requires |tasks| == MAX_PENDING_TASKS
    ensures Run(Arriving(tasks[..ROOM])).queued == tasks[..ROOM]
    ensures Run(Arriving(tasks)).queued == [] && Run(Arriving(tasks)).ran == []
    ensures !NeverFull(Arriving(tasks))
  {
    ArrivalsWait(tasks[..ROOM]);
    assert Arriving(tasks)[..ROOM] == Arriving(tasks[..ROOM]);
    assert Arriving(tasks)[ROOM] == Arrive(tasks[ROOM]);
  }
}
