/**
 Clients that leave: the live stream of an updater is kept up by its own subscription until the first
 client leaves, and from then on only by the clients attached to it
 (src/json-rpc/polkadot/chain-head/state/manager.ts).
 */
module LateJoinDepartures {
  import opened Collections
  import opened BlockTracker
  import opened StateManager
  import opened ChainView
  import opened LateJoin

  /** `held` is the updater's own subscription to the live stream. */
  datatype Room = Room(hub: Hub, held: bool)

  datatype Move = Came | Left(client: nat) | Heard(event: Event)

  const NOBODY := Room(Hub(EMPTY, false, []), true)

  function SentSoFar(session: Session): seq<Event> {
    if session.Waiting? then [] else session.sent
  }

  predicate IsPresent(sessions: seq<Session>, n: int) {
    0 <= n < |sessions| && !sessions[n].Ended?
  }

  /** Something is subscribed to the live stream. */
  predicate Streaming(r: Room) {
    r.held || exists n :: 0 <= n < |r.hub.sessions| && r.hub.sessions[n].Attached?
  }

  function Departed(r: Room, n: nat): Room {
    if IsPresent(r.hub.sessions, n) then
      Room(r.hub.(sessions := r.hub.sessions[n := Ended(SentSoFar(r.hub.sessions[n]))]), false)
    else r
  }

  function After(r: Room, move: Move, max: nat): Room {
    match move
    case Came => r.(hub := Joined(r.hub))
    case Left(n) => Departed(r, n)
    case Heard(ev) => if Streaming(r) then Room(Received(r.hub, ev, max), r.held && !ev.Stop?) else r
  }

  function Played(moves: seq<Move>, max: nat): Room {
    if moves == [] then NOBODY
    else After(Played(moves[..|moves| - 1], max), moves[|moves| - 1], max)
  }

  // ---------------------------------------------------------------- the updater itself

  class Updater {
    const manager: Manager
    var held: bool

    function State(): Room
      reads this, manager, manager.tracker
    {
      Room(manager.State(), held)
    }

    constructor (maxKnown: nat)
      ensures State() == NOBODY && manager.tracker.maxKnown == maxKnown
      ensures fresh(manager) && fresh(manager.tracker)
    {
      manager := new Manager(maxKnown);
      held := true;
    }

    method Come()
      modifies manager
      ensures State() == After(old(State()), Came, manager.tracker.maxKnown)
    {
      manager.Join();
    }

    method Leave(n: nat)
      modifies this, manager
      ensures State() == After(old(State()), Left(n), manager.tracker.maxKnown)
    {
      if n < |manager.sessions| && !manager.sessions[n].Ended? {
        var sent := if manager.sessions[n].Waiting? then [] else manager.sessions[n].sent;
        manager.sessions := manager.sessions[n := Ended(sent)];
        if held {
          held := false;
        }
      }
    }

    method Hear(ev: Event)
      modifies this, manager, manager.tracker
      ensures State() == After(old(State()), Heard(ev), manager.tracker.maxKnown)
    {
      if held || exists n :: 0 <= n < |manager.sessions| && manager.sessions[n].Attached? {
        manager.Receive(ev);
        if ev.Stop? {
          held := false;
        }
      }
    }
  }

  // ---------------------------------------------------------------- the same moves without departures

  function AsSteps(move: Move): seq<Step> {
    match move
    case Came => [Join]
    case Left(_) => []
    case Heard(ev) => [Upstream(ev)]
  }

  function Stayed(moves: seq<Move>): seq<Step> {
    if moves == [] then [] else Stayed(moves[..|moves| - 1]) + AsSteps(moves[|moves| - 1])
  }

  lemma StayedSnoc(moves: seq<Move>)
    requires moves != []
    ensures var n := |moves| - 1;
            && EventsOf(Stayed(moves))
               == EventsOf(Stayed(moves[..n])) + (if moves[n].Heard? then [moves[n].event] else [])
            && (moves[n].Left? ==> Stayed(moves) == Stayed(moves[..n]))
  {
    var n := |moves| - 1;
    var was, more := Stayed(moves[..n]), AsSteps(moves[n]);
    assert EventsOf(was) + [] == EventsOf(was);
    if moves[n].Left? {
      assert was + more == was;
    } else {
      assert (was + more)[..|was + more| - 1] == was;
    }
  }

  lemma RunStayed(moves: seq<Move>, max: nat)
    requires moves != []
    ensures var n := |moves| - 1;
            var was, now := Run(Stayed(moves[..n]), max), Run(Stayed(moves), max);
            && (moves[n].Came? ==> now == Joined(was))
            && (moves[n].Left? ==> now == was)
            && (moves[n].Heard? ==> now == Received(was, moves[n].event, max))
  {
    hide Joined, Received;
    var n := |moves| - 1;
    var was, more := Stayed(moves[..n]), AsSteps(moves[n]);
    if moves[n].Left? {
      assert was + more == was;
    } else {
      assert (was + more)[..|was + more| - 1] == was;
    }
  }

  /** A client that left heard the beginning of what it would have heard. */
  ghost predicate LikeStaying(was: Session, staying: Session) {
    was == staying || (was.Ended? && SentSoFar(was) <= SentSoFar(staying))
  }

  ghost predicate LikeAllStaying(a: Hub, b: Hub) {
    && a.snap == b.snap && a.ready == b.ready && |a.sessions| == |b.sessions|
    && forall n :: 0 <= n < |a.sessions| ==> LikeStaying(a.sessions[n], b.sessions[n])
  }

  lemma OpeningLikeStaying(a: Hub, b: Hub, ev: Event, max: nat)
    requires LikeAllStaying(a, b) && ev.Initialized?
    ensures LikeAllStaying(Received(a, ev, max), Received(b, ev, max))
  {
    hide Flushed, SnapshotEvents, InitializedSnapshot, Filter;
  }

  lemma StopLikeStaying(a: Hub, b: Hub, max: nat)
    requires LikeAllStaying(a, b)
    ensures LikeAllStaying(Received(a, Stop, max), Received(b, Stop, max))
  {
    hide Flushed, Filter;
  }

  lemma LiveLikeStaying(a: Hub, b: Hub, ev: Event, max: nat)
    requires LikeAllStaying(a, b) && !ev.Initialized? && !ev.Stop?
    ensures LikeAllStaying(Received(a, ev, max), Received(b, ev, max))
  {
    hide Arrived, FinalizedSnapshot, Filter;
  }

  lemma ReceivedLikeStaying(a: Hub, b: Hub, ev: Event, max: nat)
    requires LikeAllStaying(a, b)
    ensures LikeAllStaying(Received(a, ev, max), Received(b, ev, max))
  {
    hide LikeAllStaying, Received;
    if ev.Initialized? {
      OpeningLikeStaying(a, b, ev, max);
    } else if ev.Stop? {
      StopLikeStaying(a, b, max);
    } else {
      LiveLikeStaying(a, b, ev, max);
    }
  }

  lemma JoinedLikeStaying(a: Hub, b: Hub)
    requires LikeAllStaying(a, b)
    ensures LikeAllStaying(Joined(a), Joined(b))
  {
    hide SnapshotEvents;
  }

  lemma DepartedLikeStaying(r: Room, b: Hub, n: nat)
    requires LikeAllStaying(r.hub, b)
    ensures LikeAllStaying(Departed(r, n).hub, b)
  {
  }

  // ---------------------------------------------------------------- who hears, and who never does

  /** Whenever an event arrives, some client is there or none has left yet: otherwise the follow is destroyed. */
  ghost predicate Attended(moves: seq<Move>, max: nat) {
    forall k :: 0 <= k < |moves| && moves[k].Heard? ==> AttendedBy(Played(moves[..k], max))
  }

  ghost predicate AttendedBy(r: Room) {
    r.held || exists n :: IsPresent(r.hub.sessions, n)
  }

  /** Some client left before the opening arrived. */
  ghost predicate LeftEarly(moves: seq<Move>, max: nat) {
    exists k :: 0 <= k < |moves| && LeavesEarly(moves[..k], moves[k], max)
  }

  ghost predicate LeavesEarly(moves: seq<Move>, move: Move, max: nat) {
    && move.Left? && IsPresent(Played(moves, max).hub.sessions, move.client)
    && EventsOf(Stayed(moves)) == []
  }

  lemma AttendedSnoc(moves: seq<Move>, max: nat)
    requires moves != []
    ensures var n := |moves| - 1;
            Attended(moves, max) ==>
              Attended(moves[..n], max) && (moves[n].Heard? ==> AttendedBy(Played(moves[..n], max)))
  {
    hide Played, AttendedBy;
    var n := |moves| - 1;
    assert forall k :: 0 <= k < n ==> moves[..n][..k] == moves[..k];
  }

  lemma LeftEarlySnoc(moves: seq<Move>, max: nat)
    requires moves != []
    ensures var n := |moves| - 1;
            LeftEarly(moves, max) <==> LeftEarly(moves[..n], max) || LeavesEarly(moves[..n], moves[n], max)
  {
    hide LeavesEarly;
    var n := |moves| - 1;
    forall k | 0 <= k < n ensures moves[..n][..k] == moves[..k] && moves[..n][k] == moves[k] {
    }
  }

  /** Before the opening nobody has heard anything. */
  ghost predicate Quiet(h: Hub) {
    h.snap == EMPTY && !h.ready && forall n :: 0 <= n < |h.sessions| ==> h.sessions[n] in {Waiting, Ended([])}
  }

  lemma {:induction false} QuietBeforeTheOpening(moves: seq<Move>, max: nat)
    requires EventsOf(Stayed(moves)) == []
    ensures Quiet(Played(moves, max).hub)
  {
    if moves != [] {
      StayedSnoc(moves);
      QuietBeforeTheOpening(moves[..|moves| - 1], max);
    }
  }

  /** Once a client has left early nothing keeps the live stream up: no event is ever heard again. */
  lemma {:induction false} SilentAfterLeavingEarly(moves: seq<Move>, max: nat)
    requires LeftEarly(moves, max)
    ensures Quiet(Played(moves, max).hub) && !Played(moves, max).held
  {
    hide LeftEarly;
    LeftEarlySome(moves, max);
    var n := |moves| - 1;
    LeftEarlySnoc(moves, max);
    if LeftEarly(moves[..n], max) {
      SilentAfterLeavingEarly(moves[..n], max);
    } else {
      QuietBeforeTheOpening(moves[..n], max);
    }
  }

  lemma LeftEarlySome(moves: seq<Move>, max: nat)
    ensures LeftEarly(moves, max) ==> moves != []
  {
  }

  /** Unless a client left early, those who stay are served as if nobody ever left. */
  lemma {:induction false} LeaversDisturbNobody(moves: seq<Move>, max: nat)
    requires var events := EventsOf(Stayed(moves)); WellFormed(events, max)
    requires Attended(moves, max) && !LeftEarly(moves, max)
    ensures LikeAllStaying(Played(moves, max).hub, Run(Stayed(moves), max))
    ensures Played(moves, max).held || EventsOf(Stayed(moves)) != []
  {
    if moves != [] {
      var n := |moves| - 1;
      var r, b := Played(moves[..n], max), Run(Stayed(moves[..n]), max);
      var was, events := EventsOf(Stayed(moves[..n])), EventsOf(Stayed(moves));
      StayedSnoc(moves);
      assert was == events[..|was|];
      WellFormedPrefix(events, |was|, max);
      AttendedSnoc(moves, max);
      LeftEarlySnoc(moves, max);
      LeaversDisturbNobody(moves[..n], max);
      RunStayed(moves, max);
      match moves[n] {
        case Came => JoinedLikeStaying(r.hub, b);
        case Left(i) => DepartedLikeStaying(r, b, i);
        case Heard(ev) =>
          HandoffIsExact(Stayed(moves[..n]), max);
          ReceivedLikeStaying(r.hub, b, ev, max);
      }
    }
  }

  lemma PointsStayed(moves: seq<Move>)
    requires moves != []
    ensures var n := |moves| - 1;
            |JoinPoints(Stayed(moves))| == |JoinPoints(Stayed(moves[..n]))| + if moves[n].Came? then 1 else 0
  {
    hide EventsOf;
    var n := |moves| - 1;
    var was, more := Stayed(moves[..n]), AsSteps(moves[n]);
    if moves[n].Left? {
      assert was + more == was;
    } else {
      assert (was + more)[..|was + more| - 1] == was;
    }
  }

  lemma SessionsAfter(r: Room, move: Move, max: nat)
    ensures |After(r, move, max).hub.sessions| == |r.hub.sessions| + if move.Came? then 1 else 0
  {
    hide Arrived, SnapshotEvents, FinalizedSnapshot, InitializedSnapshot, Filter, Streaming;
  }

  lemma {:induction false} EveryClientJoined(moves: seq<Move>, max: nat)
    ensures |JoinPoints(Stayed(moves))| == |Played(moves, max).hub.sessions|
  {
    if moves != [] {
      hide After, Stayed, JoinPoints;
      var n := |moves| - 1;
      EveryClientJoined(moves[..n], max);
      PointsStayed(moves);
      SessionsAfter(Played(moves[..n], max), moves[n], max);
    }
  }

  /**
   Every client that stays is sent the replay of its join and then each later event, exactly when no
   client left before the opening arrived; otherwise it is never sent anything.
   */
  lemma StayersAreServedIff(moves: seq<Move>, n: nat, max: nat)
    requires var events := EventsOf(Stayed(moves)); WellFormed(events, max) && events != []
    requires Attended(moves, max) && IsPresent(Played(moves, max).hub.sessions, n)
    ensures n < |JoinPoints(Stayed(moves))|
    ensures var session := Played(moves, max).hub.sessions[n];
            && (Served(session, EventsOf(Stayed(moves)), JoinPoints(Stayed(moves))[n], max) <==> !LeftEarly(moves, max))
            && (session == Waiting <==> LeftEarly(moves, max))
  {
    hide Played, Attended, LeftEarly, LeavesEarly, Received, Joined, WellFormed, SentTo, Run;
    EveryClientJoined(moves, max);
    if LeftEarly(moves, max) {
      SilentAfterLeavingEarly(moves, max);
    } else {
      LeaversDisturbNobody(moves, max);
      HandoffIsExact(Stayed(moves), max);
    }
  }

  /**
   Late-join equivalence with clients that leave: a client that stays sees the chain of a client that
   folded the whole history exactly when no client left before the opening arrived.
   */
  lemma StayersSeeTheSameChainIff(moves: seq<Move>, n: nat, max: nat)
    requires var events := EventsOf(Stayed(moves)); WellFormed(events, max) && events != []
    requires Attended(moves, max) && IsPresent(Played(moves, max).hub.sessions, n)
    ensures var session := Played(moves, max).hub.sessions[n];
            session.Attached? && SameChain(Folded(BLANK, session.sent), Folded(BLANK, EventsOf(Stayed(moves))))
            <==> !LeftEarly(moves, max)
  {
    hide Played, Attended, LeftEarly, LeavesEarly, Received, Joined, WellFormed, SentTo, Run, SameChain, Folded;
    StayersAreServedIff(moves, n, max);
    if !LeftEarly(moves, max) {
      LeaversDisturbNobody(moves, max);
      HandoffIsExact(Stayed(moves), max);
      LateJoinersSeeTheSameChain(Stayed(moves), n, max);
    }
  }

  lemma TwoWaiting(max: nat)
    ensures Played([Came, Came], max) == NOBODY.(hub := NOBODY.hub.(sessions := [Waiting, Waiting]))
    ensures EventsOf(Stayed([Came, Came])) == []
  {
    assert [Came, Came][..1] == [Came] && [Came][..0] == [];
    assert Played([Came], max) == NOBODY.(hub := Joined(NOBODY.hub));
    assert Joined(Joined(NOBODY.hub)).sessions == [Waiting, Waiting];
    StayedSnoc([Came, Came]);
    StayedSnoc([Came]);
  }

  /** Of two clients waiting for the opening one leaves: the opening never reaches the other. */
  lemma EarlyLeaverSilencesTheOther(o: Opening, max: nat)
    ensures var moves := [Came, Came, Left(0), Heard(Initialized(o))];
            && Played(moves, max) == Room(Hub(EMPTY, false, [Ended([]), Waiting]), false)
            && Attended(moves, max) && LeftEarly(moves, max)
  {
    var moves := [Came, Came, Left(0), Heard(Initialized(o))];
    TwoWaiting(max);
    assert moves[..2] == [Came, Came] && moves[..3][..2] == [Came, Came] && moves[..4] == moves;
    var r := Played(moves[..3], max);
    assert r == Departed(Played([Came, Came], max), 0) == Room(Hub(EMPTY, false, [Ended([]), Waiting]), false);
    assert IsPresent(r.hub.sessions, 1);
    assert LeavesEarly(moves[..2], moves[2], max);
  }

  // ---------------------------------------------------------------- the end of the stream

  function AfterAll(r: Room, moves: seq<Move>, max: nat): Room {
    if moves == [] then r else After(AfterAll(r, moves[..|moves| - 1], max), moves[|moves| - 1], max)
  }

  /** Nothing keeps the live stream up, and nobody who joins will be attached to it. */
  ghost predicate Silent(r: Room) {
    !r.held && !r.hub.ready && forall n :: 0 <= n < |r.hub.sessions| ==> !r.hub.sessions[n].Attached?
  }

  lemma SilentStays(r: Room, move: Move, max: nat)
    requires Silent(r)
    ensures Silent(After(r, move, max)) && After(r, move, max).hub.snap == r.hub.snap
  {
  }

  lemma StopSilences(r: Room, max: nat)
    requires Streaming(r)
    ensures Silent(After(r, Heard(Stop), max))
  {
    hide Flushed;
  }

  /** `stop` ends the live stream for good: whatever follows, no event is folded and nobody hears one. */
  lemma {:induction false} NothingAfterStop(r: Room, more: seq<Move>, max: nat)
    requires Streaming(r)
    ensures var q := After(r, Heard(Stop), max);
            Silent(AfterAll(q, more, max)) && AfterAll(q, more, max).hub.snap == q.hub.snap
  {
    hide Silent, After;
    var q := After(r, Heard(Stop), max);
    if more == [] {
      StopSilences(r, max);
    } else {
      NothingAfterStop(r, more[..|more| - 1], max);
      SilentStays(AfterAll(q, more[..|more| - 1], max), more[|more| - 1], max);
    }
  }
}
