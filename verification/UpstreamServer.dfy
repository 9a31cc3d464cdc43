/**
 * Requests over one upstream connection: client ids are replaced by connection-local numbers, and
 * an incoming message is matched back to its request, queued, and delivered by the task ring.
 *
 * A pending entry is the callback of one request, so the map goes from upstream id to the number
 * of the request. A promise keeps the first value it is resolved with. The socket, its timers and
 * the parsing of messages are steps from outside: unreadable data is `None`.
 */
module UpstreamServer {
  import opened Collections
  import Ring = TaskQueue

  datatype Id = Null | Number(n: int) | Text(s: string)

  datatype Message = Message(id: Option<Id>, body: string)

  datatype Reply = NotConnected | TimedOut | Answered(body: string)

  datatype Response = Response(id: Id, reply: Reply)

  datatype Request = Request(clientId: Id, upstreamId: nat, sent: bool, armed: bool, settled: Option<Response>)

  /** A task of the ring: the callback of a request with its message, or one that is no concern of the server. */
  datatype Task = Other | Resolve(request: nat, message: Message)

  /** `Closing`: the socket is still the current one but no longer open. */
  datatype Link = Down | Up | Closing

  datatype Server = Server(
    link: Link,
    nextId: nat,
    pending: map<nat, nat>,
    requests: seq<Request>,
    queue: seq<Task>,
    notified: seq<Message>)

  datatype Step =
    | Opened
    | LinkClosing
    | Closed
    | TakeId
    | Ask(id: Option<Id>)
    | Receive(data: Option<Message>)
    | Fire(request: nat)
    | OtherTask
    | RunTask

  const START := Server(Down, 0, map[], [], [], [])

  // ---------------------------------------------------------------- specification

  /** Resolving the promise of a request. */
  function Settled(r: Request, reply: Reply): Request {
    if r.settled.Some? then r else r.(settled := Some(Response(r.clientId, reply)))
  }

  function Asked(s: Server, id: Option<Id>): Server {
    var clientId := if id.Some? then id.value else Null;
    if s.link != Up then
      s.(nextId := s.nextId + 1,
         requests := s.requests
         + [Request(clientId, s.nextId, false, false, Some(Response(clientId, NotConnected)))])
    else
      s.(nextId := s.nextId + 1,
         pending := s.pending[s.nextId := |s.requests|],
         requests := s.requests + [Request(clientId, s.nextId, true, true, None)])
  }

  /** The upstream id that a message answers, if a request waits for it. */
  function Match(pending: map<nat, nat>, message: Message): Option<nat> {
    match message.id
    case Some(Number(n)) => if n >= 0 && n in pending then Some(n) else None
    case _ => None
  }

  function Received(s: Server, data: Option<Message>): Server {
    match data
    case None => s
    case Some(message) =>
      match Match(s.pending, message)
      case None => s.(notified := s.notified + [message])
      case Some(n) =>
        s.(pending := s.pending - {n}, queue := Ring.Enqueued(s.queue, Resolve(s.pending[n], message)))
  }

  function TimeOut(s: Server, r: nat): Server {
    if r < |s.requests| && s.requests[r].armed then
      s.(pending := s.pending - {s.requests[r].upstreamId},
         requests := s.requests[r := Settled(s.requests[r].(armed := false), TimedOut)])
    else s
  }

  function Delivered(requests: seq<Request>, task: Task): seq<Request> {
    match task
    case Other => requests
    case Resolve(r, message) =>
      if r < |requests| then requests[r := Settled(requests[r].(armed := false), Answered(message.body))]
      else requests
  }

  function Next(s: Server, step: Step): Server {
    match step
    case Opened => s.(link := Up)
    case LinkClosing => if s.link == Up then s.(link := Closing) else s
    case Closed => s.(link := Down, pending := map[])
    case TakeId => s.(nextId := s.nextId + 1)
    case Ask(id) => Asked(s, id)
    case Receive(data) => Received(s, data)
    case Fire(r) => TimeOut(s, r)
    case OtherTask => s.(queue := Ring.Enqueued(s.queue, Other))
    case RunTask =>
      if s.queue == [] then s
      else s.(queue := s.queue[1..], requests := Delivered(s.requests, s.queue[0]))
  }

  // ---------------------------------------------------------------- the server

  class UpstreamServer {
    var link: Link
    var nextId: nat
    var pending: map<nat, nat>
    var requests: seq<Request>
    var notified: seq<Message>
    const queue: Ring.TaskQueue<Task>

    ghost predicate Valid()
      reads this, queue, queue.tasks
    {
      queue.Valid()
    }

    ghost function State(): Server
      requires Valid()
      reads this, queue, queue.tasks
    {
      Server(link, nextId, pending, requests, queue.Queued(), notified)
    }

    constructor ()
      ensures Valid() && State() == START && fresh(queue) && fresh(queue.tasks)
    {
      link, nextId, pending, requests, notified := Down, 0, map[], [], [];
      queue := new Ring.TaskQueue<Task>();
    }

    method OnOpen()
      requires Valid()
      modifies this`link
      ensures Valid() && State() == Next(old(State()), Opened)
    {
      link := Up;
    }

    /** The socket closed by itself: everything pending is forgotten, its timers are not. */
    method OnClose()
      requires Valid()
      modifies this`link, this`pending
      ensures Valid() && State() == Next(old(State()), Closed)
    {
      link := Down;
      CleanUp();
    }

    method CleanUp()
      requires Valid()
      modifies this`pending
      ensures Valid() && State() == old(State()).(pending := map[])
    {
      pending := map[];
    }

    method NextId() returns (id: nat)
      requires Valid()
      modifies this`nextId
      ensures Valid() && State() == Next(old(State()), TakeId) && id == old(nextId)
    {
      id := nextId;
      nextId := nextId + 1;
    }

    /** Starts a request; `sent` is the message that goes upstream, if one does. */
    method StartRequest(id: Option<Id>, body: string) returns (sent: Option<Message>)
      requires Valid()
      modifies this`nextId, this`pending, this`requests
      ensures Valid() && State() == Next(old(State()), Ask(id))
      ensures sent == if link == Up then Some(Message(Some(Number(old(nextId))), body)) else None
    {
      var clientId := if id.Some? then id.value else Null;
      var upstreamId := NextId();
      if link != Up {
        requests := requests
        + [Request(clientId, upstreamId, false, false, Some(Response(clientId, NotConnected)))];
        return None;
      }
      pending := pending[upstreamId := |requests|];
      requests := requests + [Request(clientId, upstreamId, true, true, None)];
      return Some(Message(Some(Number(upstreamId)), body));
    }

    method HandleMessage(data: Option<Message>)
      requires Valid()
      modifies this`pending, this`notified, queue, queue.tasks
      ensures Valid() && State() == Next(old(State()), Receive(data))
    {
      match data
      case None =>
      case Some(message) =>
        match message.id
        case Some(Number(n)) =>
          if n >= 0 && n in pending {
            var request := pending[n];
            pending := pending - {n};
            var _ := queue.Enqueue(Resolve(request, message));
            return;
          }
          notified := notified + [message];
        case _ =>
          notified := notified + [message];
    }

    method OnTimeout(r: nat)
      requires Valid() && r < |requests| && requests[r].armed
      modifies this`pending, this`requests
      ensures Valid() && State() == Next(old(State()), Fire(r))
    {
      pending := pending - {requests[r].upstreamId};
      ResolvePromise(r, TimedOut);
    }

    /** The timer is gone, fired or cleared, and the promise takes the reply unless it has one. */
    method ResolvePromise(r: nat, reply: Reply)
      requires Valid() && r < |requests|
      modifies this`requests
      ensures Valid()
      ensures requests == old(requests)[r := Settled(old(requests)[r].(armed := false), reply)]
    {
      requests := requests[r := requests[r].(armed := false)];
      if requests[r].settled.None? {
        requests := requests[r := requests[r].(settled := Some(Response(requests[r].clientId, reply)))];
      }
    }

    /** One turn of the ring's loop. */
    method RunNext()
      requires Valid() && queue.Queued() != []
      modifies this`requests, queue, queue.tasks
      ensures Valid() && State() == Next(old(State()), RunTask)
    {
      var task := queue.Take();
      if task.Resolve? && task.request < |requests| {
        ResolvePromise(task.request, Answered(task.message.body));
      }
    }
  }
}
