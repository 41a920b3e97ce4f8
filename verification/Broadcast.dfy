// The event broadcaster as interleaved atomic steps: publisher threads that
// snapshot the subscribers and post sends one by one, and the WebSocket loop
// that runs those sends, upgrades sockets, drops them and deletes them.

module Broadcast {
  type Socket = nat
  type Thread = nat
  type Filter = string

  // One published event: who published it, for which pipeline, and its number.
  datatype Event = Event(thread: Thread, pipeline: string, number: nat)

  // What is posted on the loop.
  datatype Task = SendTask(ws: Socket, event: Event) | DeleteTask(ws: Socket)

  // A publisher between its snapshot and its last post.
  datatype Flight = Flight(event: Event, targets: seq<Socket>)

  // Where the loop thread is inside the callable it runs.
  datatype Loop = Idle | Checked(ws: Socket, event: Event) | Dropping(ws: Socket)

  datatype State = State(
    subs: map<Socket, Filter>,
    queue: seq<Task>,
    flights: map<Thread, Flight>,
    loop: Loop,
    connected: set<Socket>,
    deleted: set<Socket>,
    // What has happened so far.
    published: seq<Event>,
    joined: map<Socket, nat>,
    left: map<Socket, nat>,
    filters: map<Socket, Filter>,
    received: map<Socket, seq<Event>>)

  const START := State(map[], [], map[], Idle, {}, {}, [], map[], map[], map[], map[])

  datatype Step =
    | Upgrade(ws: Socket, filter: Filter)
    | Snapshot(thread: Thread, pipeline: string, targets: seq<Socket>)
    | Post(thread: Thread)
    | Hangup(ws: Socket)
    | Signal(ws: Socket)
    | PostDelete
    | TakeTask
    | FinishSend(fails: bool)

  predicate Matches(filter: Filter, pipeline: string) {
    filter == "" || filter == pipeline
  }

  // `targets` lists every matching subscriber once, in some order.
  ghost predicate Enumerates(targets: seq<Socket>, subs: map<Socket, Filter>, pipeline: string) {
    && (forall ws :: ws in targets <==> ws in subs && Matches(subs[ws], pipeline))
    && (forall i, j :: 0 <= i < j < |targets| ==> targets[i] != targets[j])
  }

  ghost predicate Enabled(s: State, step: Step) {
    match step
    // Socket identities are never reused.
    case Upgrade(ws, _) => s.loop.Idle? && ws !in s.joined
    case Snapshot(t, pipeline, targets) => t !in s.flights && Enumerates(targets, s.subs, pipeline)
    case Post(t) => t in s.flights && s.flights[t].targets != []
    case Hangup(ws) => ws in s.connected
    // Only a live socket can emit its disconnect or error signal.
    case Signal(ws) => s.loop.Idle? && ws in s.joined && ws !in s.deleted
    case PostDelete => s.loop.Dropping?
    case TakeTask => s.loop.Idle? && s.queue != []
    case FinishSend(_) => s.loop.Checked?
  }

  // The locked half of dropping a subscriber; the other half posts the delete.
  function Unsubscribe(s: State, ws: Socket): State {
    if ws in s.subs then
      s.(subs := s.subs - {ws}, left := s.left[ws := |s.published|], loop := Dropping(ws))
    else s.(loop := Idle)
  }

  function Deliver(s: State, ws: Socket, e: Event): State {
    s.(received := s.received[ws := (if ws in s.received then s.received[ws] else []) + [e]], loop := Idle)
  }

  // The loop takes the task at the front of its queue.
  function Taken(s: State, task: Task): State
    requires s.queue != []
  {
    s.(queue := s.queue[1..],
       loop := if task.SendTask? && task.ws in s.subs then Checked(task.ws, task.event) else s.loop,
       deleted := if task.DeleteTask? then s.deleted + {task.ws} else s.deleted)
  }

  function Do(s: State, step: Step): State {
    match step
    case Upgrade(ws, filter) =>
      s.(subs := s.subs[ws := filter],
         connected := s.connected + {ws},
         joined := s.joined[ws := |s.published|],
         filters := s.filters[ws := filter],
         received := s.received[ws := []])
    case Snapshot(t, pipeline, targets) =>
      var e := Event(t, pipeline, |s.published|);
      s.(published := s.published + [e],
         flights := if targets == [] then s.flights else s.flights[t := Flight(e, targets)])
    case Post(t) =>
      if t !in s.flights || s.flights[t].targets == [] then s
      else
        var f := s.flights[t];
        s.(queue := s.queue + [SendTask(f.targets[0], f.event)],
           flights := if |f.targets| == 1 then s.flights - {t}
                      else s.flights[t := f.(targets := f.targets[1..])])
    case Hangup(ws) => s.(connected := s.connected - {ws})
    case Signal(ws) => Unsubscribe(s, ws)
    case PostDelete =>
      if s.loop.Dropping? then s.(queue := s.queue + [DeleteTask(s.loop.ws)], loop := Idle) else s
    case TakeTask => if s.queue == [] then s else Taken(s, s.queue[0])
    // A send that fails reports it at once, and the report drops the socket.
    case FinishSend(fails) =>
      if !s.loop.Checked? then s
      else if s.loop.ws !in s.connected then s.(loop := Idle)
      else if fails then Unsubscribe(s, s.loop.ws)
      else Deliver(s, s.loop.ws, s.loop.event)
  }

  function Run(s: State, steps: seq<Step>): State {
    if |steps| == 0 then s else Do(Run(s, steps[..|steps| - 1]), steps[|steps| - 1])
  }

  // Every step of the run could be taken when it was taken.
  ghost predicate Possible(steps: seq<Step>) {
    forall n :: 0 <= n < |steps| ==> Enabled(Run(START, steps[..n]), steps[n])
  }

  // ---------------------------------------------------------------------
  // What the safety and delivery properties talk about
  // ---------------------------------------------------------------------

  // The sockets a step dereferences.
  function Touched(s: State, step: Step): set<Socket> {
    match step
    case FinishSend(_) => if s.loop.Checked? then {s.loop.ws} else {}
    case Signal(ws) => {ws}
    case TakeTask => if s.queue != [] && s.queue[0].DeleteTask? then {s.queue[0].ws} else {}
    case _ => {}
  }

  // Events that a socket's filter lets through.
  function Wanted(events: seq<Event>, filter: Filter): seq<Event> {
    if events == [] then []
    else
      var n := |events| - 1;
      Wanted(events[..n], filter) + (if Matches(filter, events[n].pipeline) then [events[n]] else [])
  }

  // What a socket is owed: the matching events published while it was subscribed.
  function Owed(s: State, ws: Socket): seq<Event> {
    var until := if ws in s.left then s.left[ws] else |s.published|;
    if ws in s.joined && ws in s.filters && s.joined[ws] <= until <= |s.published|
    then Wanted(s.published[s.joined[ws]..until], s.filters[ws]) else []
  }

  // What has arrived at a socket.
  function Got(s: State, ws: Socket): seq<Event> {
    if ws in s.received then s.received[ws] else []
  }

  function From(t: Thread, events: seq<Event>): seq<Event> {
    if events == [] then []
    else
      var n := |events| - 1;
      From(t, events[..n]) + (if events[n].thread == t then [events[n]] else [])
  }

  // The events queued for a socket, in order.
  function Queued(queue: seq<Task>, ws: Socket): seq<Event> {
    if queue == [] then []
    else
      var n := |queue| - 1;
      Queued(queue[..n], ws) +
      (if queue[n].SendTask? && queue[n].ws == ws then [queue[n].event] else [])
  }
}
