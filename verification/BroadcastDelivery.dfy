// What each socket receives: for every publisher, a prefix of the matching
// events that publisher sent out since the socket joined, in publish order; and
// all of them once the loop is idle, if the socket is still there.

module BroadcastDelivery {
  import opened Broadcast
  import opened BroadcastSafety

  ghost predicate Bookkept(s: State) {
    && Registered(s)
    && (s.loop.Checked? ==> s.loop.ws in s.subs)
    && (s.loop.Dropping? ==> s.loop.ws in s.joined)
    && FlightsValid(s.flights, s.joined.Keys) && QueueValid(s.queue, s.joined.Keys) && Numbered(s.published)
  }

  ghost predicate Registered(s: State) {
    && s.filters.Keys == s.joined.Keys == s.received.Keys
    && s.subs.Keys <= s.joined.Keys && s.left.Keys == s.joined.Keys - s.subs.Keys
    && (forall ws :: ws in s.subs ==> s.subs[ws] == s.filters[ws])
    && (forall ws :: ws in s.joined ==> s.joined[ws] <= |s.published|)
    && (forall ws :: ws in s.left ==> s.joined[ws] <= s.left[ws] <= |s.published|)
  }

  // Only sockets that have joined are ever posted to.
  ghost predicate QueueValid(queue: seq<Task>, known: set<Socket>) {
    forall i :: 0 <= i < |queue| ==> queue[i].ws in known
  }

  ghost predicate FlightsValid(flights: map<Thread, Flight>, known: set<Socket>) {
    forall t :: t in flights ==> FlightValid(flights[t], t) && forall ws :: ws in flights[t].targets ==> ws in known
  }

  ghost predicate Numbered(events: seq<Event>) {
    forall i :: 0 <= i < |events| ==> events[i].number == i
  }

  ghost predicate FlightValid(f: Flight, t: Thread) {
    && f.event.thread == t && f.targets != []
    && forall i, j :: 0 <= i < j < |f.targets| ==> f.targets[i] != f.targets[j]
  }

  // The event of thread `t` that still has to be posted for `ws`, if any.
  function InFlight(s: State, t: Thread, ws: Socket): seq<Event> {
    if t in s.flights && ws in s.flights[t].targets then [s.flights[t].event] else []
  }

  // The event the loop has just checked for `ws` and not sent yet.
  function InHand(s: State, ws: Socket): seq<Event> {
    if s.loop.Checked? && s.loop.ws == ws then [s.loop.event] else []
  }

  // Everything of thread `t` on its way to `ws`, first what has arrived.
  function Pipe(s: State, t: Thread, ws: Socket): seq<Event> {
    From(t, Got(s, ws) + (InHand(s, ws) + Queued(s.queue, ws))) + InFlight(s, t, ws)
  }

  ghost predicate Live(s: State, ws: Socket) {
    ws in s.subs && ws in s.connected
  }

  ghost predicate Delivers(s: State, t: Thread, ws: Socket) {
    && (Live(s, ws) ==> Pipe(s, t, ws) == From(t, Owed(s, ws)))
    && From(t, Got(s, ws)) <= From(t, Owed(s, ws))
  }

  // ---------------------------------------------------------------------
  // Projections
  // ---------------------------------------------------------------------

  lemma {:induction false} FromAppend(t: Thread, a: seq<Event>, b: seq<Event>)
    ensures From(t, a + b) == From(t, a) + From(t, b)
    decreases |b|
  {
    if b == [] {
      assert a + b == a;
    } else {
      var n := |b| - 1;
      assert (a + b)[..|a + b| - 1] == a + b[..n];
      FromAppend(t, a, b[..n]);
    }
  }

  lemma {:induction false} FromOne(t: Thread, e: Event)
    ensures From(t, [e]) == if e.thread == t then [e] else []
    ensures From(t, []) == []
  {
    assert [e][..0] == [];
  }

  lemma {:induction false} QueuedAppend(a: seq<Task>, b: seq<Task>, ws: Socket)
    ensures Queued(a + b, ws) == Queued(a, ws) + Queued(b, ws)
    decreases |b|
  {
    if b == [] {
      assert a + b == a;
    } else {
      var n := |b| - 1;
      assert (a + b)[..|a + b| - 1] == a + b[..n];
      QueuedAppend(a, b[..n], ws);
    }
  }

  lemma {:induction false} QueuedOne(task: Task, ws: Socket)
    ensures Queued([task], ws) == if task.SendTask? && task.ws == ws then [task.event] else []
  {
    assert [task][..0] == [];
  }

  lemma {:induction false} WantedMore(events: seq<Event>, e: Event, filter: Filter)
    ensures Wanted(events + [e], filter) ==
            Wanted(events, filter) + if Matches(filter, e.pipeline) then [e] else []
  {
    assert (events + [e])[..|events|] == events;
  }

  // ---------------------------------------------------------------------
  // One step
  // ---------------------------------------------------------------------

  lemma StepBookkept(s: State, step: Step)
    requires Bookkept(s) && Enabled(s, step)
    ensures Bookkept(Do(s, step))
  {
    hide Bookkept, Enumerates;
    match step
    case Upgrade(ws, filter) => UpgradeBookkept(s, ws, filter);
    case Signal(ws) => UnsubscribeBookkept(s, ws);
    case FinishSend(fails) => FinishSendBookkept(s, fails);
    case Snapshot(_, _, _) => SnapshotBookkept(s, step);
    case Post(t) => PostBookkept(s, t);
    case TakeTask => TakeBookkept(s);
    case PostDelete => PostDeleteBookkept(s);
    case Hangup(ws) => HangupBookkept(s, ws);
  }

  lemma UpgradeBookkept(s: State, ws: Socket, filter: Filter)
    requires Bookkept(s) && ws !in s.joined
    ensures Bookkept(Do(s, Upgrade(ws, filter)))
  {
    hide FlightValid, Numbered, Registered;
    UpgradeRegistered(s, ws, filter);
    assert Do(s, Upgrade(ws, filter)).joined.Keys == s.joined.Keys + {ws};
  }

  lemma UpgradeRegistered(s: State, ws: Socket, filter: Filter)
    requires Registered(s) && ws !in s.joined
    ensures Registered(Do(s, Upgrade(ws, filter)))
  {
    var r := Do(s, Upgrade(ws, filter));
    assert r.joined.Keys == s.joined.Keys + {ws} && r.subs.Keys == s.subs.Keys + {ws};
    assert r.filters.Keys == r.joined.Keys && r.received.Keys == r.joined.Keys;
  }

  lemma SnapshotBookkept(s: State, step: Step)
    requires Bookkept(s) && Enabled(s, step) && step.Snapshot?
    ensures Bookkept(Do(s, step))
  {
    hide QueueValid;
    var r := Do(s, step);
    if step.targets != [] {
      assert FlightValid(r.flights[step.thread], step.thread);
    }
    assert forall t :: t in r.flights ==> t in s.flights || t == step.thread;
    assert r.joined.Keys == s.joined.Keys;
  }

  lemma PostBookkept(s: State, t: Thread)
    requires Bookkept(s) && t in s.flights && s.flights[t].targets != []
    ensures Bookkept(Do(s, Post(t)))
  {
    hide Registered, Numbered;
    var r, f := Do(s, Post(t)), s.flights[t];
    assert FlightValid(f, t) && f.targets[0] in f.targets;
    if |f.targets| > 1 {
      assert FlightValid(f.(targets := f.targets[1..]), t);
    }
    assert forall x :: x in r.flights ==> x in s.flights;
    RegisteredKept(s, r);
  }

  // Taking a task moves the queue on and leaves the books alone.
  lemma TakeParts(s: State)
    requires s.loop.Idle? && s.queue != []
    ensures var r := Taken(s, s.queue[0]);
            && r.subs == s.subs && r.joined == s.joined && r.left == s.left && r.filters == s.filters
            && r.received == s.received && r.published == s.published && r.flights == s.flights
            && r.queue == s.queue[1..] && !r.loop.Dropping? && (r.loop.Checked? ==> r.loop.ws in s.subs)
  {
  }

  lemma TakeBookkept(s: State)
    requires Bookkept(s) && s.loop.Idle? && s.queue != []
    ensures Bookkept(Do(s, TakeTask))
  {
    hide FlightsValid, Numbered, Registered, QueueValid, Taken;
    TakeParts(s);
    QueueKept(s.queue, s.queue[0], s.joined.Keys);
    RegisteredKept(s, Taken(s, s.queue[0]));
  }

  lemma PostDeleteBookkept(s: State)
    requires Bookkept(s) && s.loop.Dropping?
    ensures Bookkept(Do(s, PostDelete))
  {
    hide FlightsValid, Numbered, Registered, QueueValid;
    QueueKept(s.queue, DeleteTask(s.loop.ws), s.joined.Keys);
    RegisteredKept(s, Do(s, PostDelete));
  }

  lemma HangupBookkept(s: State, ws: Socket)
    requires Bookkept(s)
    ensures Bookkept(Do(s, Hangup(ws)))
  {
    hide FlightsValid, Numbered, Registered, QueueValid;
    RegisteredKept(s, Do(s, Hangup(ws)));
  }

  lemma QueueKept(queue: seq<Task>, task: Task, known: set<Socket>)
    requires QueueValid(queue, known)
    ensures queue != [] ==> QueueValid(queue[1..], known)
    ensures task.ws in known ==> QueueValid(queue + [task], known)
  {
  }

  lemma RegisteredKept(s: State, r: State)
    requires Registered(s)
    requires r.subs == s.subs && r.joined == s.joined && r.left == s.left && r.filters == s.filters
    requires r.received == s.received && r.published == s.published
    ensures Registered(r)
  {
  }

  lemma UnsubscribeBookkept(s: State, ws: Socket)
    requires Bookkept(s) && (s.loop.Checked? ==> s.loop.ws == ws)
    ensures Bookkept(Unsubscribe(s, ws))
  {
    var r := Unsubscribe(s, ws);
    if ws in s.subs {
      assert r.subs.Keys == s.subs.Keys - {ws} && r.left.Keys == s.left.Keys + {ws};
    }
  }

  lemma FinishSendBookkept(s: State, fails: bool)
    requires Bookkept(s) && s.loop.Checked?
    ensures Bookkept(Do(s, FinishSend(fails)))
  {
    if s.loop.ws in s.connected && fails {
      UnsubscribeBookkept(s, s.loop.ws);
    } else {
      assert Do(s, FinishSend(fails)).received.Keys == s.received.Keys;
    }
  }

  // What a socket is owed moves only when an event it wants is published.
  lemma OwedAfter(s: State, step: Step, ws: Socket)
    requires Bookkept(s) && Enabled(s, step) && ws in s.joined
    ensures Bookkept(Do(s, step))
    ensures Owed(Do(s, step), ws) == Owed(s, ws) +
            if step.Snapshot? && ws in s.subs && Matches(s.subs[ws], step.pipeline)
            then [Event(step.thread, step.pipeline, |s.published|)] else []
  {
    hide Enumerates, Bookkept, Owed;
    StepBookkept(s, step);
    BookkeptKeys(s, ws);
    match step
    case Snapshot(_, _, _) => OwedMore(s, step, ws);
    case Signal(x) => OwedKept(s, Unsubscribe(s, x), ws);
    case FinishSend(fails) =>
      if s.loop.ws in s.connected && fails { OwedKept(s, Unsubscribe(s, s.loop.ws), ws); }
      else { OwedKept(s, Do(s, step), ws); }
    case _ => OwedKept(s, Do(s, step), ws);
  }

  lemma OwedMore(s: State, step: Step, ws: Socket)
    requires Bookkept(s) && step.Snapshot? && ws in s.joined
    ensures ws in s.filters && (ws in s.subs ==> s.subs[ws] == s.filters[ws])
    ensures Owed(Do(s, step), ws) == Owed(s, ws) +
            if ws in s.subs && Matches(s.subs[ws], step.pipeline)
            then [Event(step.thread, step.pipeline, |s.published|)] else []
  {
    hide Wanted, FlightsValid, QueueValid, Numbered;
    var e, j := Event(step.thread, step.pipeline, |s.published|), s.joined[ws];
    NoneBefore(Owed(s, ws));
    if ws in s.subs {
      assert (s.published + [e])[j..|s.published| + 1] == s.published[j..|s.published|] + [e];
      WantedMore(s.published[j..|s.published|], e, s.filters[ws]);
    } else {
      assert (s.published + [e])[j..s.left[ws]] == s.published[j..s.left[ws]];
    }
  }

  // Leaving stops the account where it stands.
  lemma OwedKept(s: State, r: State, ws: Socket)
    requires Bookkept(s) && ws in s.joined && ws in r.joined && ws in r.filters && ws in s.filters
    requires r.published == s.published && r.joined[ws] == s.joined[ws] && r.filters[ws] == s.filters[ws]
    requires ws in r.left ==> r.left[ws] == if ws in s.left then s.left[ws] else |s.published|
    requires ws in s.left ==> ws in r.left
    ensures Owed(r, ws) == Owed(s, ws) + []
  {
    hide Wanted, FlightsValid, QueueValid, Numbered;
    NoneBefore(Owed(s, ws));
  }

  // A socket starts with nothing owed and nothing on its way.
  lemma UpgradeDelivers(s: State, ws: Socket, filter: Filter, t: Thread)
    requires Bookkept(s) && ws !in s.joined
    ensures Delivers(Do(s, Upgrade(ws, filter)), t, ws)
  {
    var r := Do(s, Upgrade(ws, filter));
    assert s.published[|s.published|..|s.published|] == [];
    UnknownUnqueued(s.queue, s.joined.Keys, ws);
    assert Owed(r, ws) == [] && Got(r, ws) == [] && InHand(r, ws) == [] && InFlight(r, t, ws) == [];
  }

  lemma {:induction false} UnknownUnqueued(queue: seq<Task>, known: set<Socket>, ws: Socket)
    requires QueueValid(queue, known) && ws !in known
    ensures Queued(queue, ws) == []
  {
    if queue == [] {
    } else {
      UnknownUnqueued(queue[..|queue| - 1], known, ws);
    }
  }

  // What a step newly owes to a socket.
  function News(s: State, step: Step, t: Thread, ws: Socket): seq<Event> {
    if step.Snapshot? && step.thread == t && ws in s.subs && Matches(s.subs[ws], step.pipeline)
    then [Event(t, step.pipeline, |s.published|)] else []
  }

  // A socket that stays live keeps everything in its pipe and gains the news;
  // one that is not live receives nothing.
  ghost predicate Carries(s: State, r: State, t: Thread, ws: Socket, news: seq<Event>) {
    && (Live(r, ws) ==> Live(s, ws) && Pipe(r, t, ws) == Pipe(s, t, ws) + news)
    && (!Live(r, ws) ==> Got(r, ws) == Got(s, ws))
  }

  lemma SnapshotPipe(s: State, step: Step, t: Thread, ws: Socket)
    requires Bookkept(s) && Enabled(s, step) && step.Snapshot? && ws in s.joined
    ensures Carries(s, Do(s, step), t, ws, News(s, step, t, ws))
  {
    hide From, Queued;
  }

  // Posting moves one event from the publisher's hands into the queue.
  lemma PostPipe(s: State, step: Step, t: Thread, ws: Socket)
    requires Bookkept(s) && Enabled(s, step) && step.Post? && ws in s.joined
    ensures Carries(s, Do(s, step), t, ws, [])
  {
    hide From, Queued, FlightValid, QueueValid, Numbered;
    NoneBefore(Pipe(s, t, ws));
    var f, r := s.flights[step.thread], Do(s, step);
    var task := SendTask(f.targets[0], f.event);
    var before := s.received[ws] + (InHand(s, ws) + Queued(s.queue, ws));
    QueuedAppend(s.queue, [task], ws);
    QueuedOne(task, ws);
    FirstTarget(f, step.thread, ws);
    FromOne(t, f.event);
    if f.targets[0] == ws {
      assert s.received[ws] + (InHand(s, ws) + (Queued(s.queue, ws) + [f.event])) == before + [f.event];
      FromAppend(t, before, [f.event]);
      assert InFlight(s, t, ws) == if t == step.thread then [f.event] else InFlight(r, t, ws);
      assert t == step.thread ==> InFlight(r, t, ws) == [];
    } else {
      assert Queued(s.queue, ws) + [] == Queued(s.queue, ws);
    }
  }

  lemma FirstTarget(f: Flight, t: Thread, ws: Socket)
    requires FlightValid(f, t)
    ensures ws in f.targets[1..] <==> ws in f.targets && ws != f.targets[0]
    ensures |f.targets| == 1 ==> (ws in f.targets <==> ws == f.targets[0])
    ensures f.event.thread == t
  {
    assert f.targets == [f.targets[0]] + f.targets[1..];
    assert forall k :: 0 <= k < |f.targets| - 1 ==> f.targets[1..][k] == f.targets[k + 1];
  }

  // Taking a task moves its event from the queue into the loop's hands, or
  // discards it when the socket has gone.
  lemma TakePipe(s: State, t: Thread, ws: Socket)
    requires Bookkept(s) && Enabled(s, TakeTask) && ws in s.joined
    ensures Carries(s, Do(s, TakeTask), t, ws, [])
  {
    hide From, Queued, FlightsValid, QueueValid, Numbered;
    NoneBefore(Pipe(s, t, ws));
    assert s.queue == [s.queue[0]] + s.queue[1..];
    QueuedAppend([s.queue[0]], s.queue[1..], ws);
    QueuedOne(s.queue[0], ws);
    NoneBefore(Queued(s.queue[1..], ws));
    NoneBefore(Queued(s.queue, ws));
  }

  lemma NoneBefore(x: seq<Event>)
    ensures [] + x == x && x + [] == x
  {
  }

  // Sending moves the event from the loop's hands to the socket.
  lemma SendPipe(s: State, t: Thread, ws: Socket)
    requires Bookkept(s) && s.loop.Checked? && s.loop.ws in s.connected && ws in s.joined
    ensures Carries(s, Do(s, FinishSend(false)), t, ws, [])
  {
    hide From, Queued, FlightsValid, QueueValid, Numbered;
    NoneBefore(Pipe(s, t, ws));
    if ws == s.loop.ws {
      var q := Queued(s.queue, ws);
      assert s.received[ws] + [s.loop.event] + ([] + q) == s.received[ws] + ([s.loop.event] + q);
    }
  }

  // What has arrived is a prefix of what is in the pipe.
  lemma {:induction false} ArrivedFirst(s: State, t: Thread, ws: Socket)
    ensures From(t, Got(s, ws)) <= Pipe(s, t, ws)
  {
    FromAppend(t, Got(s, ws), InHand(s, ws) + Queued(s.queue, ws));
  }

  lemma StepCarries(s: State, step: Step, t: Thread, ws: Socket)
    requires Bookkept(s) && Enabled(s, step) && ws in s.joined
    ensures Carries(s, Do(s, step), t, ws, News(s, step, t, ws))
  {
    hide Bookkept, Enumerates, Carries, Do;
    match step
    case Snapshot(_, _, _) => SnapshotPipe(s, step, t, ws);
    case Post(_) => PostPipe(s, step, t, ws);
    case TakeTask => TakePipe(s, t, ws);
    case FinishSend(fails) =>
      if s.loop.ws in s.connected && !fails { SendPipe(s, t, ws); } else { QuietPipe(s, step, t, ws); }
    case _ => QuietPipe(s, step, t, ws);
  }

  lemma StepDelivers(s: State, step: Step, t: Thread, ws: Socket)
    requires Bookkept(s) && Enabled(s, step) && ws in s.joined && Delivers(s, t, ws)
    ensures Bookkept(Do(s, step)) && Delivers(Do(s, step), t, ws)
  {
    hide From, Pipe, Owed, Got, Live, News, Bookkept, Enabled, Do;
    StepBookkept(s, step);
    OwedFrom(s, step, t, ws);
    StepCarries(s, step, t, ws);
    ArrivedFirst(Do(s, step), t, ws);
  }

  lemma BookkeptKeys(s: State, ws: Socket)
    requires Bookkept(s)
    ensures ws in s.joined <==> ws in s.filters
    ensures ws in s.joined <==> ws in s.received
    ensures ws in s.subs ==> ws in s.joined && s.subs[ws] == s.filters[ws]
    ensures ws in s.left <==> ws in s.joined && ws !in s.subs
    ensures s.loop.Checked? ==> s.loop.ws in s.subs
  {
  }

  lemma {:induction false} OwedFrom(s: State, step: Step, t: Thread, ws: Socket)
    requires Bookkept(s) && Enabled(s, step) && ws in s.joined
    ensures Bookkept(Do(s, step))
    ensures From(t, Owed(Do(s, step), ws)) == From(t, Owed(s, ws)) + News(s, step, t, ws)
  {
    hide Owed, Enumerates, From, Do, Bookkept;
    OwedAfter(s, step, ws);
    if step.Snapshot? {
      var e := Event(step.thread, step.pipeline, |s.published|);
      FromAppend(t, Owed(s, ws), [e]);
      FromOne(t, e);
    }
    NoneBefore(Owed(s, ws));
    NoneBefore(From(t, Owed(s, ws)));
  }

  // The remaining steps leave the pipe of a socket that stays live alone.
  lemma QuietPipe(s: State, step: Step, t: Thread, ws: Socket)
    requires Bookkept(s) && Enabled(s, step) && ws in s.joined
    requires step.Upgrade? || step.Hangup? || step.Signal? || step.PostDelete? ||
             (step.FinishSend? && (s.loop.ws !in s.connected || step.fails))
    ensures Carries(s, Do(s, step), t, ws, [])
  {
    hide From, Queued, FlightsValid, QueueValid, Numbered;
    NoneBefore(Pipe(s, t, ws));
    if step.PostDelete? {
      QueuedAppend(s.queue, [DeleteTask(s.loop.ws)], ws);
      QueuedOne(DeleteTask(s.loop.ws), ws);
      NoneBefore(Queued(s.queue, ws));
    }
  }

  // ---------------------------------------------------------------------
  // Whole runs
  // ---------------------------------------------------------------------

  lemma {:induction false} RunsDeliver(steps: seq<Step>, t: Thread, ws: Socket)
    requires Possible(steps)
    ensures Bookkept(Run(START, steps))
    ensures ws in Run(START, steps).joined ==> Delivers(Run(START, steps), t, ws)
  {
    hide Do, Possible, Bookkept, Delivers;
    if |steps| == 0 {
      StartBookkept();
    } else {
      var n := |steps| - 1;
      Earlier(steps, n);
      RunsDeliver(steps[..n], t, ws);
      OneMoreStep(Run(START, steps[..n]), steps[n], t, ws);
    }
  }

  lemma StartBookkept()
    ensures Bookkept(START) && START.joined == map[]
  {
  }

  lemma OneMoreStep(s: State, step: Step, t: Thread, ws: Socket)
    requires Bookkept(s) && Enabled(s, step) && (ws in s.joined ==> Delivers(s, t, ws))
    ensures Bookkept(Do(s, step))
    ensures ws in Do(s, step).joined ==> Delivers(Do(s, step), t, ws)
  {
    hide Bookkept, Delivers;
    StepBookkept(s, step);
    if ws in s.joined {
      StepDelivers(s, step, t, ws);
    } else if step.Upgrade? && step.ws == ws {
      UpgradeDelivers(s, ws, step.filter, t);
    }
  }

  // Of each publisher's events, a socket has received the first so many that
  // it was owed, in the order they were published and none twice.
  lemma {:induction false} ReceivesAPrefix(steps: seq<Step>, t: Thread, ws: Socket)
    requires Possible(steps) && ws in Run(START, steps).joined
    ensures var s := Run(START, steps);
            From(t, Got(s, ws)) <= From(t, Owed(s, ws))
  {
    RunsDeliver(steps, t, ws);
  }

  ghost predicate Quiet(s: State) {
    s.queue == [] && s.loop.Idle? && s.flights == map[]
  }

  // Once nothing is under way, a socket that is still subscribed and connected
  // has received every event it was owed.
  lemma {:induction false} QuietMeansDelivered(steps: seq<Step>, t: Thread, ws: Socket)
    requires Possible(steps) && Quiet(Run(START, steps)) && Live(Run(START, steps), ws)
    ensures var s := Run(START, steps);
            From(t, Got(s, ws)) == From(t, Owed(s, ws))
  {
    var s := Run(START, steps);
    RunsDeliver(steps, t, ws);
    BookkeptKeys(s, ws);
    NoneBefore(Got(s, ws));
    NoneBefore(From(t, Got(s, ws)));
    assert Queued(s.queue, ws) == [] && InHand(s, ws) == [] && InFlight(s, t, ws) == [];
  }

  // With a single publisher the two accounts agree outright.
  ghost predicate SinglePublisher(s: State, t: Thread) {
    forall i :: 0 <= i < |s.published| ==> s.published[i].thread == t
  }

  lemma {:induction false} SinglePublisherReceivesAPrefix(steps: seq<Step>, t: Thread, ws: Socket)
    requires Possible(steps) && SinglePublisher(Run(START, steps), t) && ws in Run(START, steps).joined
    ensures var s := Run(START, steps);
            && Got(s, ws) <= Owed(s, ws)
            && (Quiet(s) && Live(s, ws) ==> Got(s, ws) == Owed(s, ws))
  {
    var s := Run(START, steps);
    OwedIsPublished(s, t, ws);
    FromAll(t, Owed(s, ws));
    ReceivesAPrefix(steps, t, ws);
    forall i | 0 <= i < |Got(s, ws)|
      ensures Got(s, ws)[i].thread == t
    {
      var u := Got(s, ws)[i].thread;
      ReceivesAPrefix(steps, u, ws);
      FromHas(u, Got(s, ws), i);
      if u != t { FromNone(u, t, Owed(s, ws)); }
    }
    FromAll(t, Got(s, ws));
    if Quiet(s) && Live(s, ws) { QuietMeansDelivered(steps, t, ws); }
  }

  lemma OwedIsPublished(s: State, t: Thread, ws: Socket)
    requires SinglePublisher(s, t)
    ensures forall i :: 0 <= i < |Owed(s, ws)| ==> Owed(s, ws)[i].thread == t
  {
    var until := if ws in s.left then s.left[ws] else |s.published|;
    if ws in s.joined && ws in s.filters && s.joined[ws] <= until <= |s.published| {
      WantedThread(s.published[s.joined[ws]..until], s.filters[ws], t);
    }
  }

  lemma {:induction false} WantedThread(events: seq<Event>, filter: Filter, t: Thread)
    requires forall i :: 0 <= i < |events| ==> events[i].thread == t
    ensures forall i :: 0 <= i < |Wanted(events, filter)| ==> Wanted(events, filter)[i].thread == t
  {
    if events == [] {
    } else {
      WantedThread(events[..|events| - 1], filter, t);
    }
  }

  lemma {:induction false} FromAll(t: Thread, events: seq<Event>)
    requires forall i :: 0 <= i < |events| ==> events[i].thread == t
    ensures From(t, events) == events
  {
    if events == [] {
    } else {
      FromAll(t, events[..|events| - 1]);
    }
  }

  lemma {:induction false} FromNone(u: Thread, t: Thread, events: seq<Event>)
    requires u != t && forall i :: 0 <= i < |events| ==> events[i].thread == t
    ensures From(u, events) == []
  {
    if events == [] {
    } else {
      FromNone(u, t, events[..|events| - 1]);
    }
  }

  lemma {:induction false} FromHas(u: Thread, events: seq<Event>, i: nat)
    requires i < |events| && events[i].thread == u
    ensures From(u, events) != []
  {
    if i < |events| - 1 { FromHas(u, events[..|events| - 1], i); }
  }

  // What a socket is owed has strictly increasing numbers: no event twice.
  lemma {:induction false} OwedHasNoDuplicates(steps: seq<Step>, ws: Socket)
    requires Possible(steps)
    ensures Ascending(Owed(Run(START, steps), ws))
  {
    hide Bookkept;
    var s := Run(START, steps);
    RunsDeliver(steps, 0, ws);
    OwedIncreases(s, ws);
  }

  ghost predicate Ascending(events: seq<Event>) {
    forall i, j :: 0 <= i < j < |events| ==> events[i].number < events[j].number
  }

  lemma OwedIncreases(s: State, ws: Socket)
    requires Bookkept(s)
    ensures Ascending(Owed(s, ws))
  {
    hide Registered, QueueValid, FlightsValid, Wanted;
    var until := if ws in s.left then s.left[ws] else |s.published|;
    if ws in s.joined && ws in s.filters && s.joined[ws] <= until <= |s.published| {
      WantedIncreases(s.published[s.joined[ws]..until], s.filters[ws], |s.published|);
    }
  }

  lemma {:induction false} WantedIncreases(events: seq<Event>, filter: Filter, bound: nat)
    requires Ascending(events) && forall i :: 0 <= i < |events| ==> events[i].number < bound
    ensures Ascending(Wanted(events, filter))
    ensures forall i :: 0 <= i < |Wanted(events, filter)| ==> Wanted(events, filter)[i].number < bound
  {
    if events == [] {
    } else {
      var n := |events| - 1;
      WantedIncreases(events[..n], filter, events[n].number);
    }
  }

  // ---------------------------------------------------------------------
  // Filters
  // ---------------------------------------------------------------------

  // The events of one pipeline, in order.
  function OnPipeline(events: seq<Event>, pipeline: string): seq<Event> {
    if events == [] then []
    else
      var n := |events| - 1;
      OnPipeline(events[..n], pipeline) + (if events[n].pipeline == pipeline then [events[n]] else [])
  }

  lemma {:induction false} WantedByPipeline(events: seq<Event>, filter: Filter)
    ensures Wanted(events, filter) == if filter == "" then events else OnPipeline(events, filter)
  {
    if events == [] {
    } else {
      WantedByPipeline(events[..|events| - 1], filter);
    }
  }

  // A socket without a filter is owed everything published while it was subscribed;
  // one with a filter, the events of that pipeline.
  lemma {:induction false} OwedByPipeline(steps: seq<Step>, ws: Socket)
    requires Possible(steps) && ws in Run(START, steps).joined
    ensures var s := Run(START, steps);
            var until := if ws in s.left then s.left[ws] else |s.published|;
            && ws in s.filters && s.joined[ws] <= until <= |s.published|
            && var slice := s.published[s.joined[ws]..until];
               Owed(s, ws) == if s.filters[ws] == "" then slice else OnPipeline(slice, s.filters[ws])
  {
    hide Wanted, QueueValid, FlightsValid;
    var s := Run(START, steps);
    RunsDeliver(steps, 0, ws);
    var until := if ws in s.left then s.left[ws] else |s.published|;
    WantedByPipeline(s.published[s.joined[ws]..until], s.filters[ws]);
  }

  // No event of another pipeline ever reaches a socket that asked for one.
  lemma {:induction false} ReceivesItsPipelineOnly(steps: seq<Step>, ws: Socket, i: nat)
    requires Possible(steps) && ws in Run(START, steps).joined && i < |Got(Run(START, steps), ws)|
    ensures var s := Run(START, steps);
            && ws in s.filters && (s.filters[ws] == "" || Got(s, ws)[i].pipeline == s.filters[ws])
            && Got(s, ws)[i] in s.published
  {
    hide From, Owed;
    var s := Run(START, steps);
    var e := Got(s, ws)[i];
    OwedByPipeline(steps, ws);
    ReceivesAPrefix(steps, e.thread, ws);
    FromKeeps(e.thread, Got(s, ws), e);
    FromKeeps(e.thread, Owed(s, ws), e);
    assert e in From(e.thread, Got(s, ws));
    var until := if ws in s.left then s.left[ws] else |s.published|;
    if s.filters[ws] != "" { OnPipelineIs(s.published[s.joined[ws]..until], s.filters[ws], e); }
  }

  lemma {:induction false} FromKeeps(t: Thread, events: seq<Event>, e: Event)
    ensures e in From(t, events) <==> e in events && e.thread == t
  {
    if events == [] {
    } else {
      var n := |events| - 1;
      assert events == events[..n] + [events[n]];
      FromKeeps(t, events[..n], e);
    }
  }

  lemma {:induction false} OnPipelineIs(events: seq<Event>, pipeline: string, e: Event)
    ensures e in OnPipeline(events, pipeline) <==> e in events && e.pipeline == pipeline
  {
    if events == [] {
    } else {
      var n := |events| - 1;
      assert events == events[..n] + [events[n]];
      OnPipelineIs(events[..n], pipeline, e);
    }
  }

  // ---------------------------------------------------------------------
  // A run that happens
  // ---------------------------------------------------------------------

  // One socket from its upgrade to its deletion: it joins, is sent the event of its
  // pipeline, hangs up, is dropped and deleted.
  const LIFE_OF_A_SOCKET: seq<Step> := [
    Upgrade(1, "cam1"), Snapshot(5, "cam2", []), Snapshot(5, "cam1", [1]), Post(5), TakeTask,
    FinishSend(false), Hangup(1), Signal(1), PostDelete, TakeTask]

  const FIRST: Event := Event(5, "cam2", 0)
  const SECOND: Event := Event(5, "cam1", 1)

  // The state in which each of those steps is taken, and the last one.
  function Midlife(k: nat): State
    requires k <= 10
  {
    var f: map<Socket, Filter> := map[1 := "cam1"];
    match k
    case 0 => START
    case 1 => State(f, [], map[], Idle, {1}, {}, [], map[1 := 0], map[], f, map[1 := []])
    case 2 => State(f, [], map[], Idle, {1}, {}, [FIRST], map[1 := 0], map[], f, map[1 := []])
    case 3 =>
      State(f, [], map[5 := Flight(SECOND, [1])], Idle, {1}, {}, [FIRST, SECOND], map[1 := 0], map[], f, map[1 := []])
    case 4 =>
      State(f, [SendTask(1, SECOND)], map[], Idle, {1}, {}, [FIRST, SECOND], map[1 := 0], map[], f, map[1 := []])
    case 5 => State(f, [], map[], Checked(1, SECOND), {1}, {}, [FIRST, SECOND], map[1 := 0], map[], f, map[1 := []])
    case 6 => State(f, [], map[], Idle, {1}, {}, [FIRST, SECOND], map[1 := 0], map[], f, map[1 := [SECOND]])
    case 7 => State(f, [], map[], Idle, {}, {}, [FIRST, SECOND], map[1 := 0], map[], f, map[1 := [SECOND]])
    case 8 =>
      State(map[], [], map[], Dropping(1), {}, {}, [FIRST, SECOND], map[1 := 0], map[1 := 2], f, map[1 := [SECOND]])
    case 9 =>
      State(map[], [DeleteTask(1)], map[], Idle, {}, {}, [FIRST, SECOND], map[1 := 0], map[1 := 2], f,
            map[1 := [SECOND]])
    case 10 =>
      State(map[], [], map[], Idle, {}, {1}, [FIRST, SECOND], map[1 := 0], map[1 := 2], f, map[1 := [SECOND]])
  }

  lemma MidlifeStep(k: nat)
    requires k < 10
    ensures Enabled(Midlife(k), LIFE_OF_A_SOCKET[k])
    ensures Do(Midlife(k), LIFE_OF_A_SOCKET[k]) == Midlife(k + 1)
  {
    if k == 5 { assert Do(Midlife(5), FinishSend(false)).received[1] == [SECOND]; }
  }

  lemma {:induction false} LivesThrough(k: nat)
    requires k <= 10
    ensures Run(START, LIFE_OF_A_SOCKET[..k]) == Midlife(k)
  {
    if k > 0 {
      LivesThrough(k - 1);
      MidlifeStep(k - 1);
      assert LIFE_OF_A_SOCKET[..k][..k - 1] == LIFE_OF_A_SOCKET[..k - 1];
    }
  }

  lemma SocketsComeAndGo()
    ensures Possible(LIFE_OF_A_SOCKET)
    ensures var s := Run(START, LIFE_OF_A_SOCKET);
            && Got(s, 1) == [Event(5, "cam1", 1)] && s.published == [Event(5, "cam2", 0), Event(5, "cam1", 1)]
            && s.subs == map[] && s.deleted == {1} && Quiet(s)
  {
    forall n | 0 <= n < 10 ensures Enabled(Run(START, LIFE_OF_A_SOCKET[..n]), LIFE_OF_A_SOCKET[n]) {
      LivesThrough(n);
      MidlifeStep(n);
    }
    LivesThrough(10);
    assert LIFE_OF_A_SOCKET[..10] == LIFE_OF_A_SOCKET;
  }
}
