// The broadcaster object itself: its subscriber map, the callables posted on
// the WebSocket loop, and the calls that change them. Each call, run without
// interruption, is proved to be a sequence of the atomic steps in Broadcast.

module EventBroadcaster {
  import opened Broadcast

  // The posts of one publisher, back to back.
  function PostAll(s: State, t: Thread, n: nat): State
    decreases n
  {
    if n == 0 then s else PostAll(Do(s, Post(t)), t, n - 1)
  }

  lemma {:induction false} NothingToPost(s: State, t: Thread)
    ensures PostAll(s, t, 0) == s
  {
  }

  // One turn of the posting loop, as the object carries it out.
  lemma PostStep(s: State, t: Thread, event: Event, targets: seq<Socket>, i: nat)
    requires i < |targets| && t in s.flights && s.flights[t] == Flight(event, targets[i..])
    ensures var flights := if i == |targets| - 1 then s.flights - {t}
                           else s.flights[t := Flight(event, targets[i + 1..])];
            PostAll(s, t, |targets| - i)
            == PostAll(s.(queue := s.queue + [SendTask(targets[i], event)], flights := flights), t, |targets| - i - 1)
  {
    assert targets[i..][0] == targets[i] && targets[i..][1..] == targets[i + 1..];
  }

  // The second half of dropping a subscriber, if the first half removed one.
  function FinishDrop(s: State): State {
    if s.loop.Dropping? then Do(s, PostDelete) else s
  }

  // A send task from its membership check to its end.
  function FinishTask(s: State, fails: bool): State {
    if s.loop.Checked? then FinishDrop(Do(s, FinishSend(fails))) else s
  }

  class EventBroadcaster {
    var subs: map<Socket, Filter>
    var queue: seq<Task>
    var connected: set<Socket>
    var deleted: set<Socket>
    ghost var flights: map<Thread, Flight>
    var published: seq<Event>
    ghost var joined: map<Socket, nat>
    ghost var left: map<Socket, nat>
    ghost var filters: map<Socket, Filter>
    ghost var received: map<Socket, seq<Event>>

    // Between calls the loop runs no callable.
    ghost function View(): State
      reads this
    {
      State(subs, queue, flights, Idle, connected, deleted, published, joined, left, filters, received)
    }

    constructor ()
      ensures View() == START
    {
      subs, queue, connected, deleted := map[], [], {}, {};
      flights, published, joined, left, filters, received := map[], [], map[], map[], map[], map[];
    }

    method OnUpgrade(ws: Socket, filter: Filter)
      requires ws !in joined
      modifies this
      ensures View() == Do(old(View()), Upgrade(ws, filter))
    {
      connected := connected + {ws};
      joined, filters, received := joined[ws := |published|], filters[ws := filter], received[ws := []];
      subs := subs[ws := filter];
    }

    // The locked section of an event callback.
    method MatchingSubscribers(pipeline: string) returns (targets: seq<Socket>)
      ensures Enumerates(targets, subs, pipeline)
      ensures forall ws :: ws in targets <==> ws in subs && (subs[ws] == "" || subs[ws] == pipeline)
    {
      targets := [];
      var left := subs.Keys;
      while left != {}
        invariant left <= subs.Keys
        invariant forall ws :: ws in targets <==> ws in subs.Keys - left && Matches(subs[ws], pipeline)
        invariant forall i, j :: 0 <= i < j < |targets| ==> targets[i] != targets[j]
        decreases left
      {
        var ws :| ws in left;
        left := left - {ws};
        if Matches(subs[ws], pipeline) {
          assert ws !in targets;
          targets := targets + [ws];
        }
      }
    }

    // The event callback: snapshot under the lock, then one post per target.
    method OnEvent(thread: Thread, pipeline: string) returns (targets: seq<Socket>)
      requires thread !in flights
      modifies this
      ensures Enumerates(targets, old(subs), pipeline)
      ensures View() == PostAll(Do(old(View()), Snapshot(thread, pipeline, targets)), thread, |targets|)
      ensures thread !in flights
    {
      hide Enumerates, PostAll;
      var event := Event(thread, pipeline, |published|);
      targets := MatchingSubscribers(pipeline);
      published := published + [event];
      NothingToPost(View(), thread);
      if targets == [] { return; }
      flights := flights[thread := Flight(event, targets)];
      ghost var goal := PostAll(View(), thread, |targets|);
      assert targets[0..] == targets;
      for i := 0 to |targets|
        invariant goal == PostAll(View(), thread, |targets| - i)
        invariant if i < |targets| then thread in flights && flights[thread] == Flight(event, targets[i..])
                  else thread !in flights
      {
        PostStep(View(), thread, event, targets, i);
        queue := queue + [SendTask(targets[i], event)];
        flights := if i == |targets| - 1 then flights - {thread}
                   else flights[thread := Flight(event, targets[i + 1..])];
      }
      NothingToPost(View(), thread);
    }

    method DropSubscriber(ws: Socket)
      modifies this`subs, this`queue, this`left
      ensures View() == FinishDrop(Do(old(View()), Signal(ws)))
    {
      var wasMember := false;
      if ws in subs {
        left := left[ws := |published|];
        subs := subs - {ws};
        wasMember := true;
      }
      if !wasMember { return; }
      queue := queue + [DeleteTask(ws)];
    }

    // The loop runs the callable at the front of its queue; `fails` tells
    // whether the transport reports an error from inside the send.
    method RunTask(fails: bool)
      requires queue != []
      modifies this
      ensures View() == FinishTask(Do(old(View()), TakeTask), fails)
    {
      var task := queue[0];
      queue := queue[1..];
      match task
      case DeleteTask(ws) =>
        deleted := deleted + {ws};
      case SendTask(ws, event) =>
        var stillKnown := ws in subs;
        if !stillKnown { return; }
        if ws !in connected { return; }
        if fails {
          DropSubscriber(ws);
        } else {
          received := received[ws := (if ws in received then received[ws] else []) + [event]];
        }
    }
  }
}
