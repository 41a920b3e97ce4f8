// Lifetime safety of the broadcaster, in every interleaving: no step touches a
// deleted socket, and each dropped socket is deleted exactly once.

module BroadcastSafety {
  import opened Broadcast

  ghost predicate DeleteQueued(s: State, ws: Socket) {
    DeleteTask(ws) in s.queue
  }

  ghost predicate OneDeleteEach(queue: seq<Task>) {
    forall i, j :: 0 <= i < j < |queue| && queue[i].DeleteTask? ==> queue[i] != queue[j]
  }

  // A dropped socket is in exactly one of three places on its way out.
  ghost predicate Safe(s: State) {
    && s.subs.Keys <= s.joined.Keys
    && s.subs.Keys !! s.deleted
    && s.deleted <= s.joined.Keys
    && (s.loop.Checked? ==> s.loop.ws in s.subs)
    && (s.loop.Dropping? ==>
          s.loop.ws in s.joined && s.loop.ws !in s.subs && s.loop.ws !in s.deleted && !DeleteQueued(s, s.loop.ws))
    && (forall ws :: DeleteQueued(s, ws) ==> ws in s.joined && ws !in s.subs && ws !in s.deleted)
    && OneDeleteEach(s.queue)
    && (forall ws :: ws in s.joined && ws !in s.subs && ws !in s.deleted ==>
          DeleteQueued(s, ws) || s.loop == Dropping(ws))
  }

  lemma StepIsSafe(s: State, step: Step)
    requires Safe(s) && Enabled(s, step)
    ensures Safe(Do(s, step))
    ensures Touched(s, step) !! s.deleted
  {
    hide Safe;
    match step
    case Upgrade(_, _) => UpgradeIsSafe(s, step);
    case Post(_) => PostIsSafe(s, step);
    case PostDelete => PostDeleteIsSafe(s);
    case TakeTask => TakeTaskIsSafe(s);
    case Signal(ws) => UnsubscribeIsSafe(s, ws);
    case FinishSend(_) => FinishSendIsSafe(s, step);
    case _ => QuietStepIsSafe(s, step);
  }

  lemma UpgradeIsSafe(s: State, step: Step)
    requires Safe(s) && Enabled(s, step) && step.Upgrade?
    ensures Safe(Do(s, step))
  {
    var t := Do(s, step);
    assert forall x :: x in t.joined <==> x in s.joined || x == step.ws;
    assert forall x :: x in t.subs <==> x in s.subs || x == step.ws;
    assert forall x :: DeleteQueued(t, x) <==> DeleteQueued(s, x);
  }

  lemma PostIsSafe(s: State, step: Step)
    requires Safe(s) && Enabled(s, step) && step.Post?
    ensures Safe(Do(s, step))
  {
    var f := s.flights[step.thread];
  }

  lemma PostDeleteIsSafe(s: State)
    requires Safe(s) && s.loop.Dropping?
    ensures Safe(Do(s, PostDelete))
  {
  }

  lemma TakeTaskIsSafe(s: State)
    requires Safe(s) && Enabled(s, TakeTask)
    ensures Safe(Do(s, TakeTask)) && Touched(s, TakeTask) !! s.deleted
  {
    hide Safe;
    if s.queue[0].DeleteTask? { TakeDeleteIsSafe(s, s.queue[0].ws); } else { TakeSendIsSafe(s); }
  }

  lemma TakeSendIsSafe(s: State)
    requires Safe(s) && s.loop.Idle? && s.queue != [] && s.queue[0].SendTask?
    ensures Safe(Do(s, TakeTask))
  {
    hide OneDeleteEach;
    QueueShrinks(s, Do(s, TakeTask));
  }

  lemma TakeDeleteIsSafe(s: State, ws: Socket)
    requires Safe(s) && s.loop.Idle? && s.queue != [] && s.queue[0] == DeleteTask(ws)
    ensures Safe(Do(s, TakeTask)) && ws !in s.deleted
  {
    hide OneDeleteEach, DeleteQueued;
    var t := Do(s, TakeTask);
    QueueShrinks(s, t);
    assert DeleteQueued(s, ws);
    assert t.deleted == s.deleted + {ws};
  }

  lemma UnsubscribeIsSafe(s: State, ws: Socket)
    requires Safe(s) && (s.loop.Idle? || s.loop.Checked?)
    ensures Safe(Unsubscribe(s, ws))
  {
    hide OneDeleteEach;
    var t := Unsubscribe(s, ws);
    assert forall x :: DeleteQueued(t, x) <==> DeleteQueued(s, x);
  }

  lemma FinishSendIsSafe(s: State, step: Step)
    requires Safe(s) && Enabled(s, step) && step.FinishSend?
    ensures Safe(Do(s, step)) && Touched(s, step) !! s.deleted
  {
    hide OneDeleteEach;
    if s.loop.ws in s.connected && step.fails {
      UnsubscribeIsSafe(s, s.loop.ws);
    } else {
      assert forall x :: DeleteQueued(Do(s, step), x) <==> DeleteQueued(s, x);
    }
  }

  // Publishing and losing the transport change nothing that matters here.
  lemma QuietStepIsSafe(s: State, step: Step)
    requires Safe(s) && Enabled(s, step) && (step.Snapshot? || step.Hangup?)
    ensures Safe(Do(s, step))
  {
    assert forall x :: DeleteQueued(Do(s, step), x) <==> DeleteQueued(s, x);
  }

  lemma QueueShrinks(s: State, t: State)
    requires s.queue != [] && t.queue == s.queue[1..]
    requires OneDeleteEach(s.queue)
    ensures OneDeleteEach(t.queue)
    ensures forall ws :: DeleteQueued(s, ws) <==> DeleteQueued(t, ws) || s.queue[0] == DeleteTask(ws)
    ensures s.queue[0].DeleteTask? ==> !DeleteQueued(t, s.queue[0].ws)
  {
    assert s.queue == [s.queue[0]] + t.queue;
    assert forall i :: 0 <= i < |t.queue| ==> t.queue[i] == s.queue[i + 1];
  }

  lemma {:induction false} RunsAreSafe(steps: seq<Step>)
    requires Possible(steps)
    ensures Safe(Run(START, steps))
  {
    if |steps| == 0 {
    } else {
      var n := |steps| - 1;
      Earlier(steps, n);
      RunsAreSafe(steps[..n]);
      StepIsSafe(Run(START, steps[..n]), steps[n]);
    }
  }

  // The beginning of a possible run is a possible run.
  lemma Earlier(steps: seq<Step>, n: nat)
    requires Possible(steps) && n <= |steps|
    ensures Possible(steps[..n])
    ensures n < |steps| ==> Enabled(Run(START, steps[..n]), steps[n])
  {
    forall m | 0 <= m < n
      ensures Enabled(Run(START, steps[..n][..m]), steps[..n][m])
    {
      assert steps[..n][..m] == steps[..m];
    }
  }

  // No step of any run dereferences a socket that has been deleted.
  lemma NeverTouchesDeleted(steps: seq<Step>, n: nat)
    requires Possible(steps) && n < |steps|
    ensures var s := Run(START, steps[..n]);
            && Touched(s, steps[n]) !! s.deleted
            && s.subs.Keys !! s.deleted
  {
    Earlier(steps, n);
    RunsAreSafe(steps[..n]);
    StepIsSafe(Run(START, steps[..n]), steps[n]);
  }

  // How often a run deletes a socket.
  function Deletions(steps: seq<Step>, ws: Socket): nat {
    if |steps| == 0 then 0
    else
      var n := |steps| - 1;
      var s := Run(START, steps[..n]);
      Deletions(steps[..n], ws) +
      (if steps[n] == TakeTask && s.queue != [] && s.queue[0] == DeleteTask(ws) then 1 else 0)
  }

  // Each socket is deleted at most once, and once the loop has nothing left to
  // do, exactly those that were dropped have been.
  lemma {:induction false} DeletedExactlyOnce(steps: seq<Step>, ws: Socket)
    requires Possible(steps)
    ensures Deletions(steps, ws) == if ws in Run(START, steps).deleted then 1 else 0
    ensures var s := Run(START, steps);
            s.queue == [] && s.loop.Idle? ==> s.deleted == s.joined.Keys - s.subs.Keys
  {
    hide Do, Enabled, Safe, Possible;
    if |steps| == 0 {
    } else {
      var n := |steps| - 1;
      Earlier(steps, n);
      DeletedExactlyOnce(steps[..n], ws);
      RunsAreSafe(steps[..n]);
      StepDeletes(Run(START, steps[..n]), steps[n], ws);
    }
    RunsAreSafe(steps);
    NothingLeftToDelete(Run(START, steps));
  }

  lemma NothingLeftToDelete(s: State)
    requires Safe(s)
    ensures s.queue == [] && s.loop.Idle? ==> s.deleted == s.joined.Keys - s.subs.Keys
  {
    assert s.queue == [] ==> forall x :: !DeleteQueued(s, x);
  }

  lemma StepDeletes(s: State, step: Step, ws: Socket)
    requires Safe(s) && Enabled(s, step)
    ensures ws in Do(s, step).deleted <==>
            ws in s.deleted || (step == TakeTask && s.queue != [] && s.queue[0] == DeleteTask(ws))
    ensures step == TakeTask && s.queue != [] && s.queue[0] == DeleteTask(ws) ==> ws !in s.deleted
  {
    hide Enumerates;
    if step == TakeTask && s.queue[0] == DeleteTask(ws) {
      assert DeleteQueued(s, ws);
    }
  }
}
