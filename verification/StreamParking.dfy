// A connection streaming a body from the queue: it parks when a read finds nothing
// and relies on the ready-to-read signal to be woken.

module StreamParking {
  import opened AsyncQueue

  // The pump runs on the connection's loop. A read that finds nothing is followed
  // by an end check, then by hooking the signal, then by parking.
  datatype Pump = Active | Missed | Checked | Hooked | Parked | Ended

  // `raising` counts calls that have released the mutex and still owe a signal,
  // `posted` the signals waiting in the connection's loop.
  datatype World = World(queue: Queue, raising: nat, posted: nat, hooked: bool, pump: Pump)

  datatype Turn =
    | Produce(op: Op)
    | Raise
    | Deliver
    | Fetch(max: int)
    | CheckEnd
    | Hook
    | Park

  predicate Can(w: World, t: Turn) {
    match t
    case Produce(op) => op.Enqueue? || op.CloseWriting?
    case Raise => w.raising > 0
    case Deliver => w.posted > 0 && (w.pump == Active || w.pump == Parked || w.pump == Ended)
    case Fetch(max) => w.pump == Active && max > 0
    case CheckEnd => w.pump == Missed
    case Hook => w.pump == Checked
    case Park => w.pump == Hooked
  }

  // A signal raised while nothing is hooked reaches nobody, and one delivered to a
  // pump that is not parked is ignored.
  function Turned(w: World, t: Turn): World {
    if !Can(w, t) then w
    else
      match t
      case Produce(op) =>
        w.(queue := Next(w.queue, op), raising := w.raising + if ReplyTo(w.queue, op).signal then 1 else 0)
      case Raise => w.(raising := w.raising - 1, posted := w.posted + if w.hooked then 1 else 0)
      case Deliver => w.(posted := w.posted - 1, pump := if w.pump == Parked then Active else w.pump)
      case Fetch(max) =>
        w.(queue := Next(w.queue, Read(max)),
           pump := if Fetched(w.queue, max) == [] then Missed else Active)
      case CheckEnd => w.(pump := if AtEnd(w.queue) then Ended else Checked)
      case Hook => w.(hooked := true, pump := Hooked)
      case Park => w.(pump := Parked)
  }

  function Run(w: World, turns: seq<Turn>): World {
    if turns == [] then w else Turned(Run(w, turns[..|turns| - 1]), turns[|turns| - 1])
  }

  // A connection about to pump a freshly opened queue.
  function Start(hooked: bool): World {
    World(Queue(true, false, [], 0), 0, 0, hooked, Active)
  }

  // Parked with bytes to send or an end to report, and no signal on its way.
  predicate Stuck(w: World) {
    w.pump == Parked && w.raising == 0 && w.posted == 0 && (w.queue.queued != [] || AtEnd(w.queue))
  }

  // With the signal hooked, whatever a pump past its miss has not seen is covered
  // by a signal that will still reach it.
  ghost predicate Covered(w: World) {
    && w.queue.open && w.hooked
    && (w.pump in {Missed, Checked, Hooked, Parked} && w.queue.queued != [] ==> w.raising + w.posted > 0)
    && (w.pump in {Checked, Hooked, Parked} && AtEnd(w.queue) ==> w.raising + w.posted > 0)
  }

  lemma TurnKeepsCovered(w: World, t: Turn)
    requires Covered(w)
    ensures Covered(Turned(w, t))
  {
    if Can(w, t) && t.Produce? {
      match t.op {
        case Enqueue(s) => assert s == [] ==> w.queue.queued + s == w.queue.queued;
        case _ =>
      }
    }
  }

  lemma {:induction false} RunKeepsCovered(w: World, turns: seq<Turn>)
    requires Covered(w)
    ensures Covered(Run(w, turns))
  {
    if turns == [] {
    } else {
      RunKeepsCovered(w, turns[..|turns| - 1]);
      TurnKeepsCovered(Run(w, turns[..|turns| - 1]), turns[|turns| - 1]);
    }
  }

  // The pump as written hooks the signal only after its first miss: a segment
  // enqueued and signalled between that miss and the hook is never noticed.
  const LOST_SIGNAL: seq<Turn> := [Fetch(8192), CheckEnd, Produce(Enqueue([7])), Raise, Hook, Park]

  lemma {:induction false} Step(w: World, turns: seq<Turn>, t: Turn)
    ensures Run(w, turns + [t]) == Turned(Run(w, turns), t)
  {
    hide Turned;
    assert (turns + [t])[..|turns|] == turns;
  }

  lemma LostSteps(q0: Queue, q1: Queue)
    requires q0 == Queue(true, false, [], 0) && q1 == Queue(true, false, [7], 0)
    ensures Turned(World(q0, 0, 0, false, Active), Fetch(8192)) == World(q0, 0, 0, false, Missed)
    ensures Turned(World(q0, 0, 0, false, Missed), CheckEnd) == World(q0, 0, 0, false, Checked)
    ensures Turned(World(q0, 0, 0, false, Checked), Produce(Enqueue([7]))) == World(q1, 1, 0, false, Checked)
    ensures Turned(World(q1, 1, 0, false, Checked), Raise) == World(q1, 0, 0, false, Checked)
    ensures Turned(World(q1, 0, 0, false, Checked), Hook) == World(q1, 0, 0, true, Hooked)
    ensures Turned(World(q1, 0, 0, true, Hooked), Park) == World(q1, 0, 0, true, Parked)
  {
    assert q0.queued + [7] == [7];
  }

  lemma SignalLost()
    ensures Stuck(Run(Start(false), LOST_SIGNAL))
  {
    hide Run, Turned;
    var w := Start(false);
    LostSteps(w.queue, Queue(true, false, [7], 0));
    var t1: seq<Turn> := [Fetch(8192)];
    var t2 := t1 + [CheckEnd];
    var t3 := t2 + [Produce(Enqueue([7]))];
    var t4 := t3 + [Raise];
    var t5 := t4 + [Hook];
    NoTurns(w);
    Step(w, [], Fetch(8192));
    assert [] + t1 == t1;
    Step(w, t1, CheckEnd);
    Step(w, t2, Produce(Enqueue([7])));
    Step(w, t3, Raise);
    Step(w, t4, Hook);
    Step(w, t5, Park);
    assert t5 + [Park] == LOST_SIGNAL;
  }

  lemma {:induction false} NoTurns(w: World)
    ensures Run(w, []) == w
  {
  }

  // No run strands the connection exactly when the signal was hooked before the
  // first read.
  lemma NeverStuckExactlyWhenHooked(hooked: bool)
    ensures (forall turns :: !Stuck(Run(Start(hooked), turns))) <==> hooked
  {
    if hooked {
      forall turns ensures !Stuck(Run(Start(true), turns)) {
        RunKeepsCovered(Start(true), turns);
      }
    } else {
      SignalLost();
      assert Stuck(Run(Start(hooked), LOST_SIGNAL));
    }
  }

  // A pump that has parked once stays hooked: from then on it cannot be stranded.
  lemma {:induction false} LaterParksAreSafe(w: World, turns: seq<Turn>)
    requires w.queue.open && w.hooked && w.pump == Active
    ensures !Stuck(Run(w, turns))
  {
    RunKeepsCovered(w, turns);
  }

  // ---------------------------------------------------------------------
  // The connection as written: nothing hooked before its first miss
  // ---------------------------------------------------------------------

  // Something to send, or an end to report.
  predicate Unseen(q: Queue) {
    q.queued != [] || AtEnd(q)
  }

  // A signal raised in the gap between an empty read and the hook, while there is
  // something it announces.
  predicate LosesSignal(w: World, t: Turn) {
    t == Raise && Can(w, t) && !w.hooked && (w.pump == Missed || w.pump == Checked) && Unseen(w.queue)
  }

  // Whether a run has lost a signal that no later one has made up for.
  function Lost(w: World, turns: seq<Turn>): bool {
    if turns == [] then false
    else
      var n := |turns| - 1;
      var v := Run(w, turns[..n]);
      LosesSignal(v, turns[n])
      || (Lost(w, turns[..n]) && !(turns[n] == Deliver && Can(v, Deliver)))
  }

  ghost predicate Accounted(w: World, lost: bool) {
    && w.queue.open
    && (!w.hooked ==> w.posted == 0 && w.pump != Hooked && w.pump != Parked)
    && (w.pump in {Missed, Checked, Hooked, Parked} && w.queue.queued != [] ==> w.raising + w.posted > 0 || lost)
    && (w.pump in {Checked, Hooked, Parked} && AtEnd(w.queue) ==> w.raising + w.posted > 0 || lost)
    && (lost ==> w.pump != Active && Unseen(w.queue))
  }

  lemma TurnKeepsAccounts(w: World, lost: bool, t: Turn)
    requires Accounted(w, lost)
    ensures Accounted(Turned(w, t), LosesSignal(w, t) || (lost && !(t == Deliver && Can(w, Deliver))))
  {
    if Can(w, t) && t.Produce? {
      match t.op {
        case Enqueue(s) => assert s == [] ==> w.queue.queued + s == w.queue.queued;
        case _ =>
      }
    }
  }

  lemma {:induction false} RunKeepsAccounts(turns: seq<Turn>)
    ensures Accounted(Run(Start(false), turns), Lost(Start(false), turns))
  {
    if turns == [] {
    } else {
      hide Accounted, LosesSignal, Turned, Can;
      var n := |turns| - 1;
      RunKeepsAccounts(turns[..n]);
      TurnKeepsAccounts(Run(Start(false), turns[..n]), Lost(Start(false), turns[..n]), turns[n]);
    }
  }

  // Which runs strand the connection: those that park with every signal spent and
  // a signal lost in the gap that no later one has made up for.
  lemma {:induction false} StuckExactlyAfterALostSignal(turns: seq<Turn>)
    ensures var w := Run(Start(false), turns);
            Stuck(w) <==> w.pump == Parked && w.raising == 0 && w.posted == 0 && Lost(Start(false), turns)
  {
    RunKeepsAccounts(turns);
  }

  // So a run in which no signal is raised in the gap strands nothing.
  predicate GapIsQuiet(w: World, turns: seq<Turn>)
    decreases |turns|
  {
    turns == [] ||
    var n := |turns| - 1;
    var v := Run(w, turns[..n]);
    GapIsQuiet(w, turns[..n])
    && !(turns[n] == Raise && Can(v, Raise) && !v.hooked && (v.pump == Missed || v.pump == Checked))
  }

  lemma {:induction false} QuietGapIsSafe(turns: seq<Turn>)
    requires GapIsQuiet(Start(false), turns)
    ensures !Lost(Start(false), turns) && !Stuck(Run(Start(false), turns))
  {
    StuckExactlyAfterALostSignal(turns);
    if turns == [] {
    } else {
      hide Turned;
      QuietGapIsSafe(turns[..|turns| - 1]);
    }
  }

  function Raises(n: nat): (ts: seq<Turn>)
    ensures |ts| == n
  {
    if n == 0 then [] else Raises(n - 1) + [Raise]
  }

  lemma {:induction false} RaisesAreLost(w: World, n: nat)
    requires !w.hooked && n <= w.raising
    ensures Run(w, Raises(n)) == w.(raising := w.raising - n)
  {
    if n == 0 {
    } else {
      RaisesAreLost(w, n - 1);
      Step(w, Raises(n - 1), Raise);
    }
  }

  // And the converse: wherever a run stands in the gap with something to announce
  // and a stream not yet found ended, the signals owed can all fall into the gap,
  // and then the connection is stranded.
  lemma {:induction false} GapCanStrand(w: World)
    requires !w.hooked && w.posted == 0
    requires (w.pump == Checked && Unseen(w.queue)) || (w.pump == Missed && w.queue.queued != [])
    ensures exists more :: Stuck(Run(w, more))
  {
    hide Turned;
    var r := Raises(w.raising);
    var v := w.(raising := 0);
    RaisesAreLost(w, w.raising);
    var checked := if w.pump == Missed then r + [CheckEnd] else r;
    assert Run(w, checked) == v.(pump := Checked) by {
      if w.pump == Missed {
        Step(w, r, CheckEnd);
        CheckFindsMore(v);
      }
    }
    Step(w, checked, Hook);
    Step(w, checked + [Hook], Park);
    HookAndPark(v.(pump := Checked));
    assert Stuck(Run(w, checked + [Hook] + [Park]));
  }

  lemma CheckFindsMore(w: World)
    requires w.pump == Missed && w.queue.queued != []
    ensures Turned(w, CheckEnd) == w.(pump := Checked)
  {
  }

  lemma HookAndPark(w: World)
    requires w.pump == Checked
    ensures Turned(Turned(w, Hook), Park) == w.(hooked := true, pump := Parked)
  {
  }

  // A producer that has finished, signals and all, before the pump first reads is
  // safe as the code stands.
  lemma {:induction false} FinishedProducerIsSafe(before: seq<Turn>, after: seq<Turn>)
    requires forall i :: 0 <= i < |before| ==> before[i].Produce? || before[i].Raise?
    requires Run(Start(false), before).raising == 0
    requires forall i :: 0 <= i < |after| ==> !after[i].Produce?
    ensures Run(Start(false), before + after).raising == 0
    ensures !Lost(Start(false), before + after) && !Stuck(Run(Start(false), before + after))
  {
    StuckExactlyAfterALostSignal(before + after);
    if after == [] {
      assert before + after == before;
      NotYetPumping(before);
    } else {
      var n := |after| - 1;
      assert (before + after)[..|before + after| - 1] == before + after[..n];
      FinishedProducerIsSafe(before, after[..n]);
    }
  }

  lemma {:induction false} NotYetPumping(before: seq<Turn>)
    requires forall i :: 0 <= i < |before| ==> before[i].Produce? || before[i].Raise?
    ensures Run(Start(false), before).pump == Active && !Lost(Start(false), before)
  {
    if before == [] {
    } else {
      NotYetPumping(before[..|before| - 1]);
    }
  }
}
