// Pipelines under concurrent and re-entrant calls: a lifecycle call keeps a raw
// pointer after the manager's lock is released, and a removal destroys the
// pipeline after releasing it too.

module PipelineLifetime {
  type Id = nat

  // One activation of a manager call, on whatever thread, possibly inside another.
  type Activation = nat

  // Activations that hold a pointer they looked up, and activations that have
  // moved a pipeline out of its entry and not destroyed it yet.
  datatype State = State(
    entries: set<Id>,
    holding: map<Activation, Id>,
    removing: map<Activation, Id>,
    destroyed: set<Id>)

  const START: State := State({}, map[], map[], {})

  datatype Step =
    | Create(id: Id)
    | Lookup(a: Activation, id: Id)    // locked: find the entry, keep the pointer
    | Touch(a: Activation)             // unlocked: call the pipeline
    | Return(a: Activation)
    | Take(a: Activation, id: Id)      // locked: move the pipeline out
    | Destroy(a: Activation)           // unlocked: close and delete it

  predicate Known(s: State, id: Id) {
    id in s.entries || id in s.destroyed || id in s.removing.Values
  }

  predicate Enabled(s: State, step: Step) {
    match step
    case Create(id) => !Known(s, id)
    case Lookup(a, id) => a !in s.holding && id in s.entries
    case Touch(a) => a in s.holding
    case Return(a) => a in s.holding
    case Take(a, id) => a !in s.removing && id in s.entries
    case Destroy(a) => a in s.removing
  }

  function Do(s: State, step: Step): State {
    if !Enabled(s, step) then s
    else
      match step
      case Create(id) => s.(entries := s.entries + {id})
      case Lookup(a, id) => s.(holding := s.holding[a := id])
      case Touch(_) => s
      case Return(a) => s.(holding := s.holding - {a})
      case Take(a, id) => s.(entries := s.entries - {id}, removing := s.removing[a := id])
      case Destroy(a) => s.(removing := s.removing - {a}, destroyed := s.destroyed + {s.removing[a]})
  }

  function Run(s: State, steps: seq<Step>): State {
    if steps == [] then s else Do(Run(s, steps[..|steps| - 1]), steps[|steps| - 1])
  }

  // The call is about to use a pipeline that is no more.
  predicate Dangles(s: State, a: Activation) {
    a in s.holding && s.holding[a] in s.destroyed
  }

  // ---------------------------------------------------------------------
  // Every pipeline is in one place
  // ---------------------------------------------------------------------

  ghost predicate Placed(s: State) {
    && s.entries !! s.destroyed
    && (forall a :: a in s.removing ==> s.removing[a] !in s.entries && s.removing[a] !in s.destroyed)
    && (forall a, b :: a in s.removing && b in s.removing && s.removing[a] == s.removing[b] ==> a == b)
    && (forall a :: a in s.holding ==> Known(s, s.holding[a]))
  }

  lemma StepKeepsPlaces(s: State, step: Step)
    requires Placed(s)
    ensures Placed(Do(s, step))
    ensures step.Destroy? && Enabled(s, step) ==> s.removing[step.a] !in s.destroyed
  {
    var r := Do(s, step);
    if Enabled(s, step) {
      match step {
        case Create(id) =>
          assert id !in s.removing.Values;
        case Take(a, id) =>
          assert forall x :: x in s.removing.Values ==> x in r.removing.Values by {
            TakeValues(s.removing, a, id);
          }
          assert r.removing[a] == id && id in r.removing.Values;
        case Destroy(a) =>
          forall x | x in s.removing.Values && x != s.removing[a] ensures x in r.removing.Values {
            var b :| b in s.removing && s.removing[b] == x;
            assert b in r.removing && r.removing[b] == x;
          }
        case _ =>
      }
    }
  }

  lemma TakeValues(m: map<Activation, Id>, a: Activation, id: Id)
    requires a !in m
    ensures forall x :: x in m.Values ==> x in m[a := id].Values
  {
    forall x | x in m.Values ensures x in m[a := id].Values {
      var b :| b in m && m[b] == x;
      assert m[a := id][b] == x;
    }
  }

  lemma {:induction false} RunsKeepPlaces(steps: seq<Step>)
    ensures Placed(Run(START, steps))
  {
    if steps == [] {
    } else {
      hide Placed, Do;
      RunsKeepPlaces(steps[..|steps| - 1]);
      StepKeepsPlaces(Run(START, steps[..|steps| - 1]), steps[|steps| - 1]);
    }
  }

  // No pipeline is destroyed twice, however many removals race for it.
  lemma {:induction false} NeverDestroyedTwice(steps: seq<Step>, a: Activation)
    requires Enabled(Run(START, steps), Destroy(a))
    ensures Run(START, steps).removing[a] !in Run(START, steps).destroyed
  {
    RunsKeepPlaces(steps);
    StepKeepsPlaces(Run(START, steps), Destroy(a));
  }

  // A pointer dangles exactly when its pipeline has left the manager and no removal
  // is still closing it.
  lemma {:induction false} DanglesExactlyWhenGone(steps: seq<Step>, a: Activation)
    requires a in Run(START, steps).holding
    ensures var s := Run(START, steps);
            Dangles(s, a) <==> s.holding[a] !in s.entries && s.holding[a] !in s.removing.Values
  {
    RunsKeepPlaces(steps);
  }

  // ---------------------------------------------------------------------
  // Removal during a call
  // ---------------------------------------------------------------------

  // A removal that starts while some call holds the pipeline.
  predicate TakesHeld(s: State, step: Step) {
    step.Take? && Enabled(s, step) && step.id in s.holding.Values
  }

  predicate NoneTakesHeld(steps: seq<Step>) {
    steps == [] ||
    var n := |steps| - 1;
    NoneTakesHeld(steps[..n]) && !TakesHeld(Run(START, steps[..n]), steps[n])
  }

  ghost predicate AllHeld(s: State) {
    forall a :: a in s.holding ==> s.holding[a] in s.entries
  }

  lemma StepKeepsHeld(s: State, step: Step)
    requires AllHeld(s) && !TakesHeld(s, step)
    ensures AllHeld(Do(s, step))
  {
    if step.Take? && Enabled(s, step) {
      forall a | a in s.holding ensures s.holding[a] != step.id {
        assert s.holding[a] in s.holding.Values;
      }
    }
  }

  // If no removal starts while a call holds the pipeline, no call ever finds it
  // gone.
  lemma {:induction false} UndisturbedCallsAreSafe(steps: seq<Step>)
    requires NoneTakesHeld(steps)
    ensures AllHeld(Run(START, steps))
    ensures forall a :: !Dangles(Run(START, steps), a)
  {
    RunsKeepPlaces(steps);
    if steps == [] {
    } else {
      hide Do;
      var n := |steps| - 1;
      UndisturbedCallsAreSafe(steps[..n]);
      StepKeepsHeld(Run(START, steps[..n]), steps[n]);
    }
  }

  lemma {:induction false} OneMore(s: State, steps: seq<Step>, step: Step)
    ensures Run(s, steps + [step]) == Do(Run(s, steps), step)
  {
    assert (steps + [step])[..|steps|] == steps;
  }

  // And one that does leaves it dangling as soon as it is done, from another
  // thread or from a callback inside the call itself.
  lemma {:induction false} RemovalDuringACallDangles(steps: seq<Step>, a: Activation, b: Activation)
    requires var s := Run(START, steps);
             a in s.holding && Enabled(s, Take(b, s.holding[a]))
    ensures Dangles(Run(START, steps + [Take(b, Run(START, steps).holding[a])] + [Destroy(b)]), a)
  {
    var s := Run(START, steps);
    var take := Take(b, s.holding[a]);
    OneMore(START, steps, take);
    OneMore(START, steps + [take], Destroy(b));
  }
}
