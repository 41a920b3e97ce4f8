// The pipeline manager: pipelines by id in creation order, events fanned out to
// subscribers outside the lock, and `run` as a chain of guarded lifecycle calls.

module Pipelines {
  import opened Errors

  type Id = nat
  type Event = nat

  datatype Life = Empty | Built | Open | Running | Stopped | Closed

  datatype Call = DoBuild | DoOpen | DoStart | DoStop | DoClose

  // The states in which the routes allow each call.
  predicate Allowed(s: Life, c: Call) {
    match c
    case DoBuild => s == Empty || s == Closed
    case DoOpen => s == Built
    case DoStart => s == Open || s == Stopped
    case DoStop => s == Running
    case DoClose => s != Empty && s != Closed
  }

  // The life cycle the routes allow, as a graph: from which state each call leads,
  // when it succeeds, to which.
  lemma LifeCycle(s: Life, c: Call, t: Life)
    ensures Allowed(s, c) && Reached(c) == t <==>
            (s, c, t) in {
              (Empty, DoBuild, Built), (Closed, DoBuild, Built),
              (Built, DoOpen, Open),
              (Open, DoStart, Running), (Stopped, DoStart, Running),
              (Running, DoStop, Stopped),
              (Built, DoClose, Closed), (Open, DoClose, Closed), (Running, DoClose, Closed),
              (Stopped, DoClose, Closed)}
  {
  }

  function Reached(c: Call): Life {
    match c
    case DoBuild => Built
    case DoOpen => Open
    case DoStart => Running
    case DoStop => Stopped
    case DoClose => Closed
  }

  // What a call meets: the planner's verdict, if it is a build, and then what the
  // pipeline does - the events it publishes before returning, its error, and the
  // state it is left in should it fail.
  datatype Outcome = Outcome(plan: Error, events: seq<Event>, err: Error, failed: Life)

  // A build that cannot be planned never reaches the pipeline.
  predicate Reaches(c: Call, o: Outcome) {
    c == DoBuild ==> o.plan == Ok
  }

  function Result(c: Call, o: Outcome): Error {
    if Reaches(c, o) then o.err else o.plan
  }

  function After(c: Call, o: Outcome): Life {
    if o.err == Ok then Reached(c) else o.failed
  }

  // A subscriber, and what its callback does to the manager when called.
  datatype Action = Join(callback: Callback) | Leave(sub: nat)
  datatype Callback = Callback(actions: seq<Action>)
  datatype Subscriber = Subscriber(sub: nat, callback: Callback)

  datatype Delivery = Delivery(sub: nat, id: Id, event: Event)

  function Deliveries(subs: seq<Subscriber>, id: Id, event: Event): (ds: seq<Delivery>)
    ensures |ds| == |subs|
    ensures forall i :: 0 <= i < |subs| ==> ds[i] == Delivery(subs[i].sub, id, event)
  {
    if subs == [] then [] else [Delivery(subs[0].sub, id, event)] + Deliveries(subs[1..], id, event)
  }

  // A table ordered by subscription id, and the id the next subscriber gets.
  datatype Table = Table(subs: seq<Subscriber>, next: nat)

  function Without(subs: seq<Subscriber>, sub: nat): seq<Subscriber> {
    if subs == [] then []
    else (if subs[0].sub == sub then [] else [subs[0]]) + Without(subs[1..], sub)
  }

  function Acted(t: Table, a: Action): Table {
    match a
    case Join(f) => Table(t.subs + [Subscriber(t.next, f)], t.next + 1)
    case Leave(sub) => t.(subs := Without(t.subs, sub))
  }

  function ActedAll(t: Table, actions: seq<Action>): Table {
    if actions == [] then t else Acted(ActedAll(t, actions[..|actions| - 1]), actions[|actions| - 1])
  }

  // The table after every subscriber of a snapshot has been called in turn.
  function Called(t: Table, snapshot: seq<Subscriber>): Table {
    if snapshot == [] then t
    else
      var n := |snapshot| - 1;
      ActedAll(Called(t, snapshot[..n]), snapshot[n].callback.actions)
  }

  // ---------------------------------------------------------------------
  // Subscriptions
  // ---------------------------------------------------------------------

  // Subscription ids ascend and the next one is new.
  ghost predicate Orderly(t: Table) {
    && (forall i, j :: 0 <= i < j < |t.subs| ==> t.subs[i].sub < t.subs[j].sub)
    && (forall i :: 0 <= i < |t.subs| ==> t.subs[i].sub < t.next)
  }

  // They do after any run of callbacks.
  lemma {:induction false} TablesAreOrderly(actions: seq<Action>)
    ensures Orderly(ActedAll(Table([], 0), actions))
  {
    if actions == [] {
    } else {
      var n := |actions| - 1;
      TablesAreOrderly(actions[..n]);
      var t := ActedAll(Table([], 0), actions[..n]);
      if actions[n].Leave? { LeaveStaysOrderly(t, actions[n].sub); }
    }
  }

  lemma LeaveStaysOrderly(t: Table, sub: nat)
    requires Orderly(t)
    ensures Orderly(Acted(t, Leave(sub)))
  {
    if k :| 0 <= k < |t.subs| && t.subs[k].sub == sub {
      LeaveRemovesExactlyOne(t, k);
    } else {
      LeaveOfStrangerChangesNothing(t, sub);
    }
  }

  // Unsubscribing takes out that subscriber, and the others stay in their order.
  lemma LeaveRemovesExactlyOne(t: Table, k: nat)
    requires Orderly(t) && k < |t.subs|
    ensures Acted(t, Leave(t.subs[k].sub)) == Table(t.subs[..k] + t.subs[k + 1..], t.next)
  {
    var sub := t.subs[k].sub;
    assert t.subs == t.subs[..k] + ([t.subs[k]] + t.subs[k + 1..]);
    WithoutJoin(t.subs[..k], [t.subs[k]] + t.subs[k + 1..], sub);
    WithoutJoin([t.subs[k]], t.subs[k + 1..], sub);
    WithoutNone(t.subs[..k], sub);
    WithoutNone(t.subs[k + 1..], sub);
    assert Without([t.subs[k]], sub) == [];
    assert [] + t.subs[k + 1..] == t.subs[k + 1..];
  }

  lemma LeaveOfStrangerChangesNothing(t: Table, sub: nat)
    requires forall i :: 0 <= i < |t.subs| ==> t.subs[i].sub != sub
    ensures Acted(t, Leave(sub)) == t
  {
    WithoutNone(t.subs, sub);
  }

  lemma {:induction false} WithoutNone(subs: seq<Subscriber>, sub: nat)
    requires forall i :: 0 <= i < |subs| ==> subs[i].sub != sub
    ensures Without(subs, sub) == subs
  {
    if subs == [] {
    } else {
      WithoutNone(subs[1..], sub);
    }
  }

  lemma {:induction false} WithoutJoin(a: seq<Subscriber>, b: seq<Subscriber>, sub: nat)
    ensures Without(a + b, sub) == Without(a, sub) + Without(b, sub)
  {
    if a == [] {
      assert a + b == b;
    } else {
      assert (a + b)[1..] == a[1..] + b;
      WithoutJoin(a[1..], b, sub);
    }
  }

  datatype Fanned = Fanned(table: Table, log: seq<Delivery>)

  // Each event goes to the subscribers of its own snapshot; what their callbacks
  // change counts from the next event on.
  function FanOut(t: Table, id: Id, events: seq<Event>): Fanned {
    if events == [] then Fanned(t, [])
    else
      var n := |events| - 1;
      var f := FanOut(t, id, events[..n]);
      Fanned(Called(f.table, f.table.subs), f.log + Deliveries(f.table.subs, id, events[n]))
  }

  // ---------------------------------------------------------------------
  // Run
  // ---------------------------------------------------------------------

  // The calls `run` makes from each state, when none of them fails.
  function Plan(s: Life): seq<Call> {
    match s
    case Stopped => [DoClose, DoBuild, DoOpen, DoStart]
    case Empty => [DoBuild, DoOpen, DoStart]
    case Closed => [DoBuild, DoOpen, DoStart]
    case Built => [DoOpen, DoStart]
    case Open => [DoStart]
    case Running => []
  }

  // The last of the first k calls of a run may have stopped at the planner.
  function Seenable(s: Life, outcomes: seq<Outcome>, k: nat): nat
    requires k <= |Plan(s)| && k <= |outcomes|
  {
    if k > 0 && !Reaches(Plan(s)[k - 1], outcomes[k - 1]) then k - 1 else k
  }

  // Where a run leaves the pipeline whose last call failed: where that call left it,
  // or, refused by the planner, where the calls before it did.
  function Left(s: Life, outcomes: seq<Outcome>, made: nat): Life
    requires 0 < made <= |Plan(s)| && made <= |outcomes|
  {
    if Reaches(Plan(s)[made - 1], outcomes[made - 1]) then outcomes[made - 1].failed
    else Along(s, Plan(s), made - 1)
  }

  lemma LeftBehind(s: Life, outcomes: seq<Outcome>, k: nat)
    requires k < |Plan(s)| && k < |outcomes| && Result(Plan(s)[k], outcomes[k]) != Ok
    ensures Left(s, outcomes, k + 1)
            == if Reaches(Plan(s)[k], outcomes[k]) then After(Plan(s)[k], outcomes[k]) else Along(s, Plan(s), k)
  {
    hide Along;
  }

  // The pipeline's state after k successful calls of a plan.
  function Along(s: Life, plan: seq<Call>, k: nat): Life
    requires k <= |plan|
  {
    if k == 0 then s else Reached(plan[k - 1])
  }

  // Each call of the plan is allowed in the state the one before it leaves, and
  // the last leaves the pipeline running.
  lemma PlansAreAllowed(s: Life)
    ensures var p := Plan(s);
            && (forall k :: 0 <= k < |p| ==> Allowed(Along(s, p, k), p[k]))
            && Along(s, p, |p|) == Running
  {
  }

  // What the pipeline itself takes: unlike the routes it does not start again once
  // stopped, and closing is never refused.
  predicate Accepts(s: Life, c: Call) {
    match c
    case DoBuild => s in {Empty, Closed}
    case DoOpen => s == Built
    case DoStart => s == Open
    case DoStop => s == Running
    case DoClose => true
  }

  // The one call a route lets through that the pipeline then refuses is a start after
  // a stop. `run` makes no such call: from Stopped it closes and builds anew.
  lemma GuardsMeetThePipeline(s: Life, c: Call)
    ensures Allowed(s, c) && !Accepts(s, c) <==> s == Stopped && c == DoStart
    ensures var p := Plan(s); forall k :: 0 <= k < |p| ==> Accepts(Along(s, p, k), p[k])
  {
  }

  // Where a plan stands after k calls says which call is next, and when it is done.
  lemma OnPath(s: Life, k: nat)
    requires k <= |Plan(s)|
    ensures var p, at := Plan(s), Along(s, Plan(s), k);
            && |p| <= 4
            && (k == |p| <==> at == Running)
            && (k < |p| ==> Along(s, p, k + 1) == Reached(p[k])
                            && match at
                               case Stopped => p[k] == DoClose
                               case Empty => p[k] == DoBuild
                               case Closed => p[k] == DoBuild
                               case Built => p[k] == DoOpen
                               case Open => p[k] == DoStart
                               case Running => false)
  {
  }

  // ---------------------------------------------------------------------
  // Order
  // ---------------------------------------------------------------------

  function Kept(created: seq<Id>, keys: set<Id>): seq<Id> {
    if created == [] then []
    else
      var n := |created| - 1;
      Kept(created[..n], keys) + (if created[n] in keys then [created[n]] else [])
  }

  ghost predicate Distinct(ids: seq<Id>) {
    forall i, j :: 0 <= i < j < |ids| ==> ids[i] != ids[j]
  }

  lemma {:induction false} KeptIsListed(created: seq<Id>, keys: set<Id>)
    requires Distinct(created)
    ensures Distinct(Kept(created, keys))
    ensures forall id :: id in Kept(created, keys) <==> id in created && id in keys
  {
    if created == [] {
    } else {
      var n := |created| - 1;
      KeptIsListed(created[..n], keys);
      assert created == created[..n] + [created[n]];
      assert created[n] !in created[..n];
    }
  }

  lemma {:induction false} KeptElsewhere(created: seq<Id>, a: set<Id>, b: set<Id>)
    requires forall id :: id in created ==> (id in a <==> id in b)
    ensures Kept(created, a) == Kept(created, b)
  {
    if created == [] {
    } else {
      var n := |created| - 1;
      assert created[n] in created;
      KeptElsewhere(created[..n], a, b);
    }
  }

  function Others(created: seq<Id>, id: Id): seq<Id> {
    if created == [] then []
    else
      var n := |created| - 1;
      Others(created[..n], id) + (if created[n] == id then [] else [created[n]])
  }

  lemma DistinctSnoc(ids: seq<Id>, id: Id)
    ensures Distinct(ids + [id]) <==> Distinct(ids) && id !in ids
  {
    if Distinct(ids + [id]) {
      forall i, j | 0 <= i < j < |ids| ensures ids[i] != ids[j] {
        assert (ids + [id])[i] != (ids + [id])[j];
      }
      forall i | 0 <= i < |ids| ensures ids[i] != id {
        assert (ids + [id])[i] != (ids + [id])[|ids|];
      }
    }
  }

  lemma {:induction false} OthersAreListed(created: seq<Id>, id: Id)
    requires Distinct(created)
    ensures Distinct(Others(created, id))
    ensures forall x :: x in Others(created, id) <==> x in created && x != id
  {
    if created == [] {
    } else {
      hide Distinct;
      var n := |created| - 1;
      assert created == created[..n] + [created[n]];
      DistinctSnoc(created[..n], created[n]);
      OthersAreListed(created[..n], id);
      DistinctSnoc(Others(created[..n], id), created[n]);
    }
  }

  lemma {:induction false} KeptSnoc(created: seq<Id>, keys: set<Id>, id: Id)
    ensures Kept(created + [id], keys) == Kept(created, keys) + (if id in keys then [id] else [])
  {
    assert (created + [id])[..|created|] == created;
  }

  lemma {:induction false} OthersAreKept(created: seq<Id>, keys: set<Id>, id: Id)
    requires id !in keys
    ensures Kept(Others(created, id), keys) == Kept(created, keys)
  {
    if created == [] {
    } else {
      var n := |created| - 1;
      OthersAreKept(created[..n], keys, id);
      var rest := Others(created[..n], id);
      KeptSnoc(rest, keys, created[n]);
      assert rest + [] == rest && Kept(created[..n], keys) + [] == Kept(created[..n], keys);
    }
  }

  // Handing out an id, used before or not: it goes to the end of the order, which
  // stays right exactly when no entry had it.
  lemma {:induction false} Recreated(created: seq<Id>, keys: set<Id>, id: Id)
    requires Distinct(created) && forall x :: x in keys ==> x in created
    ensures var again, keys' := Others(created, id) + [id], keys + {id};
            && Distinct(again) && (forall x :: x in keys' ==> x in again)
            && (Kept(again, keys') == Kept(created, keys) + [id] <==> id !in keys)
  {
    hide Kept, Distinct, Others;
    var again, keys' := Others(created, id) + [id], keys + {id};
    OthersAreListed(created, id);
    DistinctSnoc(Others(created, id), id);
    KeptSnoc(Others(created, id), keys', id);
    if id !in keys {
      KeptElsewhere(Others(created, id), keys', keys);
      OthersAreKept(created, keys, id);
    } else {
      KeptIsListed(created, keys);
      KeptIsListed(again, keys');
      DistinctSnoc(Kept(created, keys), id);
    }
  }

  lemma {:induction false} KeptWithout(created: seq<Id>, keys: set<Id>, id: Id, i: nat)
    requires Distinct(created)
    requires i < |Kept(created, keys)| && Kept(created, keys)[i] == id
    ensures Kept(created, keys - {id}) == Kept(created, keys)[..i] + Kept(created, keys)[i + 1..]
  {
    var n := |created| - 1;
    var k := Kept(created[..n], keys);
    KeptIsListed(created[..n], keys);
    assert created == created[..n] + [created[n]];
    assert created[n] !in created[..n];
    if created[n] == id {
      assert id !in k;
      assert i == |k|;
      KeptElsewhere(created[..n], keys - {id}, keys);
      assert (k + [id])[..i] == k;
    } else {
      assert i < |k|;
      KeptWithout(created[..n], keys, id, i);
    }
  }
}

module PipelineManager {
  import opened Errors
  import opened Bytes
  import opened Pipelines

  // One lifecycle call as a pipeline saw it.
  datatype Seen = Seen(id: Id, call: Call, state: Life)

  class PipelineManager {
    var locked: bool
    var entries: map<Id, Life>
    var order: seq<Id>
    var subscribers: seq<Subscriber>
    var nextSubId: nat
    ghost var created: seq<Id>
    ghost var log: seq<Delivery>
    ghost var calls: seq<Seen>

    ghost predicate Valid() reads this {
      && !locked && Distinct(created)
      && (forall id :: id in entries ==> id in created)
      && order == Kept(created, entries.Keys)
    }

    ghost function View(): Table reads this {
      Table(subscribers, nextSubId)
    }

    constructor ()
      ensures Valid() && entries == map[] && order == [] && View() == Table([], 0)
      ensures created == [] && log == [] && calls == []
    {
      locked, entries, order, subscribers, nextSubId := false, map[], [], [], 0;
      created, log, calls := [], [], [];
    }

    method Lock()
      requires !locked
      modifies this`locked
      ensures locked
    {
      locked := true;
    }

    method Unlock()
      requires locked
      modifies this`locked
      ensures !locked
    {
      locked := false;
    }

    // The generated id is not checked: the order stays right exactly when no entry
    // has it yet.
    method Create(id: Id)
      requires Valid()
      modifies this`locked, this`entries, this`order, this`created
      ensures entries == old(entries)[id := Empty] && order == old(order) + [id]
      ensures created == Others(old(created), id) + [id]
      ensures Valid() <==> id !in old(entries)
    {
      hide Kept, Distinct, Others;
      Recreated(created, entries.Keys, id);
      Lock();
      order := order + [id];
      entries := entries[id := Empty];
      Unlock();
      created := Others(created, id) + [id];
      assert entries.Keys == old(entries).Keys + {id};
    }

    // Takes the entry out under the lock; the pipeline is unsubscribed from and
    // closed outside it, so that closing it publishes nothing here.
    method Remove(id: Id) returns (err: Error)
      requires Valid()
      modifies this`locked, this`entries, this`order, this`calls
      ensures Valid() && err == if id in old(entries) then Ok else NotExist
      ensures entries == old(entries) - {id}
      ensures calls == old(calls)
                       + (if id in old(entries) && Allowed(old(entries)[id], DoClose)
                          then [Seen(id, DoClose, old(entries)[id])] else [])
    {
      hide Kept, Distinct;
      Lock();
      if id !in entries {
        Unlock();
        return NotExist;
      }
      KeptIsListed(created, entries.Keys);
      assert order[..|order|] == order;
      var i := 0;
      while i < |order| && order[i] != id
        invariant 0 <= i <= |order|
        invariant id !in order[..i]
      {
        i := i + 1;
      }
      KeptWithout(created, entries.Keys, id, i);
      order := order[..i] + order[i + 1..];
      var doomed := entries[id];
      entries := entries - {id};
      Unlock();
      if doomed != Empty && doomed != Closed {
        calls := calls + [Seen(id, DoClose, doomed)];
      }
      return Ok;
    }

    method DescribeAll() returns (ds: seq<(Id, Life)>)
      requires Valid()
      modifies this`locked
      ensures Valid()
      ensures |ds| == |order|
      ensures forall i :: 0 <= i < |order| ==> order[i] in entries && ds[i] == (order[i], entries[order[i]])
    {
      Lock();
      KeptIsListed(created, entries.Keys);
      ds := [];
      for i := 0 to |order|
        invariant locked && |ds| == i
        invariant forall k :: 0 <= k < i ==> order[k] in entries && ds[k] == (order[k], entries[order[k]])
      {
        assert order[i] in order;
        ds := ds + [(order[i], entries[order[i]])];
      }
      Unlock();
    }

    method Subscribe(f: Callback) returns (sub: nat)
      requires !locked
      modifies this`locked, this`subscribers, this`nextSubId
      ensures !locked && sub == old(nextSubId) && View() == Acted(old(View()), Join(f))
    {
      Lock();
      sub := nextSubId;
      nextSubId := nextSubId + 1;
      subscribers := subscribers + [Subscriber(sub, f)];
      Unlock();
    }

    method Unsubscribe(sub: nat)
      requires !locked
      modifies this`locked, this`subscribers
      ensures !locked && View() == Acted(old(View()), Leave(sub))
    {
      Lock();
      subscribers := Without(subscribers, sub);
      Unlock();
    }

    // A subscriber's callback, which may come back into the manager.
    method Call(s: Subscriber, id: Id, event: Event)
      requires !locked
      modifies this`locked, this`subscribers, this`nextSubId, this`log
      ensures !locked && log == old(log) + [Delivery(s.sub, id, event)]
      ensures View() == ActedAll(old(View()), s.callback.actions)
    {
      log := log + [Delivery(s.sub, id, event)];
      var actions := s.callback.actions;
      var i := 0;
      assert actions[..0] == [];
      while i < |actions|
        invariant 0 <= i <= |actions| && !locked
        invariant log == old(log) + [Delivery(s.sub, id, event)]
        invariant View() == ActedAll(old(View()), actions[..i])
      {
        assert actions[..i + 1][..i] == actions[..i];
        match actions[i] {
          case Join(f) => var _ := Subscribe(f);
          case Leave(sub) => Unsubscribe(sub);
        }
        i := i + 1;
      }
      assert actions[..i] == actions;
    }

    // Snapshot under the lock, dispatch outside it.
    method Publish(id: Id, event: Event)
      requires !locked
      modifies this`locked, this`subscribers, this`nextSubId, this`log
      ensures !locked
      ensures log == old(log) + Deliveries(old(subscribers), id, event)
      ensures View() == Called(old(View()), old(subscribers))
    {
      hide Deliveries, ActedAll;
      Lock();
      var snapshot := subscribers;
      Unlock();
      var i := 0;
      assert snapshot[..0] == [];
      while i < |snapshot|
        invariant 0 <= i <= |snapshot| && !locked
        invariant log == old(log) + Deliveries(snapshot[..i], id, event)
        invariant View() == Called(old(View()), snapshot[..i])
      {
        assert snapshot[..i + 1][..i] == snapshot[..i];
        Call(snapshot[i], id, event);
        assert Deliveries(snapshot[..i + 1], id, event)
            == Deliveries(snapshot[..i], id, event) + [Delivery(snapshot[i].sub, id, event)];
        i := i + 1;
      }
      assert snapshot[..i] == snapshot;
    }

    // What a pipeline publishes during one call, in order.
    method PublishAll(id: Id, events: seq<Event>)
      requires !locked
      modifies this`locked, this`subscribers, this`nextSubId, this`log
      ensures !locked
      ensures View() == FanOut(old(View()), id, events).table
      ensures log == old(log) + FanOut(old(View()), id, events).log
    {
      hide Called, Deliveries;
      var i := 0;
      assert events[..0] == [];
      while i < |events|
        invariant 0 <= i <= |events| && !locked
        invariant View() == FanOut(old(View()), id, events[..i]).table
        invariant log == old(log) + FanOut(old(View()), id, events[..i]).log
      {
        assert events[..i + 1][..i] == events[..i];
        Publish(id, events[i]);
        i := i + 1;
      }
      assert events[..i] == events;
    }

    // A lifecycle call: the entry is looked up under the lock and the pipeline
    // called outside it, publishing as it goes.
    method Lifecycle(id: Id, call: Call, o: Outcome) returns (err: Error)
      requires Valid()
      modifies this`locked, this`entries, this`subscribers, this`nextSubId, this`log, this`calls
      ensures Valid()
      ensures id !in old(entries) ==> err == NotExist && entries == old(entries) && calls == old(calls)
                                      && log == old(log) && View() == old(View())
      ensures id in old(entries) && !Reaches(call, o) ==>
                err == o.plan && entries == old(entries) && calls == old(calls)
                && log == old(log) && View() == old(View())
      ensures id in old(entries) && Reaches(call, o) ==>
                && err == o.err
                && entries == old(entries)[id := if o.err == Ok then Reached(call) else o.failed]
                && calls == old(calls) + [Seen(id, call, old(entries)[id])]
                && View() == FanOut(old(View()), id, o.events).table
                && log == old(log) + FanOut(old(View()), id, o.events).log
    {
      hide FanOut, Kept, Distinct;
      Lock();
      if id !in entries {
        Unlock();
        return NotExist;
      }
      if call == DoBuild && o.plan != Ok {
        Unlock();
        return o.plan;
      }
      Unlock();
      calls := calls + [Seen(id, call, entries[id])];
      PublishAll(id, o.events);
      entries := entries[id := After(call, o)];
      assert entries.Keys == old(entries).Keys;
      return o.err;
    }

    // One call of a run that began in state `first`.
    method RunStep(id: Id, call: Call, o: Outcome, ghost first: Life, ghost k: nat, ghost calls0: seq<Seen>)
      returns (err: Error)
      requires Valid() && id in entries && k < |Plan(first)|
      requires call == Plan(first)[k] && entries[id] == Along(first, Plan(first), k)
      requires calls == calls0 + Trace(id, first, k)
      modifies this`locked, this`entries, this`subscribers, this`nextSubId, this`log, this`calls
      ensures Valid() && err == Result(call, o)
      ensures entries == old(entries)[id := if Reaches(call, o) then After(call, o) else old(entries)[id]]
      ensures calls == calls0 + Trace(id, first, if Reaches(call, o) then k + 1 else k)
    {
      hide FanOut, Kept, Distinct;
      TraceStep(id, first, k, calls0);
      err := Lifecycle(id, call, o);
    }

    // Drives a pipeline to Running from wherever it is. `outcomes` is what the
    // pipeline will answer to each call in turn.
    method Run(id: Id, outcomes: seq<Outcome>) returns (err: Error, made: nat)
      requires Valid() && |outcomes| >= 4
      modifies this`locked, this`entries, this`subscribers, this`nextSubId, this`log, this`calls
      ensures Valid()
      ensures id !in old(entries) ==> err == NotExist && made == 0 && calls == old(calls)
      ensures id in old(entries) ==>
                && made <= |Plan(old(entries)[id])|
                && calls == old(calls) + Trace(id, old(entries)[id], Seenable(old(entries)[id], outcomes, made))
                && (forall k :: 0 <= k < made - 1 ==> Result(Plan(old(entries)[id])[k], outcomes[k]) == Ok)
                && err == (if made == 0 then Ok else Result(Plan(old(entries)[id])[made - 1], outcomes[made - 1]))
                && (err == Ok ==> made == |Plan(old(entries)[id])| && entries == old(entries)[id := Running])
                && (err != Ok ==> made > 0 && entries == old(entries)[id := Left(old(entries)[id], outcomes, made)])
    {
      hide FanOut, Trace, Kept, Distinct, Valid;
      made := 0;
      var state: Life;
      state, err := StateOf(id);
      if err != Ok { return; }
      ghost var calls0 := calls;
      NoTrace(id, state, calls);
      if state == Stopped {
        err := RunStep(id, DoClose, outcomes[0], Stopped, 0, calls0);
        made := 1;
        if err != Ok { return; }
        err, made := Forward(id, outcomes, Stopped, Closed, made, calls0);
      } else {
        err, made := Forward(id, outcomes, state, state, made, calls0);
      }
    }

    method StateOf(id: Id) returns (state: Life, err: Error)
      requires Valid()
      modifies this`locked
      ensures Valid() && err == if id in entries then Ok else NotExist
      ensures id in entries ==> state == entries[id]
    {
      Lock();
      if id !in entries {
        Unlock();
        return Empty, NotExist;
      }
      state, err := entries[id], Ok;
      Unlock();
    }

    // The forward path: build, open, start, from wherever `from` is on it.
    method Forward(id: Id, outcomes: seq<Outcome>, ghost first: Life, from: Life, before: nat, ghost calls0: seq<Seen>)
      returns (err: Error, made: nat)
      requires Valid() && |outcomes| >= 4 && id in entries && entries[id] == from
      requires from != Stopped && before <= |Plan(first)| && before <= 1 && Along(first, Plan(first), before) == from
      requires calls == calls0 + Trace(id, first, before)
      requires forall k :: 0 <= k < before ==> Result(Plan(first)[k], outcomes[k]) == Ok
      modifies this`locked, this`entries, this`subscribers, this`nextSubId, this`log, this`calls
      ensures Valid() && before <= made <= |Plan(first)|
      ensures calls == calls0 + Trace(id, first, Seenable(first, outcomes, made))
      ensures forall k :: 0 <= k < made - 1 ==> Result(Plan(first)[k], outcomes[k]) == Ok
      ensures err == (if made == before then Ok else Result(Plan(first)[made - 1], outcomes[made - 1]))
      ensures err == Ok ==> made == |Plan(first)| && entries == old(entries)[id := Running]
      ensures err != Ok ==> made > before && entries == old(entries)[id := Left(first, outcomes, made)]
    {
      hide FanOut, Trace, Kept, Distinct, Valid, Plan, Along, Left;
      made := before;
      var state := from;
      OnPath(first, made);
      if state == Empty || state == Closed {
        err := RunStep(id, DoBuild, outcomes[made], first, made, calls0);
        if err != Ok { LeftBehind(first, outcomes, made); }
        made := made + 1;
        if err != Ok { return; }
        state := Built;
        OnPath(first, made);
      }
      if state == Built {
        err := RunStep(id, DoOpen, outcomes[made], first, made, calls0);
        if err != Ok { LeftBehind(first, outcomes, made); }
        made := made + 1;
        if err != Ok { return; }
        state := Open;
        OnPath(first, made);
      }
      if state == Open {
        err := RunStep(id, DoStart, outcomes[made], first, made, calls0);
        if err != Ok { LeftBehind(first, outcomes, made); }
        made := made + 1;
        if err != Ok { return; }
        state := Running;
        OnPath(first, made);
      }
      err := Ok;
    }
  }

  // The first k calls of a run that began in state s.
  ghost function Trace(id: Id, s: Life, k: nat): seq<Seen>
    requires k <= |Plan(s)|
  {
    if k == 0 then [] else Trace(id, s, k - 1) + [Seen(id, Plan(s)[k - 1], Along(s, Plan(s), k - 1))]
  }

  lemma {:induction false} NoTrace(id: Id, s: Life, calls: seq<Seen>)
    ensures calls + Trace(id, s, 0) == calls
  {
  }

  lemma TraceStep(id: Id, s: Life, k: nat, calls: seq<Seen>)
    requires k < |Plan(s)|
    ensures calls + Trace(id, s, k + 1)
            == calls + Trace(id, s, k) + [Seen(id, Plan(s)[k], Along(s, Plan(s), k))]
  {
    Assoc(calls, Trace(id, s, k), [Seen(id, Plan(s)[k], Along(s, Plan(s), k))]);
  }

  // Every call a run issues is one the routes would allow in the state the
  // pipeline is then in.
  lemma {:induction false} RunIsGuarded(id: Id, s: Life, k: nat)
    requires k <= |Plan(s)|
    ensures forall c :: c in Trace(id, s, k) ==> c.id == id && Allowed(c.state, c.call)
  {
    if k == 0 {
    } else {
      RunIsGuarded(id, s, k - 1);
      PlansAreAllowed(s);
    }
  }
}
