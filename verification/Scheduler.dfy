/** The hub that merges the events of many generators in time order. */
module Scheduler {
  import opened VehicleTypes

  /** What a generator will yield, call by call, and nothing more after the first None. */
  type Output = nat -> Option<VehiclePropValue>

  datatype HubEvent = HubEvent(id: int, val: VehiclePropValue)

  /** The last registration of an id: its output, how many calls it has had, and how many events had
      been delivered when it was registered. */
  datatype Life = Life(out: Output, calls: nat, since: nat)

  /** The queue is a bag: events of the same time may leave it in any order. `waiting` is None while the
      loop is at its head, where it pops the events of generators that are gone; afterwards it holds the
      ids that have been unregistered since. */
  datatype Hub = Hub(
    queue: seq<HubEvent>,
    live: set<int>,
    lives: map<int, Life>,
    delivered: seq<HubEvent>,
    waiting: Option<set<int>>)

  const EMPTY_HUB := Hub([], {}, map[], [], None)

  datatype Step =
    | Register(id: int, out: Output)
    | Unregister(id: int)
    | PopDead(i: nat)
    | Wait(i: nat)
    | WakeUp
    | Deliver(i: nat)

  predicate IsTop(queue: seq<HubEvent>, i: nat) {
    i < |queue| && forall j :: 0 <= j < |queue| ==> queue[i].val.timestamp <= queue[j].val.timestamp
  }

  function Removed(queue: seq<HubEvent>, i: nat): seq<HubEvent>
    requires i < |queue|
  {
    queue[..i] + queue[i + 1..]
  }

  /** An event can be delivered while its generator is live, or when that was unregistered after the hub
      had begun to wait for the event. */
  predicate CanDeliver(s: Hub, id: int) {
    id in s.live || (s.waiting.Some? && id in s.waiting.value)
  }

  /** The hub pops what is dead, waits for an event that is not, or for the queue to fill, and then
      delivers, unless something happens that wakes it up before. */
  predicate Enabled(s: Hub, step: Step) {
    match step
    case PopDead(i) => s.waiting.None? && IsTop(s.queue, i) && s.queue[i].id !in s.live
    case Wait(i) => s.waiting.None? && (s.queue == [] || (IsTop(s.queue, i) && s.queue[i].id in s.live))
    case WakeUp => s.waiting.Some?
    case Deliver(i) =>
      s.waiting.Some? && IsTop(s.queue, i) && CanDeliver(s, s.queue[i].id) &&
      (s.queue[i].id in s.live ==> s.queue[i].id in s.lives)
    case _ => true
  }

  function Delivered(s: Hub, i: nat): Hub
    requires i < |s.queue| && (s.queue[i].id in s.live ==> s.queue[i].id in s.lives)
  {
    var e := s.queue[i];
    var rest := s.(queue := Removed(s.queue, i), delivered := s.delivered + [e], waiting := None);
    if e.id !in s.live then rest
    else
      var life := s.lives[e.id];
      var called := rest.(lives := s.lives[e.id := life.(calls := life.calls + 1)]);
      if life.out(life.calls).Some? then called.(queue := rest.queue + [HubEvent(e.id, life.out(life.calls).value)])
      else called.(live := s.live - {e.id})
  }

  function Unregistered(s: Hub, id: int): Hub {
    if id !in s.live then s
    else
      s.(live := s.live - {id}, waiting := match s.waiting case None => None case Some(gone) => Some(gone + {id}))
  }

  function Registered(s: Hub, id: int, out: Output): Hub {
    if out(0).None? then s
    else s.(queue := if id in s.live then s.queue else s.queue + [HubEvent(id, out(0).value)],
            live := s.live + {id}, lives := s.lives[id := Life(out, 1, |s.delivered|)])
  }

  function Next(s: Hub, step: Step): Hub
    requires Enabled(s, step)
  {
    match step
    case Register(id, out) => Registered(s, id, out)
    case Unregister(id) => Unregistered(s, id)
    case PopDead(i) => s.(queue := Removed(s.queue, i))
    case Wait(_) => s.(waiting := Some({}))
    case WakeUp => s.(waiting := None)
    case Deliver(i) => Delivered(s, i)
  }

  // ---- What the callers must keep to ----

  ghost predicate NonDecreasing(out: Output) {
    forall n: nat, m: nat :: n < m && out(n).Some? && out(m).Some? ==> out(n).value.timestamp <= out(m).value.timestamp
  }

  /** An id is not registered while it is live or still has an event queued, a generator yields
      non-decreasing times, and a new one does not start before the last delivered event. */
  ghost predicate Fair(s: Hub, step: Step) {
    step.Register? ==>
      && step.id !in s.live && (forall j :: 0 <= j < |s.queue| ==> s.queue[j].id != step.id)
      && NonDecreasing(step.out)
      && (step.out(0).Some? && s.delivered != [] ==>
            s.delivered[|s.delivered| - 1].val.timestamp <= step.out(0).value.timestamp)
  }

  ghost predicate IsRun(states: seq<Hub>, steps: seq<Step>) {
    && |states| == |steps| + 1 && states[0] == EMPTY_HUB
    && forall i :: 0 <= i < |steps| ==>
         Enabled(states[i], steps[i]) && Fair(states[i], steps[i]) && states[i + 1] == Next(states[i], steps[i])
  }

  // ---- What every run keeps ----

  function ValuesOf(events: seq<HubEvent>, id: int): seq<VehiclePropValue> {
    if events == [] then []
    else
      var rest, last := ValuesOf(events[..|events| - 1], id), events[|events| - 1];
      if last.id == id then rest + [last.val] else rest
  }

  /** What was delivered of an id since its last registration. */
  function Deliveries(s: Hub, id: int): seq<VehiclePropValue>
    requires id in s.lives && s.lives[id].since <= |s.delivered|
  {
    ValuesOf(s.delivered[s.lives[id].since..], id)
  }

  ghost predicate IsPrefixOfOutput(values: seq<VehiclePropValue>, out: Output) {
    forall k :: 0 <= k < |values| ==> out(k) == Some(values[k])
  }

  ghost predicate Ordered(events: seq<HubEvent>) {
    forall i, j :: 0 <= i < j < |events| ==> events[i].val.timestamp <= events[j].val.timestamp
  }

  predicate NotBefore(delivered: seq<HubEvent>, timestamp: int) {
    delivered == [] || delivered[|delivered| - 1].val.timestamp <= timestamp
  }

  predicate Queued(queue: seq<HubEvent>, id: int) {
    exists i :: 0 <= i < |queue| && queue[i].id == id
  }

  ghost predicate LifeInv(s: Hub, id: int) {
    id in s.lives ==>
      var life := s.lives[id];
      && life.since <= |s.delivered| && NonDecreasing(life.out)
      && |Deliveries(s, id)| <= life.calls && IsPrefixOfOutput(Deliveries(s, id), life.out)
  }

  // A queued event is the latest its generator gave, and all before it were delivered.
  ghost predicate QueuedInv(s: Hub, e: HubEvent) {
    && e.id in s.lives && s.lives[e.id].since <= |s.delivered| && s.lives[e.id].calls > 0
    && s.lives[e.id].out(s.lives[e.id].calls - 1) == Some(e.val)
    && |Deliveries(s, e.id)| == s.lives[e.id].calls - 1
    && NotBefore(s.delivered, e.val.timestamp)
  }

  ghost predicate Inv(s: Hub) {
    && (forall i, j :: 0 <= i < j < |s.queue| ==> s.queue[i].id != s.queue[j].id)
    && (forall i :: 0 <= i < |s.queue| ==> QueuedInv(s, s.queue[i]))
    && (forall id :: LifeInv(s, id))
    && (forall id <- s.live :: id in s.lives && Queued(s.queue, id))
    && Ordered(s.delivered)
  }

  lemma DeliveriesGrow(s: Hub, t: Hub, e: HubEvent, id: int)
    requires id in s.lives && id in t.lives && s.lives[id].since == t.lives[id].since <= |s.delivered|
    requires t.delivered == s.delivered + [e]
    ensures Deliveries(t, id) == if e.id == id then Deliveries(s, id) + [e.val] else Deliveries(s, id)
  {
    var since := s.lives[id].since;
    var all := t.delivered[since..];
    assert all == s.delivered[since..] + [e];
    assert all[..|all| - 1] == s.delivered[since..];
  }

  lemma RegisterKeepsLives(s: Hub, id: int, out: Output, d: int)
    requires Inv(s) && Fair(s, Register(id, out))
    ensures LifeInv(Registered(s, id, out), d)
  {
    hide NonDecreasing, QueuedInv, Ordered;
    assert LifeInv(s, d);
    assert s.delivered[|s.delivered|..] == [];
  }

  lemma RegisterKeepsQueued(s: Hub, id: int, out: Output, i: nat)
    requires Inv(s) && Fair(s, Register(id, out)) && i < |Registered(s, id, out).queue|
    ensures QueuedInv(Registered(s, id, out), Registered(s, id, out).queue[i])
  {
    hide NonDecreasing, LifeInv, Ordered;
    if i < |s.queue| {
      assert QueuedInv(s, s.queue[i]);
    } else {
      assert s.delivered[|s.delivered|..] == [];
    }
  }

  lemma RegisterKeepsInv(s: Hub, id: int, out: Output)
    requires Inv(s) && Fair(s, Register(id, out))
    ensures Inv(Registered(s, id, out))
  {
    hide NonDecreasing, QueuedInv, LifeInv, Ordered;
    var t := Registered(s, id, out);
    forall i | 0 <= i < |t.queue| ensures QueuedInv(t, t.queue[i]) {
      RegisterKeepsQueued(s, id, out, i);
    }
    forall d ensures LifeInv(t, d) {
      RegisterKeepsLives(s, id, out, d);
    }
    forall d | d in t.live ensures Queued(t.queue, d) {
      if d in s.live {
        var j :| 0 <= j < |s.queue| && s.queue[j].id == d;
        assert t.queue[j].id == d;
      } else {
        assert t.queue[|s.queue|].id == d;
      }
    }
  }

  predicate IsOther(queue: seq<HubEvent>, i: nat, e: HubEvent) {
    exists k :: 0 <= k < |queue| && k != i && e == queue[k]
  }

  // Taking one event out of the queue.
  lemma RemovedAt(queue: seq<HubEvent>, i: nat)
    requires i < |queue| && forall j, k :: 0 <= j < k < |queue| ==> queue[j].id != queue[k].id
    ensures forall j :: 0 <= j < |Removed(queue, i)| ==> IsOther(queue, i, Removed(queue, i)[j])
    ensures forall k :: 0 <= k < |queue| && k != i ==> Queued(Removed(queue, i), queue[k].id)
    ensures forall j, k :: 0 <= j < k < |Removed(queue, i)| ==> Removed(queue, i)[j].id != Removed(queue, i)[k].id
  {
    var rest := Removed(queue, i);
    forall j | 0 <= j < |rest| ensures IsOther(queue, i, rest[j]) {
      var k := if j < i then j else j + 1;
      assert 0 <= k < |queue| && k != i && rest[j] == queue[k];
    }
    forall k | 0 <= k < |queue| && k != i ensures Queued(rest, queue[k].id) {
      var j := if k < i then k else k - 1;
      assert 0 <= j < |rest| && rest[j] == queue[k];
    }
    forall j, k | 0 <= j < k < |rest| ensures rest[j].id != rest[k].id {
      assert rest[j] == queue[if j < i then j else j + 1] && rest[k] == queue[if k < i then k else k + 1];
    }
  }

  // An event that stays queued keeps what is known of it.
  lemma PopKeepsQueued(s: Hub, i: nat, j: nat)
    requires Inv(s) && Enabled(s, PopDead(i)) && j < |Removed(s.queue, i)|
    ensures QueuedInv(Next(s, PopDead(i)), Removed(s.queue, i)[j])
  {
    hide LifeInv, Ordered, Queued, Deliveries;
    RemovedAt(s.queue, i);
    var k :| 0 <= k < |s.queue| && k != i && Removed(s.queue, i)[j] == s.queue[k];
    assert QueuedInv(s, s.queue[k]);
    var t := Next(s, PopDead(i));
    assert Deliveries(t, s.queue[k].id) == Deliveries(s, s.queue[k].id) by {
      PopKeepsDeliveries(s, t, s.queue[k].id);
    }
  }

  lemma PopKeepsDeliveries(s: Hub, t: Hub, id: int)
    requires id in s.lives && s.lives[id].since <= |s.delivered| && t.lives == s.lives && t.delivered == s.delivered
    ensures Deliveries(t, id) == Deliveries(s, id)
  {
  }

  lemma PopKeepsInv(s: Hub, i: nat)
    requires Inv(s) && Enabled(s, PopDead(i))
    ensures Inv(Next(s, PopDead(i)))
  {
    var t := Next(s, PopDead(i));
    RemovedAt(s.queue, i);
    forall d ensures LifeInv(t, d) {
      assert LifeInv(s, d);
    }
    hide QueuedInv, LifeInv, Ordered, Deliveries;
    forall j | 0 <= j < |t.queue| ensures QueuedInv(t, t.queue[j]) {
      PopKeepsQueued(s, i, j);
    }
    forall d | d in t.live ensures Queued(t.queue, d) {
      var k :| 0 <= k < |s.queue| && s.queue[k].id == d;
    }
  }

  lemma DeliverKeepsLives(s: Hub, i: nat, d: int)
    requires Inv(s) && Enabled(s, Deliver(i))
    ensures LifeInv(Delivered(s, i), d)
  {
    hide Deliveries, NotBefore, NonDecreasing, Ordered, Queued;
    var t, e := Delivered(s, i), s.queue[i];
    assert LifeInv(s, d) && QueuedInv(s, e);
    if d in s.lives {
      DeliveriesGrow(s, t, e, d);
    }
  }

  lemma DeliverKeepsOther(s: Hub, i: nat, k: nat)
    requires Inv(s) && Enabled(s, Deliver(i)) && k < |s.queue| && k != i
    ensures QueuedInv(Delivered(s, i), s.queue[k])
  {
    hide Deliveries, LifeInv;
    assert QueuedInv(s, s.queue[k]) && QueuedInv(s, s.queue[i]);
    DeliveriesGrow(s, Delivered(s, i), s.queue[i], s.queue[k].id);
  }

  lemma DeliverQueuesNext(s: Hub, i: nat)
    requires Inv(s) && Enabled(s, Deliver(i)) && |Delivered(s, i).queue| == |s.queue|
    ensures QueuedInv(Delivered(s, i), Delivered(s, i).queue[|s.queue| - 1])
  {
    hide Deliveries, Queued, Ordered;
    var e := s.queue[i];
    assert QueuedInv(s, e) && LifeInv(s, e.id);
    DeliveriesGrow(s, Delivered(s, i), e, e.id);
  }

  lemma DeliverKeepsQueued(s: Hub, i: nat, j: nat)
    requires Inv(s) && Enabled(s, Deliver(i)) && j < |Delivered(s, i).queue|
    ensures QueuedInv(Delivered(s, i), Delivered(s, i).queue[j])
  {
    hide QueuedInv, LifeInv, Queued, Ordered;
    RemovedAt(s.queue, i);
    if j < |s.queue| - 1 {
      assert Delivered(s, i).queue[j] == Removed(s.queue, i)[j];
      var k :| 0 <= k < |s.queue| && k != i && Delivered(s, i).queue[j] == s.queue[k];
      DeliverKeepsOther(s, i, k);
    } else {
      DeliverQueuesNext(s, i);
    }
  }

  lemma DeliverKeepsLive(s: Hub, i: nat, d: int)
    requires Inv(s) && Enabled(s, Deliver(i)) && d in Delivered(s, i).live
    ensures d in Delivered(s, i).lives && Queued(Delivered(s, i).queue, d)
  {
    hide QueuedInv, LifeInv;
    var t, rest := Delivered(s, i), Removed(s.queue, i);
    RemovedAt(s.queue, i);
    var k :| 0 <= k < |s.queue| && s.queue[k].id == d;
    if k == i {
      assert t.queue[|rest|].id == d;
    } else {
      var j :| 0 <= j < |rest| && rest[j].id == d;
      assert t.queue[j].id == d;
    }
  }

  lemma DeliverKeepsOrder(s: Hub, i: nat)
    requires Inv(s) && Enabled(s, Deliver(i))
    ensures Ordered(Delivered(s, i).delivered)
  {
    hide LifeInv, Deliveries, Queued;
    assert QueuedInv(s, s.queue[i]);
  }

  lemma DeliverKeepsIdsApart(s: Hub, i: nat)
    requires Inv(s) && Enabled(s, Deliver(i))
    ensures var queue := Delivered(s, i).queue; forall j, k :: 0 <= j < k < |queue| ==> queue[j].id != queue[k].id
  {
    hide LifeInv, QueuedInv, Ordered, Queued;
    RemovedAt(s.queue, i);
    var rest := Removed(s.queue, i);
    forall j | 0 <= j < |rest| ensures rest[j].id != s.queue[i].id {
      var k :| 0 <= k < |s.queue| && k != i && rest[j] == s.queue[k];
    }
  }

  lemma DeliverKeepsInv(s: Hub, i: nat)
    requires Inv(s) && Enabled(s, Deliver(i))
    ensures Inv(Next(s, Deliver(i)))
  {
    hide QueuedInv, LifeInv, Delivered, Ordered, Queued;
    var t := Delivered(s, i);
    forall d ensures LifeInv(t, d) {
      DeliverKeepsLives(s, i, d);
    }
    forall j | 0 <= j < |t.queue| ensures QueuedInv(t, t.queue[j]) {
      DeliverKeepsQueued(s, i, j);
    }
    forall d | d in t.live ensures d in t.lives && Queued(t.queue, d) {
      DeliverKeepsLive(s, i, d);
    }
    DeliverKeepsOrder(s, i);
    DeliverKeepsIdsApart(s, i);
  }

  /** Under the callers' conditions, over any run: events are delivered in time order, what was
      delivered of a generator is a prefix of its output, and a registered generator always has an
      event queued. */
  lemma {:induction false} DeliveriesAreOrderedAlways(states: seq<Hub>, steps: seq<Step>, n: nat)
    requires IsRun(states, steps) && n <= |steps|
    ensures Inv(states[n])
    decreases n
  {
    if n > 0 {
      DeliveriesAreOrderedAlways(states, steps, n - 1);
      var s := states[n - 1];
      match steps[n - 1]
      case Register(id, out) => RegisterKeepsInv(s, id, out);
      case Unregister(id) => UnregisterKeepsInv(s, id);
      case PopDead(i) => PopKeepsInv(s, i);
      case Wait(_) => WaitKeepsInv(s, steps[n - 1]);
      case WakeUp => WaitKeepsInv(s, steps[n - 1]);
      case Deliver(i) => DeliverKeepsInv(s, i);
    }
  }

  lemma UnregisterKeepsInv(s: Hub, id: int)
    requires Inv(s)
    ensures Inv(Unregistered(s, id))
  {
    var t := Unregistered(s, id);
    forall d ensures LifeInv(t, d) {
      assert LifeInv(s, d);
    }
    forall i | 0 <= i < |t.queue| ensures QueuedInv(t, t.queue[i]) {
      assert QueuedInv(s, s.queue[i]);
    }
  }

  lemma WaitKeepsInv(s: Hub, step: Step)
    requires Inv(s) && (step.Wait? || step.WakeUp?) && Enabled(s, step)
    ensures Inv(Next(s, step))
  {
    var t := Next(s, step);
    forall d ensures LifeInv(t, d) {
      assert LifeInv(s, d);
    }
    forall i | 0 <= i < |t.queue| ensures QueuedInv(t, t.queue[i]) {
      assert QueuedInv(s, s.queue[i]);
    }
  }

  // ---- The objects ----

  class FakeValueGenerator {
    const out: Output
    var calls: nat

    constructor (out: Output)
      ensures this.out == out && calls == 0
    {
      this.out, calls := out, 0;
    }

    method NextEvent() returns (next: Option<VehiclePropValue>)
      modifies this
      ensures next == out(old(calls)) && calls == old(calls) + 1
    {
      next := out(calls);
      calls := calls + 1;
    }
  }

  // The event at the head of the priority queue: the first of those no other is sooner than.
  function FirstTop(queue: seq<HubEvent>): (i: nat)
    requires queue != []
    ensures IsTop(queue, i)
  {
    if |queue| == 1 then 0
    else
      var last := |queue| - 1;
      var i := FirstTop(queue[..last]);
      if queue[last].val.timestamp < queue[i].val.timestamp then last else i
  }

  /** While the hub waits, the head of the queue is an event it may deliver. */
  predicate WaitsForHead(s: Hub) {
    s.waiting.Some? && s.queue != [] ==> CanDeliver(s, s.queue[FirstTop(s.queue)].id)
  }

  lemma StillWaitsForHead(s: Hub, id: int, out: Output)
    requires WaitsForHead(s)
    ensures WaitsForHead(Registered(s, id, out)) && WaitsForHead(Unregistered(s, id))
  {
    var t := Registered(s, id, out);
    if |t.queue| > |s.queue| {
      assert t.queue[..|t.queue| - 1] == s.queue;
    }
  }

  lemma AwakeWaitsForNone(s: Hub)
    ensures s.waiting.None? ==> WaitsForHead(s)
  {
  }

  class GeneratorHub {
    var eventQueue: seq<HubEvent>
    var generators: map<int, FakeValueGenerator>
    ghost var lives: map<int, Life>
    ghost var delivered: seq<HubEvent>
    ghost var waiting: Option<set<int>>

    // What the hub records of its generators is where they are.
    ghost predicate KnowsGenerators()
      reads this`generators, this`lives, generators.Values
    {
      && (forall id <- generators ::
            id in lives && lives[id].out == generators[id].out && lives[id].calls == generators[id].calls)
      && (forall a, b :: a in generators && b in generators && a != b ==> generators[a] != generators[b])
    }

    ghost predicate Valid()
      reads this, generators.Values
    {
      KnowsGenerators() && WaitsForHead(View())
    }

    ghost function View(): Hub
      reads this
    {
      Hub(eventQueue, generators.Keys, lives, delivered, waiting)
    }

    constructor ()
      ensures Valid() && View() == EMPTY_HUB
    {
      eventQueue, generators, lives, delivered, waiting := [], map[], map[], [], None;
    }

    method Adopt(id: int, generator: FakeValueGenerator)
      requires KnowsGenerators() && generator !in generators.Values && generator.calls == 1
      modifies this`generators, this`lives
      ensures KnowsGenerators() && generators == old(generators)[id := generator]
      ensures lives == old(lives)[id := Life(generator.out, 1, |delivered|)]
    {
      generators := generators[id := generator];
      lives := lives[id := Life(generator.out, 1, |delivered|)];
    }

    // Shared by the two places where the hub lets go of a generator.
    method Erase(id: int)
      requires KnowsGenerators()
      modifies this`generators
      ensures KnowsGenerators() && generators == old(generators) - {id}
    {
      generators := generators - {id};
    }

    /** Registers a generator handed over by its only owner. */
    method RegisterGenerator(id: int, generator: FakeValueGenerator)
      requires Valid() && generator.calls == 0 && generator !in generators.Values
      modifies this, generator
      ensures Valid() && View() == Registered(old(View()), id, generator.out)
    {
      ghost var before := View();
      StillWaitsForHead(before, id, generator.out);
      hide WaitsForHead, KnowsGenerators;
      var next := generator.NextEvent();
      if next.Some? {
        if id !in generators {
          eventQueue := eventQueue + [HubEvent(id, next.value)];
        }
        Adopt(id, generator);
        assert generators.Keys == before.live + {id};
      }
      assert View() == Registered(before, id, generator.out);
    }

    method UnregisterGenerator(id: int) returns (removed: bool)
      requires Valid()
      modifies this
      ensures Valid() && removed == (id in old(generators)) && View() == Unregistered(old(View()), id)
    {
      StillWaitsForHead(View(), id, _ => None);
      hide WaitsForHead;
      removed := id in generators;
      Erase(id);
      if removed && waiting.Some? {
        waiting := Some(waiting.value + {id});
      }
    }

    method Top() returns (i: nat)
      requires eventQueue != []
      ensures i == FirstTop(eventQueue)
    {
      i := 0;
      for j := 1 to |eventQueue|
        invariant i == FirstTop(eventQueue[..j])
      {
        assert eventQueue[..j + 1][..j] == eventQueue[..j];
        if eventQueue[j].val.timestamp < eventQueue[i].val.timestamp {
          i := j;
        }
      }
      assert eventQueue[..|eventQueue|] == eventQueue;
    }

    // The events of generators that are gone, as far as they are the soonest.
    method PopDeadEvents() returns (ghost steps: seq<Step>)
      requires Valid() && waiting.None?
      modifies this`eventQueue
      ensures Valid() && Takes(old(View()), steps, View()) && forall step <- steps :: step.PopDead?
      ensures eventQueue != [] ==> eventQueue[FirstTop(eventQueue)].id in generators
    {
      steps := [];
      assert Takes(View(), steps, View());
      hide Takes, FirstTop, IsTop, WaitsForHead, KnowsGenerators;
      while eventQueue != []
        invariant Valid() && Takes(old(View()), steps, View()) && forall step <- steps :: step.PopDead?
        decreases |eventQueue|
      {
        var i := Top();
        if eventQueue[i].id in generators {
          return;
        }
        TakesOneMore(old(View()), steps, View(), PopDead(i));
        steps := steps + [PopDead(i)];
        eventQueue := eventQueue[..i] + eventQueue[i + 1..];
        AwakeWaitsForNone(View());
      }
    }

    // Begins to wait, for the soonest event or for there to be one.
    method BeginToWait() returns (ghost i: nat)
      requires Valid() && waiting.None?
      requires eventQueue != [] ==> eventQueue[FirstTop(eventQueue)].id in generators
      modifies this`waiting
      ensures Valid() && Enabled(old(View()), Wait(i)) && View() == Next(old(View()), Wait(i))
    {
      i := if eventQueue == [] then 0 else FirstTop(eventQueue);
      waiting := Some({});
    }

    // Something happened while it waited: back to the head of the loop.
    method WakeUp()
      requires Valid() && waiting.Some?
      modifies this`waiting
      ensures Valid() && View() == Next(old(View()), Step.WakeUp)
    {
      waiting := None;
    }

    method AskForNext(id: int) returns (next: Option<VehiclePropValue>)
      requires KnowsGenerators() && id in generators
      modifies this`lives, generators[id]
      ensures KnowsGenerators() && next == old(lives[id].out(lives[id].calls))
      ensures lives == old(lives[id := lives[id].(calls := lives[id].calls + 1)])
    {
      next := generators[id].NextEvent();
      lives := lives[id := lives[id].(calls := lives[id].calls + 1)];
    }

    /** When nothing happened while it waited, the hub hands the soonest event out and asks its generator
        for the next. */
    method DeliverTop() returns (event: VehiclePropValue, ghost i: nat)
      requires Valid() && eventQueue != [] && waiting.Some?
      modifies this, generators.Values
      ensures Valid() && Enabled(old(View()), Deliver(i)) && View() == Next(old(View()), Deliver(i))
      ensures event == old(eventQueue)[i].val
    {
      ghost var before := View();
      var k := Top();
      i := k;
      assert Enabled(before, Deliver(k));
      hide KnowsGenerators, FirstTop, IsTop, CanDeliver, Enabled;
      var current := eventQueue[k];
      event := current.val;
      delivered := delivered + [current];
      eventQueue := eventQueue[..k] + eventQueue[k + 1..];
      waiting := None;
      if current.id in generators {
        var next := AskForNext(current.id);
        if next.Some? {
          eventQueue := eventQueue + [HubEvent(current.id, next.value)];
          assert View() == Delivered(before, k);
          return;
        }
      }
      Erase(current.id);
      assert generators.Keys == before.live - {current.id};
      assert View() == Delivered(before, k);
    }
  }

  // A run of enabled steps from one state to another.
  ghost predicate Takes(s: Hub, steps: seq<Step>, t: Hub) {
    if steps == [] then s == t
    else
      var last := steps[|steps| - 1];
      exists mid: Hub :: Takes(s, steps[..|steps| - 1], mid) && Enabled(mid, last) && t == Next(mid, last)
  }

  lemma TakesOneMore(s: Hub, steps: seq<Step>, t: Hub, step: Step)
    requires Takes(s, steps, t) && Enabled(t, step)
    ensures Takes(s, steps + [step], Next(t, step))
  {
    var all := steps + [step];
    assert all[..|all| - 1] == steps;
    assert Takes(s, all[..|all| - 1], t) && Enabled(t, all[|all| - 1]);
  }
}
