/** What the hub does when its callers reuse an id: when a live generator is overridden, and when an id
    is registered again while an event of its former generator is still queued. */
module SchedulerReuse {
  import opened VehicleTypes
  import opened Scheduler

  // ---- Continuations ----

  predicate Runs(s: Hub, steps: seq<Step>)
    decreases |steps|
  {
    steps == [] || (Enabled(s, steps[0]) && Runs(Next(s, steps[0]), steps[1..]))
  }

  function After(s: Hub, steps: seq<Step>): Hub
    requires Runs(s, steps)
    decreases |steps|
  {
    if steps == [] then s else After(Next(s, steps[0]), steps[1..])
  }

  ghost predicate NeverRegisters(steps: seq<Step>, id: int) {
    forall step <- steps :: step.Register? ==> step.id != id
  }

  lemma {:induction false} RunsOn(s: Hub, xs: seq<Step>, ys: seq<Step>)
    requires Runs(s, xs) && Runs(After(s, xs), ys)
    ensures Runs(s, xs + ys) && After(s, xs + ys) == After(After(s, xs), ys)
    decreases |xs|
  {
    if xs == [] {
      assert xs + ys == ys;
    } else {
      assert (xs + ys)[1..] == xs[1..] + ys;
      RunsOn(Next(s, xs[0]), xs[1..], ys);
    }
  }

  // ---- The values of one id in a list of events ----

  lemma {:induction false} ValuesOfConcat(xs: seq<HubEvent>, ys: seq<HubEvent>, id: int)
    ensures ValuesOf(xs + ys, id) == ValuesOf(xs, id) + ValuesOf(ys, id)
  {
    if ys == [] {
      assert xs + ys == xs;
    } else {
      var init, last := ys[..|ys| - 1], ys[|ys| - 1];
      assert (xs + ys)[..|xs + ys| - 1] == xs + init && (xs + ys)[|xs + ys| - 1] == last;
      ValuesOfConcat(xs, init, id);
    }
  }

  lemma ValuesOfOneMore(xs: seq<HubEvent>, e: HubEvent, id: int)
    ensures ValuesOf(xs + [e], id) == if e.id == id then ValuesOf(xs, id) + [e.val] else ValuesOf(xs, id)
  {
    assert (xs + [e])[..|xs|] == xs;
  }

  // Taking an event out of the queue takes one value out of those of its id and none out of others'.
  lemma ValuesOfRemoved(queue: seq<HubEvent>, i: nat, id: int)
    requires i < |queue|
    ensures queue[i].id != id ==> ValuesOf(Removed(queue, i), id) == ValuesOf(queue, id)
    ensures queue[i].id == id ==>
              exists k: nat :: k < |ValuesOf(queue, id)| && ValuesOf(queue, id)[k] == queue[i].val &&
                               ValuesOf(Removed(queue, i), id) ==
                                 ValuesOf(queue, id)[..k] + ValuesOf(queue, id)[k + 1..]
  {
    var before, after := queue[..i], queue[i + 1..];
    assert queue == before + [queue[i]] + after;
    ValuesOfConcat(before + [queue[i]], after, id);
    ValuesOfOneMore(before, queue[i], id);
    ValuesOfConcat(before, after, id);
    if queue[i].id == id {
      var k, all := |ValuesOf(before, id)|, ValuesOf(queue, id);
      assert all == ValuesOf(before, id) + [queue[i].val] + ValuesOf(after, id);
      assert all[..k] == ValuesOf(before, id) && all[k] == queue[i].val && all[k + 1..] == ValuesOf(after, id);
    }
  }

  lemma {:induction false} QueuedAt(queue: seq<HubEvent>, id: int, v: VehiclePropValue)
    ensures v in ValuesOf(queue, id) <==> exists i :: 0 <= i < |queue| && queue[i] == HubEvent(id, v)
  {
    if queue != [] {
      var init, last := queue[..|queue| - 1], queue[|queue| - 1];
      QueuedAt(init, id, v);
      assert forall i :: 0 <= i < |init| ==> queue[i] == init[i];
      assert queue[|init|] == last;
    }
  }

  // ---- Overriding a live generator: what is delivered of it ----

  /** The output of the new generator with the old queued event in the place of its first. */
  function Spliced(stale: VehiclePropValue, out: Output): Output {
    (k: nat) => if k == 0 then Some(stale) else out(k)
  }

  ghost predicate SpliceInv(s: Hub, id: int, stale: VehiclePropValue, out: Output) {
    && id in s.lives && s.lives[id].out == out && s.lives[id].since <= |s.delivered|
    && IsPrefixOfOutput(Deliveries(s, id), Spliced(stale, out))
    && (ValuesOf(s.queue, id) != [] ==>
          && |ValuesOf(s.queue, id)| == 1 && s.lives[id].calls == |Deliveries(s, id)| + 1
          && Spliced(stale, out)(|Deliveries(s, id)|) == Some(ValuesOf(s.queue, id)[0]))
    && (id in s.live ==> ValuesOf(s.queue, id) != [])
  }

  lemma DeliverOtherKeepsSplice(s: Hub, i: nat, id: int, stale: VehiclePropValue, out: Output)
    requires SpliceInv(s, id, stale, out) && Enabled(s, Deliver(i)) && s.queue[i].id != id
    ensures SpliceInv(Delivered(s, i), id, stale, out)
  {
    hide Spliced, IsPrefixOfOutput, Deliveries, ValuesOf;
    var t, e := Delivered(s, i), s.queue[i];
    ValuesOfRemoved(s.queue, i, id);
    DeliveriesGrow(s, t, e, id);
    if |t.queue| == |s.queue| {
      ValuesOfOneMore(Removed(s.queue, i), t.queue[|s.queue| - 1], id);
    }
  }

  lemma PrefixGrows(values: seq<VehiclePropValue>, v: VehiclePropValue, out: Output)
    requires IsPrefixOfOutput(values, out) && out(|values|) == Some(v)
    ensures IsPrefixOfOutput(values + [v], out)
  {
  }

  lemma SplicedLater(stale: VehiclePropValue, out: Output, k: nat)
    ensures k > 0 ==> Spliced(stale, out)(k) == out(k)
  {
  }

  lemma DeliverOwnKeepsSplice(s: Hub, i: nat, id: int, stale: VehiclePropValue, out: Output)
    requires SpliceInv(s, id, stale, out) && Enabled(s, Deliver(i)) && s.queue[i].id == id
    ensures SpliceInv(Delivered(s, i), id, stale, out)
  {
    hide Deliveries, ValuesOf, IsPrefixOfOutput, Spliced;
    var t, e, n := Delivered(s, i), s.queue[i], |Deliveries(s, id)|;
    ValuesOfRemoved(s.queue, i, id);
    DeliveriesGrow(s, t, e, id);
    PrefixGrows(Deliveries(s, id), e.val, Spliced(stale, out));
    SplicedLater(stale, out, n + 1);
    if |t.queue| == |s.queue| {
      ValuesOfOneMore(Removed(s.queue, i), t.queue[|s.queue| - 1], id);
    }
  }

  lemma StepKeepsSplice(s: Hub, step: Step, id: int, stale: VehiclePropValue, out: Output)
    requires SpliceInv(s, id, stale, out) && Enabled(s, step) && (step.Register? ==> step.id != id)
    ensures SpliceInv(Next(s, step), id, stale, out)
  {
    hide Spliced, IsPrefixOfOutput, ValuesOf;
    match step
    case Register(d, output) =>
      if output(0).Some? && d !in s.live {
        ValuesOfOneMore(s.queue, HubEvent(d, output(0).value), id);
      }
    case Unregister(_) =>
    case PopDead(i) => ValuesOfRemoved(s.queue, i, id);
    case Wait(_) =>
    case WakeUp =>
    case Deliver(i) =>
      if s.queue[i].id == id {
        DeliverOwnKeepsSplice(s, i, id, stale, out);
      } else {
        DeliverOtherKeepsSplice(s, i, id, stale, out);
      }
  }

  lemma {:induction false} RunKeepsSplice(s: Hub, steps: seq<Step>, id: int, stale: VehiclePropValue, out: Output)
    requires SpliceInv(s, id, stale, out) && Runs(s, steps) && NeverRegisters(steps, id)
    ensures SpliceInv(After(s, steps), id, stale, out)
    decreases |steps|
  {
    hide SpliceInv;
    if steps != [] {
      assert steps[0] in steps;
      StepKeepsSplice(s, steps[0], id, stale, out);
      RunKeepsSplice(Next(s, steps[0]), steps[1..], id, stale, out);
    }
  }

  // A live generator whose one queued event is `stale` is overridden.
  ghost predicate Overridden(s: Hub, id: int, stale: VehiclePropValue, out: Output) {
    id in s.live && ValuesOf(s.queue, id) == [stale] && out(0).Some?
  }

  lemma {:induction false} NoneOf(queue: seq<HubEvent>, id: int)
    requires forall i :: 0 <= i < |queue| ==> queue[i].id != id
    ensures ValuesOf(queue, id) == []
  {
    if queue != [] {
      NoneOf(queue[..|queue| - 1], id);
    }
  }

  /** A live id of a run whose ids are never reused has exactly one event queued. */
  lemma LiveHasOneEvent(s: Hub, id: int) returns (stale: VehiclePropValue)
    requires Inv(s) && id in s.live
    ensures ValuesOf(s.queue, id) == [stale]
  {
    hide LifeInv, QueuedInv, Ordered;
    var i :| 0 <= i < |s.queue| && s.queue[i].id == id;
    stale := s.queue[i].val;
    var before, after := s.queue[..i], s.queue[i + 1..];
    NoneOf(before, id);
    forall j | 0 <= j < |after| ensures after[j].id != id {
      assert after[j] == s.queue[i + 1 + j];
    }
    NoneOf(after, id);
    assert s.queue == before + [s.queue[i]] + after;
    ValuesOfConcat(before + [s.queue[i]], after, id);
    ValuesOfOneMore(before, s.queue[i], id);
  }

  lemma OverrideStartsSplice(s: Hub, id: int, stale: VehiclePropValue, out: Output)
    requires Overridden(s, id, stale, out)
    ensures SpliceInv(Registered(s, id, out), id, stale, out) && Deliveries(Registered(s, id, out), id) == []
  {
    assert s.delivered[|s.delivered|..] == [];
  }

  /** Whatever happens after a live generator is overridden, until its id is registered again: what is
      delivered of it is a prefix of the old event followed by the new output without its first event.
      So, once anything is delivered, it is a prefix of the new output exactly when the old event is
      the first event of the new output. */
  lemma OverrideKeepsPrefixExactly(s: Hub, id: int, stale: VehiclePropValue, out: Output, steps: seq<Step>)
    requires Overridden(s, id, stale, out) && Runs(Registered(s, id, out), steps) && NeverRegisters(steps, id)
    ensures var t := After(Registered(s, id, out), steps);
            && id in t.lives && t.lives[id].since <= |t.delivered|
            && IsPrefixOfOutput(Deliveries(t, id), Spliced(stale, out))
            && (Deliveries(t, id) != [] ==> (IsPrefixOfOutput(Deliveries(t, id), out) <==> out(0) == Some(stale)))
  {
    hide Deliveries;
    OverrideStartsSplice(s, id, stale, out);
    RunKeepsSplice(Registered(s, id, out), steps, id, stale, out);
  }

  // ---- Time order, with ids reused at will ----

  // The next event of a generator will not be sooner than some queued event of its id.
  ghost predicate NextInTime(queue: seq<HubEvent>, id: int, life: Life) {
    life.out(life.calls).Some? ==>
      exists i :: 0 <= i < |queue| && queue[i].id == id &&
        queue[i].val.timestamp <= life.out(life.calls).value.timestamp
  }

  ghost predicate LiveInTime(s: Hub, id: int) {
    id in s.lives && NonDecreasing(s.lives[id].out) && s.lives[id].calls > 0 && NextInTime(s.queue, id, s.lives[id])
  }

  ghost predicate InTime(s: Hub) {
    && Ordered(s.delivered)
    && (forall i :: 0 <= i < |s.queue| ==> NotBefore(s.delivered, s.queue[i].val.timestamp))
    && (forall id <- s.live :: LiveInTime(s, id))
  }

  /** Generators do not go back in time, a new one does not start before the last delivered event, and
      one that overrides does not continue before the event that is queued of its id. */
  ghost predicate StartsInTime(s: Hub, step: Step) {
    step.Register? && step.out(0).Some? ==>
      && NonDecreasing(step.out)
      && if step.id in s.live then NextInTime(s.queue, step.id, Life(step.out, 1, 0))
         else NotBefore(s.delivered, step.out(0).value.timestamp)
  }

  ghost predicate AllStartInTime(s: Hub, steps: seq<Step>)
    requires Runs(s, steps)
    decreases |steps|
  {
    steps == [] || (StartsInTime(s, steps[0]) && AllStartInTime(Next(s, steps[0]), steps[1..]))
  }

  lemma RemovedKeepsOthers(queue: seq<HubEvent>, i: nat, k: nat) returns (j: nat)
    requires i < |queue| && k < |queue| && k != i
    ensures j < |Removed(queue, i)| && Removed(queue, i)[j] == queue[k]
  {
    j := if k < i then k else k - 1;
  }

  // What a smaller or larger queue still has of an id keeps its next event in time.
  lemma StillNextInTime(queue: seq<HubEvent>, i: nat, id: int, life: Life)
    requires i < |queue| && queue[i].id != id && NextInTime(queue, id, life)
    ensures NextInTime(Removed(queue, i), id, life)
  {
    if life.out(life.calls).Some? {
      var k :| 0 <= k < |queue| && queue[k].id == id && queue[k].val.timestamp <= life.out(life.calls).value.timestamp;
      var j := RemovedKeepsOthers(queue, i, k);
    }
  }

  lemma MoreNextInTime(queue: seq<HubEvent>, e: HubEvent, id: int, life: Life)
    requires NextInTime(queue, id, life) ||
             (e.id == id && (life.out(life.calls).Some? ==> e.val.timestamp <= life.out(life.calls).value.timestamp))
    ensures NextInTime(queue + [e], id, life)
  {
    if life.out(life.calls).Some? {
      if NextInTime(queue, id, life) {
        var k :| 0 <= k < |queue| && queue[k].id == id &&
          queue[k].val.timestamp <= life.out(life.calls).value.timestamp;
        assert (queue + [e])[k] == queue[k];
      } else {
        assert (queue + [e])[|queue|] == e;
      }
    }
  }

  lemma RegisterStaysInTime(s: Hub, id: int, out: Output)
    requires InTime(s) && StartsInTime(s, Register(id, out))
    ensures InTime(Registered(s, id, out))
  {
    hide NextInTime, NonDecreasing, Ordered;
    var t := Registered(s, id, out);
    if out(0).Some? {
      forall d | d in t.live ensures LiveInTime(t, d) {
        if d == id {
          assert NonDecreasing(out);
          if id !in s.live {
            if out(1).Some? {
              Follows(out, 0);
            }
            MoreNextInTime(s.queue, HubEvent(id, out(0).value), id, t.lives[id]);
          } else {
            SameNext(s.queue, id, Life(out, 1, 0), t.lives[id]);
          }
        } else {
          assert LiveInTime(s, d);
          if id !in s.live {
            MoreNextInTime(s.queue, HubEvent(id, out(0).value), d, s.lives[d]);
          }
        }
      }
    }
  }

  lemma Follows(out: Output, n: nat)
    requires NonDecreasing(out) && out(n).Some? && out(n + 1).Some?
    ensures out(n).value.timestamp <= out(n + 1).value.timestamp
  {
  }

  lemma SameNext(queue: seq<HubEvent>, id: int, a: Life, b: Life)
    requires a.out == b.out && a.calls == b.calls && NextInTime(queue, id, a)
    ensures NextInTime(queue, id, b)
  {
  }

  // The next event of a generator whose event is the soonest is not sooner.
  lemma NextIsLater(queue: seq<HubEvent>, i: nat, life: Life)
    requires IsTop(queue, i) && NextInTime(queue, queue[i].id, life) && life.out(life.calls).Some?
    ensures queue[i].val.timestamp <= life.out(life.calls).value.timestamp
  {
  }

  lemma DeliverKeepsLiveInTime(s: Hub, i: nat, d: int)
    requires Enabled(s, Deliver(i)) && d in Delivered(s, i).live && LiveInTime(s, d)
    ensures LiveInTime(Delivered(s, i), d)
  {
    var t, e, rest := Delivered(s, i), s.queue[i], Removed(s.queue, i);
    hide NextInTime, NonDecreasing, IsTop;
    if d != e.id {
      StillNextInTime(s.queue, i, d, s.lives[d]);
      if |t.queue| == |s.queue| {
        MoreNextInTime(rest, t.queue[|rest|], d, s.lives[d]);
      }
    } else {
      var life := s.lives[d];
      if life.out(life.calls + 1).Some? {
        Follows(life.out, life.calls);
      }
      MoreNextInTime(rest, HubEvent(d, life.out(life.calls).value), d, t.lives[d]);
    }
  }

  lemma OrderedGrows(delivered: seq<HubEvent>, e: HubEvent)
    requires Ordered(delivered) && NotBefore(delivered, e.val.timestamp)
    ensures Ordered(delivered + [e])
  {
  }

  lemma DeliverStaysInTime(s: Hub, i: nat)
    requires InTime(s) && Enabled(s, Deliver(i))
    ensures InTime(Delivered(s, i))
  {
    hide LiveInTime, Ordered;
    var t, e := Delivered(s, i), s.queue[i];
    OrderedGrows(s.delivered, e);
    forall d | d in t.live ensures LiveInTime(t, d) {
      DeliverKeepsLiveInTime(s, i, d);
    }
    if |t.queue| == |s.queue| {
      NextAfterDelivery(s, i);
    }
  }

  lemma NextAfterDelivery(s: Hub, i: nat)
    requires Enabled(s, Deliver(i)) && s.queue[i].id in s.live && LiveInTime(s, s.queue[i].id)
    requires |Delivered(s, i).queue| == |s.queue|
    ensures s.queue[i].val.timestamp <= Delivered(s, i).queue[|s.queue| - 1].val.timestamp
  {
    NextIsLater(s.queue, i, s.lives[s.queue[i].id]);
  }

  lemma StepStaysInTime(s: Hub, step: Step)
    requires InTime(s) && Enabled(s, step) && StartsInTime(s, step)
    ensures InTime(Next(s, step))
  {
    match step
    case Register(id, out) => RegisterStaysInTime(s, id, out);
    case Unregister(_) =>
    case PopDead(i) =>
      forall d | d in s.live ensures LiveInTime(Next(s, step), d) {
        assert LiveInTime(s, d);
        StillNextInTime(s.queue, i, d, s.lives[d]);
      }
    case Wait(_) =>
    case WakeUp =>
    case Deliver(i) => DeliverStaysInTime(s, i);
  }

  /** Deliveries are in time order over all runs in which every registration starts in time, however
      often ids are overridden or registered again. */
  lemma {:induction false} DeliveriesStayInTime(s: Hub, steps: seq<Step>)
    requires InTime(s) && Runs(s, steps) && AllStartInTime(s, steps)
    ensures InTime(After(s, steps))
    decreases |steps|
  {
    hide InTime, StartsInTime;
    if steps != [] {
      StepStaysInTime(s, steps[0]);
      DeliveriesStayInTime(Next(s, steps[0]), steps[1..]);
    }
  }

  /** In particular from every state of a run whose ids are never reused, the empty hub first. */
  lemma InvIsInTime(s: Hub)
    requires Inv(s)
    ensures InTime(s)
  {
    forall i | 0 <= i < |s.queue| ensures NotBefore(s.delivered, s.queue[i].val.timestamp) {
      assert QueuedInv(s, s.queue[i]);
    }
    forall id | id in s.live ensures LiveInTime(s, id) {
      var i :| 0 <= i < |s.queue| && s.queue[i].id == id;
      assert QueuedInv(s, s.queue[i]) && LifeInv(s, id);
    }
  }

  // ---- Overriding a live generator: time order ----

  lemma {:induction false} ValuesInOrder(events: seq<HubEvent>, id: int)
    requires Ordered(events)
    ensures forall a, b :: 0 <= a < b < |ValuesOf(events, id)| ==>
              ValuesOf(events, id)[a].timestamp <= ValuesOf(events, id)[b].timestamp
    ensures forall a :: 0 <= a < |ValuesOf(events, id)| ==>
              ValuesOf(events, id)[a].timestamp <= events[|events| - 1].val.timestamp
  {
    if events != [] {
      ValuesInOrder(events[..|events| - 1], id);
    }
  }

  lemma DeliveriesInOrder(s: Hub, id: int)
    requires id in s.lives && s.lives[id].since <= |s.delivered| && Ordered(s.delivered) && |Deliveries(s, id)| >= 2
    ensures Deliveries(s, id)[0].timestamp <= Deliveries(s, id)[1].timestamp
  {
    var since := s.delivered[s.lives[id].since..];
    assert Ordered(since);
    ValuesInOrder(since, id);
  }

  // The hub without what is queued of `id` is in time.
  ghost predicate OthersInTime(s: Hub, id: int) {
    && Ordered(s.delivered)
    && (forall i :: 0 <= i < |s.queue| && s.queue[i].id != id ==> NotBefore(s.delivered, s.queue[i].val.timestamp))
    && (forall d <- s.live :: d != id ==> LiveInTime(s, d))
  }

  // What is queued of `id` before the old event is delivered, and between it and the next.
  ghost predicate Misplaced(s: Hub, id: int, stale: VehiclePropValue, out: Output) {
    && SpliceInv(s, id, stale, out)
    && (|Deliveries(s, id)| < 2 ==> OthersInTime(s, id))
    && (|Deliveries(s, id)| == 0 && ValuesOf(s.queue, id) != [] ==> NotBefore(s.delivered, stale.timestamp))
    && (|Deliveries(s, id)| == 1 && ValuesOf(s.queue, id) != [] ==>
          s.delivered != [] && ValuesOf(s.queue, id)[0].timestamp < s.delivered[|s.delivered| - 1].val.timestamp)
  }

  lemma DeliverOtherStaysInTime(s: Hub, i: nat, id: int)
    requires OthersInTime(s, id) && Enabled(s, Deliver(i)) && s.queue[i].id != id
    ensures OthersInTime(Delivered(s, i), id)
  {
    hide LiveInTime, Ordered;
    var t, e := Delivered(s, i), s.queue[i];
    OrderedGrows(s.delivered, e);
    forall d | d in t.live && d != id ensures LiveInTime(t, d) {
      DeliverKeepsLiveInTime(s, i, d);
    }
    if |t.queue| == |s.queue| {
      NextAfterDelivery(s, i);
    }
  }

  lemma DeliverOwnStaysInTime(s: Hub, i: nat, id: int)
    requires OthersInTime(s, id) && Enabled(s, Deliver(i)) && s.queue[i].id == id
    requires NotBefore(s.delivered, s.queue[i].val.timestamp)
    ensures OthersInTime(Delivered(s, i), id)
  {
    hide LiveInTime, Ordered;
    var t, e := Delivered(s, i), s.queue[i];
    OrderedGrows(s.delivered, e);
    forall d | d in t.live && d != id ensures LiveInTime(t, d) {
      DeliverKeepsLiveInTime(s, i, d);
    }
  }

  lemma RegisterOtherStaysInTime(s: Hub, id: int, d: int, out: Output)
    requires OthersInTime(s, id) && StartsInTime(s, Register(d, out)) && d != id
    ensures OthersInTime(Registered(s, d, out), id)
  {
    hide NextInTime, NonDecreasing, Ordered;
    var t := Registered(s, d, out);
    if out(0).Some? {
      forall x | x in t.live && x != id ensures LiveInTime(t, x) {
        if x != d {
          assert LiveInTime(s, x);
          if d !in s.live {
            MoreNextInTime(s.queue, HubEvent(d, out(0).value), x, s.lives[x]);
          }
        } else if d !in s.live {
          if out(1).Some? {
            Follows(out, 0);
          }
          MoreNextInTime(s.queue, HubEvent(d, out(0).value), d, t.lives[d]);
        } else {
          SameNext(s.queue, d, Life(out, 1, 0), t.lives[d]);
        }
      }
    }
  }

  lemma PopStaysInTime(s: Hub, i: nat, id: int)
    requires OthersInTime(s, id) && Enabled(s, PopDead(i))
    ensures OthersInTime(Next(s, PopDead(i)), id)
  {
    hide NextInTime;
    var t := Next(s, PopDead(i));
    forall d | d in t.live && d != id ensures LiveInTime(t, d) {
      assert LiveInTime(s, d);
      StillNextInTime(s.queue, i, d, s.lives[d]);
    }
  }

  // An event of another id is delivered only before the old one.
  lemma OtherComesFirst(s: Hub, i: nat, id: int, stale: VehiclePropValue, out: Output)
    requires Misplaced(s, id, stale, out) && IsTop(s.queue, i) && s.queue[i].id != id
    requires |Deliveries(s, id)| < 2 && ValuesOf(s.queue, id) != []
    ensures Deliveries(s, id) == [] && s.queue[i].val.timestamp <= stale.timestamp
  {
    hide ValuesOf, Deliveries, Ordered, LiveInTime;
    QueuedAt(s.queue, id, ValuesOf(s.queue, id)[0]);
    OthersAreLater(s, i, id);
    SpliceStarts(stale, out);
  }

  lemma DeliverOtherKeepsMisplaced(s: Hub, i: nat, id: int, stale: VehiclePropValue, out: Output)
    requires Misplaced(s, id, stale, out) && Enabled(s, Deliver(i)) && s.queue[i].id != id
    ensures Misplaced(Delivered(s, i), id, stale, out)
  {
    DeliverOtherKeepsSplice(s, i, id, stale, out);
    if |Deliveries(s, id)| < 2 {
      DeliverOtherStaysInTime(s, i, id);
      if ValuesOf(s.queue, id) != [] {
        OtherComesFirst(s, i, id, stale, out);
      }
    }
    var t, e := Delivered(s, i), s.queue[i];
    DeliveriesGrow(s, t, e, id);
    hide OthersInTime, SpliceInv, ValuesOf, Deliveries, IsTop;
    ValuesOfRemoved(s.queue, i, id);
    if |t.queue| == |s.queue| {
      ValuesOfOneMore(Removed(s.queue, i), t.queue[|s.queue| - 1], id);
    }
  }

  lemma SpliceStarts(stale: VehiclePropValue, out: Output)
    ensures Spliced(stale, out)(0) == Some(stale) && Spliced(stale, out)(1) == out(1)
  {
  }

  lemma OthersAreLater(s: Hub, i: nat, id: int)
    requires OthersInTime(s, id) && i < |s.queue| && s.queue[i].id != id
    ensures NotBefore(s.delivered, s.queue[i].val.timestamp)
  {
  }

  lemma DeliverOwnKeepsMisplaced(s: Hub, i: nat, id: int, stale: VehiclePropValue, out: Output)
    requires Misplaced(s, id, stale, out) && Enabled(s, Deliver(i)) && s.queue[i].id == id
    requires out(1).Some? && out(1).value.timestamp < stale.timestamp
    ensures Misplaced(Delivered(s, i), id, stale, out)
  {
    DeliverOwnKeepsSplice(s, i, id, stale, out);
    hide OthersInTime, LiveInTime, Spliced, IsPrefixOfOutput, ValuesOf, Deliveries;
    var t, e := Delivered(s, i), s.queue[i];
    ValuesOfRemoved(s.queue, i, id);
    DeliveriesGrow(s, t, e, id);
    SpliceStarts(stale, out);
    if |Deliveries(s, id)| == 0 {
      assert e.val == stale;
      DeliverOwnStaysInTime(s, i, id);
    }
  }

  lemma StepKeepsMisplaced(s: Hub, step: Step, id: int, stale: VehiclePropValue, out: Output)
    requires Misplaced(s, id, stale, out) && Enabled(s, step) && StartsInTime(s, step) &&
             (step.Register? ==> step.id != id)
    requires out(1).Some? && out(1).value.timestamp < stale.timestamp
    ensures Misplaced(Next(s, step), id, stale, out)
  {
    match step
    case Deliver(i) =>
      if s.queue[i].id == id {
        DeliverOwnKeepsMisplaced(s, i, id, stale, out);
      } else {
        DeliverOtherKeepsMisplaced(s, i, id, stale, out);
      }
    case Register(d, output) =>
      StepKeepsSplice(s, step, id, stale, out);
      if |Deliveries(s, id)| < 2 {
        RegisterOtherStaysInTime(s, id, d, output);
      }
      hide OthersInTime, SpliceInv, ValuesOf;
      if output(0).Some? && d !in s.live {
        ValuesOfOneMore(s.queue, HubEvent(d, output(0).value), id);
      }
    case PopDead(i) =>
      StepKeepsSplice(s, step, id, stale, out);
      if |Deliveries(s, id)| < 2 {
        PopStaysInTime(s, i, id);
      }
      hide OthersInTime, ValuesOf;
      ValuesOfRemoved(s.queue, i, id);
    case _ =>
      StepKeepsSplice(s, step, id, stale, out);
  }

  lemma {:induction false} RunKeepsMisplaced(s: Hub, steps: seq<Step>, id: int, stale: VehiclePropValue, out: Output)
    requires Misplaced(s, id, stale, out) && Runs(s, steps) && NeverRegisters(steps, id) && AllStartInTime(s, steps)
    requires out(1).Some? && out(1).value.timestamp < stale.timestamp
    ensures Misplaced(After(s, steps), id, stale, out)
    decreases |steps|
  {
    hide Misplaced, StartsInTime;
    if steps != [] {
      assert steps[0] in steps;
      StepKeepsMisplaced(s, steps[0], id, stale, out);
      RunKeepsMisplaced(Next(s, steps[0]), steps[1..], id, stale, out);
    }
  }

  lemma OverrideIsMisplaced(s: Hub, id: int, stale: VehiclePropValue, out: Output)
    requires InTime(s) && Overridden(s, id, stale, out)
    ensures Misplaced(Registered(s, id, out), id, stale, out)
  {
    OverrideStartsSplice(s, id, stale, out);
    QueuedAt(s.queue, id, stale);
    var t := Registered(s, id, out);
    forall d | d in t.live && d != id ensures LiveInTime(t, d) {
      assert LiveInTime(s, d);
    }
  }

  /** The time order after an override, until the id is registered again and as long as everybody else
      starts in time: it is kept exactly as long as the second event of the new output is not delivered
      or is not sooner than the old queued event. */
  lemma OverrideOrderFollows(s: Hub, id: int, stale: VehiclePropValue, out: Output, steps: seq<Step>)
    requires InTime(s) && Overridden(s, id, stale, out) && NonDecreasing(out)
    requires Runs(Registered(s, id, out), steps) && NeverRegisters(steps, id) &&
             AllStartInTime(Registered(s, id, out), steps)
    ensures var t := After(Registered(s, id, out), steps);
            && id in t.lives && t.lives[id].since <= |t.delivered|
            && (Ordered(t.delivered) <==>
                  |Deliveries(t, id)| < 2 || (out(1).Some? && stale.timestamp <= out(1).value.timestamp))
  {
    hide Deliveries, Ordered, ValuesOf;
    var r := Registered(s, id, out);
    var t := After(r, steps);
    OverrideStartsSplice(s, id, stale, out);
    RunKeepsSplice(r, steps, id, stale, out);
    SpliceStarts(stale, out);
    if out(1).Some? && out(1).value.timestamp < stale.timestamp {
      OverrideIsMisplaced(s, id, stale, out);
      RunKeepsMisplaced(r, steps, id, stale, out);
      if Ordered(t.delivered) && |Deliveries(t, id)| >= 2 {
        DeliveriesInOrder(t, id);
      }
    } else {
      QueuedAt(s.queue, id, stale);
      assert NextInTime(s.queue, id, Life(out, 1, 0));
      RegisterStaysInTime(s, id, out);
      DeliveriesStayInTime(r, steps);
    }
  }

  // ---- Registering an id again while an event of its former generator is queued ----

  // An id that is not live, but has `stale` queued, is registered.
  ghost predicate Reused(s: Hub, id: int, stale: VehiclePropValue, out: Output) {
    id !in s.live && ValuesOf(s.queue, id) == [stale] && out(0).Some?
  }

  /** Wherever the old event can be delivered before the n-th of the output, it equals it. */
  ghost predicate SafeToReuse(stale: VehiclePropValue, out: Output) {
    forall n: nat :: MayComeBefore(stale, out, n) ==> out(n) == Some(stale)
  }

  // There are n events to deliver, and the old one is not sooner than any of them.
  ghost predicate NoneIsLater(stale: VehiclePropValue, out: Output, n: nat) {
    forall k: nat :: k < n ==> out(k).Some? && out(k).value.timestamp <= stale.timestamp
  }

  // None of the n events before is later than the old one, and the n-th is not sooner.
  ghost predicate MayComeBefore(stale: VehiclePropValue, out: Output, n: nat) {
    && NoneIsLater(stale, out, n)
    && out(n).Some? && stale.timestamp <= out(n).value.timestamp
  }

  // The two queued events of a live id that was registered again.
  predicate BothQueued(values: seq<VehiclePropValue>, a: VehiclePropValue, b: VehiclePropValue) {
    values == [a, b] || values == [b, a]
  }

  lemma NoneOfMoreIsLater(stale: VehiclePropValue, out: Output, n: nat)
    requires NoneIsLater(stale, out, n) && out(n).Some? && out(n).value.timestamp <= stale.timestamp
    ensures NoneIsLater(stale, out, n + 1)
  {
  }

  lemma BothInOrder(a: VehiclePropValue, b: VehiclePropValue)
    ensures BothQueued([a] + [b], a, b)
  {
  }

  ghost predicate ReuseInv(s: Hub, id: int, stale: VehiclePropValue, out: Output) {
    && id in s.lives && s.lives[id].out == out && s.lives[id].since <= |s.delivered|
    && IsPrefixOfOutput(Deliveries(s, id), out)
    && (CanDeliver(s, id) ==>
          var n := |Deliveries(s, id)|;
          && s.lives[id].calls == n + 1 && out(n).Some?
          && BothQueued(ValuesOf(s.queue, id), stale, out(n).value)
          && NoneIsLater(stale, out, n))
  }

  lemma DeliverOtherKeepsReuse(s: Hub, i: nat, id: int, stale: VehiclePropValue, out: Output)
    requires ReuseInv(s, id, stale, out) && Enabled(s, Deliver(i)) && s.queue[i].id != id
    ensures ReuseInv(Delivered(s, i), id, stale, out)
  {
    hide BothQueued, IsPrefixOfOutput, Deliveries, ValuesOf;
    var t, e := Delivered(s, i), s.queue[i];
    ValuesOfRemoved(s.queue, i, id);
    DeliveriesGrow(s, t, e, id);
    if |t.queue| == |s.queue| {
      ValuesOfOneMore(Removed(s.queue, i), t.queue[|s.queue| - 1], id);
    }
  }

  // Of two queued events, what is left when one is taken, and that the taken one is not later.
  lemma TakenOfTwo(queue: seq<HubEvent>, i: nat, id: int, a: VehiclePropValue, b: VehiclePropValue)
    requires IsTop(queue, i) && queue[i].id == id && BothQueued(ValuesOf(queue, id), a, b)
    ensures var e, rest := queue[i].val, ValuesOf(Removed(queue, i), id);
            && e.timestamp <= a.timestamp && e.timestamp <= b.timestamp
            && ((e == a && rest == [b]) || (e == b && rest == [a]))
  {
    ValuesOfRemoved(queue, i, id);
    QueuedAt(queue, id, a);
    QueuedAt(queue, id, b);
    hide ValuesOf;
    var all := ValuesOf(queue, id);
    assert all[0] in all && all[1] in all;
    var k: nat :| k < |all| && all[k] == queue[i].val && ValuesOf(Removed(queue, i), id) == all[..k] + all[k + 1..];
    assert all[..k] + all[k + 1..] == [all[1 - k]];
  }

  lemma SafeMeansEqual(stale: VehiclePropValue, out: Output, n: nat)
    requires SafeToReuse(stale, out) && MayComeBefore(stale, out, n)
    ensures out(n) == Some(stale)
  {
  }

  // A safe delivery is of the next event of the output, as far as anyone can tell.
  lemma TakesNext(s: Hub, i: nat, id: int, stale: VehiclePropValue, out: Output)
    requires ReuseInv(s, id, stale, out) && SafeToReuse(stale, out)
    requires IsTop(s.queue, i) && s.queue[i].id == id && CanDeliver(s, id)
    ensures var n := |Deliveries(s, id)|;
            out(n) == Some(s.queue[i].val) && s.queue[i].val.timestamp <= stale.timestamp
    ensures ValuesOf(Removed(s.queue, i), id) == [stale]
  {
    var n := |Deliveries(s, id)|;
    hide Deliveries, ValuesOf, IsTop, IsPrefixOfOutput, SafeToReuse;
    TakenOfTwo(s.queue, i, id, stale, out(n).value);
    if s.queue[i].val != out(n).value {
      SafeMeansEqual(stale, out, n);
    }
  }

  // What a delivery leaves of the generator it comes from.
  lemma OwnDelivered(s: Hub, i: nat)
    requires Enabled(s, Deliver(i))
    ensures var t, id := Delivered(s, i), s.queue[i].id;
            && t.delivered == s.delivered + [s.queue[i]] && t.waiting.None? && t.live <= s.live
            && t.lives.Keys == s.lives.Keys
            && (id in s.lives ==> t.lives[id].out == s.lives[id].out && t.lives[id].since == s.lives[id].since)
            && (id in s.live ==>
                  var life := s.lives[id];
                  && t.lives[id].calls == life.calls + 1 && (id in t.live <==> life.out(life.calls).Some?))
            && ValuesOf(t.queue, id) ==
                 ValuesOf(Removed(s.queue, i), id) +
                 if id in t.live then [s.lives[id].out(s.lives[id].calls).value] else []
  {
    hide ValuesOf;
    var t, id := Delivered(s, i), s.queue[i].id;
    if id in t.live {
      ValuesOfOneMore(Removed(s.queue, i), t.queue[|s.queue| - 1], id);
    }
  }

  lemma DeliverOwnKeepsReuse(s: Hub, i: nat, id: int, stale: VehiclePropValue, out: Output)
    requires ReuseInv(s, id, stale, out) && SafeToReuse(stale, out)
    requires Enabled(s, Deliver(i)) && s.queue[i].id == id
    ensures ReuseInv(Delivered(s, i), id, stale, out)
  {
    var t, e, n := Delivered(s, i), s.queue[i], |Deliveries(s, id)|;
    OwnDelivered(s, i);
    hide Deliveries, ValuesOf, IsTop, SafeToReuse, IsPrefixOfOutput, BothQueued, NoneIsLater, Delivered, Removed;
    TakesNext(s, i, id, stale, out);
    DeliveriesGrow(s, t, e, id);
    PrefixGrows(Deliveries(s, id), e.val, out);
    NoneOfMoreIsLater(stale, out, n);
    if CanDeliver(t, id) {
      BothInOrder(stale, out(n + 1).value);
    }
  }

  lemma StepKeepsReuse(s: Hub, step: Step, id: int, stale: VehiclePropValue, out: Output)
    requires ReuseInv(s, id, stale, out) && SafeToReuse(stale, out)
    requires Enabled(s, step) && (step.Register? ==> step.id != id)
    ensures ReuseInv(Next(s, step), id, stale, out)
  {
    hide SafeToReuse, BothQueued, IsPrefixOfOutput, ValuesOf;
    match step
    case Register(d, output) =>
      if output(0).Some? && d !in s.live {
        ValuesOfOneMore(s.queue, HubEvent(d, output(0).value), id);
      }
    case Unregister(_) =>
    case PopDead(i) => ValuesOfRemoved(s.queue, i, id);
    case Wait(_) =>
    case WakeUp =>
    case Deliver(i) =>
      if s.queue[i].id == id {
        DeliverOwnKeepsReuse(s, i, id, stale, out);
      } else {
        DeliverOtherKeepsReuse(s, i, id, stale, out);
      }
  }

  lemma {:induction false} RunKeepsReuse(s: Hub, steps: seq<Step>, id: int, stale: VehiclePropValue, out: Output)
    requires ReuseInv(s, id, stale, out) && SafeToReuse(stale, out)
    requires Runs(s, steps) && NeverRegisters(steps, id)
    ensures ReuseInv(After(s, steps), id, stale, out)
    decreases |steps|
  {
    hide ReuseInv, SafeToReuse;
    if steps != [] {
      assert steps[0] in steps;
      StepKeepsReuse(s, steps[0], id, stale, out);
      RunKeepsReuse(Next(s, steps[0]), steps[1..], id, stale, out);
    }
  }

  lemma ReuseStarts(s: Hub, id: int, stale: VehiclePropValue, out: Output)
    requires Reused(s, id, stale, out)
    ensures ReuseInv(Registered(s, id, out), id, stale, out) && Deliveries(Registered(s, id, out), id) == []
    ensures ValuesOf(Registered(s, id, out).queue, id) == [stale, out(0).value]
  {
    assert s.delivered[|s.delivered|..] == [];
    ValuesOfOneMore(s.queue, HubEvent(id, out(0).value), id);
  }

  // ---- Continuations that go wrong ----

  // A continuation in which nobody registers anything.
  ghost predicate Calm(s: Hub, steps: seq<Step>) {
    Runs(s, steps) && forall step <- steps :: !step.Register?
  }

  lemma CalmOn(s: Hub, xs: seq<Step>, ys: seq<Step>)
    requires Calm(s, xs) && Calm(After(s, xs), ys)
    ensures Calm(s, xs + ys) && After(s, xs + ys) == After(After(s, xs), ys)
  {
    RunsOn(s, xs, ys);
  }

  lemma OneStep(s: Hub, step: Step)
    requires Enabled(s, step) && !step.Register?
    ensures Calm(s, [step]) && After(s, [step]) == Next(s, step)
  {
    assert [step][1..] == [];
  }

  lemma {:induction false} CalmStartsInTime(s: Hub, steps: seq<Step>)
    requires Calm(s, steps)
    ensures AllStartInTime(s, steps)
    decreases |steps|
  {
    if steps != [] {
      assert steps[0] in steps;
      CalmStartsInTime(Next(s, steps[0]), steps[1..]);
    }
  }

  lemma WaitAndDeliver(s: Hub, top: nat, i: nat)
    requires Enabled(s, Wait(top)) && Enabled(Next(s, Wait(top)), Deliver(i))
    ensures Calm(s, [Wait(top), Deliver(i)]) && After(s, [Wait(top), Deliver(i)]) == Delivered(Next(s, Wait(top)), i)
  {
    OneStep(s, Wait(top));
    OneStep(Next(s, Wait(top)), Deliver(i));
    CalmOn(s, [Wait(top)], [Deliver(i)]);
    assert [Wait(top)] + [Deliver(i)] == [Wait(top), Deliver(i)];
  }

  lemma AnyOf<T>(xs: set<T>) returns (x: T)
    requires xs != {}
    ensures x in xs
  {
    x :| x in xs;
  }

  // All other generators are unregistered.
  lemma {:induction false} Silence(s: Hub, others: set<int>) returns (steps: seq<Step>)
    requires s.waiting.None? && others <= s.live
    ensures Calm(s, steps) && After(s, steps) == s.(live := s.live - others)
    decreases |others|
  {
    if others == {} {
      steps := [];
    } else {
      var x := AnyOf(others);
      OneStep(s, Unregister(x));
      var rest := Silence(Next(s, Unregister(x)), others - {x});
      CalmOn(s, [Unregister(x)], rest);
      steps := [Unregister(x)] + rest;
      assert s.live - {x} - (others - {x}) == s.live - others;
    }
  }

  // A hub at the head of its loop in which only `id` is live.
  ghost predicate OnlyLive(s: Hub, id: int) {
    s.waiting.None? && s.live == {id} && id in s.lives && s.lives[id].since <= |s.delivered|
  }

  // What matters of a hub in which only `id` is live.
  ghost predicate SameFor(s: Hub, t: Hub, id: int) {
    && t.live == s.live && t.lives == s.lives && t.delivered == s.delivered
    && ValuesOf(t.queue, id) == ValuesOf(s.queue, id)
  }

  // Wakes the hub up and leaves only `id` live.
  lemma Isolate(s: Hub, id: int) returns (steps: seq<Step>)
    requires id in s.live && id in s.lives && s.lives[id].since <= |s.delivered|
    ensures Calm(s, steps) && OnlyLive(After(s, steps), id)
    ensures var t := After(s, steps); t.queue == s.queue && t.lives == s.lives && t.delivered == s.delivered
  {
    var awake := s.(waiting := None);
    var quiet := Silence(awake, s.live - {id});
    assert s.live - (s.live - {id}) == {id};
    if s.waiting.Some? {
      OneStep(s, WakeUp);
      CalmOn(s, [WakeUp], quiet);
      steps := [WakeUp] + quiet;
    } else {
      steps := quiet;
    }
  }

  lemma {:induction false} SomeTop(queue: seq<HubEvent>) returns (i: nat)
    requires queue != []
    ensures IsTop(queue, i)
  {
    i := FirstTop(queue);
  }

  // Sooner events of generators that are gone are popped until one of the id is on top.
  lemma {:induction false} Surface(s: Hub, id: int) returns (steps: seq<Step>, i: nat)
    requires OnlyLive(s, id) && ValuesOf(s.queue, id) != []
    ensures Calm(s, steps) && SameFor(s, After(s, steps), id) && OnlyLive(After(s, steps), id)
    ensures IsTop(After(s, steps).queue, i) && After(s, steps).queue[i].id == id
    decreases |s.queue|
  {
    var j := SomeTop(s.queue);
    if s.queue[j].id == id {
      steps, i := [], j;
    } else {
      var t := Next(s, PopDead(j));
      ValuesOfRemoved(s.queue, j, id);
      OneStep(s, PopDead(j));
      var rest;
      rest, i := Surface(t, id);
      CalmOn(s, [PopDead(j)], rest);
      steps := [PopDead(j)] + rest;
    }
  }

  // A queued event of the id that no other of the id is sooner than is delivered.
  lemma DeliverSoonest(s: Hub, id: int, v: VehiclePropValue) returns (steps: seq<Step>, i: nat, mid: Hub)
    requires OnlyLive(s, id) && v in ValuesOf(s.queue, id)
    requires forall w <- ValuesOf(s.queue, id) :: v.timestamp <= w.timestamp
    ensures SameFor(s, mid, id) && Enabled(mid, Deliver(i)) && mid.queue[i] == HubEvent(id, v)
    ensures Calm(s, steps) && After(s, steps) == Delivered(mid, i)
  {
    var pops, top := Surface(s, id);
    var t := After(s, pops);
    QueuedAt(t.queue, id, v);
    QueuedAt(t.queue, id, t.queue[top].val);
    i :| 0 <= i < |t.queue| && t.queue[i] == HubEvent(id, v);
    hide ValuesOf;
    mid := Next(t, Wait(top));
    WaitAndDeliver(t, top, i);
    CalmOn(s, pops, [Wait(top), Deliver(i)]);
    steps := pops + [Wait(top), Deliver(i)];
  }

  lemma SameDeliveries(s: Hub, t: Hub, id: int)
    requires id in s.lives && s.lives[id].since <= |s.delivered| && t.lives == s.lives && t.delivered == s.delivered
    ensures Deliveries(t, id) == Deliveries(s, id)
  {
  }

  // The deliveries of an id grow by what `DeliverSoonest` delivers.
  lemma DeliveredSoonest(s: Hub, mid: Hub, i: nat, id: int, v: VehiclePropValue)
    requires OnlyLive(s, id) && SameFor(s, mid, id) && Enabled(mid, Deliver(i)) && mid.queue[i] == HubEvent(id, v)
    ensures var t := Delivered(mid, i);
            && id in t.lives && t.lives[id].since <= |t.delivered| && t.waiting.None?
            && t.lives[id].out == s.lives[id].out && t.lives[id].calls == s.lives[id].calls + 1
            && Deliveries(t, id) == Deliveries(s, id) + [v]
  {
    hide Deliveries, ValuesOf;
    SameDeliveries(s, mid, id);
    DeliveriesGrow(mid, Delivered(mid, i), mid.queue[i], id);
  }

  // ---- Time order after an override, whatever happens next ----

  lemma OverrideGoesWrong(s: Hub, id: int, stale: VehiclePropValue, out: Output) returns (steps: seq<Step>)
    requires InTime(s) && Overridden(s, id, stale, out) && NonDecreasing(out)
    requires out(1).Some? && out(1).value.timestamp < stale.timestamp
    ensures Calm(Registered(s, id, out), steps) && !Ordered(After(Registered(s, id, out), steps).delivered)
  {
    hide Deliveries, Ordered, ValuesOf, NonDecreasing, InTime;
    var r := Registered(s, id, out);
    OverrideStartsSplice(s, id, stale, out);
    var alone := Isolate(r, id);
    var q := After(r, alone);
    SameDeliveries(r, q, id);
    var first, i, mid := DeliverSoonest(q, id, stale);
    var t := Delivered(mid, i);
    DeliveredSoonest(q, mid, i, id, stale);
    CalmOn(r, alone, first);
    RunKeepsSplice(r, alone + first, id, stale, out);
    SpliceStarts(stale, out);
    assert ValuesOf(t.queue, id) == [out(1).value];
    var second, j, mid2 := DeliverSoonest(t, id, out(1).value);
    DeliveredSoonest(t, mid2, j, id, out(1).value);
    CalmOn(r, alone + first, second);
    steps := alone + first + second;
    CalmStartsInTime(r, steps);
    OverrideOrderFollows(s, id, stale, out, steps);
  }

  /** Whatever happens after a live generator is overridden, until its id is registered again and as long
      as everybody else starts in time: deliveries stay in time order exactly when the new output has no
      second event, or that is not sooner than the old queued one. */
  lemma OverrideKeepsOrderExactly(s: Hub, id: int, stale: VehiclePropValue, out: Output)
    requires InTime(s) && Overridden(s, id, stale, out) && NonDecreasing(out)
    ensures (forall steps ::
               Runs(Registered(s, id, out), steps) && NeverRegisters(steps, id) &&
               AllStartInTime(Registered(s, id, out), steps) ==>
                 Ordered(After(Registered(s, id, out), steps).delivered))
            <==> out(1).None? || stale.timestamp <= out(1).value.timestamp
  {
    hide Ordered, InTime, NonDecreasing;
    var r := Registered(s, id, out);
    if out(1).None? || stale.timestamp <= out(1).value.timestamp {
      forall steps | Runs(r, steps) && NeverRegisters(steps, id) && AllStartInTime(r, steps)
        ensures Ordered(After(r, steps).delivered)
      {
        OverrideOrderFollows(s, id, stale, out, steps);
        SecondIsNotEarlier(s, id, stale, out, steps);
      }
    } else {
      var steps := OverrideGoesWrong(s, id, stale, out);
      CalmStartsInTime(r, steps);
      assert Runs(r, steps) && NeverRegisters(steps, id);
    }
  }

  // An output without a second event has none delivered.
  lemma SecondIsNotEarlier(s: Hub, id: int, stale: VehiclePropValue, out: Output, steps: seq<Step>)
    requires Overridden(s, id, stale, out) && Runs(Registered(s, id, out), steps) && NeverRegisters(steps, id)
    ensures var t := After(Registered(s, id, out), steps);
            && id in t.lives && t.lives[id].since <= |t.delivered|
            && (out(1).None? ==> |Deliveries(t, id)| < 2)
  {
    hide Deliveries;
    OverrideStartsSplice(s, id, stale, out);
    RunKeepsSplice(Registered(s, id, out), steps, id, stale, out);
    SpliceStarts(stale, out);
  }

  function Listed(values: seq<VehiclePropValue>): Output {
    (k: nat) => if k < |values| then Some(values[k]) else None
  }

  /** A generator with its event at 100 still queued is overridden by one that yields 10 and 20: what is
      delivered next is 100 and then 20. */
  lemma OverrideGoesBack(a: VehiclePropValue, b: VehiclePropValue, c: VehiclePropValue, id: int)
    requires a.timestamp == 100 && b.timestamp == 10 && c.timestamp == 20
    ensures var steps := [Register(id, Listed([a])), Register(id, Listed([b, c]))] +
                         ([Wait(0), Deliver(0)] + [Wait(0), Deliver(0)]);
            Runs(EMPTY_HUB, steps) && After(EMPTY_HUB, steps).delivered == [HubEvent(id, a), HubEvent(id, c)]
  {
    var first, second := Register(id, Listed([a])), Register(id, Listed([b, c]));
    var s1 := Next(EMPTY_HUB, first);
    var s2 := Next(s1, second);
    Prepend(s1, second, []);
    Prepend(EMPTY_HUB, first, [second]);
    assert [first] + [second] == [first, second] && [second] + [] == [second];
    assert s2.queue == [HubEvent(id, a)] && s2.live == {id} && s2.lives[id] == Life(Listed([b, c]), 1, 0);
    hide Runs, After, Next;
    var s3 := DeliverOnly(s2, id);
    var s4 := DeliverOnly(s3, id);
    CalmOn(s2, [Wait(0), Deliver(0)], [Wait(0), Deliver(0)]);
    RunsOn(EMPTY_HUB, [first, second], [Wait(0), Deliver(0)] + [Wait(0), Deliver(0)]);
  }

  // The only queued event is delivered.
  lemma DeliverOnly(s: Hub, id: int) returns (t: Hub)
    requires s.waiting.None? && |s.queue| == 1 && s.queue[0].id == id && id in s.live && id in s.lives
    ensures Calm(s, [Wait(0), Deliver(0)]) && t == After(s, [Wait(0), Deliver(0)]) && t.waiting.None?
    ensures t.delivered == s.delivered + s.queue
    ensures var life := s.lives[id];
            life.out(life.calls).Some? ==>
              t.queue == [HubEvent(id, life.out(life.calls).value)] && t.live == s.live && id in t.lives
  {
    WaitAndDeliver(s, 0, 0);
    t := After(s, [Wait(0), Deliver(0)]);
  }

  lemma Prepend(s: Hub, step: Step, rest: seq<Step>)
    requires Enabled(s, step) && Runs(Next(s, step), rest)
    ensures Runs(s, [step] + rest) && After(s, [step] + rest) == After(Next(s, step), rest)
  {
    assert ([step] + rest)[1..] == rest;
  }

  // ---- What is delivered of a reused id, whatever happens next ----

  // A hub with only `id` live, n events of its output delivered and the old event still queued.
  ghost predicate Reached(s: Hub, id: int, stale: VehiclePropValue, out: Output, n: nat) {
    && OnlyLive(s, id) && s.lives[id].out == out && s.lives[id].calls == n + 1 && |Deliveries(s, id)| == n
    && out(n).Some? && BothQueued(ValuesOf(s.queue, id), stale, out(n).value)
  }

  lemma {:induction false} Reach(s: Hub, id: int, stale: VehiclePropValue, out: Output, k: nat, n: nat)
    returns (steps: seq<Step>)
    requires Reached(s, id, stale, out, k) && k <= n && MayComeBefore(stale, out, n)
    ensures Calm(s, steps) && Reached(After(s, steps), id, stale, out, n)
    decreases n - k
  {
    steps := [];
    if k < n {
      assert out(k + 1).Some? && out(k).value.timestamp <= stale.timestamp;
      var first, i, mid := DeliverSoonest(s, id, out(k).value);
      var t := Delivered(mid, i);
      hide ValuesOf, Deliveries, MayComeBefore;
      DeliveredSoonest(s, mid, i, id, out(k).value);
      ReachedOneMore(s, mid, i, id, stale, out, k);
      var rest := Reach(t, id, stale, out, k + 1, n);
      CalmOn(s, first, rest);
      steps := first + rest;
    }
  }

  lemma ReachedOneMore(s: Hub, mid: Hub, i: nat, id: int, stale: VehiclePropValue, out: Output, k: nat)
    requires Reached(s, id, stale, out, k) && out(k + 1).Some? && SameFor(s, mid, id)
    requires Enabled(mid, Deliver(i)) && mid.queue[i] == HubEvent(id, out(k).value)
    ensures Reached(Delivered(mid, i), id, stale, out, k + 1)
  {
    hide ValuesOf, Deliveries;
    DeliveredSoonest(s, mid, i, id, out(k).value);
    TakenOfTwo(mid.queue, i, id, stale, out(k).value);
    ValuesOfOneMore(Removed(mid.queue, i), HubEvent(id, out(k + 1).value), id);
  }

  lemma GoesWrong(s: Hub, id: int, stale: VehiclePropValue, out: Output, n: nat) returns (steps: seq<Step>)
    requires Reused(s, id, stale, out) && MayComeBefore(stale, out, n) && out(n) != Some(stale)
    ensures Calm(Registered(s, id, out), steps)
    ensures var t := After(Registered(s, id, out), steps);
            id in t.lives && t.lives[id].since <= |t.delivered| && !IsPrefixOfOutput(Deliveries(t, id), out)
  {
    hide ValuesOf, Deliveries;
    var r := Registered(s, id, out);
    ReuseStarts(s, id, stale, out);
    var alone := Isolate(r, id);
    var q := After(r, alone);
    SameDeliveries(r, q, id);
    assert Reached(q, id, stale, out, 0);
    var more := Reach(q, id, stale, out, 0, n);
    var u := After(q, more);
    var last, i, mid := DeliverSoonest(u, id, stale);
    DeliveredSoonest(u, mid, i, id, stale);
    CalmOn(q, more, last);
    CalmOn(r, alone, more + last);
    steps := alone + (more + last);
    assert Deliveries(Delivered(mid, i), id)[n] == stale;
  }

  /** In every continuation, until the id is registered once more, what is delivered of the new generator
      is a prefix of its output exactly when the old event equals every event of the output that it may
      be delivered before. For times that strictly increase: when no event of the output that is not
      sooner than the old one differs from it. */
  lemma ReuseKeepsPrefixExactly(s: Hub, id: int, stale: VehiclePropValue, out: Output)
    requires Reused(s, id, stale, out)
    ensures (forall steps :: Runs(Registered(s, id, out), steps) && NeverRegisters(steps, id) ==>
               var t := After(Registered(s, id, out), steps);
               id in t.lives && t.lives[id].since <= |t.delivered| && IsPrefixOfOutput(Deliveries(t, id), out))
            <==> SafeToReuse(stale, out)
  {
    hide Deliveries, IsPrefixOfOutput, MayComeBefore;
    var r := Registered(s, id, out);
    if SafeToReuse(stale, out) {
      forall steps | Runs(r, steps) && NeverRegisters(steps, id)
        ensures var t := After(r, steps);
                id in t.lives && t.lives[id].since <= |t.delivered| && IsPrefixOfOutput(Deliveries(t, id), out)
      {
        ReuseStarts(s, id, stale, out);
        RunKeepsReuse(r, steps, id, stale, out);
      }
    } else {
      var n: nat :| MayComeBefore(stale, out, n) && out(n) != Some(stale);
      var steps := GoesWrong(s, id, stale, out, n);
      assert Runs(r, steps) && NeverRegisters(steps, id);
    }
  }
}
