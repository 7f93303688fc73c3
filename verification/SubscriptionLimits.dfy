/** Where the code and its comments part: which calls keep the two indices exact inverses, which keep
    the hardware's on-change set equal to the subscribed one, and runs in which neither holds. */
module SubscriptionLimits {
  import opened VehicleTypes
  import opened RefreshTables
  import opened SubscriptionModel
  import opened SubscriptionSafety

  ghost predicate Inverse(m: Manager) {
    forall pa, c :: InverseAt(m, pa, c)
  }

  ghost predicate InverseAt(m: Manager, pa: PropArea, c: Client) {
    pa in PropsOf(m, c) <==> c in ClientsOf(m, pa)
  }

  /** A whole-client unsubscribe that removed something and was then rejected. */
  ghost predicate CutShort(env: Env, st: Stack, step: Step) {
    && step.UnsubscribeClientStep? && step.c in st.m.props && step.order != []
    && UnsubscribeOne(env, st, step.c, step.order[0]).status == Ok
    && UnsubscribeEach(env, st, step.c, step.order, false).status != Ok
  }

  lemma {:induction false} SubscribeAreaIdsKeepsInverse(env: Env, st: Stack, c: Client, option: SubscribeOptions,
                                                        areas: seq<int>, continuous: bool)
    requires Inverse(st.m)
    ensures Inverse(SubscribeAreaIds(env, st, c, option, areas, continuous).st.m)
    decreases |areas|
  {
    hide SubscribeOne;
    if areas != [] {
      var pa := PropArea(option.propId, areas[0]);
      var o := SubscribeOne(env, st, c, pa, SubOf(option), continuous);
      SubscribeOneOnIndices(env, st, c, pa, SubOf(option), continuous);
      forall q, d ensures InverseAt(o.st.m, q, d) {
        assert InverseAt(st.m, q, d);
      }
      SubscribeAreaIdsKeepsInverse(env, o.st, c, option, areas[1..], continuous);
    }
  }

  lemma {:induction false} SubscribeEachKeepsInverse(env: Env, st: Stack, c: Client, options: seq<SubscribeOptions>,
                                                     continuous: bool)
    requires Inverse(st.m)
    ensures Inverse(SubscribeEach(env, st, c, options, continuous).st.m)
    decreases |options|
  {
    hide SubscribeAreaIds, Inverse;
    if options != [] {
      var o := SubscribeAreaIds(env, st, c, options[0], options[0].areaIds, continuous);
      SubscribeAreaIdsKeepsInverse(env, st, c, options[0], options[0].areaIds, continuous);
      SubscribeEachKeepsInverse(env, o.st, c, options[1..], continuous);
    }
  }

  lemma {:induction false} TrimmingKeepsInverse(env: Env, st: Stack, c: Client, order: seq<PropArea>)
    requires Inverse(st.m)
    ensures Inverse(UnsubscribeEach(env, st, c, order, true).st.m)
    decreases |order|
  {
    hide UnsubscribeOne;
    if order != [] {
      var o := UnsubscribeOne(env, st, c, order[0]);
      UnsubscribeOneOnIndices(env, st, c, order[0]);
      if o.status == Ok {
        var next := o.st.(m := Forget(o.st.m, c, order[0]));
        forall q, d ensures InverseAt(next.m, q, d) {
          assert InverseAt(st.m, q, d);
        }
        TrimmingKeepsInverse(env, next, c, order[1..]);
      } else {
        assert forall q, d :: InverseAt(o.st.m, q, d) == InverseAt(st.m, q, d);
      }
    }
  }

  lemma DroppingKeepsInverse(env: Env, st: Stack, c: Client, order: seq<PropArea>, trim: bool)
    requires Inverse(st.m) && c in st.m.props
    requires UnsubscribeEach(env, st, c, order, trim).status == Ok
    requires trim || forall pa <- PropsOf(st.m, c) :: pa in order
    requires trim ==> PropsOf(UnsubscribeEach(env, st, c, order, trim).st.m, c) == {}
    ensures Inverse(DropClient(UnsubscribeEach(env, st, c, order, trim).st.m, c))
  {
    hide UnsubscribeEach;
    var o := UnsubscribeEach(env, st, c, order, trim);
    UnsubscribeEachLeaves(env, st, c, order, trim);
    UnsubscribeEachTrims(env, st, c, order, trim);
    forall q, d ensures InverseAt(DropClient(o.st.m, c), q, d) {
      assert InverseAt(st.m, q, d);
      assert ClientsOf(o.st.m, q) == ClientsOf(st.m, q) || ClientsOf(o.st.m, q) == ClientsOf(st.m, q) - {c};
    }
  }

  // From indices that are exact inverses, a step keeps them so exactly when it is not a whole-client
  // unsubscribe cut short.
  lemma InverseUnlessCutShort(env: Env, st: Stack, step: Step)
    requires Inverse(st.m) && Enabled(env, st, step)
    ensures Inverse(Next(env, st, step).st.m) <==> !CutShort(env, st, step)
  {
    match step
    case SubscribeStep(c, options, continuous) =>
      SubscribeEachKeepsInverse(env, st, c, options, continuous);
    case UnsubscribePropsStep(c, propIds, order) => PropsStepKeepsInverse(env, st, c, order);
    case UnsubscribeClientStep(c, order) => ClientStepAndInverse(env, st, c, order);
    case DeliverStep(updated) => DeliverKeepsIndices(st, updated);
      assert forall q, d :: InverseAt(Deliver(st, updated).m, q, d) == InverseAt(st.m, q, d);
  }

  lemma {:induction false} DeliverKeepsIndices(st: Stack, updated: seq<PropArea>)
    ensures Deliver(st, updated).m.clients == st.m.clients && Deliver(st, updated).m.props == st.m.props
    ensures Deliver(st, updated).hw == st.hw
    decreases |updated|
  {
    if updated != [] {
      DeliverKeepsIndices(if ClientsOf(st.m, updated[0]) != {} then WithConfig(st, updated[0]) else st, updated[1..]);
    }
  }

  lemma PropsStepKeepsInverse(env: Env, st: Stack, c: Client, order: seq<PropArea>)
    requires Inverse(st.m)
    ensures Inverse(UnsubscribeProps(env, st, c, order).st.m)
  {
    hide UnsubscribeEach, Inverse;
    if c in st.m.props {
      TrimmingKeepsInverse(env, st, c, order);
      var o := UnsubscribeEach(env, st, c, order, true);
      if o.status == Ok && PropsOf(o.st.m, c) == {} {
        DroppingKeepsInverse(env, st, c, order, true);
      }
    }
  }

  lemma ClientStepAndInverse(env: Env, st: Stack, c: Client, order: seq<PropArea>)
    requires Inverse(st.m) && Enumerates(order, PropsOf(st.m, c))
    ensures Inverse(UnsubscribeClient(env, st, c, order).st.m) <==> !CutShort(env, st, UnsubscribeClientStep(c, order))
  {
    hide UnsubscribeOne;
    if c in st.m.props {
      var o := UnsubscribeEach(env, st, c, order, false);
      if o.status == Ok {
        DroppingKeepsInverse(env, st, c, order, false);
      } else {
        var first := UnsubscribeOne(env, st, c, order[0]);
        UnsubscribeOneOnIndices(env, st, c, order[0]);
        if first.status == Ok {
          UnsubscribeEachLeaves(env, first.st, c, order[1..], false);
          UnsubscribeEachTrims(env, first.st, c, order[1..], false);
          assert order[0] in PropsOf(o.st.m, c) && c !in ClientsOf(o.st.m, order[0]);
          assert !InverseAt(o.st.m, order[0], c);
        } else {
          assert forall q, d :: InverseAt(o.st.m, q, d) == InverseAt(st.m, q, d);
        }
      }
    }
  }

  // ---- Which departures are cut short ----

  /** How many hardware calls leaving `pa` takes when none is rejected. */
  ghost function CallsNeeded(m: Manager, c: Client, pa: PropArea): nat {
    if pa in m.configs then
      var before, after := m.configs[pa].cached, Combine(m.configs[pa].byClient - {c});
      if after == before then 0 else if after.maxRate != before.maxRate then 2 else 1
    else if pa in m.clients && |m.clients[pa]| <= 1 then 1
    else 0
  }

  ghost function TotalCalls(m: Manager, c: Client, order: seq<PropArea>): nat {
    if order == [] then 0 else CallsNeeded(m, c, order[0]) + TotalCalls(m, c, order[1..])
  }

  // None of `n` hardware calls from the `from`-th on is rejected.
  ghost predicate AllAccepted(env: Env, from: nat, n: nat) {
    forall k: nat :: from <= k < from + n ==> env.verdict(k) == Ok
  }

  /** What the first of them that is rejected is answered, Ok when none is. */
  function FirstRejection(env: Env, from: nat, n: nat): StatusCode
    decreases n
  {
    if n == 0 then Ok
    else if env.verdict(from) != Ok then env.verdict(from)
    else FirstRejection(env, from + 1, n - 1)
  }

  lemma {:induction false} NoRejection(env: Env, from: nat, n: nat)
    ensures FirstRejection(env, from, n) == Ok <==> AllAccepted(env, from, n)
    decreases n
  {
    if n != 0 {
      NoRejection(env, from + 1, n - 1);
    }
  }

  lemma {:induction false} RejectionOfMore(env: Env, from: nat, n: nat, more: nat)
    ensures FirstRejection(env, from, n + more) ==
            var first := FirstRejection(env, from, n);
            if first != Ok then first else FirstRejection(env, from + n, more)
    decreases n
  {
    if n != 0 {
      RejectionOfMore(env, from + 1, n - 1, more);
    }
  }

  // One call and two.
  lemma FewRejections(env: Env, from: nat)
    ensures FirstRejection(env, from, 0) == Ok && FirstRejection(env, from, 1) == env.verdict(from)
    ensures FirstRejection(env, from, 2) == if env.verdict(from) != Ok then env.verdict(from) else env.verdict(from + 1)
  {
    assert FirstRejection(env, from + 1, 1) == env.verdict(from + 1);
  }

  // What becomes of a departure that takes `n` hardware calls.
  ghost predicate Answered(env: Env, st: Stack, o: Outcome, n: nat) {
    o.status == FirstRejection(env, st.calls, n) && (o.status == Ok ==> o.st.calls == st.calls + n)
  }

  lemma LeaveContinuousCalls(env: Env, st: Stack, c: Client, pa: PropArea)
    requires PropInv(env, st.m, st.hw, pa) && pa in st.m.configs
    ensures Answered(env, st, RemoveContinuousSubscriber(env, st, c, pa), CallsNeeded(st.m, c, pa))
  {
    FewRejections(env, st.calls);
    var config := RemoveClient(st.m.configs[pa], c);
    assert config.byClient != map[] ==> config.byClient.Keys != {};
    MaxRateIsPositive(config);
    if config.byClient != map[] {
      SubscribedToOneArea(st.hw, env.configs, OptionFor(pa, config.cached), pa);
    }
    hide FirstRejection, Combine, IsAggregate, PropInv;
  }

  lemma UnsubscribeOneCalls(env: Env, st: Stack, c: Client, pa: PropArea)
    requires PropInv(env, st.m, st.hw, pa)
    ensures var o, n := UnsubscribeOne(env, st, c, pa), CallsNeeded(st.m, c, pa);
            && o.status == FirstRejection(env, st.calls, n)
            && (o.status == Ok <==> AllAccepted(env, st.calls, n))
            && (o.status == Ok ==> o.st.calls == st.calls + n)
  {
    NoRejection(env, st.calls, CallsNeeded(st.m, c, pa));
    FewRejections(env, st.calls);
    if pa in st.m.configs {
      LeaveContinuousCalls(env, st, c, pa);
      hide RemoveContinuousSubscriber;
    }
    hide FirstRejection, AllAccepted, Combine, PropInv, CallsNeeded;
    if pa !in st.m.configs {
      OnChangeCallsNeeded(st.m, c, pa);
    }
  }

  lemma OnChangeCallsNeeded(m: Manager, c: Client, pa: PropArea)
    requires pa !in m.configs
    ensures CallsNeeded(m, c, pa) == if pa in m.clients && |m.clients[pa]| <= 1 then 1 else 0
  {
  }

  lemma {:induction false} SameTotal(m: Manager, n: Manager, c: Client, order: seq<PropArea>, pa: PropArea)
    requires m.configs - {pa} == n.configs - {pa} && m.clients - {pa} == n.clients - {pa} && pa !in order
    ensures TotalCalls(m, c, order) == TotalCalls(n, c, order)
  {
    if order != [] {
      var q := order[0];
      assert q in m.configs <==> q in m.configs - {pa};
      assert q in n.configs <==> q in n.configs - {pa};
      assert q in m.clients <==> q in m.clients - {pa};
      assert q in n.clients <==> q in n.clients - {pa};
      SameTotal(m, n, c, order[1..], pa);
    }
  }

  lemma {:induction false} UnsubscribeEachCalls(env: Env, st: Stack, c: Client, order: seq<PropArea>, trim: bool)
    requires Inv(env, st) && forall i, j :: 0 <= i < j < |order| ==> order[i] != order[j]
    ensures UnsubscribeEach(env, st, c, order, trim).status ==
            FirstRejection(env, st.calls, TotalCalls(st.m, c, order))
    decreases |order|
  {
    hide UnsubscribeOne, PropInv, CallsNeeded, FirstRejection;
    FewRejections(env, st.calls);
    if order != [] {
      var pa := order[0];
      var o, n := UnsubscribeOne(env, st, c, pa), CallsNeeded(st.m, c, pa);
      assert PropInv(env, st.m, st.hw, pa);
      UnsubscribeOneCalls(env, st, c, pa);
      RejectionOfMore(env, st.calls, n, TotalCalls(st.m, c, order[1..]));
      if o.status == Ok {
        var next := if trim then o.st.(m := Forget(o.st.m, c, pa)) else o.st;
        UnsubscribeOneKeepsInv(env, st, c, pa);
        UnsubscribeOneOnIndices(env, st, c, pa);
        TrimKeepsInv(env, o.st, next.m, c);
        UnsubscribeElsewhere(env, st, c, pa);
        SameTotal(st.m, next.m, c, order[1..], pa);
        UnsubscribeEachCalls(env, next, c, order[1..], trim);
      }
    }
  }

  lemma SplitAccepted(env: Env, from: nat, n: nat, more: nat)
    ensures AllAccepted(env, from, n + more) <==> AllAccepted(env, from, n) && AllAccepted(env, from + n, more)
  {
  }

  // When a client leaves and nobody else is there, no entry stays, and no config.
  lemma UnsubscribeOneErases(env: Env, st: Stack, c: Client, pa: PropArea)
    requires PropInv(env, st.m, st.hw, pa)
    ensures var o := UnsubscribeOne(env, st, c, pa);
            o.status == Ok && ClientsOf(o.st.m, pa) == {} ==> pa !in o.st.m.clients && pa !in o.st.m.configs
  {
    hide UpdateContSubConfigs, Combine, CallUnsubscribe;
  }

  lemma {:induction false} UnsubscribeEachErases(env: Env, st: Stack, c: Client, order: seq<PropArea>, trim: bool,
                                                 pa: PropArea)
    requires Inv(env, st) && UnsubscribeEach(env, st, c, order, trim).status == Ok
    requires pa in order || (ClientsOf(st.m, pa) == {} ==> pa !in st.m.configs)
    ensures var o := UnsubscribeEach(env, st, c, order, trim);
            ClientsOf(o.st.m, pa) == {} ==> pa !in o.st.m.clients && pa !in o.st.m.configs
    decreases |order|
  {
    hide UnsubscribeOne, PropInv;
    if order == [] {
      assert PropInv(env, st.m, st.hw, pa);
      NoEmptyEntry(env, st, pa);
    } else {
      var first := order[0];
      var o := UnsubscribeOne(env, st, c, first);
      var next := if trim then o.st.(m := Forget(o.st.m, c, first)) else o.st;
      assert PropInv(env, st.m, st.hw, first);
      UnsubscribeOneErases(env, st, c, first);
      UnsubscribeOneKeepsInv(env, st, c, first);
      UnsubscribeOneOnIndices(env, st, c, first);
      TrimKeepsInv(env, o.st, next.m, c);
      if pa != first {
        UnsubscribeElsewhere(env, st, c, first);
        SameConfigElsewhere(st, o.st, first, pa);
      }
      UnsubscribeEachErases(env, next, c, order[1..], trim, pa);
    }
  }

  lemma NoEmptyEntry(env: Env, st: Stack, pa: PropArea)
    requires PropInv(env, st.m, st.hw, pa)
    ensures ClientsOf(st.m, pa) == {} ==> pa !in st.m.clients
  {
  }

  lemma SameConfigElsewhere(before: Stack, after: Stack, pa: PropArea, q: PropArea)
    requires SameElsewhere(before, after, pa) && q != pa
    ensures q in after.m.configs <==> q in before.m.configs
  {
    assert q in after.m.configs <==> q in after.m.configs - {pa};
    assert q in before.m.configs <==> q in before.m.configs - {pa};
  }

  /** When the last client of a [propId, areaId] leaves it, by either kind of departure, the manager keeps
      neither an entry nor a config for it. */
  lemma LastOneLeavesNothing(env: Env, st: Stack, step: Step, pa: PropArea)
    requires Inv(env, st) && Enabled(env, st, step) && (step.UnsubscribePropsStep? || step.UnsubscribeClientStep?)
    requires Next(env, st, step).status == Ok && pa in step.order
    ensures var m := Next(env, st, step).st.m;
            ClientsOf(m, pa) == {} ==> pa !in m.clients && pa !in m.configs
  {
    hide UnsubscribeEach, Inv;
    assert step.c in st.m.props;
    UnsubscribeEachErases(env, st, step.c, step.order, step.UnsubscribePropsStep?, pa);
  }

  /** A whole-client unsubscribe some of whose hardware calls is rejected after those for the first
      [propId, areaId] it visits were accepted. */
  ghost predicate RejectedHalfway(env: Env, st: Stack, step: Step) {
    && step.UnsubscribeClientStep? && step.order != []
    && var first, rest := CallsNeeded(st.m, step.c, step.order[0]), TotalCalls(st.m, step.c, step.order[1..]);
       AllAccepted(env, st.calls, first) && !AllAccepted(env, st.calls + first, rest)
  }

  lemma CutShortIsRejectedHalfway(env: Env, st: Stack, step: Step)
    requires Inv(env, st) && Enabled(env, st, step)
    ensures CutShort(env, st, step) <==> RejectedHalfway(env, st, step)
  {
    hide UnsubscribeOne, UnsubscribeEach, CallsNeeded, PropInv;
    if step.UnsubscribeClientStep? && step.order != [] {
      var pa := step.order[0];
      assert pa in PropsOf(st.m, step.c);
      assert PropInv(env, st.m, st.hw, pa);
      UnsubscribeOneCalls(env, st, step.c, pa);
      UnsubscribeEachCalls(env, st, step.c, step.order, false);
      NoRejection(env, st.calls, TotalCalls(st.m, step.c, step.order));
      SplitAccepted(env, st.calls, CallsNeeded(st.m, step.c, pa), TotalCalls(st.m, step.c, step.order[1..]));
    }
  }

  /** From a reachable state whose indices are exact inverses, a step keeps them so exactly when it is
      not a whole-client unsubscribe rejected half way. */
  lemma InverseIsKeptExactly(env: Env, st: Stack, step: Step)
    requires Inv(env, st) && Inverse(st.m) && Enabled(env, st, step)
    ensures Inverse(Next(env, st, step).st.m) <==> !RejectedHalfway(env, st, step)
  {
    hide Next, Inverse, CutShort, RejectedHalfway;
    InverseUnlessCutShort(env, st, step);
    CutShortIsRejectedHalfway(env, st, step);
  }

  /** Runs in which no whole-client unsubscribe is rejected half way. */
  ghost predicate IsUncutRun(env: Env, steps: seq<Step>) {
    steps == [] ||
    var before, last := steps[..|steps| - 1], steps[|steps| - 1];
    && IsUncutRun(env, before)
    && Enabled(env, Run(env, before), last) && !RejectedHalfway(env, Run(env, before), last)
  }

  /** In such runs the two indices are always exact inverses. */
  lemma {:induction false} IndicesAreInverseInUncutRuns(env: Env, steps: seq<Step>)
    requires IsUncutRun(env, steps)
    ensures IsRun(env, steps) && Inverse(Run(env, steps).m)
    decreases |steps|
  {
    hide Next, RejectedHalfway;
    if steps != [] {
      var before, last := steps[..|steps| - 1], steps[|steps| - 1];
      IndicesAreInverseInUncutRuns(env, before);
      RunKeepsInv(env, before);
      InverseIsKeptExactly(env, Run(env, before), last);
    }
  }

  lemma InvIgnoresVerdict(env: Env, other: Env, st: Stack)
    requires Inv(env, st) && other.configs == env.configs
    ensures Inv(other, st)
  {
    forall pa ensures PropInv(other, st.m, st.hw, pa) {
      assert PropInv(env, st.m, st.hw, pa);
    }
  }

  /** A departure keeps the indices exact inverses whatever the hardware rejects exactly when, after the
      first [propId, areaId] it visits, none needs a hardware call. */
  lemma DepartureIsSafeExactly(env: Env, st: Stack, c: Client, order: seq<PropArea>)
    requires Inv(env, st) && Inverse(st.m) && Enumerates(order, PropsOf(st.m, c)) && order != []
    ensures (forall verdict: nat -> StatusCode ::
             Inverse(UnsubscribeClient(env.(verdict := verdict), st, c, order).st.m))
            <==> TotalCalls(st.m, c, order[1..]) == 0
  {
    hide UnsubscribeClient, Inverse, Inv, CallsNeeded;
    var first, rest := CallsNeeded(st.m, c, order[0]), TotalCalls(st.m, c, order[1..]);
    forall verdict: nat -> StatusCode
      ensures Inverse(UnsubscribeClient(env.(verdict := verdict), st, c, order).st.m) <==>
              !(AllAccepted(env.(verdict := verdict), st.calls, first) &&
                !AllAccepted(env.(verdict := verdict), st.calls + first, rest))
    {
      InvIgnoresVerdict(env, env.(verdict := verdict), st);
      InverseIsKeptExactly(env.(verdict := verdict), st, UnsubscribeClientStep(c, order));
    }
    if rest > 0 {
      var verdict := (k: nat) => if k < st.calls + first then Ok else TryAgain;
      assert env.(verdict := verdict).verdict(st.calls + first) == TryAgain;
      assert !Inverse(UnsubscribeClient(env.(verdict := verdict), st, c, order).st.m);
    }
  }

  // ---- On-change properties ----

  predicate IsOnChange(env: Env, propId: int) {
    propId in env.configs && env.configs[propId].changeMode == OnChange
  }

  /** The hardware reports `pa` on change exactly when it has a client. */
  predicate OnChangeAgrees(st: Stack, pa: PropArea) {
    pa in st.hw.onChange <==> pa in st.m.clients
  }

  /** Unsubscribing a client from an on-change [propId, areaId], when the hardware accepts the call:
      the guard that decides whether the hardware and the subscriptions still agree. Without an entry
      in the configs the agreement needs the client to be really there or others to be many; with the
      entry a delivered event inserts, it needs the client to be alone. */
  predicate OnChangeGuard(st: Stack, c: Client, pa: PropArea) {
    var alone := ClientsOf(st.m, pa) - {c} == {};
    if pa in st.m.configs then
      (if st.m.configs[pa].cached.vurEnabled then !alone || pa !in st.m.clients else alone)
    else c in ClientsOf(st.m, pa) || |ClientsOf(st.m, pa)| != 1
  }

  lemma SizeOfRest(s: set<Client>, c: Client)
    ensures |s| > 1 ==> s - {c} != {}
    ensures |s| == 1 ==> (s - {c} == {} <==> c in s)
  {
    assert c in s ==> |s - {c}| == |s| - 1;
    assert c !in s ==> s - {c} == s;
    if |s| == 1 {
      var d :| d in s;
      assert |s - {d}| == 0;
    }
  }

  lemma LookedUpOnChange(env: Env, st: Stack, c: Client, pa: PropArea)
    requires PropInv(env, st.m, st.hw, pa) && IsOnChange(env, pa.propId) && OnChangeAgrees(st, pa)
    requires pa in st.m.configs
    ensures OnChangeAgrees(UnsubscribeOne(env, st, c, pa).st, pa) <==>
            (CallsNeeded(st.m, c, pa) > 0 && env.verdict(st.calls) != Ok) || OnChangeGuard(st, c, pa)
  {
    var config := RemoveClient(st.m.configs[pa], c);
    assert config.byClient == map[];
    var o := RemoveContinuousSubscriber(env, st, c, pa);
    assert CallsNeeded(st.m, c, pa) == if st.m.configs[pa].cached.vurEnabled then 0 else 1;
    if st.m.configs[pa].cached.vurEnabled || env.verdict(st.calls) == Ok {
      assert o.status == Ok;
      assert pa in o.st.hw.onChange <==> pa in st.hw.onChange && st.m.configs[pa].cached.vurEnabled;
    } else {
      assert o.status != Ok && o.st.hw == st.hw;
    }
  }

  /** From a state in which the hardware agrees with the subscriptions on an on-change
      [propId, areaId], an unsubscribe keeps the agreement exactly when it makes a hardware call that
      is rejected, or under the guard. */
  lemma OnChangeAgreesExactly(env: Env, st: Stack, c: Client, pa: PropArea)
    requires Inv(env, st) && IsOnChange(env, pa.propId) && OnChangeAgrees(st, pa)
    ensures OnChangeAgrees(UnsubscribeOne(env, st, c, pa).st, pa) <==>
            (CallsNeeded(st.m, c, pa) > 0 && env.verdict(st.calls) != Ok) || OnChangeGuard(st, c, pa)
  {
    assert PropInv(env, st.m, st.hw, pa);
    if pa in st.m.configs {
      LookedUpOnChange(env, st, c, pa);
    } else if pa in st.m.clients {
      SizeOfRest(st.m.clients[pa], c);
    }
  }

  // ---- Runs in which the hardware and the on-change subscriptions always agree ----

  ghost predicate QuietAt(env: Env, st: Stack, pa: PropArea) {
    IsOnChange(env, pa.propId) && OnChangeAgrees(st, pa) && pa !in st.m.configs
  }

  // What a step at `pa` cannot reach.
  ghost predicate SameElsewhere(before: Stack, after: Stack, pa: PropArea) {
    && before.m.configs - {pa} == after.m.configs - {pa}
    && before.m.clients - {pa} == after.m.clients - {pa}
    && before.hw.onChange - {pa} == after.hw.onChange - {pa}
  }

  lemma UpdateStaysAt(env: Env, st: Stack, pa: PropArea, config: ContSubConfigs)
    requires pa in st.m.configs
    ensures SameElsewhere(st, UpdateContSubConfigs(env, st, pa, config).st, pa)
  {
    if pa.propId in env.configs {
      SubscribedToOneArea(st.hw, env.configs, OptionFor(pa, config.cached), pa);
    }
  }

  lemma AddOnChangeStaysAt(env: Env, st: Stack, pa: PropArea)
    ensures SameElsewhere(st, AddOnChangeSubscriber(env, st, pa).st, pa)
    ensures QuietAt(env, st, pa) ==>
              var o := AddOnChangeSubscriber(env, st, pa);
              && pa !in o.st.m.configs && (o.status != Ok ==> OnChangeAgrees(o.st, pa))
              && (o.status == Ok ==> pa in o.st.hw.onChange)
  {
    if pa.propId in env.configs {
      SubscribedToOneArea(st.hw, env.configs, SubscribeOptions(pa.propId, [pa.areaId], 0.0, 0.0, false), pa);
    }
  }

  lemma QuietElsewhere(env: Env, st: Stack, t: Stack, pa: PropArea, q: PropArea)
    requires SameElsewhere(st, t, pa) && q != pa && QuietAt(env, st, q)
    ensures QuietAt(env, t, q)
  {
    assert q in t.m.configs <==> q in t.m.configs - {pa};
    assert q in st.m.configs <==> q in st.m.configs - {pa};
    assert q in t.m.clients <==> q in t.m.clients - {pa};
    assert q in st.m.clients <==> q in st.m.clients - {pa};
    assert q in t.hw.onChange <==> q in t.hw.onChange - {pa};
    assert q in st.hw.onChange <==> q in st.hw.onChange - {pa};
  }

  lemma SubscribeElsewhere(env: Env, st: Stack, c: Client, pa: PropArea, sub: SubConfig, continuous: bool)
    ensures SameElsewhere(st, SubscribeOne(env, st, c, pa, sub, continuous).st, pa)
  {
    hide UpdateContSubConfigs, CallSubscribe, Combine;
    if continuous {
      var looked := WithConfig(st, pa);
      UpdateStaysAt(env, looked, pa, AddClient(looked.m.configs[pa], c, sub));
    } else {
      AddOnChangeStaysAt(env, st, pa);
    }
  }

  lemma SubscribeOneKeepsQuiet(env: Env, st: Stack, c: Client, pa: PropArea, sub: SubConfig, continuous: bool,
                               q: PropArea)
    requires QuietAt(env, st, q) && continuous == IsContinuous(env, pa.propId)
    ensures QuietAt(env, SubscribeOne(env, st, c, pa, sub, continuous).st, q)
  {
    hide UpdateContSubConfigs, CallSubscribe, Combine, AddContinuousSubscriber;
    if q != pa {
      hide SubscribeOne, QuietAt;
      SubscribeElsewhere(env, st, c, pa, sub, continuous);
      QuietElsewhere(env, st, SubscribeOne(env, st, c, pa, sub, continuous).st, pa, q);
    } else {
      AddOnChangeStaysAt(env, st, pa);
    }
  }

  lemma UnsubscribeElsewhere(env: Env, st: Stack, c: Client, pa: PropArea)
    ensures SameElsewhere(st, UnsubscribeOne(env, st, c, pa).st, pa)
  {
    hide UpdateContSubConfigs, Combine;
    if pa in st.m.configs {
      UpdateStaysAt(env, st, pa, RemoveClient(st.m.configs[pa], c));
    }
  }

  lemma UnsubscribeOneKeepsQuiet(env: Env, st: Stack, c: Client, pa: PropArea, q: PropArea)
    requires QuietAt(env, st, q) && (pa == q ==> c in ClientsOf(st.m, pa))
    ensures QuietAt(env, UnsubscribeOne(env, st, c, pa).st, q)
  {
    hide UpdateContSubConfigs, Combine;
    if pa == q {
      SizeOfRest(st.m.clients[pa], c);
    } else {
      hide UnsubscribeOne;
      UnsubscribeElsewhere(env, st, c, pa);
      QuietElsewhere(env, st, UnsubscribeOne(env, st, c, pa).st, pa, q);
    }
  }

  lemma {:induction false} SubscribeAreaIdsKeepsQuiet(env: Env, st: Stack, c: Client, option: SubscribeOptions,
                                                      areas: seq<int>, continuous: bool, q: PropArea)
    requires QuietAt(env, st, q) && continuous == IsContinuous(env, option.propId)
    ensures QuietAt(env, SubscribeAreaIds(env, st, c, option, areas, continuous).st, q)
    decreases |areas|
  {
    hide SubscribeOne, QuietAt;
    if areas != [] {
      var pa := PropArea(option.propId, areas[0]);
      SubscribeOneKeepsQuiet(env, st, c, pa, SubOf(option), continuous, q);
      SubscribeAreaIdsKeepsQuiet(env, SubscribeOne(env, st, c, pa, SubOf(option), continuous).st, c, option,
                                 areas[1..], continuous, q);
    }
  }

  lemma {:induction false} SubscribeEachKeepsQuiet(env: Env, st: Stack, c: Client, options: seq<SubscribeOptions>,
                                                   continuous: bool, q: PropArea)
    requires QuietAt(env, st, q) && forall option <- options :: IsContinuous(env, option.propId) == continuous
    ensures QuietAt(env, SubscribeEach(env, st, c, options, continuous).st, q)
    decreases |options|
  {
    hide SubscribeAreaIds, QuietAt;
    if options != [] {
      assert options[0] in options;
      SubscribeAreaIdsKeepsQuiet(env, st, c, options[0], options[0].areaIds, continuous, q);
      SubscribeEachKeepsQuiet(env, SubscribeAreaIds(env, st, c, options[0], options[0].areaIds, continuous).st, c,
                              options[1..], continuous, q);
    }
  }

  lemma {:induction false} UnsubscribeEachKeepsQuiet(env: Env, st: Stack, c: Client, order: seq<PropArea>, trim: bool,
                                                     q: PropArea)
    requires QuietAt(env, st, q) && (q in order ==> c in ClientsOf(st.m, q))
    requires forall i, j :: 0 <= i < j < |order| ==> order[i] != order[j]
    ensures QuietAt(env, UnsubscribeEach(env, st, c, order, trim).st, q)
    decreases |order|
  {
    hide UnsubscribeOne;
    if order != [] {
      var o := UnsubscribeOne(env, st, c, order[0]);
      UnsubscribeOneKeepsQuiet(env, st, c, order[0], q);
      UnsubscribeOneOnIndices(env, st, c, order[0]);
      if o.status == Ok {
        var next := if trim then o.st.(m := Forget(o.st.m, c, order[0])) else o.st;
        UnsubscribeEachKeepsQuiet(env, next, c, order[1..], trim, q);
      }
    }
  }

  lemma {:induction false} DeliverKeepsQuiet(env: Env, st: Stack, updated: seq<PropArea>, q: PropArea)
    requires QuietAt(env, st, q) && q !in updated
    ensures QuietAt(env, Deliver(st, updated), q)
    decreases |updated|
  {
    if updated != [] {
      DeliverKeepsQuiet(env, if ClientsOf(st.m, updated[0]) != {} then WithConfig(st, updated[0]) else st,
                        updated[1..], q);
    }
  }

  /** Runs that deliver no update of `pa` and cut no whole-client unsubscribe short. */
  ghost predicate IsCleanRun(env: Env, steps: seq<Step>, pa: PropArea) {
    steps == [] ||
    var before, last := steps[..|steps| - 1], steps[|steps| - 1];
    && IsCleanRun(env, before, pa)
    && Enabled(env, Run(env, before), last) && !RejectedHalfway(env, Run(env, before), last)
    && (last.DeliverStep? ==> pa !in last.updated)
  }

  lemma StepKeepsQuiet(env: Env, st: Stack, step: Step, pa: PropArea)
    requires Inverse(st.m) && QuietAt(env, st, pa) && Enabled(env, st, step) &&
             (step.DeliverStep? ==> pa !in step.updated)
    ensures QuietAt(env, Next(env, st, step).st, pa)
  {
    hide SubscribeEach, UnsubscribeEach, Deliver;
    match step
    case SubscribeStep(c, options, continuous) =>
      SubscribeEachKeepsQuiet(env, st, c, options, continuous, pa);
    case UnsubscribePropsStep(c, _, order) =>
      assert InverseAt(st.m, pa, c);
      UnsubscribeEachKeepsQuiet(env, st, c, order, true, pa);
    case UnsubscribeClientStep(c, order) =>
      assert InverseAt(st.m, pa, c);
      UnsubscribeEachKeepsQuiet(env, st, c, order, false, pa);
    case DeliverStep(updated) => DeliverKeepsQuiet(env, st, updated, pa);
  }

  lemma {:induction false} CleanIsUncut(env: Env, steps: seq<Step>, pa: PropArea)
    requires IsCleanRun(env, steps, pa)
    ensures IsUncutRun(env, steps)
    decreases |steps|
  {
    hide Next, RejectedHalfway;
    if steps != [] {
      CleanIsUncut(env, steps[..|steps| - 1], pa);
    }
  }

  /** In a clean run the two indices are exact inverses and the hardware reports an on-change
      [propId, areaId] exactly when it has a client. */
  lemma {:induction false} OnChangeAgreesInCleanRuns(env: Env, steps: seq<Step>, pa: PropArea)
    requires IsCleanRun(env, steps, pa) && IsOnChange(env, pa.propId)
    ensures Inverse(Run(env, steps).m) && OnChangeAgrees(Run(env, steps), pa) && QuietAt(env, Run(env, steps), pa)
    decreases |steps|
  {
    hide Next, QuietAt, OnChangeAgrees, Inverse, RejectedHalfway;
    CleanIsUncut(env, steps, pa);
    IndicesAreInverseInUncutRuns(env, steps);
    if steps == [] {
      assert QuietAt(env, EMPTY_STACK, pa) && OnChangeAgrees(EMPTY_STACK, pa) by {
        NothingSubscribed(env, pa);
      }
    } else {
      var before, last := steps[..|steps| - 1], steps[|steps| - 1];
      OnChangeAgreesInCleanRuns(env, before, pa);
      StepKeepsQuiet(env, Run(env, before), last, pa);
      assert OnChangeAgrees(Run(env, steps), pa) by { QuietAgrees(env, Run(env, steps), pa); }
    }
  }

  lemma NothingSubscribed(env: Env, pa: PropArea)
    requires IsOnChange(env, pa.propId)
    ensures QuietAt(env, EMPTY_STACK, pa) && OnChangeAgrees(EMPTY_STACK, pa)
  {
  }

  lemma QuietAgrees(env: Env, st: Stack, pa: PropArea)
    requires QuietAt(env, st, pa)
    ensures OnChangeAgrees(st, pa)
  {
  }

  // ---- Two runs that break the agreement ----

  const DOOR := PropArea(7, 1)
  const SEAT := PropArea(8, 1)
  const REPORTS := PropConfig(Read, OnChange, [AreaConfig(1, Read, false, None)], 0.0, 0.0)
  const CONFIGS: Configs := map[7 := REPORTS, 8 := REPORTS]
  const ALICE := Client(1)
  const BOB := Client(2)

  // Rejects one hardware call, if any.
  function Rejecting(call: int): Env {
    Env(CONFIGS, n => if n == call then TryAgain else Ok, r => true)
  }

  function SubscribeTo(c: Client, pa: PropArea): Step {
    SubscribeStep(c, [SubscribeOptions(pa.propId, [pa.areaId], 0.0, 0.0, false)], false)
  }

  // One accepted subscription to an on-change property.
  lemma SubscribedTo(env: Env, st: Stack, c: Client, pa: PropArea)
    requires env.configs == CONFIGS && pa.propId in CONFIGS && env.verdict(st.calls) == Ok
    ensures var next := Next(env, st, SubscribeTo(c, pa)).st;
            && Enabled(env, st, SubscribeTo(c, pa)) && next.m == Index(st.m, c, pa)
            && next.hw.onChange == (if pa in st.m.clients then st.hw.onChange else st.hw.onChange + {pa})
            && next.calls == if pa in st.m.clients then st.calls else st.calls + 1
  {
    var option := SubscribeOptions(pa.propId, [pa.areaId], 0.0, 0.0, false);
    SubscribedToOneArea(st.hw, env.configs, option, pa);
    var o := SubscribeOne(env, st, c, pa, SubOf(option), false);
    assert o.status == Ok;
    assert SubscribeAreaIds(env, o.st, c, option, option.areaIds[1..], false) == Outcome(o.st, Ok);
    assert SubscribeAreaIds(env, st, c, option, option.areaIds, false) == o;
    assert [option][1..] == [];
    assert SubscribeEach(env, o.st, c, [option][1..], false) == Outcome(o.st, Ok);
  }

  lemma EachOfOne(env: Env, st: Stack, c: Client, pa: PropArea, rest: seq<PropArea>, trim: bool)
    ensures var o, each := UnsubscribeOne(env, st, c, pa), UnsubscribeEach(env, st, c, [pa] + rest, trim);
            if o.status != Ok then each == o
            else each == UnsubscribeEach(env, if trim then o.st.(m := Forget(o.st.m, c, pa)) else o.st, c, rest, trim)
  {
    assert ([pa] + rest)[1..] == rest;
  }

  function DeliveryRun(): seq<Step> {
    [SubscribeTo(ALICE, DOOR), SubscribeTo(BOB, DOOR), DeliverStep([DOOR])]
  }

  lemma AfterDelivery()
    ensures var env := Rejecting(-1);
            var st := Run(env, DeliveryRun());
            && IsRun(env, DeliveryRun()) && ClientsOf(st.m, DOOR) == {ALICE, BOB} && PropsOf(st.m, ALICE) == {DOOR}
            && OnChangeAgrees(st, DOOR) && st.m.configs == map[DOOR := NEW_CONFIG]
  {
    hide SubscribeEach;
    var env := Rejecting(-1);
    var s1, s2 := [SubscribeTo(ALICE, DOOR)], [SubscribeTo(ALICE, DOOR), SubscribeTo(BOB, DOOR)];
    assert IsRun(env, []) && Run(env, []) == EMPTY_STACK;
    SubscribedTo(env, EMPTY_STACK, ALICE, DOOR);
    RunExtends(env, [], SubscribeTo(ALICE, DOOR));
    assert [] + [SubscribeTo(ALICE, DOOR)] == s1;
    SubscribedTo(env, Run(env, s1), BOB, DOOR);
    RunExtends(env, s1, SubscribeTo(BOB, DOOR));
    assert s1 + [SubscribeTo(BOB, DOOR)] == s2;
    RunExtends(env, s2, DeliverStep([DOOR]));
    assert s2 + [DeliverStep([DOOR])] == DeliveryRun();
    assert Deliver(Run(env, s2), [DOOR]) == Deliver(WithConfig(Run(env, s2), DOOR), [DOOR][1..]);
    assert [DOOR][1..] == [];
  }

  /** Alice and Bob subscribe to an on-change property, one update of it is delivered, Alice leaves.
      Every call is accepted, Bob is still subscribed, and the hardware no longer reports. */
  lemma DeliveryCutsOffOtherClients()
    ensures var env, steps := Rejecting(-1), DeliveryRun() + [UnsubscribePropsStep(ALICE, {7}, [DOOR])];
            IsRun(env, steps) && BOB in ClientsOf(Run(env, steps).m, DOOR) && DOOR !in Run(env, steps).hw.onChange
  {
    hide UnsubscribeOne, UnsubscribeEach, CallsNeeded, Inv;
    var env, last := Rejecting(-1), UnsubscribePropsStep(ALICE, {7}, [DOOR]);
    var st := Run(env, DeliveryRun());
    AfterDelivery();
    RunKeepsInv(env, DeliveryRun());
    RunExtends(env, DeliveryRun(), last);
    OnChangeAgreesExactly(env, st, ALICE, DOOR);
    assert BOB in ClientsOf(st.m, DOOR) - {ALICE};
    UnsubscribeOneOnIndices(env, st, ALICE, DOOR);
    EachOfOne(env, st, ALICE, DOOR, [], true);
    assert [DOOR] + [] == [DOOR];
    UnsubscribeEachOfNone(env, ALICE);
  }

  lemma UnsubscribeEachOfNone(env: Env, c: Client)
    ensures forall st, trim :: UnsubscribeEach(env, st, c, [], trim) == Outcome(st, Ok)
  {
  }

  // The first try of Alice's departure is rejected at her second property.
  function StaleRun(): seq<Step> {
    [SubscribeTo(ALICE, DOOR), SubscribeTo(ALICE, SEAT), UnsubscribeClientStep(ALICE, [DOOR, SEAT]),
     SubscribeTo(BOB, DOOR)]
  }

  lemma BothOfAlice()
    ensures var env, steps := Rejecting(3), [SubscribeTo(ALICE, DOOR), SubscribeTo(ALICE, SEAT)];
            IsRun(env, steps) && Run(env, steps).m == Index(Index(EMPTY_STACK.m, ALICE, DOOR), ALICE, SEAT) &&
            Run(env, steps).calls == 2 && Run(env, steps).hw.onChange == {DOOR, SEAT}
  {
    hide SubscribeEach;
    var env := Rejecting(3);
    var s1 := [SubscribeTo(ALICE, DOOR)];
    assert IsRun(env, []) && Run(env, []) == EMPTY_STACK;
    SubscribedTo(env, EMPTY_STACK, ALICE, DOOR);
    RunExtends(env, [], SubscribeTo(ALICE, DOOR));
    assert [] + [SubscribeTo(ALICE, DOOR)] == s1;
    SubscribedTo(env, Run(env, s1), ALICE, SEAT);
    RunExtends(env, s1, SubscribeTo(ALICE, SEAT));
    assert s1 + [SubscribeTo(ALICE, SEAT)] == [SubscribeTo(ALICE, DOOR), SubscribeTo(ALICE, SEAT)];
  }

  // Leaving an on-change property with a single client, whoever it is.
  lemma LeavesOnly(env: Env, st: Stack, c: Client, pa: PropArea)
    requires pa !in st.m.configs && |ClientsOf(st.m, pa)| == 1
    ensures var o := UnsubscribeOne(env, st, c, pa);
            var called := st.(calls := st.calls + 1);
            if env.verdict(st.calls) != Ok then o == Outcome(called, env.verdict(st.calls))
            else o == Outcome(called.(hw := Unsubscribed(st.hw, pa), m := Unindex(st.m, c, pa)), Ok)
  {
  }

  lemma AfterFirstTry()
    ensures var env, steps := Rejecting(3), StaleRun()[..3];
            var st := Run(env, steps);
            && IsRun(env, steps) && PropsOf(st.m, ALICE) == {DOOR, SEAT} && st.m.clients == map[SEAT := {ALICE}]
            && st.m.configs == map[] && st.hw.onChange == {SEAT} && st.calls == 4
  {
    hide SubscribeEach, UnsubscribeOne, UnsubscribeEach, Run, IsRun;
    var env, s2 := Rejecting(3), [SubscribeTo(ALICE, DOOR), SubscribeTo(ALICE, SEAT)];
    BothOfAlice();
    var st := Run(env, s2);
    var leave := UnsubscribeClientStep(ALICE, [DOOR, SEAT]);
    RunExtends(env, s2, leave);
    assert s2 + [leave] == StaleRun()[..3];
    LeavesOnly(env, st, ALICE, DOOR);
    EachOfOne(env, st, ALICE, DOOR, [SEAT], false);
    var o := UnsubscribeOne(env, st, ALICE, DOOR);
    assert ClientsOf(o.st.m, SEAT) == {ALICE};
    LeavesOnly(env, o.st, ALICE, SEAT);
    EachOfOne(env, o.st, ALICE, SEAT, [], false);
    assert [DOOR] + [SEAT] == [DOOR, SEAT] && [SEAT] + [] == [SEAT];
    assert Next(env, st, leave).st == o.st.(calls := 4);
    assert o.st.m.clients == map[SEAT := {ALICE}];
  }

  lemma AfterBobJoins()
    ensures var env := Rejecting(3); var st := Run(env, StaleRun());
            && IsRun(env, StaleRun()) && PropsOf(st.m, ALICE) == {DOOR, SEAT}
            && ClientsOf(st.m, DOOR) == {BOB} && ClientsOf(st.m, SEAT) == {ALICE}
            && st.m.configs == map[] && st.calls == 5
  {
    hide SubscribeEach, UnsubscribeEach, UnsubscribeOne, Run, IsRun;
    var env := Rejecting(3);
    AfterFirstTry();
    var before := Run(env, StaleRun()[..3]);
    SubscribedTo(env, before, BOB, DOOR);
    RunExtends(env, StaleRun()[..3], SubscribeTo(BOB, DOOR));
    assert StaleRun()[..3] + [SubscribeTo(BOB, DOOR)] == StaleRun();
  }

  /** Alice's departure is rejected half way, Bob subscribes to what she has already left, and she
      retries, as the comments say she safely may. The retry succeeds, Bob is still subscribed, and
      the hardware no longer reports. */
  lemma RetryCutsOffOtherClients()
    ensures var env, retry := Rejecting(3), UnsubscribeClientStep(ALICE, [DOOR, SEAT]);
            var steps := StaleRun() + [retry];
            && IsRun(env, steps) && Next(env, Run(env, StaleRun()), retry).status == Ok
            && BOB in ClientsOf(Run(env, steps).m, DOOR) && DOOR !in Run(env, steps).hw.onChange
  {
    hide SubscribeEach, UnsubscribeOne, UnsubscribeEach, Run, IsRun, StaleRun;
    var env, retry := Rejecting(3), UnsubscribeClientStep(ALICE, [DOOR, SEAT]);
    AfterBobJoins();
    var st := Run(env, StaleRun());
    RunExtends(env, StaleRun(), retry);
    LeavesOnly(env, st, ALICE, DOOR);
    EachOfOne(env, st, ALICE, DOOR, [SEAT], false);
    var o := UnsubscribeOne(env, st, ALICE, DOOR);
    assert ClientsOf(o.st.m, SEAT) == {ALICE};
    LeavesOnly(env, o.st, ALICE, SEAT);
    EachOfOne(env, o.st, ALICE, SEAT, [], false);
    UnsubscribeEachOfNone(env, ALICE);
    assert [DOOR] + [SEAT] == [DOOR, SEAT] && [SEAT] + [] == [SEAT];
  }
}
