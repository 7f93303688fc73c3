/** When a call succeeds, what it is answered when it does not, and how many hardware calls it makes,
    all read off the options and the clients' configs. */
module SubscriptionStatus {
  import opened VehicleTypes
  import opened RefreshTables
  import opened SubscriptionModel
  import opened SubscriptionSafety
  import opened SubscriptionLimits

  /** One [propId, areaId] of an option, on the option's terms. */
  datatype Request = Request(pa: PropArea, sub: SubConfig)

  function RequestsOfAreas(option: SubscribeOptions, areas: seq<int>): seq<Request> {
    seq(|areas|, i requires 0 <= i < |areas| =>
      Request(PropArea(option.propId, areas[i]), SubConfig(option.sampleRate, option.resolution, option.enableVur)))
  }

  /** The requests of a call, in order. */
  function RequestsOf(options: seq<SubscribeOptions>): seq<Request> {
    if options == [] then [] else RequestsOfAreas(options[0], options[0].areaIds) + RequestsOf(options[1..])
  }

  /** What granting a request makes of the manager. */
  ghost function Granted(m: Manager, c: Client, r: Request, continuous: bool): Manager {
    var byClient := Asked(m, r.pa)[c := r.sub];
    Manager(
      m.clients[r.pa := ClientsOf(m, r.pa) + {c}],
      m.props[c := PropsOf(m, c) + {r.pa}],
      if continuous then m.configs[r.pa := ContSubConfigs(Combine(byClient), byClient)] else m.configs)
  }

  ghost function AllGranted(m: Manager, c: Client, requests: seq<Request>, continuous: bool): Manager
    decreases |requests|
  {
    if requests == [] then m else AllGranted(Granted(m, c, requests[0], continuous), c, requests[1..], continuous)
  }

  /** How many hardware calls granting a request takes: of a continuous property, none when rates,
      resolutions and flags of its clients combine to what they did before, two when the rate changes,
      and one otherwise; of another, one for the first client. */
  ghost function CallsToGrant(m: Manager, c: Client, r: Request, continuous: bool): nat {
    if continuous then
      var before, after := Combine(Asked(m, r.pa)), Combine(Asked(m, r.pa)[c := r.sub]);
      if after.maxRate != before.maxRate then 2 else if after != before then 1 else 0
    else if ClientsOf(m, r.pa) == {} then 1
    else 0
  }

  ghost function CallsFor(m: Manager, c: Client, requests: seq<Request>, continuous: bool): nat
    decreases |requests|
  {
    if requests == [] then 0
    else
      CallsToGrant(m, c, requests[0], continuous) +
      CallsFor(Granted(m, c, requests[0], continuous), c, requests[1..], continuous)
  }

  lemma {:induction false} CallsForMore(m: Manager, c: Client, xs: seq<Request>, ys: seq<Request>, continuous: bool)
    ensures AllGranted(m, c, xs + ys, continuous) == AllGranted(AllGranted(m, c, xs, continuous), c, ys, continuous)
    ensures CallsFor(m, c, xs + ys, continuous) ==
            CallsFor(m, c, xs, continuous) + CallsFor(AllGranted(m, c, xs, continuous), c, ys, continuous)
    decreases |xs|
  {
    hide Granted, CallsToGrant;
    if xs == [] {
      assert xs + ys == ys;
    } else {
      assert (xs + ys)[1..] == xs[1..] + ys;
      CallsForMore(Granted(m, c, xs[0], continuous), c, xs[1..], ys, continuous);
    }
  }

  // ---- One request ----

  // Only properties the hardware knows have clients.
  ghost predicate OnlyKnown(env: Env, m: Manager) {
    forall pa :: ClientsOf(m, pa) != {} ==> pa.propId in env.configs
  }

  // What becomes of a request, or of several.
  ghost predicate Decided(env: Env, st: Stack, o: Outcome, known: bool, n: nat, granted: Manager) {
    && (o.status == Ok <==> known && FirstRejection(env, st.calls, n) == Ok)
    && (known ==> o.status == FirstRejection(env, st.calls, n))
    && (o.status == Ok ==> o.st.m == granted && o.st.calls == st.calls + n)
  }

  lemma CachedIsCombined(env: Env, st: Stack, pa: PropArea)
    requires Inv(env, st)
    ensures var cached := WithConfig(st, pa).m.configs[pa].cached;
            && cached.maxRate == Combine(Asked(st.m, pa)).maxRate
            && (Asked(st.m, pa) != map[] ==> cached == Combine(Asked(st.m, pa)))
  {
    assert PropInv(env, st.m, st.hw, pa);
    if Asked(st.m, pa) != map[] {
      AggregateIsUnique(Asked(st.m, pa), st.m.configs[pa].cached, Combine(Asked(st.m, pa)));
    }
  }

  lemma UpdateStatus(env: Env, st: Stack, pa: PropArea, config: ContSubConfigs)
    requires pa in st.m.configs && IsContinuous(env, pa.propId) && config.cached.maxRate > 0.0
    ensures var o, before, after := UpdateContSubConfigs(env, st, pa, config), st.m.configs[pa].cached, config.cached;
            var n := if after.maxRate != before.maxRate then 2 else if after != before then 1 else 0;
            Decided(env, st, o, true, n, st.m.(configs := st.m.configs[pa := config]))
  {
    FewRejections(env, st.calls);
    SubscribedToOneArea(st.hw, env.configs, OptionFor(pa, config.cached), pa);
    hide FirstRejection;
  }

  lemma IndexedIsDecided(env: Env, st: Stack, o: Outcome, c: Client, r: Request, n: nat)
    requires var looked, byClient := WithConfig(st, r.pa), Asked(st.m, r.pa)[c := r.sub];
             Decided(env, looked, o, true, n,
                     looked.m.(configs := looked.m.configs[r.pa := ContSubConfigs(Combine(byClient), byClient)]))
    ensures Decided(env, st, Indexed(o, c, r.pa), true, n, Granted(st.m, c, r, true))
  {
    hide Combine, FirstRejection;
    var byClient := Asked(st.m, r.pa)[c := r.sub];
    var config := ContSubConfigs(Combine(byClient), byClient);
    assert WithConfig(st, r.pa).m.configs[r.pa := config] == st.m.configs[r.pa := config];
  }

  lemma ContinuousIsDecided(env: Env, st: Stack, c: Client, r: Request)
    requires Inv(env, st) && IsContinuous(env, r.pa.propId) && CheckSampleRate(r.sub.rate)
    ensures Decided(env, st, SubscribeOne(env, st, c, r.pa, r.sub, true), true, CallsToGrant(st.m, c, r, true),
                    Granted(st.m, c, r, true))
  {
    var looked := WithConfig(st, r.pa);
    var config := AddClient(looked.m.configs[r.pa], c, r.sub);
    assert PropInv(env, st.m, st.hw, r.pa);
    CachedIsCombined(env, st, r.pa);
    assert Asked(st.m, r.pa) == map[] ==> Combine(Asked(st.m, r.pa)).maxRate == 0.0;
    assert c in config.byClient;
    MaxRateIsPositive(config);
    hide Combine, PropInv, IsAggregate, WellCached, Inv, UpdateContSubConfigs, Decided;
    UpdateStatus(env, looked, r.pa, config);
    var o := UpdateContSubConfigs(env, looked, r.pa, config);
    IndexedIsDecided(env, st, o, c, r, CallsToGrant(st.m, c, r, true));
  }

  lemma OnChangeIsDecided(env: Env, st: Stack, c: Client, r: Request)
    requires Inv(env, st) && OnlyKnown(env, st.m) && !IsContinuous(env, r.pa.propId)
    ensures Decided(env, st, SubscribeOne(env, st, c, r.pa, r.sub, false), r.pa.propId in env.configs,
                    CallsToGrant(st.m, c, r, false), Granted(st.m, c, r, false))
  {
    FewRejections(env, st.calls);
    assert PropInv(env, st.m, st.hw, r.pa);
    if r.pa.propId in env.configs {
      SubscribedToOneArea(st.hw, env.configs, SubscribeOptions(r.pa.propId, [r.pa.areaId], 0.0, 0.0, false), r.pa);
    }
    hide FirstRejection, PropInv;
  }

  lemma RequestIsDecided(env: Env, st: Stack, c: Client, r: Request, continuous: bool)
    requires Inv(env, st) && OnlyKnown(env, st.m) && IsContinuous(env, r.pa.propId) == continuous
    requires continuous ==> CheckSampleRate(r.sub.rate)
    ensures var o, known := SubscribeOne(env, st, c, r.pa, r.sub, continuous), r.pa.propId in env.configs;
            && Decided(env, st, o, known, CallsToGrant(st.m, c, r, continuous), Granted(st.m, c, r, continuous))
            && Inv(env, o.st) && (o.status == Ok ==> OnlyKnown(env, o.st.m))
  {
    SubscribeOneKeepsInv(env, st, c, r.pa, r.sub, continuous);
    if continuous {
      ContinuousIsDecided(env, st, c, r);
    } else {
      OnChangeIsDecided(env, st, c, r);
    }
    hide SubscribeOne, Inv, Combine, CallsToGrant, FirstRejection;
  }

  // ---- Whole calls ----

  lemma DecidedTwice(env: Env, st: Stack, first: Outcome, o: Outcome, known: bool, more: bool, n: nat, m: nat,
                     middle: Manager, granted: Manager)
    requires Decided(env, st, first, known, n, middle)
    requires if first.status == Ok then Decided(env, first.st, o, more, m, granted) else o == first
    ensures Decided(env, st, o, known && more, n + m, granted)
  {
    RejectionOfMore(env, st.calls, n, m);
  }

  lemma {:induction false} AreasAreDecided(env: Env, st: Stack, c: Client, option: SubscribeOptions, areas: seq<int>,
                                           continuous: bool)
    requires Inv(env, st) && OnlyKnown(env, st.m) && IsContinuous(env, option.propId) == continuous
    requires continuous ==> CheckSampleRate(option.sampleRate)
    ensures var o, rs := SubscribeAreaIds(env, st, c, option, areas, continuous), RequestsOfAreas(option, areas);
            && Decided(env, st, o, areas == [] || option.propId in env.configs, CallsFor(st.m, c, rs, continuous),
                       AllGranted(st.m, c, rs, continuous))
            && Inv(env, o.st) && (o.status == Ok ==> OnlyKnown(env, o.st.m))
    decreases |areas|
  {
    hide SubscribeOne, Inv, Decided, Granted, CallsToGrant, OnlyKnown;
    if areas == [] {
      NothingIsDecided(env, st);
    } else {
      var r := Request(PropArea(option.propId, areas[0]), SubOf(option));
      var rs, rest := RequestsOfAreas(option, areas), RequestsOfAreas(option, areas[1..]);
      assert rs[0] == r && rs[1..] == rest;
      var first := SubscribeOne(env, st, c, r.pa, r.sub, continuous);
      var o := SubscribeAreaIds(env, st, c, option, areas, continuous);
      RequestIsDecided(env, st, c, r, continuous);
      var middle, known := Granted(st.m, c, r, continuous), option.propId in env.configs;
      if first.status == Ok {
        AreasAreDecided(env, first.st, c, option, areas[1..], continuous);
        GrantedIs(env, st, first, known, CallsToGrant(st.m, c, r, continuous), middle);
      }
      DecidedTwice(env, st, first, o, known, areas[1..] == [] || known, CallsToGrant(st.m, c, r, continuous),
                   CallsFor(middle, c, rest, continuous), middle, AllGranted(middle, c, rest, continuous));
    }
  }

  lemma NothingIsDecided(env: Env, st: Stack)
    ensures Decided(env, st, Outcome(st, Ok), true, 0, st.m)
  {
  }

  lemma GrantedIs(env: Env, st: Stack, o: Outcome, known: bool, n: nat, granted: Manager)
    requires Decided(env, st, o, known, n, granted) && o.status == Ok
    ensures o.st.m == granted
  {
  }

  lemma {:induction false} OptionsAreDecided(env: Env, st: Stack, c: Client, options: seq<SubscribeOptions>,
                                             continuous: bool)
    requires Inv(env, st) && OnlyKnown(env, st.m)
    requires forall option <- options ::
               ValidOption(env, option, continuous) && IsContinuous(env, option.propId) == continuous
    ensures var o, rs := SubscribeEach(env, st, c, options, continuous), RequestsOf(options);
            Decided(env, st, o, forall option <- options :: option.propId in env.configs,
                    CallsFor(st.m, c, rs, continuous), AllGranted(st.m, c, rs, continuous))
    decreases |options|
  {
    hide SubscribeAreaIds, Inv, Decided, Granted, CallsToGrant, OnlyKnown;
    if options == [] {
      NothingIsDecided(env, st);
    } else {
      var option, rest := options[0], options[1..];
      assert option in options && forall x :: x in options <==> x == option || x in rest;
      var rs := RequestsOfAreas(option, option.areaIds);
      var first := SubscribeAreaIds(env, st, c, option, option.areaIds, continuous);
      AreasAreDecided(env, st, c, option, option.areaIds, continuous);
      var n, middle := CallsFor(st.m, c, rs, continuous), AllGranted(st.m, c, rs, continuous);
      var known := option.propId in env.configs;
      if first.status == Ok {
        OptionsAreDecided(env, first.st, c, rest, continuous);
        GrantedIs(env, st, first, known, n, middle);
      }
      CallsForMore(st.m, c, rs, RequestsOf(rest), continuous);
      DecidedTwice(env, st, first, SubscribeEach(env, st, c, options, continuous), known,
                   forall x <- rest :: x.propId in env.configs, n, CallsFor(middle, c, RequestsOf(rest), continuous),
                   middle, AllGranted(middle, c, RequestsOf(rest), continuous));
    }
  }

  // ---- Runs ----

  lemma DepartureKeepsKnown(env: Env, st: Stack, step: Step)
    requires OnlyKnown(env, st.m) && (step.UnsubscribePropsStep? || step.UnsubscribeClientStep?)
    ensures OnlyKnown(env, Next(env, st, step).st.m)
  {
    hide UnsubscribeEach;
    UnsubscribeEachLeaves(env, st, step.c, step.order, step.UnsubscribePropsStep?);
  }

  lemma {:induction false} AreasKeepKnown(env: Env, st: Stack, c: Client, option: SubscribeOptions, areas: seq<int>,
                                          continuous: bool)
    requires Inv(env, st) && OnlyKnown(env, st.m) && IsContinuous(env, option.propId) == continuous
    requires continuous ==> CheckSampleRate(option.sampleRate)
    ensures var o := SubscribeAreaIds(env, st, c, option, areas, continuous);
            Inv(env, o.st) && OnlyKnown(env, o.st.m)
    decreases |areas|
  {
    hide SubscribeOne, Inv;
    if areas != [] {
      var r := Request(PropArea(option.propId, areas[0]), SubOf(option));
      var first := SubscribeOne(env, st, c, r.pa, r.sub, continuous);
      RequestIsDecided(env, st, c, r, continuous);
      if first.status == Ok {
        AreasKeepKnown(env, first.st, c, option, areas[1..], continuous);
      } else {
        SubscribeOneOnIndices(env, st, c, r.pa, r.sub, continuous);
      }
    }
  }

  lemma {:induction false} OptionsKeepKnown(env: Env, st: Stack, c: Client, options: seq<SubscribeOptions>,
                                            continuous: bool)
    requires Inv(env, st) && OnlyKnown(env, st.m)
    requires forall option <- options ::
               ValidOption(env, option, continuous) && IsContinuous(env, option.propId) == continuous
    ensures OnlyKnown(env, SubscribeEach(env, st, c, options, continuous).st.m)
    decreases |options|
  {
    hide SubscribeAreaIds, Inv;
    if options != [] {
      assert options[0] in options;
      AreasKeepKnown(env, st, c, options[0], options[0].areaIds, continuous);
      OptionsKeepKnown(env, SubscribeAreaIds(env, st, c, options[0], options[0].areaIds, continuous).st, c,
                       options[1..], continuous);
    }
  }

  lemma {:induction false} RunKeepsKnown(env: Env, steps: seq<Step>)
    requires IsRun(env, steps)
    ensures OnlyKnown(env, Run(env, steps).m)
    decreases |steps|
  {
    hide Inv;
    if steps != [] {
      var before, last := steps[..|steps| - 1], steps[|steps| - 1];
      RunKeepsKnown(env, before);
      RunKeepsInv(env, before);
      var st := Run(env, before);
      match last
      case SubscribeStep(c, options, continuous) =>
        if forall option <- options :: ValidOption(env, option, continuous) {
          OptionsKeepKnown(env, st, c, options, continuous);
        }
      case DeliverStep(updated) => DeliverKeepsInv(env, st, updated);
      case _ => DepartureKeepsKnown(env, st, last);
    }
  }

  /** What the manager asks of an option. */
  ghost predicate IsFine(env: Env, option: SubscribeOptions, continuous: bool) {
    && option.areaIds != []
    && (continuous ==>
          && 0.0 < option.sampleRate && ONE_SECOND_IN_NANOS / option.sampleRate < INT64_MAX as real
          && (option.resolution == 0.0 || env.powerOfTen(option.resolution)))
  }

  lemma FineIsValid(env: Env, option: SubscribeOptions, continuous: bool)
    ensures IsFine(env, option, continuous) <==> ValidOption(env, option, continuous)
  {
    RateIsAcceptedExactly(option.sampleRate);
  }

  /** From any reachable state a subscribe succeeds exactly when every option is valid, the hardware knows
      every property, and none of the hardware calls it takes is rejected; an invalid option fails it with
      nothing done, and otherwise it is answered what the first rejected call is. Having succeeded it has
      granted every request, in order, and nothing else. */
  lemma SubscribeSucceedsExactly(env: Env, steps: seq<Step>, c: Client, options: seq<SubscribeOptions>,
                                 continuous: bool)
    requires IsRun(env, steps) && Enabled(env, Run(env, steps), SubscribeStep(c, options, continuous))
    ensures var st, requests := Run(env, steps), RequestsOf(options);
            var o, n := Subscribe(env, st, c, options, continuous), CallsFor(st.m, c, requests, continuous);
            var fine := forall option <- options :: IsFine(env, option, continuous);
            var known := forall option <- options :: option.propId in env.configs;
            && (o.status == Ok <==> fine && known && AllAccepted(env, st.calls, n))
            && (!fine ==> o == Outcome(st, InvalidArg))
            && (fine && known ==> o.status == FirstRejection(env, st.calls, n))
            && (o.status == Ok ==> o.st.m == AllGranted(st.m, c, requests, continuous) && o.st.calls == st.calls + n)
  {
    var st := Run(env, steps);
    RunKeepsInv(env, steps);
    RunKeepsKnown(env, steps);
    hide Run, IsRun, Inv, OnlyKnown, SubscribeEach, FirstRejection, AllAccepted, IsFine;
    forall option ensures IsFine(env, option, continuous) <==> ValidOption(env, option, continuous) {
      FineIsValid(env, option, continuous);
    }
    if forall option <- options :: ValidOption(env, option, continuous) {
      OptionsAreDecided(env, st, c, options, continuous);
      NoRejection(env, st.calls, CallsFor(st.m, c, RequestsOf(options), continuous));
    }
  }

  lemma NothingEnumerated(order: seq<PropArea>)
    ensures (forall pa :: pa !in order) ==> order == []
  {
    assert order != [] ==> order[0] in order;
  }

  /** A departure, from some properties or from all, is answered what the first rejected hardware call is,
      and so succeeds exactly when none of those it takes is rejected. */
  lemma DepartureSucceedsExactly(env: Env, st: Stack, step: Step)
    requires Inv(env, st) && Enabled(env, st, step) && (step.UnsubscribePropsStep? || step.UnsubscribeClientStep?)
    ensures var o, n := Next(env, st, step), TotalCalls(st.m, step.c, step.order);
            && o.status == FirstRejection(env, st.calls, n)
            && (o.status == Ok <==> AllAccepted(env, st.calls, n))
  {
    hide Inv, UnsubscribeEach, AllAccepted;
    var n := TotalCalls(st.m, step.c, step.order);
    NoRejection(env, st.calls, n);
    if step.c in st.m.props {
      UnsubscribeEachCalls(env, st, step.c, step.order, step.UnsubscribePropsStep?);
    } else {
      NothingEnumerated(step.order);
    }
  }
}
