/** What every run of the subscription stack keeps, and what it means for the hardware: what the
    bottom layer polls is what the clients of the top layer asked for. */
module SubscriptionSafety {
  import opened VehicleTypes
  import opened RefreshTables
  import opened SubscriptionModel

  ghost predicate WellCached(config: ContSubConfigs) {
    && IsAggregate(config.byClient, config.cached)
    && forall c <- config.byClient :: CheckSampleRate(config.byClient[c].rate)
  }

  // The hardware refreshes `pa` as an aggregate demands.
  predicate PolledAs(env: Env, hw: Hw, pa: PropArea, a: Aggregate) {
    && pa in hw.refresh && pa.propId in env.configs && a.maxRate > 0.0
    && hw.refresh[pa] == RefreshInfo(ModeFor(env.configs[pa.propId], pa.areaId, a.vurEnabled), IntervalNanos(a.maxRate))
  }

  ghost predicate PropInv(env: Env, m: Manager, hw: Hw, pa: PropArea) {
    && (pa in m.clients ==> m.clients[pa] != {})
    && (pa in m.configs ==> WellCached(m.configs[pa]))
    && (pa in m.configs ==>
          m.configs[pa].byClient.Keys == if IsContinuous(env, pa.propId) then ClientsOf(m, pa) else {})
    && (IsContinuous(env, pa.propId) && pa in m.clients ==>
          pa in m.configs && PolledAs(env, hw, pa, m.configs[pa].cached))
    && (pa in hw.refresh ==> IsContinuous(env, pa.propId) && pa in m.clients)
  }

  /** What the clients of a [propId, areaId] have asked for, as the manager records it. */
  function Asked(m: Manager, pa: PropArea): map<Client, SubConfig> {
    if pa in m.configs then m.configs[pa].byClient else map[]
  }

  // Every client under a [propId, areaId] has it in its own set.
  ghost predicate ForwardInReverse(m: Manager) {
    forall pa <- m.clients, c <- m.clients[pa] :: c in m.props && pa in m.props[c]
  }

  ghost predicate PropsInv(env: Env, st: Stack) {
    forall pa :: PropInv(env, st.m, st.hw, pa)
  }

  ghost predicate Inv(env: Env, st: Stack) {
    PropsInv(env, st) && ForwardInReverse(st.m)
  }

  lemma MaxRateIsPositive(config: ContSubConfigs)
    requires WellCached(config)
    ensures config.cached.maxRate > 0.0 <==> config.byClient != map[]
  {
    if config.byClient != map[] {
      assert config.byClient.Keys != {};
      var c :| c in config.byClient.Keys;
      assert CheckSampleRate(config.byClient[c].rate);
    }
  }

  lemma SubscribedToOneArea(hw: Hw, configs: Configs, option: SubscribeOptions, pa: PropArea)
    requires option.propId == pa.propId && option.areaIds == [pa.areaId] && pa.propId in configs
    ensures Subscribed(hw, configs, option) ==
            SubscribeArea(hw, configs[pa.propId], pa, option.sampleRate, option.enableVur)
  {
    var (next, status) := SubscribeArea(hw, configs[pa.propId], pa, option.sampleRate, option.enableVur);
    assert option.areaIds[1..] == [];
    assert SubscribeAreas(next, configs[pa.propId], option, option.areaIds[1..]) == (next, Ok);
  }

  // A change of config either reaches the hardware or changes nothing.
  ghost predicate Reached(env: Env, st: Stack, o: Outcome, pa: PropArea, config: ContSubConfigs) {
    if o.status == Ok then
      && o.st.m == st.m.(configs := st.m.configs[pa := config])
      && o.st.hw.refresh - {pa} == st.hw.refresh - {pa}
      && if config.byClient != map[] then PolledAs(env, o.st.hw, pa, config.cached) else pa !in o.st.hw.refresh
    else o.st.m == st.m && o.st.hw == st.hw
  }

  lemma UpdateReachesHardware(env: Env, st: Stack, pa: PropArea, config: ContSubConfigs)
    requires pa in st.m.configs && IsContinuous(env, pa.propId)
    requires WellCached(st.m.configs[pa]) && WellCached(config)
    requires if st.m.configs[pa].byClient != map[] then PolledAs(env, st.hw, pa, st.m.configs[pa].cached)
             else pa !in st.hw.refresh
    ensures Reached(env, st, UpdateContSubConfigs(env, st, pa, config), pa, config)
  {
    MaxRateIsPositive(config);
    MaxRateIsPositive(st.m.configs[pa]);
    var option := OptionFor(pa, config.cached);
    SubscribedToOneArea(st.hw, env.configs, option, pa);
  }

  // ---- One subscription ----

  // A step that touches a single [propId, areaId] has to be checked there only.
  lemma InvFromOneProp(env: Env, before: Stack, after: Stack, pa: PropArea)
    requires PropsInv(env, before) && PropInv(env, after.m, after.hw, pa)
    requires after.m.clients - {pa} == before.m.clients - {pa}
    requires after.m.configs - {pa} == before.m.configs - {pa}
    requires after.hw.refresh - {pa} == before.hw.refresh - {pa}
    ensures PropsInv(env, after)
  {
    forall q | q != pa ensures PropInv(env, after.m, after.hw, q) {
      assert PropInv(env, before.m, before.hw, q);
      assert q in after.m.clients <==> q in after.m.clients - {pa};
      assert q in before.m.clients <==> q in before.m.clients - {pa};
      assert q in after.m.configs <==> q in after.m.configs - {pa};
      assert q in before.m.configs <==> q in before.m.configs - {pa};
      assert q in after.hw.refresh <==> q in after.hw.refresh - {pa};
      assert q in before.hw.refresh <==> q in before.hw.refresh - {pa};
      assert q in after.m.clients ==> after.m.clients[q] == (after.m.clients - {pa})[q];
      assert q in after.m.configs ==> after.m.configs[q] == (after.m.configs - {pa})[q];
      assert q in after.hw.refresh ==> after.hw.refresh[q] == (after.hw.refresh - {pa})[q];
    }
  }

  lemma LookupKeepsInv(env: Env, st: Stack, pa: PropArea)
    requires Inv(env, st)
    ensures Inv(env, WithConfig(st, pa))
  {
    assert PropInv(env, st.m, st.hw, pa);
    InvFromOneProp(env, st, WithConfig(st, pa), pa);
  }

  // The indices change by Index or Unindex, or not at all.
  lemma SubscribeOneOnIndices(env: Env, st: Stack, c: Client, pa: PropArea, sub: SubConfig, continuous: bool)
    ensures var o := SubscribeOne(env, st, c, pa, sub, continuous);
            var m := if o.status == Ok then Index(st.m, c, pa) else st.m;
            o.st.m.clients == m.clients && o.st.m.props == m.props
  {
  }

  lemma UnsubscribeOneUnindexes(env: Env, st: Stack, c: Client, pa: PropArea)
    ensures var o := UnsubscribeOne(env, st, c, pa);
            var left := o.status == Ok && (pa in st.m.configs || pa in st.m.clients);
            var m := if left then Unindex(st.m, c, pa) else st.m;
            o.st.m.clients == m.clients && o.st.m.props == m.props
  {
    hide UpdateContSubConfigs, Combine, CallUnsubscribe;
  }

  lemma UnsubscribeOneOnIndices(env: Env, st: Stack, c: Client, pa: PropArea)
    ensures var o := UnsubscribeOne(env, st, c, pa);
            var left := o.status == Ok && (pa in st.m.configs || pa in st.m.clients);
            var m := if left then Unindex(st.m, c, pa) else st.m;
            o.st.m.clients == m.clients && o.st.m.props == m.props
    ensures var o := UnsubscribeOne(env, st, c, pa);
            forall q :: ClientsOf(o.st.m, q) ==
                        if q == pa && o.status == Ok then ClientsOf(st.m, q) - {c} else ClientsOf(st.m, q)
  {
    assert !(pa in st.m.configs || pa in st.m.clients) ==> UnsubscribeOne(env, st, c, pa) == Outcome(st, Ok);
    hide UnsubscribeOne;
    UnsubscribeOneUnindexes(env, st, c, pa);
  }

  lemma IndexKeepsForward(m: Manager, c: Client, pa: PropArea)
    requires ForwardInReverse(m)
    ensures ForwardInReverse(Index(m, c, pa)) && ForwardInReverse(Unindex(m, c, pa))
  {
  }

  lemma IndexedKeepsInv(env: Env, st: Stack, o: Outcome, c: Client, pa: PropArea, config: ContSubConfigs)
    requires PropsInv(env, st) && pa in st.m.configs && IsContinuous(env, pa.propId)
    requires WellCached(config) && Reached(env, st, o, pa, config)
    requires config.byClient.Keys == ClientsOf(st.m, pa) + {c}
    ensures PropsInv(env, Indexed(o, c, pa).st)
  {
    hide WellCached, PolledAs;
    assert PropInv(env, st.m, st.hw, pa);
    assert c in config.byClient;
    InvFromOneProp(env, st, Indexed(o, c, pa).st, pa);
  }

  lemma UnindexedKeepsInv(env: Env, st: Stack, o: Outcome, c: Client, pa: PropArea, config: ContSubConfigs)
    requires PropsInv(env, st) && pa in st.m.configs && IsContinuous(env, pa.propId)
    requires WellCached(config) && Reached(env, st, o, pa, config)
    requires config.byClient.Keys == ClientsOf(st.m, pa) - {c}
    ensures PropsInv(env, Unindexed(o, c, pa).st)
  {
    hide WellCached, PolledAs;
    assert PropInv(env, st.m, st.hw, pa);
    assert config.byClient != map[] <==> config.byClient.Keys != {};
    InvFromOneProp(env, st, Unindexed(o, c, pa).st, pa);
  }

  // A step on a property that is not continuous, which leaves its refresh entry and its configs empty.
  ghost predicate LeavesRefresh(st: Stack, o: Outcome, pa: PropArea) {
    && o.st.m.clients == st.m.clients && o.st.m.configs - {pa} == st.m.configs - {pa}
    && (pa in o.st.m.configs ==> WellCached(o.st.m.configs[pa]) && o.st.m.configs[pa].byClient == map[])
    && o.st.hw.refresh == st.hw.refresh
  }

  lemma OnChangeIndexKeepsInv(env: Env, st: Stack, o: Outcome, c: Client, pa: PropArea)
    requires PropsInv(env, st) && !IsContinuous(env, pa.propId) && LeavesRefresh(st, o, pa)
    ensures PropsInv(env, Indexed(o, c, pa).st)
  {
    hide WellCached, PolledAs;
    assert PropInv(env, st.m, st.hw, pa);
    InvFromOneProp(env, st, Indexed(o, c, pa).st, pa);
  }

  lemma OnChangeUnindexKeepsInv(env: Env, st: Stack, o: Outcome, c: Client, pa: PropArea)
    requires PropsInv(env, st) && !IsContinuous(env, pa.propId) && LeavesRefresh(st, o, pa)
    ensures PropsInv(env, Unindexed(o, c, pa).st)
  {
    hide WellCached, PolledAs;
    assert PropInv(env, st.m, st.hw, pa);
    InvFromOneProp(env, st, Unindexed(o, c, pa).st, pa);
  }

  lemma SubscribeOneKeepsInv(env: Env, st: Stack, c: Client, pa: PropArea, sub: SubConfig, continuous: bool)
    requires Inv(env, st) && continuous == IsContinuous(env, pa.propId)
    requires continuous ==> CheckSampleRate(sub.rate)
    ensures Inv(env, SubscribeOne(env, st, c, pa, sub, continuous).st)
  {
    SubscribeOneOnIndices(env, st, c, pa, sub, continuous);
    IndexKeepsForward(st.m, c, pa);
    if continuous {
      AddContinuousKeepsInv(env, st, c, pa, sub);
    } else {
      AddOnChangeKeepsInv(env, st, c, pa);
    }
  }

  lemma AddContinuousKeepsInv(env: Env, st: Stack, c: Client, pa: PropArea, sub: SubConfig)
    requires Inv(env, st) && IsContinuous(env, pa.propId) && CheckSampleRate(sub.rate)
    ensures PropsInv(env, Indexed(AddContinuousSubscriber(env, st, c, pa, sub), c, pa).st)
  {
    var looked := WithConfig(st, pa);
    LookupKeepsInv(env, st, pa);
    assert PropInv(env, looked.m, looked.hw, pa);
    var config := AddClient(looked.m.configs[pa], c, sub);
    UpdateReachesHardware(env, looked, pa, config);
    IndexedKeepsInv(env, looked, UpdateContSubConfigs(env, looked, pa, config), c, pa, config);
  }

  lemma AddOnChangeKeepsInv(env: Env, st: Stack, c: Client, pa: PropArea)
    requires Inv(env, st) && !IsContinuous(env, pa.propId)
    ensures PropsInv(env, Indexed(AddOnChangeSubscriber(env, st, pa), c, pa).st)
  {
    assert PropInv(env, st.m, st.hw, pa);
    if pa !in st.m.clients && pa.propId in env.configs {
      SubscribedToOneArea(st.hw, env.configs, SubscribeOptions(pa.propId, [pa.areaId], 0.0, 0.0, false), pa);
    }
    var o := AddOnChangeSubscriber(env, st, pa);
    assert o.st.m == st.m && o.st.hw.refresh == st.hw.refresh;
    OnChangeIndexKeepsInv(env, st, o, c, pa);
  }

  lemma UnsubscribeOneKeepsInv(env: Env, st: Stack, c: Client, pa: PropArea)
    requires Inv(env, st)
    ensures Inv(env, UnsubscribeOne(env, st, c, pa).st)
  {
    assert ForwardInReverse(UnsubscribeOne(env, st, c, pa).st.m) by {
      UnsubscribeOneOnIndices(env, st, c, pa);
      IndexKeepsForward(st.m, c, pa);
    }
    if pa in st.m.configs {
      RemoveContinuousKeepsInv(env, st, c, pa);
    } else if pa in st.m.clients {
      RemoveOnChangeKeepsInv(env, st, c, pa);
    }
  }

  lemma RemoveOnChangeKeepsInv(env: Env, st: Stack, c: Client, pa: PropArea)
    requires PropsInv(env, st) && pa !in st.m.configs && pa in st.m.clients
    ensures PropsInv(env, Unindexed(RemoveOnChangeSubscriber(env, st, pa), c, pa).st)
  {
    assert PropInv(env, st.m, st.hw, pa);
    var o := RemoveOnChangeSubscriber(env, st, pa);
    assert o.st.hw.refresh == st.hw.refresh;
    OnChangeUnindexKeepsInv(env, st, o, c, pa);
  }

  lemma RemoveContinuousKeepsInv(env: Env, st: Stack, c: Client, pa: PropArea)
    requires PropsInv(env, st) && pa in st.m.configs
    ensures PropsInv(env, Unindexed(RemoveContinuousSubscriber(env, st, c, pa), c, pa).st)
  {
    assert PropInv(env, st.m, st.hw, pa);
    var config := RemoveClient(st.m.configs[pa], c);
    if IsContinuous(env, pa.propId) {
      UpdateReachesHardware(env, st, pa, config);
      UnindexedKeepsInv(env, st, UpdateContSubConfigs(env, st, pa, config), c, pa, config);
    } else {
      assert config.byClient == map[];
      var o := UpdateContSubConfigs(env, st, pa, config);
      assert o.st.hw.refresh == st.hw.refresh;
      OnChangeUnindexKeepsInv(env, st, o, c, pa);
    }
  }

  // ---- Whole calls ----

  lemma {:induction false} SubscribeAreaIdsKeepsInv(env: Env, st: Stack, c: Client, option: SubscribeOptions,
                                                    areas: seq<int>, continuous: bool)
    requires Inv(env, st) && continuous == IsContinuous(env, option.propId)
    requires continuous ==> CheckSampleRate(option.sampleRate)
    ensures Inv(env, SubscribeAreaIds(env, st, c, option, areas, continuous).st)
    decreases |areas|
  {
    if areas != [] {
      var pa := PropArea(option.propId, areas[0]);
      var o := SubscribeOne(env, st, c, pa, SubOf(option), continuous);
      SubscribeOneKeepsInv(env, st, c, pa, SubOf(option), continuous);
      SubscribeAreaIdsKeepsInv(env, o.st, c, option, areas[1..], continuous);
    }
  }

  lemma {:induction false} SubscribeEachKeepsInv(env: Env, st: Stack, c: Client, options: seq<SubscribeOptions>,
                                                 continuous: bool)
    requires Inv(env, st)
    requires forall option <- options ::
               ValidOption(env, option, continuous) && continuous == IsContinuous(env, option.propId)
    ensures Inv(env, SubscribeEach(env, st, c, options, continuous).st)
    decreases |options|
  {
    if options != [] {
      assert options[0] in options;
      var o := SubscribeAreaIds(env, st, c, options[0], options[0].areaIds, continuous);
      SubscribeAreaIdsKeepsInv(env, st, c, options[0], options[0].areaIds, continuous);
      SubscribeEachKeepsInv(env, o.st, c, options[1..], continuous);
    }
  }

  // A client's own set may lose what the client is no longer under.
  lemma TrimKeepsInv(env: Env, st: Stack, m: Manager, c: Client)
    requires Inv(env, st) && m.clients == st.m.clients && m.configs == st.m.configs
    requires forall d :: d != c ==> PropsOf(m, d) == PropsOf(st.m, d)
    requires forall pa <- PropsOf(st.m, c) :: pa in PropsOf(m, c) || c !in ClientsOf(st.m, pa)
    ensures Inv(env, st.(m := m))
  {
    forall pa ensures PropInv(env, m, st.hw, pa) {
      assert PropInv(env, st.m, st.hw, pa);
    }
    forall pa, d | pa in m.clients && d in m.clients[pa] ensures d in m.props && pa in m.props[d] {
      assert pa in PropsOf(st.m, d) && d in ClientsOf(st.m, pa);
      assert pa in PropsOf(m, d);
    }
  }

  // Unsubscribing removes this client and nobody else; when it succeeds it removes it everywhere asked.
  ghost predicate OnlyLeft(before: Manager, after: Manager, c: Client, order: seq<PropArea>) {
    forall pa :: ClientsOf(after, pa) == ClientsOf(before, pa) ||
                 (pa in order && ClientsOf(after, pa) == ClientsOf(before, pa) - {c})
  }

  lemma {:induction false} UnsubscribeEachLeaves(env: Env, st: Stack, c: Client, order: seq<PropArea>, trim: bool)
    ensures var o := UnsubscribeEach(env, st, c, order, trim);
            OnlyLeft(st.m, o.st.m, c, order) && (o.status == Ok ==> forall pa <- order :: c !in ClientsOf(o.st.m, pa))
    decreases |order|
  {
    hide UnsubscribeOne;
    if order != [] {
      var pa := order[0];
      var o := UnsubscribeOne(env, st, c, pa);
      UnsubscribeOneOnIndices(env, st, c, pa);
      if o.status == Ok {
        var next := if trim then o.st.(m := Forget(o.st.m, c, pa)) else o.st;
        UnsubscribeEachLeaves(env, next, c, order[1..], trim);
        assert forall q :: ClientsOf(next.m, q) == ClientsOf(o.st.m, q);
      }
    }
  }

  lemma {:induction false} UnsubscribeEachTrims(env: Env, st: Stack, c: Client, order: seq<PropArea>, trim: bool)
    ensures var o := UnsubscribeEach(env, st, c, order, trim);
            && (forall d :: d != c ==> PropsOf(o.st.m, d) == PropsOf(st.m, d))
            && (forall pa <- PropsOf(st.m, c) :: pa in PropsOf(o.st.m, c) || pa in order)
            && PropsOf(o.st.m, c) <= PropsOf(st.m, c)
            && (o.status == Ok && trim ==> PropsOf(o.st.m, c) == PropsOf(st.m, c) - (set pa | pa in order))
            && (!trim ==> o.st.m.props == st.m.props)
    decreases |order|
  {
    hide UnsubscribeOne;
    if order != [] {
      var pa := order[0];
      var o := UnsubscribeOne(env, st, c, pa);
      UnsubscribeOneOnIndices(env, st, c, pa);
      if o.status == Ok {
        UnsubscribeEachTrims(env, if trim then o.st.(m := Forget(o.st.m, c, pa)) else o.st, c, order[1..], trim);
      }
    }
  }

  lemma {:induction false} UnsubscribeEachKeepsInv(env: Env, st: Stack, c: Client, order: seq<PropArea>, trim: bool)
    requires Inv(env, st)
    ensures Inv(env, UnsubscribeEach(env, st, c, order, trim).st)
    decreases |order|
  {
    if order != [] {
      var pa := order[0];
      var o := UnsubscribeOne(env, st, c, pa);
      UnsubscribeOneKeepsInv(env, st, c, pa);
      if o.status == Ok {
        var next := if trim then o.st.(m := Forget(o.st.m, c, pa)) else o.st;
        UnsubscribeOneOnIndices(env, st, c, pa);
        TrimKeepsInv(env, o.st, next.m, c);
        UnsubscribeEachKeepsInv(env, next, c, order[1..], trim);
      }
    }
  }

  lemma {:induction false} DeliverKeepsInv(env: Env, st: Stack, updated: seq<PropArea>)
    requires Inv(env, st)
    ensures Inv(env, Deliver(st, updated))
    ensures Deliver(st, updated).m.clients == st.m.clients && Deliver(st, updated).m.props == st.m.props
    ensures Deliver(st, updated).hw == st.hw
    decreases |updated|
  {
    if updated != [] {
      LookupKeepsInv(env, st, updated[0]);
      DeliverKeepsInv(env, if ClientsOf(st.m, updated[0]) != {} then WithConfig(st, updated[0]) else st, updated[1..]);
    }
  }

  lemma StepKeepsInv(env: Env, st: Stack, step: Step)
    requires Inv(env, st) && Enabled(env, st, step)
    ensures Inv(env, Next(env, st, step).st)
  {
    match step
    case SubscribeStep(c, options, continuous) =>
      if forall option <- options :: ValidOption(env, option, continuous) {
        SubscribeEachKeepsInv(env, st, c, options, continuous);
      }
    case UnsubscribePropsStep(c, propIds, order) =>
      var o := UnsubscribeEach(env, st, c, order, true);
      UnsubscribeEachLeaves(env, st, c, order, true);
      UnsubscribeEachTrims(env, st, c, order, true);
      UnsubscribeEachKeepsInv(env, st, c, order, true);
      if o.status == Ok && PropsOf(o.st.m, c) == {} {
        TrimKeepsInv(env, o.st, DropClient(o.st.m, c), c);
      }
    case UnsubscribeClientStep(c, order) =>
      var o := UnsubscribeEach(env, st, c, order, false);
      UnsubscribeEachLeaves(env, st, c, order, false);
      UnsubscribeEachTrims(env, st, c, order, false);
      UnsubscribeEachKeepsInv(env, st, c, order, false);
      if o.status == Ok {
        TrimKeepsInv(env, o.st, DropClient(o.st.m, c), c);
      }
    case DeliverStep(updated) => DeliverKeepsInv(env, st, updated);
  }

  lemma RunExtends(env: Env, steps: seq<Step>, step: Step)
    requires IsRun(env, steps) && Enabled(env, Run(env, steps), step)
    ensures IsRun(env, steps + [step]) && Run(env, steps + [step]) == Next(env, Run(env, steps), step).st
  {
    assert (steps + [step])[..|steps + [step]| - 1] == steps;
  }

  lemma {:induction false} RunKeepsInv(env: Env, steps: seq<Step>)
    requires IsRun(env, steps)
    ensures Inv(env, Run(env, steps))
    decreases |steps|
  {
    if steps != [] {
      var before := steps[..|steps| - 1];
      RunKeepsInv(env, before);
      StepKeepsInv(env, Run(env, before), steps[|steps| - 1]);
    }
  }

  /** The layered refinement. After any run, rejected hardware calls included, the hardware refreshes
      a continuous [propId, areaId] exactly when it has a client; its interval is that of the fastest
      client, fits 64 bits and is no longer than what any client asked for; and it reports only
      changes exactly when every client enables that and the area supports it. */
  lemma PolledIsWhatClientsAskedFor(env: Env, steps: seq<Step>, pa: PropArea)
    requires IsRun(env, steps) && IsContinuous(env, pa.propId)
    ensures var st := Run(env, steps);
            var asked := Asked(st.m, pa);
            && (pa in st.hw.refresh <==> ClientsOf(st.m, pa) != {})
            && asked.Keys == ClientsOf(st.m, pa)
            && (pa in st.hw.refresh ==>
              && (exists fastest <- asked ::
                    && (forall c <- asked :: asked[c].rate <= asked[fastest].rate) && asked[fastest].rate > 0.0
                    && IsPeriodOf(st.hw.refresh[pa].interval as real, asked[fastest].rate))
              && (forall c <- asked :: asked[c].rate > 0.0 &&
                    0 <= st.hw.refresh[pa].interval <= IntervalNanos(asked[c].rate) <= INT64_MAX)
              && (st.hw.refresh[pa].eventMode == OnValueChange <==>
                    && (forall c <- asked :: asked[c].enableVur)
                    && var areas := env.configs[pa.propId].areaConfigs;
                       exists i: nat :: IsConfigOf(areas, i, pa.areaId) && areas[i].supportsVur))
  {
    RunKeepsInv(env, steps);
    var st := Run(env, steps);
    assert PropInv(env, st.m, st.hw, pa);
    if pa in st.hw.refresh {
      var asked := Asked(st.m, pa);
      assert asked.Keys != {};
      var fastest :| fastest in asked && asked[fastest].rate == st.m.configs[pa].cached.maxRate;
      IntervalIs(asked[fastest].rate);
      AreaSupportsVurExactly(env.configs[pa.propId].areaConfigs, pa.areaId);
      hide AreaSupportsVur, IntervalNanos;
      forall c | c in asked
        ensures asked[c].rate > 0.0 && 0 <= st.hw.refresh[pa].interval <= IntervalNanos(asked[c].rate) <= INT64_MAX
      {
        IntervalFits(asked[c].rate, asked[fastest].rate);
      }
    }
  }
}
