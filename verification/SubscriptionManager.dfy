/** The subscription manager as the object it is, each method proved against the functions that
    specify it. */
module SubscriptionManager {
  import opened VehicleTypes
  import opened RefreshTables
  import opened SubscriptionModel
  import opened Delivery

  /** The hardware as the manager reaches it: any call may be rejected on the way. */
  class HardwareLink {
    const hardware: FakeVehicleHardware
    const verdict: nat -> StatusCode
    var calls: nat

    constructor (hardware: FakeVehicleHardware, verdict: nat -> StatusCode)
      ensures this.hardware == hardware && this.verdict == verdict && calls == 0
    {
      this.hardware, this.verdict, calls := hardware, verdict, 0;
    }

    method UpdateSampleRate(pa: PropArea, rate: real) returns (status: StatusCode)
      modifies this
      ensures calls == old(calls) + 1 && status == verdict(old(calls))
    {
      status := verdict(calls);
      calls := calls + 1;
    }

    method Subscribe(option: SubscribeOptions) returns (status: StatusCode)
      requires hardware.Valid()
      modifies this, hardware
      ensures hardware.Valid() && calls == old(calls) + 1
      ensures (hardware.View(), status) ==
              if verdict(old(calls)) != Ok then (old(hardware.View()), verdict(old(calls)))
              else Subscribed(old(hardware.View()), hardware.configs, option)
    {
      status := verdict(calls);
      calls := calls + 1;
      if status == Ok {
        status := hardware.Subscribe(option);
      }
    }

    method Unsubscribe(pa: PropArea) returns (status: StatusCode)
      requires hardware.Valid()
      modifies this, hardware
      ensures hardware.Valid() && calls == old(calls) + 1 && status == verdict(old(calls))
      ensures hardware.View() == if status != Ok then old(hardware.View()) else Unsubscribed(old(hardware.View()), pa)
    {
      status := verdict(calls);
      calls := calls + 1;
      if status == Ok {
        status := hardware.Unsubscribe(pa);
      }
    }
  }

  /** The brute-force recomputation of the cached aggregate, over the clients in any order. */
  method RefreshCombinedConfig(byClient: map<Client, SubConfig>) returns (a: Aggregate)
    ensures a == Combine(byClient)
  {
    var maxRate, minResolution, enableVur := 0.0, FLOAT_MAX, true;
    var todo := byClient.Keys;
    ghost var done: map<Client, SubConfig> := map[];
    while todo != {}
      invariant todo <= byClient.Keys && done.Keys == byClient.Keys - todo
      invariant forall c <- done :: done[c] == byClient[c]
      invariant IsAggregate(done, Aggregate(maxRate, minResolution, enableVur))
      invariant done == map[] ==> enableVur && maxRate == 0.0 && minResolution == FLOAT_MAX
      decreases todo
    {
      var c :| c in todo;
      var sub := byClient[c];
      JoinKeepsAggregate(done, Aggregate(maxRate, minResolution, enableVur), c, sub);
      if sub.rate > maxRate {
        maxRate := sub.rate;
      }
      if sub.resolution < minResolution {
        minResolution := sub.resolution;
      }
      if !sub.enableVur {
        enableVur := false;
      }
      done := done[c := sub];
      todo := todo - {c};
    }
    a := Aggregate(maxRate, minResolution, enableVur);
    assert done == byClient;
    if byClient != map[] {
      AggregateIsUnique(byClient, a, Combine(byClient));
    }
  }

  class Manager {
    const link: HardwareLink
    const powerOfTen: real -> bool
    var clients: map<PropArea, set<Client>>
    var props: map<Client, set<PropArea>>
    var configs: map<PropArea, ContSubConfigs>
    var histories: map<Client, History>

    constructor (link: HardwareLink, powerOfTen: real -> bool)
      ensures this.link == link && this.powerOfTen == powerOfTen && histories == map[]
      ensures Index() == EMPTY_STACK.m
    {
      this.link, this.powerOfTen := link, powerOfTen;
      clients, props, configs, histories := map[], map[], map[], map[];
    }

    ghost predicate Valid()
      reads this, link, link.hardware
    {
      link.hardware.Valid()
    }

    ghost function Index(): SubscriptionModel.Manager
      reads this
    {
      SubscriptionModel.Manager(clients, props, configs)
    }

    ghost function View(): Stack
      reads this, link, link.hardware
    {
      Stack(Index(), link.hardware.View(), link.calls)
    }

    ghost function Environment(): Env {
      Env(link.hardware.configs, link.verdict, powerOfTen)
    }

    method UpdateContSubConfigs(pa: PropArea, config: ContSubConfigs) returns (status: StatusCode)
      requires Valid() && pa in configs
      modifies this`configs, link, link.hardware
      ensures Valid() && Outcome(View(), status) ==
              SubscriptionModel.UpdateContSubConfigs(Environment(), old(View()), pa, config)
    {
      var before, after := configs[pa].cached, config.cached;
      if after.maxRate == before.maxRate && after.minResolution == before.minResolution &&
        after.vurEnabled == before.vurEnabled {
        configs := configs[pa := config];
        return Ok;
      }
      if after.maxRate != before.maxRate {
        status := link.UpdateSampleRate(pa, after.maxRate);
        if status != Ok {
          return status;
        }
      }
      if after.maxRate != 0.0 {
        status := link.Subscribe(SubscribeOptions(pa.propId, [pa.areaId], after.maxRate, after.minResolution,
                                                  after.vurEnabled));
      } else {
        status := link.Unsubscribe(pa);
      }
      if status != Ok {
        return status;
      }
      configs := configs[pa := config];
      return Ok;
    }

    method AddContinuousSubscriber(c: Client, pa: PropArea, sub: SubConfig) returns (status: StatusCode)
      requires Valid()
      modifies this`configs, link, link.hardware
      ensures Valid() && Outcome(View(), status) ==
              SubscriptionModel.AddContinuousSubscriber(Environment(), old(View()), c, pa, sub)
    {
      configs := if pa in configs then configs else configs[pa := NEW_CONFIG];
      var byClient := configs[pa].byClient[c := sub];
      var combined := RefreshCombinedConfig(byClient);
      status := UpdateContSubConfigs(pa, ContSubConfigs(combined, byClient));
    }

    method RemoveContinuousSubscriber(c: Client, pa: PropArea) returns (status: StatusCode)
      requires Valid()
      modifies this`configs, link, link.hardware
      ensures Valid() && Outcome(View(), status) ==
              SubscriptionModel.RemoveContinuousSubscriber(Environment(), old(View()), c, pa)
    {
      configs := if pa in configs then configs else configs[pa := NEW_CONFIG];
      var byClient := configs[pa].byClient - {c};
      var combined := RefreshCombinedConfig(byClient);
      status := UpdateContSubConfigs(pa, ContSubConfigs(combined, byClient));
    }

    method AddOnChangeSubscriber(pa: PropArea) returns (status: StatusCode)
      requires Valid()
      modifies link, link.hardware
      ensures Valid() && Outcome(View(), status) ==
              SubscriptionModel.AddOnChangeSubscriber(Environment(), old(View()), pa)
    {
      if pa in clients {
        return Ok;
      }
      status := link.Subscribe(SubscribeOptions(pa.propId, [pa.areaId], 0.0, 0.0, false));
    }

    method RemoveOnChangeSubscriber(pa: PropArea) returns (status: StatusCode)
      requires Valid() && pa in clients
      modifies link, link.hardware
      ensures Valid() && Outcome(View(), status) ==
              SubscriptionModel.RemoveOnChangeSubscriber(Environment(), old(View()), pa)
    {
      if |clients[pa]| > 1 {
        return Ok;
      }
      status := link.Unsubscribe(pa);
    }

    method SubscribeOne(c: Client, pa: PropArea, sub: SubConfig, continuous: bool) returns (status: StatusCode)
      requires Valid()
      modifies this, link, link.hardware
      ensures Valid() && histories == old(histories)
      ensures Outcome(View(), status) ==
              SubscriptionModel.SubscribeOne(Environment(), old(View()), c, pa, sub, continuous)
    {
      if continuous {
        status := AddContinuousSubscriber(c, pa, sub);
      } else {
        status := AddOnChangeSubscriber(pa);
      }
      if status != Ok {
        return status;
      }
      props := props[c := (if c in props then props[c] else {}) + {pa}];
      clients := clients[pa := (if pa in clients then clients[pa] else {}) + {c}];
      return Ok;
    }

    method SubscribeOption(c: Client, option: SubscribeOptions, continuous: bool) returns (status: StatusCode)
      requires Valid()
      modifies this, link, link.hardware
      ensures Valid() && histories == old(histories)
      ensures Outcome(View(), status) ==
              SubscribeAreaIds(Environment(), old(View()), c, option, option.areaIds, continuous)
    {
      hide SubscriptionModel.SubscribeOne;
      for i := 0 to |option.areaIds|
        invariant Valid() && histories == old(histories)
        invariant SubscribeAreaIds(Environment(), old(View()), c, option, option.areaIds, continuous)
               == SubscribeAreaIds(Environment(), View(), c, option, option.areaIds[i..], continuous)
      {
        status := SubscribeOne(c, PropArea(option.propId, option.areaIds[i]),
                               SubConfig(option.sampleRate, option.resolution, option.enableVur), continuous);
        if status != Ok {
          return status;
        }
      }
      return Ok;
    }

    /** Subscribes a client according to `options`, unless one of them is invalid. */
    method Subscribe(c: Client, options: seq<SubscribeOptions>, continuous: bool) returns (status: StatusCode)
      requires Valid()
      modifies this, link, link.hardware
      ensures Valid() && histories == old(histories)
      ensures Outcome(View(), status) == SubscriptionModel.Subscribe(Environment(), old(View()), c, options, continuous)
    {
      hide SubscribeAreaIds;
      for i := 0 to |options|
        invariant View() == old(View()) && Valid() && histories == old(histories)
        invariant forall option <- options[..i] :: ValidOption(Environment(), option, continuous)
      {
        if continuous && (!CheckSampleRate(options[i].sampleRate) ||
                          !CheckResolution(powerOfTen, options[i].resolution)) {
          assert !ValidOption(Environment(), options[i], continuous);
          return InvalidArg;
        }
        if options[i].areaIds == [] {
          assert !ValidOption(Environment(), options[i], continuous);
          return InvalidArg;
        }
      }
      assert options[..|options|] == options;
      for i := 0 to |options|
        invariant Valid() && histories == old(histories)
        invariant SubscribeEach(Environment(), old(View()), c, options, continuous)
               == SubscribeEach(Environment(), View(), c, options[i..], continuous)
      {
        status := SubscribeOption(c, options[i], continuous);
        if status != Ok {
          return status;
        }
      }
      return Ok;
    }

    method UnsubscribePropArea(c: Client, pa: PropArea) returns (status: StatusCode)
      requires Valid()
      modifies this`clients, this`configs, link, link.hardware
      ensures Valid() && Outcome(View(), status) == UnsubscribeOne(Environment(), old(View()), c, pa)
    {
      if pa in configs {
        status := RemoveContinuousSubscriber(c, pa);
        if status != Ok {
          return status;
        }
      } else {
        if pa !in clients {
          return Ok;
        }
        status := RemoveOnChangeSubscriber(pa);
        if status != Ok {
          return status;
        }
      }
      var left := (if pa in clients then clients[pa] else {}) - {c};
      if left == {} {
        clients := clients - {pa};
        configs := configs - {pa};
      } else {
        clients := clients[pa := left];
      }
      return Ok;
    }

    /** Unsubscribes a client from some properties, visiting its matching [propId, areaId]s in the
        order of the hash set that holds them. */
    method UnsubscribeProps(c: Client, propIds: seq<int>) returns (status: StatusCode, ghost order: seq<PropArea>)
      requires Valid()
      modifies this, link, link.hardware
      ensures Valid() && histories == old(histories)
      ensures Enumerates(order, SubscriptionModel.Matching(old(Index()), c, set p | p in propIds))
      ensures Outcome(View(), status) == SubscriptionModel.UnsubscribeProps(Environment(), old(View()), c, order)
    {
      hide UnsubscribeOne;
      order := [];
      if c !in props {
        return Ok, [];
      }
      var propIdSet := set p | p in propIds;
      var list := ListOf(set pa | pa in props[c] && pa.propId in propIdSet);
      order := list;
      for i := 0 to |list|
        invariant Valid() && histories == old(histories) && c in props
        invariant UnsubscribeEach(Environment(), old(View()), c, list, true)
               == UnsubscribeEach(Environment(), View(), c, list[i..], true)
      {
        status := UnsubscribePropArea(c, list[i]);
        if status != Ok {
          return status, order;
        }
        props := props[c := props[c] - {list[i]}];
      }
      if props[c] == {} {
        props := props - {c};
      }
      return Ok, order;
    }

    /** Unsubscribes a whole client. */
    method UnsubscribeClient(c: Client) returns (status: StatusCode, ghost order: seq<PropArea>)
      requires Valid()
      modifies this, link, link.hardware
      ensures Valid() && histories == old(histories)
      ensures Enumerates(order, PropsOf(old(Index()), c))
      ensures Outcome(View(), status) == SubscriptionModel.UnsubscribeClient(Environment(), old(View()), c, order)
    {
      hide UnsubscribeOne;
      order := [];
      if c !in props {
        return Ok, [];
      }
      var list := ListOf(props[c]);
      order := list;
      for i := 0 to |list|
        invariant Valid() && histories == old(histories) && props == old(props)
        invariant UnsubscribeEach(Environment(), old(View()), c, list, false)
               == UnsubscribeEach(Environment(), View(), c, list[i..], false)
      {
        status := UnsubscribePropArea(c, list[i]);
        if status != Ok {
          return status, order;
        }
      }
      props := props - {c};
      return Ok, order;
    }

    method IsValueUpdatedForClient(c: Client, v: VehiclePropValue) returns (updated: bool)
      modifies this`histories
      ensures updated == IsValueUpdated(HistoryOf(old(histories), c), v)
      ensures HistoryOf(histories, c) == Recorded(HistoryOf(old(histories), c), v)
      ensures forall d :: d != c ==> HistoryOf(histories, d) == HistoryOf(old(histories), d)
    {
      var seen := if c in histories then histories[c] else map[];
      if v.pa !in seen {
        histories := histories[c := seen[v.pa := v]];
        return true;
      }
      if seen[v.pa].timestamp > v.timestamp {
        return false;
      }
      // Inserting what is already there changes nothing, whether the reading is the same or not.
      return !SameReading(seen[v.pa], v);
    }

    /** Hands one update to one client. */
    method HandTo(c: Client, v: VehiclePropValue, sent: map<Client, seq<VehiclePropValue>>)
      returns (after: map<Client, seq<VehiclePropValue>>)
      requires v.pa in clients && c in clients[v.pa] && forall d <- sent :: sent[d] != []
      modifies this`histories, this`configs
      ensures configs == if v.pa in old(configs) then old(configs) else old(configs)[v.pa := NEW_CONFIG]
      ensures BoxOf(after, histories, c) == DeliverOne(old(Index()), BoxOf(sent, old(histories), c), v, c)
      ensures forall d :: d != c ==> BoxOf(after, histories, d) == BoxOf(sent, old(histories), d)
      ensures forall d <- after :: after[d] != []
    {
      hide Sanitized, IsValueUpdated, Recorded;
      configs := if v.pa in configs then configs else configs[v.pa := NEW_CONFIG];
      var config := configs[v.pa];
      var rounded := Sanitized(v, ResolutionForClient(config, c));
      var wanted := true;
      if IsVurEnabledForClient(config, c) && !config.cached.vurEnabled {
        wanted := IsValueUpdatedForClient(c, rounded);
      }
      after := if wanted then sent[c := (if c in sent then sent[c] else []) + [rounded]] else sent;
    }

    /** Hands one update to all clients of its [propId, areaId], in the order of the hash map that
        holds them. */
    method HandToAll(v: VehiclePropValue, sent: map<Client, seq<VehiclePropValue>>)
      returns (after: map<Client, seq<VehiclePropValue>>)
      requires forall d <- sent :: sent[d] != []
      modifies this`histories, this`configs
      ensures configs ==
              if v.pa in clients && clients[v.pa] != {} && v.pa !in old(configs) then old(configs)[v.pa := NEW_CONFIG]
                         else old(configs)
      ensures forall c :: BoxOf(after, histories, c) == DeliverOne(old(Index()), BoxOf(sent, old(histories), c), v, c)
      ensures forall d <- after :: after[d] != []
    {
      hide Sanitized, IsValueUpdated, Recorded, IsFiltered;
      after := sent;
      if v.pa !in clients {
        return;
      }
      var todo := clients[v.pa];
      while todo != {}
        invariant todo <= clients[v.pa]
        invariant configs ==
                  if todo == clients[v.pa] || v.pa in old(configs) then old(configs)
                  else old(configs)[v.pa := NEW_CONFIG]
        invariant forall c :: BoxOf(after, histories, c) ==
                    if c in todo then BoxOf(sent, old(histories), c)
                    else DeliverOne(old(Index()), BoxOf(sent, old(histories), c), v, c)
        invariant forall d <- after :: after[d] != []
        decreases todo
      {
        var c :| c in todo;
        ghost var m, box := Index(), BoxOf(after, histories, c);
        assert DeliverOne(m, box, v, c) == DeliverOne(old(Index()), box, v, c) by {
          SameLookups(old(Index()), m, box, v, c);
        }
        after := HandTo(c, v, after);
        todo := todo - {c};
      }
    }

    /** Sorts updates by the clients to send them to. */
    method GetSubscribedClients(updatedValues: seq<VehiclePropValue>) returns (sent: map<Client, seq<VehiclePropValue>>)
      modifies this`histories, this`configs
      ensures View() == Deliver(old(View()), PropAreas(updatedValues))
      ensures forall c :: BoxOf(sent, histories, c) ==
                DeliverAll(old(Index()), Mailbox([], HistoryOf(old(histories), c)), updatedValues, c)
      ensures forall c <- sent :: sent[c] != []
    {
      hide DeliverOne;
      sent := map[];
      for i := 0 to |updatedValues|
        invariant Deliver(old(View()), PropAreas(updatedValues)) == Deliver(View(), PropAreas(updatedValues[i..]))
        invariant forall pa :: ConfigOf(Index(), pa) == ConfigOf(old(Index()), pa)
        invariant forall c :: DeliverAll(old(Index()), Mailbox([], HistoryOf(old(histories), c)), updatedValues, c)
                           == DeliverAll(old(Index()), BoxOf(sent, histories, c), updatedValues[i..], c)
        invariant forall c <- sent :: sent[c] != []
      {
        var v := updatedValues[i];
        assert updatedValues[i..][1..] == updatedValues[i + 1..];
        forall c
          ensures DeliverOne(Index(), BoxOf(sent, histories, c), v, c) ==
                  DeliverOne(old(Index()), BoxOf(sent, histories, c), v, c)
        {
          SameLookups(old(Index()), Index(), BoxOf(sent, histories, c), v, c);
        }
        sent := HandToAll(v, sent);
      }
    }
  }

  function HistoryOf(histories: map<Client, History>, c: Client): History {
    if c in histories then histories[c] else map[]
  }

  function BoxOf(sent: map<Client, seq<VehiclePropValue>>, histories: map<Client, History>, c: Client): Mailbox {
    Mailbox(if c in sent then sent[c] else [], HistoryOf(histories, c))
  }

  function PropAreas(values: seq<VehiclePropValue>): seq<PropArea> {
    if values == [] then [] else [values[0].pa] + PropAreas(values[1..])
  }

  // Inserting an empty config is invisible to a delivery.
  lemma SameLookups(a: SubscriptionModel.Manager, b: SubscriptionModel.Manager, box: Mailbox, v: VehiclePropValue,
                    c: Client)
    requires a.clients == b.clients && ConfigOf(a, v.pa) == ConfigOf(b, v.pa)
    ensures DeliverOne(a, box, v, c) == DeliverOne(b, box, v, c)
  {
    hide Sanitized, IsValueUpdated, Recorded;
  }
}
