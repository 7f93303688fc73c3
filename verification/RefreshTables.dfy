/** The bottom of the subscription stack: the two refresh tables of the fake hardware, the timer
    callbacks registered for them and the set of subscribed on-change properties. */
module RefreshTables {
  import opened VehicleTypes

  datatype EventMode = Always | OnValueChange

  datatype RefreshInfo = RefreshInfo(eventMode: EventMode, interval: int)

  datatype ActionForInterval = ActionForInterval(props: set<PropArea>, callback: nat)

  /** What a caller of the hardware can tell apart: what is refreshed, how, and what is reported
      on change. The table by interval and the timer are determined by it. */
  datatype Hw = Hw(refresh: map<PropArea, RefreshInfo>, onChange: set<PropArea>)

  ghost function Group(refresh: map<PropArea, RefreshInfo>, interval: int): set<PropArea> {
    set pa | pa in refresh && refresh[pa].interval == interval
  }

  /** The two tables are inverse, no interval has an empty set, and there is one timer callback for
      each interval in use and none besides. */
  ghost predicate Consistent(refresh: map<PropArea, RefreshInfo>, actions: map<int, ActionForInterval>,
                             timer: map<nat, int>)
  {
    && (forall i :: i in actions <==> Group(refresh, i) != {})
    && (forall i <- actions :: actions[i].props == Group(refresh, i))
    && (forall i <- actions :: actions[i].callback in timer && timer[actions[i].callback] == i)
    && (forall cb <- timer :: timer[cb] in actions && actions[timer[cb]].callback == cb)
  }

  // What entering `pa` does to the groups.
  lemma GroupsAfterInsert(refresh: map<PropArea, RefreshInfo>, pa: PropArea, info: RefreshInfo)
    requires pa !in refresh
    ensures forall i :: Group(refresh[pa := info], i) == Group(refresh, i) + (if i == info.interval then {pa} else {})
  {
  }

  // A property enters the group of its interval, or begins one with a callback of its own.
  lemma EnteringStaysConsistent(refresh: map<PropArea, RefreshInfo>, actions: map<int, ActionForInterval>,
                                timer: map<nat, int>, pa: PropArea, info: RefreshInfo)
    requires Consistent(refresh, actions, timer) && pa !in refresh && info.interval in actions
    ensures var action := actions[info.interval];
            Consistent(refresh[pa := info], actions[info.interval := action.(props := action.props + {pa})], timer)
  {
    GroupsAfterInsert(refresh, pa, info);
    hide Group;
  }

  lemma BeginningStaysConsistent(refresh: map<PropArea, RefreshInfo>, actions: map<int, ActionForInterval>,
                                 timer: map<nat, int>, pa: PropArea, info: RefreshInfo, callback: nat)
    requires Consistent(refresh, actions, timer) && pa !in refresh && info.interval !in actions && callback !in timer
    ensures Consistent(refresh[pa := info], actions[info.interval := ActionForInterval({pa}, callback)],
                       timer[callback := info.interval])
  {
    GroupsAfterInsert(refresh, pa, info);
    assert Group(refresh, info.interval) == {};
    hide Group;
  }

  // What removing `pa` does to the groups.
  lemma GroupsAfterRemove(refresh: map<PropArea, RefreshInfo>, pa: PropArea)
    ensures forall i :: Group(refresh - {pa}, i) == Group(refresh, i) - {pa}
    ensures pa in refresh ==> forall i :: i != refresh[pa].interval ==> pa !in Group(refresh, i)
  {
  }

  function AreaSupportsVur(areas: seq<AreaConfig>, areaId: int): bool {
    if areas == [] then false
    else if areas[0].areaId == areaId then areas[0].supportsVur
    else AreaSupportsVur(areas[1..], areaId)
  }

  function ModeFor(config: PropConfig, areaId: int, enableVur: bool): EventMode {
    if AreaSupportsVur(config.areaConfigs, areaId) && enableVur then OnValueChange else Always
  }

  /** An area supports VUR exactly when its config, the first with its id, says so. */
  lemma {:induction false} AreaSupportsVurExactly(areas: seq<AreaConfig>, areaId: int)
    ensures AreaSupportsVur(areas, areaId) <==> exists i: nat :: IsConfigOf(areas, i, areaId) && areas[i].supportsVur
  {
    if areas != [] {
      if areas[0].areaId == areaId {
        assert IsConfigOf(areas, 0, areaId);
      } else {
        var rest := areas[1..];
        AreaSupportsVurExactly(rest, areaId);
        if i: nat :| IsConfigOf(rest, i, areaId) && rest[i].supportsVur {
          assert IsConfigOf(areas, i + 1, areaId);
        }
        if i: nat :| IsConfigOf(areas, i, areaId) && areas[i].supportsVur {
          assert IsConfigOf(rest, i - 1, areaId);
        }
      }
    }
  }

  function SubscribeArea(hw: Hw, config: PropConfig, pa: PropArea, rate: real, enableVur: bool): (Hw, StatusCode) {
    match config.changeMode
    case Static => (hw, Ok)
    case OnChange => (hw.(onChange := hw.onChange + {pa}), Ok)
    case Continuous =>
      if rate == 0.0 then (hw, InvalidArg)
      else
        var info := RefreshInfo(ModeFor(config, pa.areaId, enableVur), IntervalNanos(rate));
        (hw.(refresh := hw.refresh[pa := info]), Ok)
  }

  // The areas of one option, in order, up to the first failure.
  function SubscribeAreas(hw: Hw, config: PropConfig, option: SubscribeOptions, areas: seq<int>): (Hw, StatusCode)
    decreases |areas|
  {
    if areas == [] then (hw, Ok)
    else
      var (next, status) := SubscribeArea(hw, config, PropArea(option.propId, areas[0]), option.sampleRate,
                                          option.enableVur);
      if status != Ok then (next, status) else SubscribeAreas(next, config, option, areas[1..])
  }

  function Subscribed(hw: Hw, configs: Configs, option: SubscribeOptions): (Hw, StatusCode) {
    if option.propId !in configs then (hw, InvalidArg)
    else SubscribeAreas(hw, configs[option.propId], option, option.areaIds)
  }

  function Unsubscribed(hw: Hw, pa: PropArea): Hw {
    Hw(hw.refresh - {pa}, hw.onChange - {pa})
  }

  // ---- What a subscribe changes ----

  /** What the hardware has of `pa` after one of its areas was subscribed to, or any other was. */
  ghost predicate TakenUp(hw: Hw, t: Hw, config: PropConfig, option: SubscribeOptions, pa: PropArea, meant: bool) {
    && (pa in t.refresh <==> pa in hw.refresh || (meant && config.changeMode == Continuous))
    && (pa in t.onChange <==> pa in hw.onChange || (meant && config.changeMode == OnChange))
    && (pa in t.refresh && !(meant && config.changeMode == Continuous) ==> t.refresh[pa] == hw.refresh[pa])
    && (meant && config.changeMode == Continuous ==>
          && (option.sampleRate > 0.0 ==> IsPeriodOf(t.refresh[pa].interval as real, option.sampleRate))
          && (t.refresh[pa].eventMode == OnValueChange <==>
                option.enableVur &&
                exists i: nat :: IsConfigOf(config.areaConfigs, i, pa.areaId) && config.areaConfigs[i].supportsVur))
  }

  lemma AreaIsTakenUp(hw: Hw, config: PropConfig, option: SubscribeOptions, areaId: int, pa: PropArea)
    requires config.changeMode == Continuous ==> option.sampleRate != 0.0
    ensures var (t, status) := SubscribeArea(hw, config, PropArea(option.propId, areaId), option.sampleRate,
                                             option.enableVur);
            status == Ok && TakenUp(hw, t, config, option, pa, pa == PropArea(option.propId, areaId))
  {
    AreaSupportsVurExactly(config.areaConfigs, areaId);
    if option.sampleRate > 0.0 {
      IntervalIs(option.sampleRate);
    }
    hide AreaSupportsVur, IntervalNanos, IsPeriodOf;
  }

  lemma {:induction false} AreasAreTakenUp(hw: Hw, config: PropConfig, option: SubscribeOptions, areas: seq<int>,
                                           pa: PropArea)
    requires config.changeMode == Continuous ==> option.sampleRate != 0.0
    ensures var (t, status) := SubscribeAreas(hw, config, option, areas);
            status == Ok && TakenUp(hw, t, config, option, pa, pa.propId == option.propId && pa.areaId in areas)
    decreases |areas|
  {
    if areas != [] {
      AreaIsTakenUp(hw, config, option, areas[0], pa);
      hide SubscribeArea, IsPeriodOf;
      var next := SubscribeArea(hw, config, PropArea(option.propId, areas[0]), option.sampleRate, option.enableVur).0;
      AreasAreTakenUp(next, config, option, areas[1..], pa);
    }
  }

  /** The hardware takes up exactly the areas an option lists: of a continuous property with the period of the
      rate, and reporting changes only where that is asked for and supported; an on-change property is
      reported, a static one is not. It refuses, with nothing done, a property it does not know and a rate
      of zero. */
  lemma SubscribedExactly(hw: Hw, configs: Configs, option: SubscribeOptions, pa: PropArea)
    ensures var (t, status) := Subscribed(hw, configs, option);
            var fine := option.propId in configs &&
              (configs[option.propId].changeMode == Continuous && option.areaIds != [] ==> option.sampleRate != 0.0);
            && status == (if fine then Ok else InvalidArg)
            && (!fine ==> t == hw)
            && (fine ==> TakenUp(hw, t, configs[option.propId], option, pa,
                                 pa.propId == option.propId && pa.areaId in option.areaIds))
  {
    if option.propId in configs {
      var config := configs[option.propId];
      if config.changeMode == Continuous ==> option.sampleRate != 0.0 {
        AreasAreTakenUp(hw, config, option, option.areaIds, pa);
      }
    }
  }

  class FakeVehicleHardware {
    const configs: Configs
    var refresh: map<PropArea, RefreshInfo>
    var actions: map<int, ActionForInterval>
    var timer: map<nat, int>
    var nextCallback: nat
    var onChange: set<PropArea>

    ghost predicate Valid()
      reads this
    {
      && Consistent(refresh, actions, timer)
      && (forall cb <- timer :: cb < nextCallback)
    }

    ghost function View(): Hw
      reads this
    {
      Hw(refresh, onChange)
    }

    constructor (configs: Configs)
      ensures Valid() && View() == Hw(map[], {}) && this.configs == configs
    {
      this.configs := configs;
      refresh, actions, timer, nextCallback, onChange := map[], map[], map[], 0, {};
    }

    method UnregisterRefresh(pa: PropArea)
      requires Valid()
      modifies this
      ensures Valid() && refresh == old(refresh) - {pa} && onChange == old(onChange)
    {
      if pa !in refresh {
        return;
      }
      var interval := refresh[pa].interval;
      GroupsAfterRemove(refresh, pa);
      assert pa in Group(refresh, interval);
      var action := actions[interval];
      var left := action.props - {pa};
      if left == {} {
        timer := timer - {action.callback};
        actions := actions - {interval};
      } else {
        actions := actions[interval := action.(props := left)];
      }
      refresh := refresh - {pa};
    }

    // Enters a property that is not in the tables.
    method EnterRefresh(pa: PropArea, info: RefreshInfo)
      requires Valid() && pa !in refresh
      modifies this
      ensures Valid() && onChange == old(onChange) && refresh == old(refresh)[pa := info]
    {
      if info.interval in actions {
        EnteringStaysConsistent(refresh, actions, timer, pa, info);
      } else {
        BeginningStaysConsistent(refresh, actions, timer, pa, info, nextCallback);
      }
      hide Consistent;
      refresh := refresh[pa := info];
      if info.interval in actions {
        var action := actions[info.interval];
        actions := actions[info.interval := action.(props := action.props + {pa})];
        return;
      }
      // The first property of this interval needs a timer callback of its own.
      actions := actions[info.interval := ActionForInterval({pa}, nextCallback)];
      timer := timer[nextCallback := info.interval];
      nextCallback := nextCallback + 1;
    }

    method RegisterRefresh(pa: PropArea, mode: EventMode, rate: real)
      requires Valid() && rate != 0.0
      modifies this
      ensures Valid() && onChange == old(onChange)
      ensures refresh == old(refresh)[pa := RefreshInfo(mode, IntervalNanos(rate))]
    {
      if pa in refresh {
        UnregisterRefresh(pa);
      }
      EnterRefresh(pa, RefreshInfo(mode, IntervalNanos(rate)));
    }

    method IsVariableUpdateRateSupported(config: PropConfig, areaId: int) returns (supported: bool)
      ensures supported == AreaSupportsVur(config.areaConfigs, areaId)
    {
      for i := 0 to |config.areaConfigs|
        invariant AreaSupportsVur(config.areaConfigs, areaId) == AreaSupportsVur(config.areaConfigs[i..], areaId)
      {
        var areaConfig := config.areaConfigs[i];
        if areaConfig.areaId != areaId {
          continue;
        }
        if areaConfig.supportsVur {
          return true;
        }
        return false;
      }
      return false;
    }

    method SubscribePropArea(pa: PropArea, rate: real, enableVur: bool, config: PropConfig) returns (status: StatusCode)
      requires Valid()
      modifies this
      ensures Valid() && (View(), status) == SubscribeArea(old(View()), config, pa, rate, enableVur)
    {
      match config.changeMode
      case Static => return Ok;
      case OnChange =>
        onChange := onChange + {pa};
        return Ok;
      case Continuous =>
        if rate == 0.0 {
          return InvalidArg;
        }
        var mode := Always;
        var supported := IsVariableUpdateRateSupported(config, pa.areaId);
        if supported && enableVur {
          mode := OnValueChange;
        }
        RegisterRefresh(pa, mode, rate);
        return Ok;
    }

    method Subscribe(option: SubscribeOptions) returns (status: StatusCode)
      requires Valid()
      modifies this
      ensures Valid() && (View(), status) == Subscribed(old(View()), configs, option)
    {
      if option.propId !in configs {
        return InvalidArg;
      }
      var config := configs[option.propId];
      for i := 0 to |option.areaIds|
        invariant Valid()
        invariant SubscribeAreas(old(View()), config, option, option.areaIds)
               == SubscribeAreas(View(), config, option, option.areaIds[i..])
      {
        status := SubscribePropArea(PropArea(option.propId, option.areaIds[i]), option.sampleRate, option.enableVur,
                                    config);
        if status != Ok {
          return status;
        }
      }
      return Ok;
    }

    method Unsubscribe(pa: PropArea) returns (status: StatusCode)
      requires Valid()
      modifies this
      ensures Valid() && View() == Unsubscribed(old(View()), pa) && status == Ok
    {
      if pa in refresh {
        UnregisterRefresh(pa);
      }
      onChange := onChange - {pa};
      return Ok;
    }

    /** One tick of the timer of an interval. The lookups insert a missing key, as the hardware's do;
        that they never find one missing is part of the contract. */
    method RefreshTimestampForInterval(interval: int) returns (modes: map<PropArea, EventMode>)
      requires Valid()
      modifies this
      ensures modes == map pa | pa in refresh && refresh[pa].interval == interval :: refresh[pa].eventMode
      ensures refresh == old(refresh) && actions == old(actions) && timer == old(timer) && onChange == old(onChange)
      ensures Valid()
    {
      modes := map[];
      if interval !in actions {
        return;
      }
      var todo := actions[interval].props;
      while todo != {}
        invariant refresh == old(refresh) && actions == old(actions) && timer == old(timer)
        invariant onChange == old(onChange) && nextCallback == old(nextCallback)
        invariant todo <= actions[interval].props && modes.Keys == actions[interval].props - todo
        invariant forall pa <- modes :: modes[pa] == refresh[pa].eventMode
        decreases todo
      {
        var pa :| pa in todo;
        refresh := if pa in refresh then refresh else refresh[pa := RefreshInfo(Always, 0)];
        modes := modes[pa := refresh[pa].eventMode];
        todo := todo - {pa};
      }
    }
  }

  /** The first table determines the second: an interval has an entry exactly when some property
      uses it, the entry lists exactly the properties that do, and one callback serves it. */
  lemma TablesAreInverse(refresh: map<PropArea, RefreshInfo>, actions: map<int, ActionForInterval>,
                         timer: map<nat, int>)
    requires Consistent(refresh, actions, timer)
    ensures actions.Keys == set pa | pa in refresh :: refresh[pa].interval
    ensures forall pa <- refresh :: pa in actions[refresh[pa].interval].props
    ensures forall i <- actions, pa <- actions[i].props :: pa in refresh && refresh[pa].interval == i
    ensures forall i <- actions :: (set cb | cb in timer && timer[cb] == i) == {actions[i].callback}
    ensures timer.Values == actions.Keys
  {
    forall pa | pa in refresh
      ensures refresh[pa].interval in actions && pa in actions[refresh[pa].interval].props
    {
      assert pa in Group(refresh, refresh[pa].interval);
    }
    forall i | i in actions
      ensures exists pa <- refresh :: refresh[pa].interval == i
      ensures i in timer.Values
    {
      var pa :| pa in Group(refresh, i);
      assert actions[i].callback in timer;
    }
  }
}
