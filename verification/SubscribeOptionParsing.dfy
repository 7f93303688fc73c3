/** The top of the subscription stack: the options of a client are checked against the property
    configs and split into what the subscription manager takes. */
module SubscribeOptionParsing {
  import opened VehicleTypes
  import opened SubscriptionModel

  function GetDefaultSampleRateHz(rate: real, min: real, max: real): real {
    if rate < min then min else if rate > max then max else rate
  }

  predicate HasRequiredAccess(access: Access, required: Access) {
    access == required || access == ReadWrite
  }

  function FirstArea(areas: seq<AreaConfig>, areaId: int): Option<AreaConfig> {
    if areas == [] then None else if areas[0].areaId == areaId then Some(areas[0]) else FirstArea(areas[1..], areaId)
  }

  function GetAreaConfig(propId: int, areaId: int, config: PropConfig): Option<AreaConfig> {
    if config.areaConfigs == [] then None
    else if IsGlobalProp(propId) then Some(config.areaConfigs[0])
    else FirstArea(config.areaConfigs, areaId)
  }

  predicate SupportsVur(propId: int, areaId: int, config: PropConfig) {
    var areaConfig := GetAreaConfig(propId, areaId, config);
    areaConfig.Some? && areaConfig.value.supportsVur
  }

  // ---- Checking ----

  // The configs of the listed areas, or None when an area is listed that the config does not have.
  // A property without area configs may be asked for area 0.
  function ListedAreas(config: PropConfig, areaIds: seq<int>): Option<seq<AreaConfig>> {
    if areaIds == [] then Some([])
    else
      var rest, last := ListedAreas(config, areaIds[..|areaIds| - 1]),
        FirstArea(config.areaConfigs, areaIds[|areaIds| - 1]);
      if rest.None? then None
      else if last.Some? then Some(rest.value + [last.value])
      else if areaIds[|areaIds| - 1] != 0 || config.areaConfigs != [] then None
      else rest
  }

  predicate AreasHaveAccess(areas: seq<AreaConfig>, required: Access) {
    areas != [] && forall a <- areas :: HasRequiredAccess(a.access, required)
  }

  function CheckOption(configs: Configs, powerOfTen: real -> bool, option: SubscribeOptions): StatusCode {
    if option.propId !in configs then InvalidArg
    else
      var config := configs[option.propId];
      var areas := if option.areaIds == [] then Some(config.areaConfigs) else ListedAreas(config, option.areaIds);
      if areas.None? then InvalidArg
      else if config.changeMode != OnChange && config.changeMode != Continuous then InvalidArg
      else if !HasRequiredAccess(config.access, Read) && !AreasHaveAccess(areas.value, Read) then AccessDenied
      else if config.changeMode == Continuous &&
              (!CheckSampleRate(GetDefaultSampleRateHz(option.sampleRate, config.minSampleRate,
                                                       config.maxSampleRate)) ||
               !CheckResolution(powerOfTen, option.resolution)) then InvalidArg
      else Ok
  }

  function CheckSubscribeOptions(configs: Configs, powerOfTen: real -> bool,
                                 options: seq<SubscribeOptions>): StatusCode {
    if options == [] then Ok
    else
      var first := CheckOption(configs, powerOfTen, options[0]);
      if first != Ok then first else CheckSubscribeOptions(configs, powerOfTen, options[1..])
  }

  // ---- Parsing ----

  /** The areas a client means: all of the config's when it lists none, area 0 for a global property. */
  function Requested(option: SubscribeOptions, config: PropConfig): seq<int> {
    if IsGlobalProp(option.propId) then [0]
    else if option.areaIds == [] then
      seq(|config.areaConfigs|, i requires 0 <= i < |config.areaConfigs| => config.areaConfigs[i].areaId)
    else option.areaIds
  }

  function AreasWithVur(propId: int, areas: seq<int>, config: PropConfig, supported: bool): seq<int> {
    if areas == [] then []
    else
      var rest, last := AreasWithVur(propId, areas[..|areas| - 1], config, supported), areas[|areas| - 1];
      if SupportsVur(propId, last, config) == supported then rest + [last] else rest
  }

  function NonEmpty(option: SubscribeOptions): seq<SubscribeOptions> {
    if option.areaIds == [] then [] else [option]
  }

  function ParseContinuous(option: SubscribeOptions, config: PropConfig): seq<SubscribeOptions> {
    var areas := Requested(option, config);
    var clamped := option.(areaIds := areas,
                           sampleRate := GetDefaultSampleRateHz(option.sampleRate, config.minSampleRate,
                                                                config.maxSampleRate));
    if !option.enableVur then [clamped]
    else
      NonEmpty(clamped.(areaIds := AreasWithVur(option.propId, areas, config, true), enableVur := true)) +
      NonEmpty(clamped.(areaIds := AreasWithVur(option.propId, areas, config, false), enableVur := false))
  }

  /** What one option becomes. */
  function ParseOption(configs: Configs, option: SubscribeOptions): seq<SubscribeOptions>
    requires option.propId in configs
  {
    var config := configs[option.propId];
    if config.changeMode == Continuous then ParseContinuous(option, config)
    else [option.(areaIds := Requested(option, config))]
  }

  function Parse(configs: Configs, options: seq<SubscribeOptions>, continuous: bool): seq<SubscribeOptions>
    requires forall option <- options :: option.propId in configs
  {
    if options == [] then []
    else
      var rest, last := Parse(configs, options[..|options| - 1], continuous), options[|options| - 1];
      if (configs[last.propId].changeMode == Continuous) == continuous then rest + ParseOption(configs, last) else rest
  }

  lemma {:induction false} FirstAreaIs(areas: seq<AreaConfig>, areaId: int) returns (i: nat)
    ensures match FirstArea(areas, areaId)
            case None => forall j :: 0 <= j < |areas| ==> areas[j].areaId != areaId
            case Some(a) => IsConfigOf(areas, i, areaId) && areas[i] == a
  {
    i := 0;
    if areas != [] && areas[0].areaId != areaId {
      i := FirstAreaIs(areas[1..], areaId);
      i := i + 1;
      assert forall j :: 0 < j < |areas| ==> areas[j] == areas[1..][j - 1];
    }
  }

  /** The area config that is looked up is the one the area goes by, if there is one. */
  lemma AreaConfigIs(propId: int, areaId: int, config: PropConfig) returns (i: nat)
    ensures match GetAreaConfig(propId, areaId, config)
            case None => forall j: nat :: !GoesBy(propId, areaId, config, j)
            case Some(a) => GoesBy(propId, areaId, config, i) && config.areaConfigs[i] == a &&
                            (forall j: nat :: GoesBy(propId, areaId, config, j) ==> j == i)
  {
    GlobalPropsExactly(propId);
    i := 0;
    if config.areaConfigs != [] && !IsGlobalProp(propId) {
      i := FirstAreaIs(config.areaConfigs, areaId);
    }
  }

  ghost predicate HasVur(propId: int, areaId: int, config: PropConfig) {
    exists i: nat :: GoesBy(propId, areaId, config, i) && config.areaConfigs[i].supportsVur
  }

  lemma SupportsVurExactly(propId: int, areaId: int, config: PropConfig)
    ensures SupportsVur(propId, areaId, config) <==> HasVur(propId, areaId, config)
  {
    var i := AreaConfigIs(propId, areaId, config);
    hide GetAreaConfig;
  }

  /** The areas an option asks for: a global property by area 0 only, all of the config's when it lists none,
      and otherwise what it lists. */
  ghost predicate AsksFor(option: SubscribeOptions, config: PropConfig, areaId: int) {
    if 0x100_0000 <= option.propId % 0x1000_0000 < 0x200_0000 then areaId == 0
    else if option.areaIds == [] then
      exists i :: 0 <= i < |config.areaConfigs| && config.areaConfigs[i].areaId == areaId
    else areaId in option.areaIds
  }

  lemma AsksForExactly(option: SubscribeOptions, config: PropConfig, areaId: int)
    ensures areaId in Requested(option, config) <==> AsksFor(option, config, areaId)
  {
    GlobalPropsExactly(option.propId);
    hide IsGlobalProp;
    if !IsGlobalProp(option.propId) && option.areaIds == [] {
      forall i | 0 <= i < |config.areaConfigs| && config.areaConfigs[i].areaId == areaId
        ensures areaId in Requested(option, config)
      {
        assert Requested(option, config)[i] == areaId;
      }
    }
  }

  /** And how often. */
  ghost function TimesAskedFor(option: SubscribeOptions, config: PropConfig, areaId: int): nat {
    if 0x100_0000 <= option.propId % 0x1000_0000 < 0x200_0000 then if areaId == 0 then 1 else 0
    else if option.areaIds == [] then |set i | 0 <= i < |config.areaConfigs| && config.areaConfigs[i].areaId == areaId|
    else multiset(option.areaIds)[areaId]
  }

  lemma {:induction false} CountedInList(ids: seq<int>, areaId: int)
    ensures multiset(ids)[areaId] == |set i | 0 <= i < |ids| && ids[i] == areaId|
  {
    if ids != [] {
      var n := |ids| - 1;
      CountedInList(ids[..n], areaId);
      assert ids == ids[..n] + [ids[n]];
      var all, before := set i | 0 <= i < |ids| && ids[i] == areaId, set i | 0 <= i < n && ids[..n][i] == areaId;
      assert all == before + if ids[n] == areaId then {n} else {};
    }
  }

  lemma AskedForExactly(option: SubscribeOptions, config: PropConfig, areaId: int)
    ensures multiset(Requested(option, config))[areaId] == TimesAskedFor(option, config, areaId)
  {
    GlobalPropsExactly(option.propId);
    hide IsGlobalProp;
    var ids := Requested(option, config);
    CountedInList(ids, areaId);
    if !IsGlobalProp(option.propId) && option.areaIds == [] {
      assert (set i | 0 <= i < |ids| && ids[i] == areaId) ==
             set i | 0 <= i < |config.areaConfigs| && config.areaConfigs[i].areaId == areaId;
    }
  }

  // ---- What a check accepts and refuses ----

  /** Every area an option lists is in the config, or is area 0 of a config that has no areas. */
  ghost predicate KnowsAreas(config: PropConfig, option: SubscribeOptions) {
    forall a <- option.areaIds ::
      (exists i :: 0 <= i < |config.areaConfigs| && config.areaConfigs[i].areaId == a) ||
      (a == 0 && config.areaConfigs == [])
  }

  // An option that lists no areas means all of the config's.
  ghost predicate MeansConfig(config: PropConfig, option: SubscribeOptions, i: nat) {
    && i < |config.areaConfigs|
    && (option.areaIds == [] || exists a <- option.areaIds :: IsConfigOf(config.areaConfigs, i, a))
  }

  /** The property can be read, or there is an area that is meant and every one that is can be read. */
  ghost predicate IsReadable(config: PropConfig, option: SubscribeOptions) {
    || config.access in {Read, ReadWrite}
    || (config.areaConfigs != [] &&
        forall i: nat :: MeansConfig(config, option, i) ==> config.areaConfigs[i].access in {Read, ReadWrite})
  }

  /** The rate, once it is brought into the config's range, has a period that fits, and the resolution is
      zero or a power of ten. */
  ghost predicate HasFineTerms(config: PropConfig, powerOfTen: real -> bool, option: SubscribeOptions) {
    var rate := if option.sampleRate < config.minSampleRate then config.minSampleRate
                else if option.sampleRate > config.maxSampleRate then config.maxSampleRate
                else option.sampleRate;
    && 0.0 < rate && ONE_SECOND_IN_NANOS / rate < INT64_MAX as real
    && (option.resolution == 0.0 || powerOfTen(option.resolution))
  }

  lemma {:induction false} ListedAreasAre(config: PropConfig, areaIds: seq<int>)
    ensures var listed := ListedAreas(config, areaIds);
            && (listed.Some? <==>
                  forall a <- areaIds :: FirstArea(config.areaConfigs, a).Some? || (a == 0 && config.areaConfigs == []))
            && (listed.Some? ==>
                  && (forall x ::
                        x in listed.value <==> exists a <- areaIds :: FirstArea(config.areaConfigs, a) == Some(x))
                  && (listed.value != [] <==> areaIds != [] && config.areaConfigs != []))
  {
    if config.areaConfigs != [] {
      hide FirstArea;
    }
    if areaIds != [] {
      var init, last := areaIds[..|areaIds| - 1], areaIds[|areaIds| - 1];
      assert last in areaIds && forall a :: a in areaIds <==> a in init || a == last;
      ListedAreasAre(config, init);
    }
  }

  lemma KnowsAreasExactly(config: PropConfig, option: SubscribeOptions)
    ensures ListedAreas(config, option.areaIds).Some? <==> KnowsAreas(config, option)
  {
    ListedAreasAre(config, option.areaIds);
    forall a | a in option.areaIds
      ensures FirstArea(config.areaConfigs, a).Some? <==>
              exists i :: 0 <= i < |config.areaConfigs| && config.areaConfigs[i].areaId == a
    {
      var i := FirstAreaIs(config.areaConfigs, a);
    }
    hide FirstArea, ListedAreas;
  }

  // The configs whose access is checked are those that are meant.
  lemma MeantAreCheckedExactly(config: PropConfig, option: SubscribeOptions, x: AreaConfig)
    requires ListedAreas(config, option.areaIds).Some?
    ensures var areas := if option.areaIds == [] then config.areaConfigs else ListedAreas(config, option.areaIds).value;
            && (x in areas <==> exists i: nat :: MeansConfig(config, option, i) && config.areaConfigs[i] == x)
            && (areas != [] <==> config.areaConfigs != [])
  {
    ListedAreasAre(config, option.areaIds);
    hide FirstArea, ListedAreas;
    if option.areaIds == [] {
      if x in config.areaConfigs {
        var i: nat :| i < |config.areaConfigs| && config.areaConfigs[i] == x;
        assert MeansConfig(config, option, i);
      }
    } else {
      if a :| a in option.areaIds && FirstArea(config.areaConfigs, a) == Some(x) {
        var i := FirstAreaIs(config.areaConfigs, a);
        assert MeansConfig(config, option, i);
      }
      if i: nat, a :| i < |config.areaConfigs| && a in option.areaIds && IsConfigOf(config.areaConfigs, i, a) &&
                      config.areaConfigs[i] == x {
        var j := FirstAreaIs(config.areaConfigs, a);
      }
    }
  }

  lemma IsReadableExactly(config: PropConfig, option: SubscribeOptions)
    requires ListedAreas(config, option.areaIds).Some?
    ensures var areas := if option.areaIds == [] then config.areaConfigs else ListedAreas(config, option.areaIds).value;
            HasRequiredAccess(config.access, Read) || AreasHaveAccess(areas, Read) <==> IsReadable(config, option)
  {
    var areas := if option.areaIds == [] then config.areaConfigs else ListedAreas(config, option.areaIds).value;
    hide ListedAreas, MeansConfig;
    forall x ensures x in areas <==> exists i: nat :: MeansConfig(config, option, i) && config.areaConfigs[i] == x {
      MeantAreCheckedExactly(config, option, x);
    }
    assert areas != [] <==> config.areaConfigs != [] by {
      MeantAreCheckedExactly(config, option, AreaConfig(0, Read, false, None));
    }
    forall i: nat | MeansConfig(config, option, i) ensures i < |config.areaConfigs| && config.areaConfigs[i] in areas {
      MeansOne(config, option, i);
    }
  }

  lemma MeansOne(config: PropConfig, option: SubscribeOptions, i: nat)
    requires MeansConfig(config, option, i)
    ensures i < |config.areaConfigs|
  {
  }

  /** The check of one option, in full: it passes exactly when the property and its areas are known, the
      property reports changes, it can be read, and, where it is continuous, its terms are fine. */
  lemma CheckOptionExactly(configs: Configs, powerOfTen: real -> bool, option: SubscribeOptions)
    ensures CheckOption(configs, powerOfTen, option) == Ok <==>
            && option.propId in configs
            && var config := configs[option.propId];
               && KnowsAreas(config, option) && config.changeMode in {OnChange, Continuous}
               && IsReadable(config, option)
               && (config.changeMode == Continuous ==> HasFineTerms(config, powerOfTen, option))
    ensures CheckOption(configs, powerOfTen, option) == AccessDenied <==>
            && option.propId in configs
            && var config := configs[option.propId];
               && KnowsAreas(config, option) && config.changeMode in {OnChange, Continuous}
               && !IsReadable(config, option)
    ensures CheckOption(configs, powerOfTen, option) in {Ok, AccessDenied, InvalidArg}
  {
    if option.propId in configs {
      var config := configs[option.propId];
      KnowsAreasExactly(config, option);
      RateIsAcceptedExactly(GetDefaultSampleRateHz(option.sampleRate, config.minSampleRate, config.maxSampleRate));
      if KnowsAreas(config, option) {
        IsReadableExactly(config, option);
      }
      hide CheckSampleRate, KnowsAreas, IsReadable, ListedAreas, AreasHaveAccess;
    }
  }

  // ---- What the two together guarantee ----

  /** Options are checked in order: the first that fails decides. */
  lemma {:induction false} FirstFailureDecides(configs: Configs, powerOfTen: real -> bool,
                                               options: seq<SubscribeOptions>, i: nat)
    requires i < |options| && CheckOption(configs, powerOfTen, options[i]) != Ok
    requires forall j :: 0 <= j < i ==> CheckOption(configs, powerOfTen, options[j]) == Ok
    ensures CheckSubscribeOptions(configs, powerOfTen, options) == CheckOption(configs, powerOfTen, options[i])
  {
    hide CheckOption;
    if i > 0 {
      FirstFailureDecides(configs, powerOfTen, options[1..], i - 1);
    }
  }

  lemma {:induction false} CheckedEach(configs: Configs, powerOfTen: real -> bool, options: seq<SubscribeOptions>)
    ensures CheckSubscribeOptions(configs, powerOfTen, options) == Ok <==>
            forall option <- options :: CheckOption(configs, powerOfTen, option) == Ok
  {
    if options != [] {
      CheckedEach(configs, powerOfTen, options[1..]);
      assert forall option :: option in options <==> option == options[0] || option in options[1..];
    }
  }

  function AllAreas(options: seq<SubscribeOptions>): seq<int> {
    if options == [] then [] else options[0].areaIds + AllAreas(options[1..])
  }

  lemma {:induction false} SplitByVur(propId: int, areas: seq<int>, config: PropConfig)
    ensures multiset(AreasWithVur(propId, areas, config, true) + AreasWithVur(propId, areas, config, false)) ==
            multiset(areas)
    ensures forall supported :: forall a <- AreasWithVur(propId, areas, config, supported) ::
            SupportsVur(propId, a, config) == supported
  {
    if areas != [] {
      SplitByVur(propId, areas[..|areas| - 1], config);
      assert areas == areas[..|areas| - 1] + [areas[|areas| - 1]];
    }
  }

  lemma AllAreasOfOne(a: SubscribeOptions)
    ensures AllAreas([a]) == a.areaIds
  {
    assert [a][1..] == [] && a.areaIds + [] == a.areaIds;
  }

  lemma AllAreasOfTwo(a: SubscribeOptions, b: SubscribeOptions)
    ensures AllAreas(NonEmpty(a) + NonEmpty(b)) == a.areaIds + b.areaIds
    ensures AllAreas([a]) == a.areaIds
  {
    AllAreasOfOne(a);
    AllAreasOfOne(b);
    assert [a, b][1..] == [b];
    assert NonEmpty(a) + NonEmpty(b) ==
           if a.areaIds == [] then NonEmpty(b) else if b.areaIds == [] then [a] else [a, b];
    assert AllAreas([a, b]) == a.areaIds + AllAreas([b]);
  }

  /** One option becomes options that together name each requested area exactly as often as requested. */
  lemma ParsedAreasAreRequested(configs: Configs, option: SubscribeOptions)
    requires option.propId in configs
    ensures multiset(AllAreas(ParseOption(configs, option))) == multiset(Requested(option, configs[option.propId]))
    ensures forall a :: multiset(AllAreas(ParseOption(configs, option)))[a] ==
                        TimesAskedFor(option, configs[option.propId], a)
  {
    forall a ensures multiset(Requested(option, configs[option.propId]))[a] ==
                     TimesAskedFor(option, configs[option.propId], a)
    {
      AskedForExactly(option, configs[option.propId], a);
    }
    hide TimesAskedFor;
    hide SupportsVur, GetDefaultSampleRateHz, AllAreas, NonEmpty, Requested, AreasWithVur;
    var config := configs[option.propId];
    var areas := Requested(option, config);
    var rate := GetDefaultSampleRateHz(option.sampleRate, config.minSampleRate, config.maxSampleRate);
    var on, off := AreasWithVur(option.propId, areas, config, true), AreasWithVur(option.propId, areas, config, false);
    SplitByVur(option.propId, areas, config);
    AllAreasOfTwo(option.(areaIds := on, sampleRate := rate, enableVur := true),
                  option.(areaIds := off, sampleRate := rate, enableVur := false));
    AllAreasOfTwo(option.(areaIds := areas, sampleRate := rate), option);
    AllAreasOfTwo(option.(areaIds := areas), option);
  }

  /** The options are for the same property and resolution, a rate lies within the config's range, and
      VUR is set for an area exactly when it was asked for and the area supports it. */
  lemma ParsedFieldsAreRequested(configs: Configs, option: SubscribeOptions, p: SubscribeOptions)
    requires option.propId in configs && p in ParseOption(configs, option)
    ensures var config := configs[option.propId];
            && p.propId == option.propId && p.resolution == option.resolution
            && (config.changeMode == Continuous ==>
                  && p.sampleRate == (if option.sampleRate < config.minSampleRate then config.minSampleRate
                                      else if option.sampleRate > config.maxSampleRate then config.maxSampleRate
                                      else option.sampleRate)
                  && (config.minSampleRate <= config.maxSampleRate ==>
                      config.minSampleRate <= p.sampleRate <= config.maxSampleRate)
                  && forall a <- p.areaIds ::
                       p.enableVur <==> option.enableVur && HasVur(option.propId, a, config))
  {
    var config := configs[option.propId];
    forall a ensures SupportsVur(option.propId, a, config) <==> HasVur(option.propId, a, config) {
      SupportsVurExactly(option.propId, a, config);
    }
    hide SupportsVur, HasVur, Requested, AreasWithVur;
    SplitByVur(option.propId, Requested(option, config), config);
  }

  /** Parsed options pass the manager's own validation exactly when the option requests some area: a
      config that lists at least one area, or an explicit list, or a global property. */
  lemma ParsedOptionIsValidExactly(env: Env, option: SubscribeOptions)
    requires CheckOption(env.configs, env.powerOfTen, option) == Ok
    ensures var config := env.configs[option.propId];
            var parsed := ParseOption(env.configs, option);
            var continuous := config.changeMode == Continuous;
            && (forall p <- parsed :: IsContinuous(env, p.propId) == continuous)
            && ((parsed != [] && forall p <- parsed :: ValidOption(env, p, continuous)) <==>
                Requested(option, config) != [])
  {
    hide SupportsVur, Requested, AreasWithVur, CheckSampleRate, CheckResolution, ListedAreas, AreasHaveAccess,
      ParseContinuous;
    var config := env.configs[option.propId];
    var parsed, areas := ParseOption(env.configs, option), Requested(option, config);
    ParsedAreasAreRequested(env.configs, option);
    forall p | p in parsed
      ensures IsContinuous(env, p.propId) == (config.changeMode == Continuous)
      ensures p.areaIds != [] ==> ValidOption(env, p, config.changeMode == Continuous)
    {
      ParsedFieldsAreRequested(env.configs, option, p);
    }
    if areas != [] {
      assert areas[0] in multiset(AllAreas(parsed));
      ParsedAreasAreNonEmpty(option, config);
    } else {
      ParsedOfNothing(option, config);
      if parsed != [] {
        assert parsed[0] in parsed && parsed[0].areaIds == [];
      }
    }
  }

  lemma ParsedAreasAreNonEmpty(option: SubscribeOptions, config: PropConfig)
    requires Requested(option, config) != []
    ensures forall p <- ParseContinuous(option, config) :: p.areaIds != []
  {
    hide SupportsVur, GetDefaultSampleRateHz, Requested, AreasWithVur;
  }

  lemma ParsedOfNothing(option: SubscribeOptions, config: PropConfig)
    requires Requested(option, config) == []
    ensures forall p <- ParseContinuous(option, config) :: p.areaIds == []
  {
    hide SupportsVur, GetDefaultSampleRateHz, Requested;
  }

  lemma {:induction false} ParsedFrom(configs: Configs, options: seq<SubscribeOptions>, continuous: bool,
                                      p: SubscribeOptions)
    returns (option: SubscribeOptions)
    requires forall o <- options :: o.propId in configs
    requires p in Parse(configs, options, continuous)
    ensures option in options && p in ParseOption(configs, option) &&
            (configs[option.propId].changeMode == Continuous) == continuous
  {
    var init, last := options[..|options| - 1], options[|options| - 1];
    if (configs[last.propId].changeMode == Continuous) == continuous && p in ParseOption(configs, last) {
      option := last;
    } else {
      option := ParsedFrom(configs, init, continuous, p);
    }
  }

  /** Options that pass the check, for configs that list at least one area, become options the manager
      accepts as valid and that are split by change mode as its runs assume. */
  lemma CheckedOptionsAreAccepted(env: Env, c: Client, options: seq<SubscribeOptions>, continuous: bool, st: Stack)
    requires CheckSubscribeOptions(env.configs, env.powerOfTen, options) == Ok
    requires forall option <- options :: option.propId in env.configs ==> env.configs[option.propId].areaConfigs != []
    ensures forall option <- options :: option.propId in env.configs
    ensures var parsed := Parse(env.configs, options, continuous);
            Enabled(env, st, SubscribeStep(c, parsed, continuous)) &&
              forall p <- parsed :: ValidOption(env, p, continuous)
  {
    CheckedEach(env.configs, env.powerOfTen, options);
    var parsed := Parse(env.configs, options, continuous);
    forall p | p in parsed ensures IsContinuous(env, p.propId) == continuous && ValidOption(env, p, continuous) {
      var option := ParsedFrom(env.configs, options, continuous, p);
      ParsedOptionIsValidExactly(env, option);
    }
  }

  // ---- The loops ----

  /** The configs of the areas an option lists, looked up in a map that keeps the first of each id. */
  method FindListedAreas(config: PropConfig, areaIds: seq<int>) returns (areas: Option<seq<AreaConfig>>)
    ensures areas == ListedAreas(config, areaIds)
  {
    var byAreaId: map<int, AreaConfig> := map[];
    for i := 0 to |config.areaConfigs|
      invariant forall id :: FirstArea(config.areaConfigs, id) ==
                  if id in byAreaId then Some(byAreaId[id]) else FirstArea(config.areaConfigs[i..], id)
      invariant i > 0 <==> byAreaId != map[]
    {
      var a := config.areaConfigs[i];
      assert config.areaConfigs[i..][1..] == config.areaConfigs[i + 1..];
      byAreaId := if a.areaId in byAreaId then byAreaId else byAreaId[a.areaId := a];
      assert a.areaId in byAreaId;
    }
    assert forall id :: FirstArea(config.areaConfigs, id) == if id in byAreaId then Some(byAreaId[id]) else None;
    var found: seq<AreaConfig> := [];
    for i := 0 to |areaIds|
      invariant ListedAreas(config, areaIds[..i]) == Some(found)
    {
      assert areaIds[..i + 1][..i] == areaIds[..i];
      if areaIds[i] in byAreaId {
        found := found + [byAreaId[areaIds[i]]];
      } else if areaIds[i] != 0 || byAreaId != map[] {
        assert ListedAreas(config, areaIds[..i + 1]).None?;
        NoneStays(config, areaIds, i + 1);
        return None;
      }
    }
    assert areaIds[..|areaIds|] == areaIds;
    return Some(found);
  }

  lemma {:induction false} NoneStays(config: PropConfig, areaIds: seq<int>, n: nat)
    requires n <= |areaIds| && ListedAreas(config, areaIds[..n]).None?
    ensures ListedAreas(config, areaIds).None?
    decreases |areaIds|
  {
    if n < |areaIds| {
      assert areaIds[..|areaIds| - 1][..n] == areaIds[..n];
      NoneStays(config, areaIds[..|areaIds| - 1], n);
    } else {
      assert areaIds[..n] == areaIds;
    }
  }

  method AreaConfigsHaveRequiredAccess(areas: seq<AreaConfig>, required: Access) returns (has: bool)
    ensures has == AreasHaveAccess(areas, required)
  {
    if areas == [] {
      return false;
    }
    for i := 0 to |areas|
      invariant forall a <- areas[..i] :: HasRequiredAccess(a.access, required)
    {
      if !HasRequiredAccess(areas[i].access, required) {
        return false;
      }
    }
    assert areas[..|areas|] == areas;
    return true;
  }

  method CheckOptions(configs: Configs, powerOfTen: real -> bool, options: seq<SubscribeOptions>)
    returns (status: StatusCode)
    ensures status == CheckSubscribeOptions(configs, powerOfTen, options)
  {
    hide CheckSampleRate, CheckResolution, ListedAreas, AreasHaveAccess;
    for i := 0 to |options|
      invariant CheckSubscribeOptions(configs, powerOfTen, options) ==
                CheckSubscribeOptions(configs, powerOfTen, options[i..])
    {
      var option := options[i];
      if option.propId !in configs {
        return InvalidArg;
      }
      var config := configs[option.propId];
      var areas := Some(config.areaConfigs);
      if option.areaIds != [] {
        areas := FindListedAreas(config, option.areaIds);
      }
      if areas.None? {
        return InvalidArg;
      }
      if config.changeMode != OnChange && config.changeMode != Continuous {
        return InvalidArg;
      }
      var areasReadable := AreaConfigsHaveRequiredAccess(areas.value, Read);
      if !HasRequiredAccess(config.access, Read) && !areasReadable {
        return AccessDenied;
      }
      if config.changeMode == Continuous {
        var rate := GetDefaultSampleRateHz(option.sampleRate, config.minSampleRate, config.maxSampleRate);
        if !CheckSampleRate(rate) || !CheckResolution(powerOfTen, option.resolution) {
          return InvalidArg;
        }
      }
    }
    return Ok;
  }

  method ParseOptions(configs: Configs, options: seq<SubscribeOptions>)
    returns (onChangeSubscriptions: seq<SubscribeOptions>, continuousSubscriptions: seq<SubscribeOptions>)
    requires forall option <- options :: option.propId in configs
    ensures onChangeSubscriptions == Parse(configs, options, false)
    ensures continuousSubscriptions == Parse(configs, options, true)
  {
    hide GetAreaConfig, SupportsVur;
    onChangeSubscriptions, continuousSubscriptions := [], [];
    for i := 0 to |options|
      invariant onChangeSubscriptions == Parse(configs, options[..i], false)
      invariant continuousSubscriptions == Parse(configs, options[..i], true)
    {
      assert options[..i + 1][..i] == options[..i] && options[i] in options;
      var config, optionCopy := configs[options[i].propId], options[i];
      if optionCopy.areaIds == [] && !IsGlobalProp(options[i].propId) {
        var all := AllAreaIds(config);
        optionCopy := optionCopy.(areaIds := all);
      }
      if IsGlobalProp(options[i].propId) {
        optionCopy := optionCopy.(areaIds := [0]);
      }
      assert optionCopy.areaIds == Requested(options[i], config);
      if config.changeMode == Continuous {
        optionCopy := optionCopy.(sampleRate := GetDefaultSampleRateHz(optionCopy.sampleRate, config.minSampleRate,
                                                                       config.maxSampleRate));
        if !optionCopy.enableVur {
          continuousSubscriptions := continuousSubscriptions + [optionCopy];
        } else {
          var enabled, disabled := SplitAreasByVur(options[i].propId, optionCopy.areaIds, config);
          var parsed := [];
          if enabled != [] {
            parsed := parsed + [optionCopy.(areaIds := enabled, enableVur := true)];
          }
          if disabled != [] {
            parsed := parsed + [optionCopy.(areaIds := disabled, enableVur := false)];
          }
          continuousSubscriptions := continuousSubscriptions + parsed;
        }
      } else {
        onChangeSubscriptions := onChangeSubscriptions + [optionCopy];
      }
    }
    assert options[..|options|] == options;
  }

  method AllAreaIds(config: PropConfig) returns (ids: seq<int>)
    ensures ids == seq(|config.areaConfigs|, i requires 0 <= i < |config.areaConfigs| => config.areaConfigs[i].areaId)
  {
    ids := [];
    for i := 0 to |config.areaConfigs|
      invariant |ids| == i && forall j :: 0 <= j < i ==> ids[j] == config.areaConfigs[j].areaId
    {
      ids := ids + [config.areaConfigs[i].areaId];
    }
  }

  method SplitAreasByVur(propId: int, areas: seq<int>, config: PropConfig)
    returns (enabled: seq<int>, disabled: seq<int>)
    ensures enabled == AreasWithVur(propId, areas, config, true) &&
            disabled == AreasWithVur(propId, areas, config, false)
  {
    enabled, disabled := [], [];
    for i := 0 to |areas|
      invariant enabled == AreasWithVur(propId, areas[..i], config, true)
      invariant disabled == AreasWithVur(propId, areas[..i], config, false)
    {
      assert areas[..i + 1][..i] == areas[..i];
      var areaConfig := GetAreaConfig(propId, areas[i], config);
      if areaConfig.None? || !areaConfig.value.supportsVur {
        disabled := disabled + [areas[i]];
      } else {
        enabled := enabled + [areas[i]];
      }
    }
    assert areas[..|areas|] == areas;
  }
}
