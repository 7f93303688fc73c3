/** A client's subscribe call through the whole stack: checked and split at the top, recorded by the
    manager, refreshed by the hardware. */
module SubscribePath {
  import opened VehicleTypes
  import opened SubscriptionModel
  import opened SubscriptionSafety
  import opened SubscriptionEffects
  import opened SubscriptionLimits
  import opened SubscriptionStatus
  import opened SubscribeOptionParsing
  import SubscriptionManager

  ghost function AfterParsing(env: Env, st: Stack, c: Client, onChange: seq<SubscribeOptions>,
                              continuous: seq<SubscribeOptions>): Outcome {
    var first := Subscribe(env, st, c, onChange, false);
    if first.status != Ok then first else Subscribe(env, first.st, c, continuous, true)
  }

  /** The whole call. On-change options go first; when they fail the continuous ones are not tried. */
  ghost function HalSubscribe(env: Env, st: Stack, c: Client, options: seq<SubscribeOptions>): Outcome {
    var checked := CheckSubscribeOptions(env.configs, env.powerOfTen, options);
    if checked != Ok then Outcome(st, checked)
    else
      CheckedAreKnown(env, options);
      AfterParsing(env, st, c, Parse(env.configs, options, false), Parse(env.configs, options, true))
  }

  lemma CheckedAreKnown(env: Env, options: seq<SubscribeOptions>)
    requires CheckSubscribeOptions(env.configs, env.powerOfTen, options) == Ok
    ensures forall option <- options ::
              option.propId in env.configs && CheckOption(env.configs, env.powerOfTen, option) == Ok
  {
    CheckedEach(env.configs, env.powerOfTen, options);
  }

  // ---- A call is a part of a run ----

  lemma ParsedAreSplit(env: Env, st: Stack, c: Client, options: seq<SubscribeOptions>, continuous: bool)
    requires CheckSubscribeOptions(env.configs, env.powerOfTen, options) == Ok
    requires forall option <- options :: option.propId in env.configs
    ensures Enabled(env, st, SubscribeStep(c, Parse(env.configs, options, continuous), continuous))
  {
    CheckedAreKnown(env, options);
    var parsed := Parse(env.configs, options, continuous);
    forall p | p in parsed ensures IsContinuous(env, p.propId) == continuous {
      var option := ParsedFrom(env.configs, options, continuous, p);
      ParsedOptionIsValidExactly(env, option);
    }
  }

  /** Whatever a client passes in, the call takes the manager from a reachable state to a reachable one. */
  lemma HalSubscribeIsARun(env: Env, steps: seq<Step>, c: Client, options: seq<SubscribeOptions>)
    returns (more: seq<Step>)
    requires IsRun(env, steps)
    ensures IsRun(env, steps + more) && Run(env, steps + more) == HalSubscribe(env, Run(env, steps), c, options).st
  {
    hide Subscribe, Parse, CheckSubscribeOptions;
    more := [];
    assert steps + [] == steps;
    if CheckSubscribeOptions(env.configs, env.powerOfTen, options) == Ok {
      CheckedAreKnown(env, options);
      var st := Run(env, steps);
      var first := SubscribeStep(c, Parse(env.configs, options, false), false);
      ParsedAreSplit(env, st, c, options, false);
      RunExtends(env, steps, first);
      more := [first];
      if Next(env, st, first).status == Ok {
        var second := SubscribeStep(c, Parse(env.configs, options, true), true);
        ParsedAreSplit(env, Run(env, steps + more), c, options, true);
        RunExtends(env, steps + more, second);
        more := [first, second];
        assert steps + [first] + [second] == steps + more;
      }
    }
  }

  // ---- What a call that succeeds gives ----

  lemma {:induction false} AreaIsNamed(options: seq<SubscribeOptions>, areaId: int)
    ensures areaId in AllAreas(options) <==> exists p <- options :: areaId in p.areaIds
  {
    if options != [] {
      AreaIsNamed(options[1..], areaId);
      assert options[0] in options && forall p :: p in options <==> p == options[0] || p in options[1..];
    }
  }

  lemma ParsedNames(configs: Configs, option: SubscribeOptions, areaId: int)
    requires option.propId in configs
    ensures areaId in Requested(option, configs[option.propId]) <==>
            exists p <- ParseOption(configs, option) :: areaId in p.areaIds
  {
    hide ParseOption, Requested;
    ParsedAreasAreRequested(configs, option);
    AreaIsNamed(ParseOption(configs, option), areaId);
    assert areaId in multiset(AllAreas(ParseOption(configs, option))) <==>
           areaId in multiset(Requested(option, configs[option.propId]));
  }

  // The rate a request comes down to.
  function ClampedRate(configs: Configs, option: SubscribeOptions): real
    requires option.propId in configs
  {
    var config := configs[option.propId];
    if option.sampleRate < config.minSampleRate then config.minSampleRate
    else if option.sampleRate > config.maxSampleRate then config.maxSampleRate
    else option.sampleRate
  }

  ghost predicate Means(configs: Configs, option: SubscribeOptions, pa: PropArea) {
    option.propId == pa.propId && pa.propId in configs && AsksFor(option, configs[pa.propId], pa.areaId)
  }

  /** The last option of a call that means `pa`. */
  ghost function LastMeaning(configs: Configs, options: seq<SubscribeOptions>, pa: PropArea)
    : (r: Option<SubscribeOptions>)
    ensures r.Some? ==> Means(configs, r.value, pa)
  {
    if options == [] then None
    else
      var last := options[|options| - 1];
      if Means(configs, last, pa) then Some(last) else LastMeaning(configs, options[..|options| - 1], pa)
  }

  lemma {:induction false} LastMeaningIs(configs: Configs, options: seq<SubscribeOptions>, pa: PropArea)
    ensures LastMeaning(configs, options, pa).Some? <==> exists option <- options :: Means(configs, option, pa)
    ensures var last := LastMeaning(configs, options, pa); last.Some? ==> last.value in options
  {
    if options != [] {
      var init, last := options[..|options| - 1], options[|options| - 1];
      LastMeaningIs(configs, init, pa);
      assert last in options && forall option :: option in options <==> option == last || option in init;
    }
  }

  /** What an option asks for at an area it means: a continuous property at the clamped rate, and with
      VUR only where it is supported. */
  ghost function Granted(configs: Configs, option: SubscribeOptions, pa: PropArea): SubConfig
    requires option.propId in configs
  {
    var config := configs[option.propId];
    if config.changeMode != Continuous then SubOf(option)
    else
      SubConfig(ClampedRate(configs, option), option.resolution,
                option.enableVur && HasVur(option.propId, pa.areaId, config))
  }

  lemma OptionRequests(configs: Configs, option: SubscribeOptions, pa: PropArea)
    requires option.propId in configs
    ensures LastRequest(ParseOption(configs, option), pa) ==
            if Means(configs, option, pa) then Some(Granted(configs, option, pa)) else None
  {
    AsksForExactly(option, configs[option.propId], pa.areaId);
    hide Requested, AsksFor, GetDefaultSampleRateHz, HasVur, ParseContinuous, LastRequest;
    var parsed := ParseOption(configs, option);
    LastRequestIs(parsed, pa);
    ParsedNames(configs, option, pa.areaId);
    forall p | p in parsed ensures p.propId == option.propId {
      ParsedFieldsAreRequested(configs, option, p);
    }
    if LastRequest(parsed, pa).Some? {
      var p :| p in parsed && Requests(p, pa) && LastRequest(parsed, pa) == Some(SubOf(p));
      ParsedFieldsAreRequested(configs, option, p);
    }
  }

  lemma {:induction false} LastRequestConcat(xs: seq<SubscribeOptions>, ys: seq<SubscribeOptions>, pa: PropArea)
    ensures var later := LastRequest(ys, pa);
            LastRequest(xs + ys, pa) == if later.Some? then later else LastRequest(xs, pa)
  {
    if xs == [] {
      assert xs + ys == ys;
    } else {
      assert (xs + ys)[1..] == xs[1..] + ys;
      LastRequestConcat(xs[1..], ys, pa);
    }
  }

  /** The manager is asked for a [propId, areaId] exactly when an option means it, and last for what the
      last option that means it asks for. */
  lemma {:induction false} ParsedRequests(env: Env, options: seq<SubscribeOptions>, continuous: bool, pa: PropArea)
    requires forall option <- options :: option.propId in env.configs
    requires pa.propId in env.configs && (env.configs[pa.propId].changeMode == Continuous) == continuous
    ensures LastRequest(Parse(env.configs, options, continuous), pa) ==
            match LastMeaning(env.configs, options, pa)
            case None => None
            case Some(last) => Some(Granted(env.configs, last, pa))
  {
    hide ParseOption, Requested, Granted, Means, LastRequest;
    if options == [] {
      LastRequestIs([], pa);
    } else {
      var init, last := options[..|options| - 1], options[|options| - 1];
      assert forall option <- init :: option in options;
      assert last in options;
      ParsedRequests(env, init, continuous, pa);
      OptionRequests(env.configs, last, pa);
      OnlyOwnMode(env, last, pa);
      LastRequestConcat(Parse(env.configs, init, continuous), ParseOption(env.configs, last), pa);
    }
  }

  lemma OnlyOwnMode(env: Env, option: SubscribeOptions, pa: PropArea)
    ensures Means(env.configs, option, pa) ==> option.propId == pa.propId
  {
  }

  lemma OtherModeIsUntouched(env: Env, options: seq<SubscribeOptions>, continuous: bool, pa: PropArea)
    requires forall option <- options :: option.propId in env.configs
    requires pa.propId in env.configs && (env.configs[pa.propId].changeMode == Continuous) != continuous
    ensures LastRequest(Parse(env.configs, options, continuous), pa) == None
  {
    hide Parse, ParseOption, Requested;
    var parsed := Parse(env.configs, options, continuous);
    LastRequestIs(parsed, pa);
    if LastRequest(parsed, pa).Some? {
      var p :| p in parsed && Requests(p, pa);
      var option := ParsedFrom(env.configs, options, continuous, p);
      ParsedFieldsAreRequested(env.configs, option, p);
    }
  }

  /** From the top to the bottom: when a subscribe call succeeds, every [propId, areaId] the client
      means has it as a client, on the terms of the last option that means it; and a continuous one is
      refreshed by the hardware at least as often as that option demands, after clamping. */
  lemma SubscribedMeansPolled(env: Env, steps: seq<Step>, c: Client, options: seq<SubscribeOptions>,
                              last: SubscribeOptions, pa: PropArea)
    requires IsRun(env, steps) && LastMeaning(env.configs, options, pa) == Some(last)
    requires HalSubscribe(env, Run(env, steps), c, options).status == Ok
    ensures pa.propId in env.configs && last.propId == pa.propId
    ensures var st := HalSubscribe(env, Run(env, steps), c, options).st;
            && c in ClientsOf(st.m, pa)
            && (env.configs[pa.propId].changeMode == Continuous ==>
                  && c in Asked(st.m, pa) && Asked(st.m, pa)[c] == Granted(env.configs, last, pa)
                  && pa in st.hw.refresh && ClampedRate(env.configs, last) > 0.0
                  && st.hw.refresh[pa].interval <= IntervalNanos(ClampedRate(env.configs, last)))
  {
    LastMeaningIs(env.configs, options, pa);
    hide Parse, CheckSubscribeOptions, Subscribe, LastRequest, Run, IsRun, Requested, LastMeaning;
    CheckedAreKnown(env, options);
    var before := Run(env, steps);
    var onChange, continuous := Parse(env.configs, options, false), Parse(env.configs, options, true);
    var middle := Subscribe(env, before, c, onChange, false).st;
    var st := HalSubscribe(env, before, c, options).st;
    var isContinuous := env.configs[pa.propId].changeMode == Continuous;
    var other := Client(c.binder + 1);
    SubscribeGivesWhatWasAsked(env, before, c, onChange, false, pa, other);
    SubscribeGivesWhatWasAsked(env, middle, c, continuous, true, pa, other);
    ParsedRequests(env, options, isContinuous, pa);
    if isContinuous {
      var more := HalSubscribeIsARun(env, steps, c, options);
      PolledIsWhatClientsAskedFor(env, steps + more, pa);
      assert c in Asked(st.m, pa) && Asked(st.m, pa)[c] == LastRequest(continuous, pa).value;
    }
  }

  /** A call that succeeds asks for nothing the client does not mean, and moves no other client. */
  lemma SubscribedMeansAsked(env: Env, st: Stack, c: Client, options: seq<SubscribeOptions>, pa: PropArea,
                             other: Client)
    requires other != c && pa.propId in env.configs
    ensures var o := HalSubscribe(env, st, c, options);
            && UntouchedAt(st.m, o.st.m, other, pa)
            && (o.status == Ok ==>
                  (c in ClientsOf(o.st.m, pa) <==>
                     c in ClientsOf(st.m, pa) || exists option <- options :: Means(env.configs, option, pa)))
  {
    hide Parse, CheckSubscribeOptions, Subscribe, LastRequest, Requested;
    if CheckSubscribeOptions(env.configs, env.powerOfTen, options) == Ok {
      CheckedAreKnown(env, options);
      var onChange, continuous := Parse(env.configs, options, false), Parse(env.configs, options, true);
      var isContinuous := env.configs[pa.propId].changeMode == Continuous;
      SubscribeGivesWhatWasAsked(env, st, c, onChange, false, pa, other);
      SubscribeGivesWhatWasAsked(env, Subscribe(env, st, c, onChange, false).st, c, continuous, true, pa, other);
      ParsedRequests(env, options, isContinuous, pa);
      LastMeaningIs(env.configs, options, pa);
      OtherModeIsUntouched(env, options, !isContinuous, pa);
    }
  }

  // ---- When a call succeeds ----

  /** What a checked option has to do besides: ask for some area, unless it is for a continuous property with
      VUR, which is dropped when it asks for none. */
  ghost predicate AsksForSome(configs: Configs, option: SubscribeOptions)
    requires option.propId in configs
  {
    var config := configs[option.propId];
    (exists a :: AsksFor(option, config, a)) || (config.changeMode == Continuous && option.enableVur)
  }

  lemma SomeAreaIsRequested(option: SubscribeOptions, config: PropConfig)
    ensures Requested(option, config) != [] <==> exists a :: AsksFor(option, config, a)
  {
    hide Requested, AsksFor;
    var areas := Requested(option, config);
    if areas != [] {
      AsksForExactly(option, config, areas[0]);
    }
    if a :| AsksFor(option, config, a) {
      AsksForExactly(option, config, a);
    }
  }

  lemma ParsedIsValidExactly(env: Env, option: SubscribeOptions)
    requires CheckOption(env.configs, env.powerOfTen, option) == Ok
    ensures option.propId in env.configs
    ensures var continuous := env.configs[option.propId].changeMode == Continuous;
            (forall p <- ParseOption(env.configs, option) :: ValidOption(env, p, continuous)) <==>
            AsksForSome(env.configs, option)
  {
    var config := env.configs[option.propId];
    ParsedOptionIsValidExactly(env, option);
    SomeAreaIsRequested(option, config);
    hide Requested, AsksFor, ValidOption, CheckOption;
    if Requested(option, config) == [] {
      assert ParseOption(env.configs, option) == [] <==> config.changeMode == Continuous && option.enableVur;
    }
  }

  lemma {:induction false} ParsedInto(configs: Configs, options: seq<SubscribeOptions>, option: SubscribeOptions,
                                      p: SubscribeOptions)
    requires (forall o <- options :: o.propId in configs) && option in options && p in ParseOption(configs, option)
    ensures p in Parse(configs, options, configs[option.propId].changeMode == Continuous)
  {
    var init, last := options[..|options| - 1], options[|options| - 1];
    assert options == init + [last];
    if option != last {
      ParsedInto(configs, init, option, p);
    }
  }

  ghost predicate AllValid(env: Env, options: seq<SubscribeOptions>, continuous: bool) {
    forall p <- options :: ValidOption(env, p, continuous)
  }

  lemma AllParsedAreValidExactly(env: Env, options: seq<SubscribeOptions>)
    requires forall option <- options :: CheckOption(env.configs, env.powerOfTen, option) == Ok
    requires forall option <- options :: option.propId in env.configs
    ensures AllValid(env, Parse(env.configs, options, false), false) &&
            AllValid(env, Parse(env.configs, options, true), true) <==>
            forall option <- options :: AsksForSome(env.configs, option)
  {
    hide Parse, ParseOption, AsksForSome, ValidOption, CheckOption;
    forall option | option in options
      ensures var continuous := env.configs[option.propId].changeMode == Continuous;
              (forall p <- ParseOption(env.configs, option) :: ValidOption(env, p, continuous)) <==>
              AsksForSome(env.configs, option)
    {
      ParsedIsValidExactly(env, option);
    }
    forall option, p | option in options && p in ParseOption(env.configs, option)
      ensures p in Parse(env.configs, options, env.configs[option.propId].changeMode == Continuous)
    {
      ParsedInto(env.configs, options, option, p);
    }
    forall continuous, p | p in Parse(env.configs, options, continuous)
      ensures exists option <- options :: p in ParseOption(env.configs, option) &&
                (env.configs[option.propId].changeMode == Continuous) == continuous
    {
      var option := ParsedFrom(env.configs, options, continuous, p);
    }
  }

  lemma ParsedAreKnown(env: Env, options: seq<SubscribeOptions>, continuous: bool)
    requires forall option <- options :: option.propId in env.configs
    ensures forall p <- Parse(env.configs, options, continuous) :: p.propId in env.configs
  {
    forall p | p in Parse(env.configs, options, continuous) ensures p.propId in env.configs {
      var option := ParsedFrom(env.configs, options, continuous, p);
      ParsedFieldsAreRequested(env.configs, option, p);
    }
  }

  /** How many hardware calls a call takes whose options are `onChange` and `continuous` once parsed. */
  ghost function TotalCallsFor(m: Manager, c: Client, onChange: seq<SubscribeOptions>,
                               continuous: seq<SubscribeOptions>): nat {
    var first := RequestsOf(onChange);
    CallsFor(m, c, first, false) + CallsFor(AllGranted(m, c, first, false), c, RequestsOf(continuous), true)
  }

  /** From any reachable state the whole call succeeds exactly when every option passes the check and asks for
      some area, and none of the hardware calls it takes is rejected. */
  lemma HalSubscribeSucceedsExactly(env: Env, steps: seq<Step>, c: Client, options: seq<SubscribeOptions>)
    requires IsRun(env, steps)
    ensures var st := Run(env, steps);
            HalSubscribe(env, st, c, options).status == Ok <==>
            && (forall option <- options :: CheckOption(env.configs, env.powerOfTen, option) == Ok)
            && (forall option <- options :: option.propId in env.configs && AsksForSome(env.configs, option))
            && AllAccepted(env, st.calls, TotalCallsFor(st.m, c, Parse(env.configs, options, false),
                                                        Parse(env.configs, options, true)))
  {
    CheckedEach(env.configs, env.powerOfTen, options);
    hide Run, IsRun, Parse, CheckOption, CheckSubscribeOptions, Subscribe, AllAccepted, RequestsOf, AsksForSome,
      AllValid, AfterParsing;
    if CheckSubscribeOptions(env.configs, env.powerOfTen, options) == Ok {
      CheckedAreKnown(env, options);
      AllParsedAreValidExactly(env, options);
      BothSucceedExactly(env, steps, c, options);
    }
  }

  lemma ParsedSucceedsExactly(env: Env, steps: seq<Step>, c: Client, parsed: seq<SubscribeOptions>, continuous: bool)
    requires IsRun(env, steps) && Enabled(env, Run(env, steps), SubscribeStep(c, parsed, continuous))
    requires forall p <- parsed :: p.propId in env.configs
    ensures var st := Run(env, steps);
            var o, n := Subscribe(env, st, c, parsed, continuous), CallsFor(st.m, c, RequestsOf(parsed), continuous);
            && (o.status == Ok <==> AllValid(env, parsed, continuous) && AllAccepted(env, st.calls, n))
            && (o.status == Ok ==>
                  o.st.m == AllGranted(st.m, c, RequestsOf(parsed), continuous) && o.st.calls == st.calls + n)
  {
    SubscribeSucceedsExactly(env, steps, c, parsed, continuous);
    hide Run, IsRun, Subscribe, AllAccepted, RequestsOf, IsFine, ValidOption;
    forall p ensures IsFine(env, p, continuous) <==> ValidOption(env, p, continuous) {
      FineIsValid(env, p, continuous);
    }
  }

  lemma BothSucceedExactly(env: Env, steps: seq<Step>, c: Client, options: seq<SubscribeOptions>)
    requires IsRun(env, steps) && CheckSubscribeOptions(env.configs, env.powerOfTen, options) == Ok
    requires forall option <- options :: option.propId in env.configs
    ensures var st := Run(env, steps);
            var onChange, continuous := Parse(env.configs, options, false), Parse(env.configs, options, true);
            AfterParsing(env, st, c, onChange, continuous).status == Ok <==>
            && AllValid(env, onChange, false) && AllValid(env, continuous, true)
            && AllAccepted(env, st.calls, TotalCallsFor(st.m, c, onChange, continuous))
  {
    var st := Run(env, steps);
    var onChange, continuous := Parse(env.configs, options, false), Parse(env.configs, options, true);
    ParsedAreKnown(env, options, false);
    ParsedAreKnown(env, options, true);
    ParsedAreSplit(env, st, c, options, false);
    ParsedAreSplit(env, Subscribe(env, st, c, onChange, false).st, c, options, true);
    hide Run, IsRun, Parse, CheckSubscribeOptions, Subscribe, AllAccepted, RequestsOf, AllValid, Enabled;
    ParsedSucceedsExactly(env, steps, c, onChange, false);
    var n := CallsFor(st.m, c, RequestsOf(onChange), false);
    SplitAccepted(env, st.calls, n, TotalCallsFor(st.m, c, onChange, continuous) - n);
    if Subscribe(env, st, c, onChange, false).status == Ok {
      RunExtends(env, steps, SubscribeStep(c, onChange, false));
      ParsedSucceedsExactly(env, steps + [SubscribeStep(c, onChange, false)], c, continuous, true);
    }
  }

  // ---- The call ----

  method SubscribeClient(manager: SubscriptionManager.Manager, c: Client, options: seq<SubscribeOptions>)
    returns (status: StatusCode)
    requires manager.Valid()
    modifies manager, manager.link, manager.link.hardware
    ensures manager.Valid()
    ensures Outcome(manager.View(), status) == HalSubscribe(manager.Environment(), old(manager.View()), c, options)
  {
    hide Subscribe, Parse, CheckSubscribeOptions;
    var configs := manager.link.hardware.configs;
    status := CheckOptions(configs, manager.powerOfTen, options);
    if status != Ok {
      return status;
    }
    CheckedAreKnown(manager.Environment(), options);
    var onChangeSubscriptions, continuousSubscriptions := ParseOptions(configs, options);
    EmptyListIsFine(manager.Environment(), c);
    if onChangeSubscriptions != [] {
      status := manager.Subscribe(c, onChangeSubscriptions, false);
      if status != Ok {
        return status;
      }
    }
    if continuousSubscriptions != [] {
      status := manager.Subscribe(c, continuousSubscriptions, true);
      if status != Ok {
        return status;
      }
    }
    return Ok;
  }

  lemma EmptyListIsFine(env: Env, c: Client)
    ensures forall st, continuous :: Subscribe(env, st, c, [], continuous) == Outcome(st, Ok)
  {
  }
}
