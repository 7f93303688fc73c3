/** What one call promises its caller, and what it leaves alone. */
module SubscriptionEffects {
  import opened VehicleTypes
  import opened SubscriptionModel
  import opened SubscriptionSafety

  predicate Requests(option: SubscribeOptions, pa: PropArea) {
    option.propId == pa.propId && pa.areaId in option.areaIds
  }

  /** The last request for `pa` in a list of options. */
  function LastRequest(options: seq<SubscribeOptions>, pa: PropArea): Option<SubConfig> {
    if options == [] then None
    else
      var later := LastRequest(options[1..], pa);
      if later.Some? then later else if Requests(options[0], pa) then Some(SubOf(options[0])) else None
  }

  lemma {:induction false} LastRequestIs(options: seq<SubscribeOptions>, pa: PropArea)
    ensures LastRequest(options, pa).Some? <==> exists p <- options :: Requests(p, pa)
    ensures LastRequest(options, pa).Some? ==>
              exists p <- options :: Requests(p, pa) && LastRequest(options, pa) == Some(SubOf(p))
  {
    if options != [] {
      LastRequestIs(options[1..], pa);
      assert options[0] in options && forall p :: p in options <==> p == options[0] || p in options[1..];
    }
  }

  // What `c` gets at `pa` when it is granted the last of its requests for it, if any.
  ghost predicate GrantedAt(before: Manager, after: Manager, c: Client, pa: PropArea, request: Option<SubConfig>,
                            continuous: bool) {
    && ClientsOf(after, pa) == ClientsOf(before, pa) + (if request.Some? then {c} else {})
    && (pa in PropsOf(after, c) <==> pa in PropsOf(before, c) || request.Some?)
    && Asked(after, pa) ==
       if request.Some? && continuous then Asked(before, pa)[c := request.value] else Asked(before, pa)
  }

  // `d` is where it was at `pa`, with the config it had.
  ghost predicate UntouchedAt(before: Manager, after: Manager, d: Client, pa: PropArea) {
    && (d in ClientsOf(after, pa) <==> d in ClientsOf(before, pa))
    && (pa in PropsOf(after, d) <==> pa in PropsOf(before, d))
    && (d in Asked(after, pa) <==> d in Asked(before, pa))
    && (d in Asked(after, pa) ==> Asked(after, pa)[d] == Asked(before, pa)[d])
  }

  lemma SubscribeOneMovesNobody(env: Env, st: Stack, c: Client, pa: PropArea, sub: SubConfig, continuous: bool,
                                q: PropArea, d: Client)
    requires d != c || q != pa
    ensures UntouchedAt(st.m, SubscribeOne(env, st, c, pa, sub, continuous).st.m, d, q)
  {
    SubscribeOneOnIndices(env, st, c, pa, sub, continuous);
  }

  lemma SubscribeOneGrants(env: Env, st: Stack, c: Client, pa: PropArea, sub: SubConfig, continuous: bool, q: PropArea)
    ensures var o := SubscribeOne(env, st, c, pa, sub, continuous);
            o.status == Ok ==> GrantedAt(st.m, o.st.m, c, q, if q == pa then Some(sub) else None, continuous)
  {
    SubscribeOneOnIndices(env, st, c, pa, sub, continuous);
  }

  lemma UntouchedTwice(a: Manager, b: Manager, c: Manager, d: Client, pa: PropArea)
    requires UntouchedAt(a, b, d, pa) && UntouchedAt(b, c, d, pa)
    ensures UntouchedAt(a, c, d, pa)
  {
  }

  // Of two requests for the same [propId, areaId] the later one counts.
  lemma GrantedTwice(a: Manager, b: Manager, c: Manager, client: Client, pa: PropArea, first: Option<SubConfig>,
                     second: Option<SubConfig>, continuous: bool)
    requires GrantedAt(a, b, client, pa, first, continuous) && GrantedAt(b, c, client, pa, second, continuous)
    ensures GrantedAt(a, c, client, pa, if second.Some? then second else first, continuous)
  {
  }

  lemma NothingGranted(m: Manager, c: Client, pa: PropArea, continuous: bool)
    ensures GrantedAt(m, m, c, pa, None, continuous)
  {
  }

  lemma {:induction false} SubscribeAreaIdsGrants(env: Env, st: Stack, c: Client, option: SubscribeOptions,
                                                  areas: seq<int>, continuous: bool, q: PropArea, d: Client)
    ensures var o := SubscribeAreaIds(env, st, c, option, areas, continuous);
            var request := if option.propId == q.propId && q.areaId in areas then Some(SubOf(option)) else None;
            && (d != c || request.None? ==> UntouchedAt(st.m, o.st.m, d, q))
            && (o.status == Ok ==> GrantedAt(st.m, o.st.m, c, q, request, continuous))
    decreases |areas|
  {
    hide SubscribeOne, GrantedAt;
    if areas == [] {
      NothingGranted(st.m, c, q, continuous);
    } else {
      hide UntouchedAt;
      var pa, rest := PropArea(option.propId, areas[0]), areas[1..];
      var o := SubscribeOne(env, st, c, pa, SubOf(option), continuous);
      if d != c || q != pa {
        SubscribeOneMovesNobody(env, st, c, pa, SubOf(option), continuous, q, d);
      }
      if o.status == Ok {
        var all := SubscribeAreaIds(env, o.st, c, option, rest, continuous);
        SubscribeOneGrants(env, st, c, pa, SubOf(option), continuous, q);
        SubscribeAreaIdsGrants(env, o.st, c, option, rest, continuous, q, d);
        if d != c || !(option.propId == q.propId && q.areaId in areas) {
          UntouchedTwice(st.m, o.st.m, all.st.m, d, q);
        }
        if all.status == Ok {
          GrantedTwice(st.m, o.st.m, all.st.m, c, q, if q == pa then Some(SubOf(option)) else None,
                       if option.propId == q.propId && q.areaId in rest then Some(SubOf(option)) else None, continuous);
        }
      }
    }
  }

  lemma {:induction false} SubscribeEachGrants(env: Env, st: Stack, c: Client, options: seq<SubscribeOptions>,
                                               continuous: bool, q: PropArea, d: Client)
    ensures var o := SubscribeEach(env, st, c, options, continuous);
            && (d != c || LastRequest(options, q).None? ==> UntouchedAt(st.m, o.st.m, d, q))
            && (o.status == Ok ==> GrantedAt(st.m, o.st.m, c, q, LastRequest(options, q), continuous))
    decreases |options|
  {
    hide SubscribeAreaIds, GrantedAt;
    if options == [] {
      NothingGranted(st.m, c, q, continuous);
    } else {
      hide UntouchedAt;
      var o := SubscribeAreaIds(env, st, c, options[0], options[0].areaIds, continuous);
      SubscribeAreaIdsGrants(env, st, c, options[0], options[0].areaIds, continuous, q, d);
      if o.status == Ok {
        var all := SubscribeEach(env, o.st, c, options[1..], continuous);
        SubscribeEachGrants(env, o.st, c, options[1..], continuous, q, d);
        if d != c || LastRequest(options, q).None? {
          UntouchedTwice(st.m, o.st.m, all.st.m, d, q);
        }
        if all.status == Ok {
          GrantedTwice(st.m, o.st.m, all.st.m, c, q, if Requests(options[0], q) then Some(SubOf(options[0])) else None,
                       LastRequest(options[1..], q), continuous);
        }
      }
    }
  }

  /** A successful subscribe subscribes the client to exactly what it was before and what it asked
      for, the last request for a [propId, areaId] counting; an invalid option fails the call with
      nothing done; and no call, successful or not, moves another client, or the caller where it
      asked for nothing. */
  lemma SubscribeGivesWhatWasAsked(env: Env, st: Stack, c: Client, options: seq<SubscribeOptions>, continuous: bool,
                                   pa: PropArea, other: Client)
    ensures var o := Subscribe(env, st, c, options, continuous);
            && (other != c || LastRequest(options, pa).None? ==> UntouchedAt(st.m, o.st.m, other, pa))
            && (o.status == Ok ==> GrantedAt(st.m, o.st.m, c, pa, LastRequest(options, pa), continuous))
            && ((exists option <- options :: !ValidOption(env, option, continuous)) ==> o == Outcome(st, InvalidArg))
  {
    SubscribeEachGrants(env, st, c, options, continuous, pa, other);
  }

  // ---- Unsubscribing ----

  lemma UnsubscribeOneForgets(env: Env, st: Stack, c: Client, pa: PropArea, q: PropArea)
    requires PropInv(env, st.m, st.hw, pa)
    ensures var o := UnsubscribeOne(env, st, c, pa);
            Asked(o.st.m, q) == if q == pa && o.status == Ok then Asked(st.m, q) - {c} else Asked(st.m, q)
  {
    hide CallSubscribe, CallUnsubscribe, CallUpdateSampleRate, Combine, IsAggregate, PolledAs;
    if pa in st.m.configs {
      var config := RemoveClient(st.m.configs[pa], c);
      var o := RemoveContinuousSubscriber(env, st, c, pa);
      assert o.st.m == if o.status == Ok then SetConfig(st, pa, config).m else st.m;
      assert config.byClient == Asked(st.m, pa) - {c};
      if ClientsOf(st.m, pa) - {c} == {} {
        assert config.byClient.Keys == {};
      }
    }
  }

  lemma UnsubscribeOneTakes(env: Env, st: Stack, c: Client, pa: PropArea, q: PropArea, d: Client)
    requires PropInv(env, st.m, st.hw, pa) && d != c
    ensures UntouchedAt(st.m, UnsubscribeOne(env, st, c, pa).st.m, d, q)
  {
    hide UnsubscribeOne, PropInv;
    UnsubscribeOneOnIndices(env, st, c, pa);
    UnsubscribeOneForgets(env, st, c, pa, q);
  }

  lemma {:induction false} UnsubscribeEachTakes(env: Env, st: Stack, c: Client, order: seq<PropArea>, trim: bool,
                                                q: PropArea, d: Client)
    requires Inv(env, st) && d != c
    ensures var o := UnsubscribeEach(env, st, c, order, trim);
            && UntouchedAt(st.m, o.st.m, d, q)
            && (q !in order || c !in Asked(st.m, q) ==> Asked(o.st.m, q) == Asked(st.m, q))
            && (q in order && o.status == Ok ==> Asked(o.st.m, q) == Asked(st.m, q) - {c})
    decreases |order|
  {
    hide UnsubscribeOne, PropInv;
    if order != [] {
      var pa := order[0];
      var o := UnsubscribeOne(env, st, c, pa);
      assert PropInv(env, st.m, st.hw, pa);
      UnsubscribeOneTakes(env, st, c, pa, q, d);
      UnsubscribeOneForgets(env, st, c, pa, q);
      UnsubscribeOneKeepsInv(env, st, c, pa);
      if o.status == Ok {
        var next := if trim then o.st.(m := Forget(o.st.m, c, pa)) else o.st;
        UnsubscribeOneOnIndices(env, st, c, pa);
        TrimKeepsInv(env, o.st, next.m, c);
        UnsubscribeEachTakes(env, next, c, order[1..], trim, q, d);
      }
    }
  }

  /** A successful unsubscribe leaves the client nowhere it asked to leave, and anywhere else it was;
      successful or not it moves no other client. */
  lemma UnsubscribeLeavesWhatWasAsked(env: Env, st: Stack, c: Client, propIds: set<int>, order: seq<PropArea>,
                                      pa: PropArea, other: Client)
    requires Inv(env, st) && other != c && Enumerates(order, Matching(st.m, c, propIds))
    ensures var o := UnsubscribeProps(env, st, c, order);
            && UntouchedAt(st.m, o.st.m, other, pa)
            && (pa.propId in propIds && o.status == Ok ==>
                  c !in ClientsOf(o.st.m, pa) && c !in Asked(o.st.m, pa) && pa !in PropsOf(o.st.m, c))
            && (pa.propId !in propIds ==> UntouchedAt(st.m, o.st.m, c, pa))
  {
    if c in st.m.props {
      UnsubscribeEachTakes(env, st, c, order, true, pa, other);
      UnsubscribeEachLeaves(env, st, c, order, true);
      UnsubscribeEachTrims(env, st, c, order, true);
    }
    assert PropInv(env, st.m, st.hw, pa);
  }

  /** The same for a whole client. */
  lemma UnsubscribeClientLeavesEverything(env: Env, st: Stack, c: Client, order: seq<PropArea>, pa: PropArea,
                                          other: Client)
    requires Inv(env, st) && other != c && Enumerates(order, PropsOf(st.m, c))
    ensures var o := UnsubscribeClient(env, st, c, order);
            && UntouchedAt(st.m, o.st.m, other, pa)
            && (o.status == Ok ==> c !in o.st.m.props && c !in ClientsOf(o.st.m, pa) && c !in Asked(o.st.m, pa))
  {
    if c in st.m.props {
      UnsubscribeEachTakes(env, st, c, order, false, pa, other);
      UnsubscribeEachLeaves(env, st, c, order, false);
      UnsubscribeEachTrims(env, st, c, order, false);
    }
    assert PropInv(env, st.m, st.hw, pa);
  }
}
