/** What the subscription manager computes over the hardware, as functions on a value that holds the
    state of both. Any hardware call may be rejected: a call that is rejected leaves the hardware as
    it was. */
module SubscriptionModel {
  import opened VehicleTypes
  import opened RefreshTables

  datatype SubConfig = SubConfig(rate: real, resolution: real, enableVur: bool)

  datatype Aggregate = Aggregate(maxRate: real, minResolution: real, vurEnabled: bool)

  /** The configs of all clients of one [propId, areaId], with the cached aggregate. */
  datatype ContSubConfigs = ContSubConfigs(cached: Aggregate, byClient: map<Client, SubConfig>)

  // What looking up a missing key inserts: no client, and a cache that was never refreshed.
  const NEW_CONFIG := ContSubConfigs(Aggregate(0.0, FLOAT_MAX, false), map[])

  datatype Manager = Manager(
    clients: map<PropArea, set<Client>>,
    props: map<Client, set<PropArea>>,
    configs: map<PropArea, ContSubConfigs>)

  /** `verdict(n)` is what the n-th hardware call meets: Ok lets it through to the hardware. */
  datatype Env = Env(configs: Configs, verdict: nat -> StatusCode, powerOfTen: real -> bool)

  datatype Stack = Stack(m: Manager, hw: Hw, calls: nat)

  datatype Outcome = Outcome(st: Stack, status: StatusCode)

  const EMPTY_STACK := Stack(Manager(map[], map[], map[]), Hw(map[], {}), 0)

  // ---- The combined config of a set of clients ----

  ghost predicate IsAggregate(byClient: map<Client, SubConfig>, a: Aggregate) {
    && (forall c <- byClient :: byClient[c].rate <= a.maxRate)
    && 0.0 <= a.maxRate && (a.maxRate == 0.0 || exists c <- byClient :: byClient[c].rate == a.maxRate)
    && (forall c <- byClient :: a.minResolution <= byClient[c].resolution)
    && a.minResolution <= FLOAT_MAX
    && (a.minResolution == FLOAT_MAX || exists c <- byClient :: byClient[c].resolution == a.minResolution)
    && (byClient != map[] ==> (a.vurEnabled <==> forall c <- byClient :: byClient[c].enableVur))
  }

  lemma AggregateIsUnique(byClient: map<Client, SubConfig>, a: Aggregate, b: Aggregate)
    requires byClient != map[] && IsAggregate(byClient, a) && IsAggregate(byClient, b)
    ensures a == b
  {
  }

  // Folding one more client into an aggregate.
  function Join(a: Aggregate, sub: SubConfig): Aggregate {
    Aggregate(
      if sub.rate > a.maxRate then sub.rate else a.maxRate,
      if sub.resolution < a.minResolution then sub.resolution else a.minResolution,
      a.vurEnabled && sub.enableVur)
  }

  lemma JoinKeepsAggregate(byClient: map<Client, SubConfig>, a: Aggregate, c: Client, sub: SubConfig)
    requires IsAggregate(byClient, a) && c !in byClient
    requires byClient == map[] ==> a.vurEnabled
    ensures IsAggregate(byClient[c := sub], Join(a, sub))
  {
    var all, b := byClient[c := sub], Join(a, sub);
    assert c in all && all[c] == sub;
    assert forall d <- byClient :: d in all && all[d] == byClient[d];
    if b.maxRate != 0.0 && b.maxRate != sub.rate {
      var d :| d in byClient && byClient[d].rate == a.maxRate;
      assert all[d].rate == b.maxRate;
    }
    if b.minResolution != FLOAT_MAX && b.minResolution != sub.resolution {
      var d :| d in byClient && byClient[d].resolution == a.minResolution;
      assert all[d].resolution == b.minResolution;
    }
  }

  ghost function Combine(byClient: map<Client, SubConfig>): (a: Aggregate)
    ensures IsAggregate(byClient, a)
    ensures byClient == map[] ==> a == Aggregate(0.0, FLOAT_MAX, true)
    decreases |byClient|
  {
    if byClient.Keys == {} then Aggregate(0.0, FLOAT_MAX, true)
    else
      var c :| c in byClient.Keys;
      var rest := byClient - {c};
      assert rest[c := byClient[c]] == byClient;
      JoinKeepsAggregate(rest, Combine(rest), c, byClient[c]);
      Join(Combine(rest), byClient[c])
  }

  ghost function AddClient(config: ContSubConfigs, c: Client, sub: SubConfig): ContSubConfigs {
    ContSubConfigs(Combine(config.byClient[c := sub]), config.byClient[c := sub])
  }

  ghost function RemoveClient(config: ContSubConfigs, c: Client): ContSubConfigs {
    ContSubConfigs(Combine(config.byClient - {c}), config.byClient - {c})
  }

  // ---- Hardware calls ----

  function CallUpdateSampleRate(env: Env, st: Stack): (o: Outcome)
    ensures o.st.m == st.m
  {
    Outcome(st.(calls := st.calls + 1), env.verdict(st.calls))
  }

  function CallSubscribe(env: Env, st: Stack, option: SubscribeOptions): (o: Outcome)
    ensures o.st.m == st.m
  {
    var called := st.(calls := st.calls + 1);
    if env.verdict(st.calls) != Ok then Outcome(called, env.verdict(st.calls))
    else
      var (hw, status) := Subscribed(st.hw, env.configs, option);
      Outcome(called.(hw := hw), status)
  }

  function CallUnsubscribe(env: Env, st: Stack, pa: PropArea): (o: Outcome)
    ensures o.st.m == st.m
  {
    var called := st.(calls := st.calls + 1);
    if env.verdict(st.calls) != Ok then Outcome(called, env.verdict(st.calls))
    else Outcome(called.(hw := Unsubscribed(st.hw, pa)), Ok)
  }

  // ---- Subscribing ----

  function ClientsOf(m: Manager, pa: PropArea): set<Client> {
    if pa in m.clients then m.clients[pa] else {}
  }

  function PropsOf(m: Manager, c: Client): set<PropArea> {
    if c in m.props then m.props[c] else {}
  }

  // The lookup that inserts a missing key.
  function WithConfig(st: Stack, pa: PropArea): Stack {
    if pa in st.m.configs then st else SetConfig(st, pa, NEW_CONFIG)
  }

  function SetConfig(st: Stack, pa: PropArea, config: ContSubConfigs): Stack {
    st.(m := st.m.(configs := st.m.configs[pa := config]))
  }

  function OptionFor(pa: PropArea, a: Aggregate): SubscribeOptions {
    SubscribeOptions(pa.propId, [pa.areaId], a.maxRate, a.minResolution, a.vurEnabled)
  }

  function UpdateContSubConfigs(env: Env, st: Stack, pa: PropArea, config: ContSubConfigs): (o: Outcome)
    requires pa in st.m.configs
    ensures o.st.m == if o.status == Ok then SetConfig(st, pa, config).m else st.m
  {
    var before, after := st.m.configs[pa].cached, config.cached;
    if after == before then Outcome(SetConfig(st, pa, config), Ok)
    else
      var rated := if after.maxRate != before.maxRate then CallUpdateSampleRate(env, st) else Outcome(st, Ok);
      if rated.status != Ok then rated
      else
        var told := if after.maxRate != 0.0 then CallSubscribe(env, rated.st, OptionFor(pa, after))
                    else CallUnsubscribe(env, rated.st, pa);
        if told.status != Ok then told else Outcome(SetConfig(told.st, pa, config), Ok)
  }

  ghost function AddContinuousSubscriber(env: Env, st: Stack, c: Client, pa: PropArea, sub: SubConfig): (o: Outcome)
    ensures o.st.m.clients == st.m.clients && o.st.m.props == st.m.props
  {
    var looked := WithConfig(st, pa);
    UpdateContSubConfigs(env, looked, pa, AddClient(looked.m.configs[pa], c, sub))
  }

  ghost function RemoveContinuousSubscriber(env: Env, st: Stack, c: Client, pa: PropArea): (o: Outcome)
    ensures o.st.m.clients == st.m.clients && o.st.m.props == st.m.props
  {
    var looked := WithConfig(st, pa);
    UpdateContSubConfigs(env, looked, pa, RemoveClient(looked.m.configs[pa], c))
  }

  function AddOnChangeSubscriber(env: Env, st: Stack, pa: PropArea): (o: Outcome)
    ensures o.st.m.clients == st.m.clients && o.st.m.props == st.m.props
  {
    if pa in st.m.clients then Outcome(st, Ok)
    else CallSubscribe(env, st, SubscribeOptions(pa.propId, [pa.areaId], 0.0, 0.0, false))
  }

  function RemoveOnChangeSubscriber(env: Env, st: Stack, pa: PropArea): (o: Outcome)
    requires pa in st.m.clients
    ensures o.st.m == st.m
  {
    if |st.m.clients[pa]| > 1 then Outcome(st, Ok) else CallUnsubscribe(env, st, pa)
  }

  function Index(m: Manager, c: Client, pa: PropArea): Manager {
    m.(props := m.props[c := PropsOf(m, c) + {pa}], clients := m.clients[pa := ClientsOf(m, pa) + {c}])
  }

  function Indexed(o: Outcome, c: Client, pa: PropArea): Outcome {
    if o.status == Ok then o.(st := o.st.(m := Index(o.st.m, c, pa))) else o
  }

  ghost function SubscribeOne(env: Env, st: Stack, c: Client, pa: PropArea, sub: SubConfig, continuous: bool): Outcome {
    var o := if continuous then AddContinuousSubscriber(env, st, c, pa, sub) else AddOnChangeSubscriber(env, st, pa);
    Indexed(o, c, pa)
  }

  function SubOf(option: SubscribeOptions): SubConfig {
    SubConfig(option.sampleRate, option.resolution, option.enableVur)
  }

  ghost function SubscribeAreaIds(env: Env, st: Stack, c: Client, option: SubscribeOptions, areas: seq<int>,
                                  continuous: bool): Outcome
    decreases |areas|
  {
    if areas == [] then Outcome(st, Ok)
    else
      var o := SubscribeOne(env, st, c, PropArea(option.propId, areas[0]), SubOf(option), continuous);
      if o.status != Ok then o else SubscribeAreaIds(env, o.st, c, option, areas[1..], continuous)
  }

  ghost function SubscribeEach(env: Env, st: Stack, c: Client, options: seq<SubscribeOptions>,
                               continuous: bool): Outcome
    decreases |options|
  {
    if options == [] then Outcome(st, Ok)
    else
      var o := SubscribeAreaIds(env, st, c, options[0], options[0].areaIds, continuous);
      if o.status != Ok then o else SubscribeEach(env, o.st, c, options[1..], continuous)
  }

  predicate ValidOption(env: Env, option: SubscribeOptions, continuous: bool) {
    && (continuous ==> CheckSampleRate(option.sampleRate) && CheckResolution(env.powerOfTen, option.resolution))
    && option.areaIds != []
  }

  /** Nothing is subscribed unless every option is valid. */
  ghost function Subscribe(env: Env, st: Stack, c: Client, options: seq<SubscribeOptions>, continuous: bool): Outcome {
    if forall option <- options :: ValidOption(env, option, continuous)
    then SubscribeEach(env, st, c, options, continuous)
    else Outcome(st, InvalidArg)
  }

  // ---- Unsubscribing ----

  function Unindex(m: Manager, c: Client, pa: PropArea): Manager {
    var left := ClientsOf(m, pa) - {c};
    if left == {} then m.(clients := m.clients - {pa}, configs := m.configs - {pa})
    else m.(clients := m.clients[pa := left])
  }

  function Unindexed(o: Outcome, c: Client, pa: PropArea): Outcome {
    if o.status == Ok then o.(st := o.st.(m := Unindex(o.st.m, c, pa))) else o
  }

  ghost function UnsubscribeOne(env: Env, st: Stack, c: Client, pa: PropArea): Outcome {
    if pa !in st.m.configs && pa !in st.m.clients then Outcome(st, Ok)
    else
      Unindexed(if pa in st.m.configs then RemoveContinuousSubscriber(env, st, c, pa)
                else RemoveOnChangeSubscriber(env, st, pa), c, pa)
  }

  function Forget(m: Manager, c: Client, pa: PropArea): Manager {
    m.(props := m.props[c := PropsOf(m, c) - {pa}])
  }

  // `trim` says whether the client's own set shrinks along the way.
  ghost function UnsubscribeEach(env: Env, st: Stack, c: Client, order: seq<PropArea>, trim: bool): Outcome
    decreases |order|
  {
    if order == [] then Outcome(st, Ok)
    else
      var o := UnsubscribeOne(env, st, c, order[0]);
      if o.status != Ok then o
      else UnsubscribeEach(env, if trim then o.st.(m := Forget(o.st.m, c, order[0])) else o.st, c, order[1..], trim)
  }

  function DropClient(m: Manager, c: Client): Manager {
    m.(props := m.props - {c})
  }

  /** Unsubscribing a client from some properties; `order` is the order its matching
      [propId, areaId]s are visited in. */
  ghost function UnsubscribeProps(env: Env, st: Stack, c: Client, order: seq<PropArea>): Outcome {
    if c !in st.m.props then Outcome(st, Ok)
    else
      var o := UnsubscribeEach(env, st, c, order, true);
      if o.status == Ok && PropsOf(o.st.m, c) == {} then o.(st := o.st.(m := DropClient(o.st.m, c))) else o
  }

  /** Unsubscribing a whole client. */
  ghost function UnsubscribeClient(env: Env, st: Stack, c: Client, order: seq<PropArea>): Outcome {
    if c !in st.m.props then Outcome(st, Ok)
    else
      var o := UnsubscribeEach(env, st, c, order, false);
      if o.status == Ok then o.(st := o.st.(m := DropClient(o.st.m, c))) else o
  }

  /** What delivering updates does to the configs: an updated [propId, areaId] that has a client is
      looked up, and the lookup inserts it when it is missing. */
  function Deliver(st: Stack, updated: seq<PropArea>): Stack
    decreases |updated|
  {
    if updated == [] then st
    else Deliver(if ClientsOf(st.m, updated[0]) != {} then WithConfig(st, updated[0]) else st, updated[1..])
  }

  // ---- Runs ----

  datatype Step =
    | SubscribeStep(c: Client, options: seq<SubscribeOptions>, continuous: bool)
    | UnsubscribePropsStep(c: Client, propIds: set<int>, order: seq<PropArea>)
    | UnsubscribeClientStep(c: Client, order: seq<PropArea>)
    | DeliverStep(updated: seq<PropArea>)

  predicate IsContinuous(env: Env, propId: int) {
    propId in env.configs && env.configs[propId].changeMode == Continuous
  }

  ghost function Matching(m: Manager, c: Client, propIds: set<int>): set<PropArea> {
    set pa | pa in PropsOf(m, c) && pa.propId in propIds
  }

  /** The callers of the manager split options by the change mode in the config; an order is some
      enumeration of the set the manager iterates over. */
  ghost predicate Enabled(env: Env, st: Stack, step: Step) {
    match step
    case SubscribeStep(c, options, continuous) =>
      forall option <- options :: IsContinuous(env, option.propId) == continuous
    case UnsubscribePropsStep(c, propIds, order) => Enumerates(order, Matching(st.m, c, propIds))
    case UnsubscribeClientStep(c, order) => Enumerates(order, PropsOf(st.m, c))
    case DeliverStep(_) => true
  }

  ghost function Next(env: Env, st: Stack, step: Step): Outcome {
    match step
    case SubscribeStep(c, options, continuous) => Subscribe(env, st, c, options, continuous)
    case UnsubscribePropsStep(c, _, order) => UnsubscribeProps(env, st, c, order)
    case UnsubscribeClientStep(c, order) => UnsubscribeClient(env, st, c, order)
    case DeliverStep(updated) => Outcome(Deliver(st, updated), Ok)
  }

  ghost function Run(env: Env, steps: seq<Step>): Stack {
    if steps == [] then EMPTY_STACK else Next(env, Run(env, steps[..|steps| - 1]), steps[|steps| - 1]).st
  }

  ghost predicate IsRun(env: Env, steps: seq<Step>) {
    steps == [] ||
    (IsRun(env, steps[..|steps| - 1]) && Enabled(env, Run(env, steps[..|steps| - 1]), steps[|steps| - 1]))
  }
}
