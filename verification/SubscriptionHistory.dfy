/** What the calls alone decide: as long as no call is rejected half done, what the manager records and
    what the hardware polls can be read off the list of calls. */
module SubscriptionHistory {
  import opened VehicleTypes
  import opened RefreshTables
  import opened SubscriptionModel
  import opened SubscriptionSafety
  import opened SubscriptionEffects

  // ---- The calls ----

  predicate RefusedAtOnce(env: Env, options: seq<SubscribeOptions>, continuous: bool) {
    exists option <- options :: !ValidOption(env, option, continuous)
  }

  // Who wants `pa`, and on which terms, after one more call.
  function WantedAfter(env: Env, wanted: map<Client, SubConfig>, step: Step, pa: PropArea): map<Client, SubConfig> {
    match step
    case SubscribeStep(c, options, continuous) =>
      var request := LastRequest(options, pa);
      if RefusedAtOnce(env, options, continuous) || request.None? then wanted else wanted[c := request.value]
    case UnsubscribePropsStep(c, propIds, _) => if pa.propId in propIds then wanted - {c} else wanted
    case UnsubscribeClientStep(c, _) => wanted - {c}
    case DeliverStep(_) => wanted
  }

  /** Who wants `pa`, and on which terms, by the calls alone. */
  function Wanted(env: Env, steps: seq<Step>, pa: PropArea): map<Client, SubConfig> {
    if steps == [] then map[]
    else WantedAfter(env, Wanted(env, steps[..|steps| - 1], pa), steps[|steps| - 1], pa)
  }

  // Whether a call asks anything of the manager about `pa`.
  predicate Concerns(env: Env, wanted: map<Client, SubConfig>, step: Step, pa: PropArea) {
    match step
    case SubscribeStep(c, options, continuous) =>
      !RefusedAtOnce(env, options, continuous) && LastRequest(options, pa).Some?
    case UnsubscribePropsStep(c, propIds, _) => pa.propId in propIds && c in wanted
    case UnsubscribeClientStep(c, _) => c in wanted
    case DeliverStep(_) => false
  }

  /** Every call that concerns `pa` was granted; any other may have failed. */
  ghost predicate IsGrantedRun(env: Env, steps: seq<Step>, pa: PropArea) {
    steps == [] ||
    var before, last := steps[..|steps| - 1], steps[|steps| - 1];
    && IsGrantedRun(env, before, pa) && Enabled(env, Run(env, before), last)
    && (Concerns(env, Wanted(env, before, pa), last, pa) ==> Next(env, Run(env, before), last).status == Ok)
  }

  // A call as the client makes it, without the order in which the manager visits its set.
  function AsCalled(step: Step): Step {
    match step
    case UnsubscribePropsStep(c, propIds, _) => UnsubscribePropsStep(c, propIds, [])
    case UnsubscribeClientStep(c, _) => UnsubscribeClientStep(c, [])
    case _ => step
  }

  predicate IsBy(step: Step, c: Client) {
    !step.DeliverStep? && step.c == c
  }

  // The calls of one client, one after the other.
  function CallsOf(steps: seq<Step>, c: Client): seq<Step> {
    if steps == [] then []
    else
      var before, last := CallsOf(steps[..|steps| - 1], c), steps[|steps| - 1];
      if IsBy(last, c) then before + [AsCalled(last)] else before
  }

  predicate SameAt(a: map<Client, SubConfig>, b: map<Client, SubConfig>, c: Client) {
    (c in a <==> c in b) && (c in a ==> a[c] == b[c])
  }

  lemma OnlyOwnCallDecides(env: Env, a: map<Client, SubConfig>, b: map<Client, SubConfig>, step: Step, pa: PropArea,
                           c: Client)
    requires SameAt(a, b, c)
    ensures var own := if IsBy(step, c) then WantedAfter(env, b, AsCalled(step), pa) else b;
            SameAt(WantedAfter(env, a, step, pa), own, c)
  {
    hide LastRequest, RefusedAtOnce;
  }

  // Whether and on which terms a client wants `pa` is decided by its own calls.
  lemma {:induction false} OwnCallsDecide(env: Env, steps: seq<Step>, pa: PropArea, c: Client)
    ensures SameAt(Wanted(env, steps, pa), Wanted(env, CallsOf(steps, c), pa), c)
    decreases |steps|
  {
    if steps != [] {
      var before, last := steps[..|steps| - 1], steps[|steps| - 1];
      OwnCallsDecide(env, before, pa, c);
      var own := CallsOf(before, c);
      assert (own + [AsCalled(last)])[..|own|] == own;
      hide WantedAfter, SameAt, IsBy;
      OnlyOwnCallDecides(env, Wanted(env, before, pa), Wanted(env, own, pa), last, pa, c);
    }
  }

  lemma {:induction false} VerdictsDoNotDecide(env: Env, verdict: nat -> StatusCode, steps: seq<Step>, pa: PropArea)
    ensures Wanted(env.(verdict := verdict), steps, pa) == Wanted(env, steps, pa)
    decreases |steps|
  {
    if steps != [] {
      VerdictsDoNotDecide(env, verdict, steps[..|steps| - 1], pa);
    }
  }

  ghost predicate SameCalls(a: seq<Step>, b: seq<Step>) {
    forall c :: CallsOf(a, c) == CallsOf(b, c)
  }

  lemma SameCallsWantTheSame(env: Env, a: seq<Step>, b: seq<Step>, pa: PropArea)
    requires SameCalls(a, b)
    ensures Wanted(env, a, pa) == Wanted(env, b, pa)
  {
    var x, y := Wanted(env, a, pa), Wanted(env, b, pa);
    forall c ensures SameAt(x, y, c) {
      OwnCallsDecide(env, a, pa, c);
      OwnCallsDecide(env, b, pa, c);
    }
    hide Wanted;
    assert forall c :: SameAt(x, y, c) ==> (c in x <==> c in y) && (c in x ==> x[c] == y[c]);
  }

  // ---- The manager ----

  ghost predicate RecordsAt(env: Env, m: Manager, pa: PropArea, wanted: map<Client, SubConfig>) {
    && ClientsOf(m, pa) == wanted.Keys
    && (IsContinuous(env, pa.propId) ==> Asked(m, pa) == wanted)
  }

  lemma NobodyMoved(before: Manager, after: Manager, pa: PropArea)
    requires forall d :: UntouchedAt(before, after, d, pa)
    ensures ClientsOf(after, pa) == ClientsOf(before, pa) && Asked(after, pa) == Asked(before, pa)
  {
    var asked, was := Asked(after, pa), Asked(before, pa);
    assert forall d :: UntouchedAt(before, after, d, pa) ==>
      && (d in ClientsOf(after, pa) <==> d in ClientsOf(before, pa))
      && (d in asked <==> d in was) && (d in asked ==> asked[d] == was[d]);
  }

  // When nobody but `c` moved, and `c` is gone.
  lemma OnlyOneLeft(before: Manager, after: Manager, pa: PropArea, c: Client)
    requires forall d :: d != c ==> UntouchedAt(before, after, d, pa)
    requires c !in ClientsOf(after, pa) && c !in Asked(after, pa)
    ensures ClientsOf(after, pa) == ClientsOf(before, pa) - {c} && Asked(after, pa) == Asked(before, pa) - {c}
  {
    var asked, was := Asked(after, pa), Asked(before, pa);
    assert forall d :: d != c && UntouchedAt(before, after, d, pa) ==>
      && (d in ClientsOf(after, pa) <==> d in ClientsOf(before, pa))
      && (d in asked <==> d in was) && (d in asked ==> asked[d] == was[d]);
  }

  lemma SubscribeRecords(env: Env, st: Stack, c: Client, options: seq<SubscribeOptions>, continuous: bool, pa: PropArea,
                         wanted: map<Client, SubConfig>)
    requires var step := SubscribeStep(c, options, continuous);
             && Enabled(env, st, step) && RecordsAt(env, st.m, pa, wanted)
             && (Concerns(env, wanted, step, pa) ==> Next(env, st, step).status == Ok)
    ensures var step := SubscribeStep(c, options, continuous);
            RecordsAt(env, Next(env, st, step).st.m, pa, WantedAfter(env, wanted, step, pa))
  {
    var m := Subscribe(env, st, c, options, continuous).st.m;
    SubscribeGivesWhatWasAsked(env, st, c, options, continuous, pa, c);
    hide Subscribe, LastRequest, ClientsOf, Asked;
    if !RefusedAtOnce(env, options, continuous) {
      LastRequestIs(options, pa);
      if LastRequest(options, pa).None? {
        forall d ensures UntouchedAt(st.m, m, d, pa) {
          SubscribeGivesWhatWasAsked(env, st, c, options, continuous, pa, d);
        }
        NobodyMoved(st.m, m, pa);
      }
    }
  }

  predicate IsDeparture(step: Step) {
    step.UnsubscribePropsStep? || step.UnsubscribeClientStep?
  }

  lemma NobodyJoins(env: Env, st: Stack, step: Step, pa: PropArea)
    requires IsDeparture(step)
    ensures ClientsOf(Next(env, st, step).st.m, pa) <= ClientsOf(st.m, pa)
  {
    hide UnsubscribeEach;
    UnsubscribeEachLeaves(env, st, step.c, step.order, step.UnsubscribePropsStep?);
  }

  // A departure that names `pa` moves no other client, and leaves the client nowhere once it is granted.
  lemma DepartureLeaves(env: Env, st: Stack, step: Step, pa: PropArea, d: Client)
    requires IsDeparture(step) && Inv(env, st) && Enabled(env, st, step)
    ensures var o := Next(env, st, step);
            && (d != step.c || (step.UnsubscribePropsStep? && pa.propId !in step.propIds) ==>
                  UntouchedAt(st.m, o.st.m, d, pa))
            && (d == step.c && o.status == Ok && (step.UnsubscribePropsStep? ==> pa.propId in step.propIds) ==>
                  d !in ClientsOf(o.st.m, pa) && d !in Asked(o.st.m, pa))
  {
    hide UnsubscribeProps, UnsubscribeClient, UntouchedAt, Inv;
    var other := if d != step.c then d else Client(d.binder + 1);
    match step
    case UnsubscribePropsStep(c, propIds, order) =>
      UnsubscribeLeavesWhatWasAsked(env, st, c, propIds, order, pa, other);
    case UnsubscribeClientStep(c, order) => UnsubscribeClientLeavesEverything(env, st, c, order, pa, other);
  }

  lemma DepartureRecords(env: Env, st: Stack, step: Step, pa: PropArea, wanted: map<Client, SubConfig>)
    requires IsDeparture(step) && Inv(env, st) && Enabled(env, st, step) && RecordsAt(env, st.m, pa, wanted)
    requires Concerns(env, wanted, step, pa) ==> Next(env, st, step).status == Ok
    ensures RecordsAt(env, Next(env, st, step).st.m, pa, WantedAfter(env, wanted, step, pa))
  {
    var next := Next(env, st, step).st;
    forall d | d != step.c || (step.UnsubscribePropsStep? && pa.propId !in step.propIds)
      ensures UntouchedAt(st.m, next.m, d, pa)
    {
      DepartureLeaves(env, st, step, pa, d);
    }
    DepartureLeaves(env, st, step, pa, step.c);
    NobodyJoins(env, st, step, pa);
    StepKeepsInv(env, st, step);
    assert PropInv(env, next.m, next.hw, pa);
    hide Next, Enabled, UntouchedAt, ClientsOf;
    if step.UnsubscribePropsStep? && pa.propId !in step.propIds {
      NobodyMoved(st.m, next.m, pa);
    } else {
      OnlyOneLeft(st.m, next.m, pa, step.c);
    }
  }

  lemma {:induction false} DeliverKeepsAsked(st: Stack, updated: seq<PropArea>, pa: PropArea)
    ensures ClientsOf(Deliver(st, updated).m, pa) == ClientsOf(st.m, pa)
    ensures Asked(Deliver(st, updated).m, pa) == Asked(st.m, pa)
    decreases |updated|
  {
    if updated != [] {
      DeliverKeepsAsked(if ClientsOf(st.m, updated[0]) != {} then WithConfig(st, updated[0]) else st, updated[1..], pa);
    }
  }

  /** While every call about `pa` is granted, whatever becomes of other calls: the clients the manager has
      under `pa`, and the configs it has recorded of them, are those the calls alone give. */
  lemma {:induction false} RecordsWhatCallsWanted(env: Env, steps: seq<Step>, pa: PropArea)
    requires IsGrantedRun(env, steps, pa)
    ensures IsRun(env, steps)
    ensures ClientsOf(Run(env, steps).m, pa) == Wanted(env, steps, pa).Keys
    ensures IsContinuous(env, pa.propId) ==> Asked(Run(env, steps).m, pa) == Wanted(env, steps, pa)
    decreases |steps|
  {
    if steps != [] {
      var before, last := steps[..|steps| - 1], steps[|steps| - 1];
      RecordsWhatCallsWanted(env, before, pa);
      RunKeepsInv(env, before);
      var st, wanted := Run(env, before), Wanted(env, before, pa);
      hide Subscribe, UnsubscribeProps, UnsubscribeClient, Deliver, Inv;
      match last
      case SubscribeStep(c, options, continuous) => SubscribeRecords(env, st, c, options, continuous, pa, wanted);
      case DeliverStep(updated) => DeliverKeepsAsked(st, updated, pa);
      case _ => DepartureRecords(env, st, last, pa, wanted);
    }
  }

  // ---- The hardware ----

  /** The refresh that the hardware owes a continuous [propId, areaId]. */
  ghost function OwedRefresh(env: Env, wanted: map<Client, SubConfig>, pa: PropArea): Option<RefreshInfo> {
    var combined := Combine(wanted);
    if wanted == map[] || combined.maxRate == 0.0 || pa.propId !in env.configs then None
    else
      var mode := ModeFor(env.configs[pa.propId], pa.areaId, combined.vurEnabled);
      Some(RefreshInfo(mode, IntervalNanos(combined.maxRate)))
  }

  function RefreshOf(hw: Hw, pa: PropArea): Option<RefreshInfo> {
    if pa in hw.refresh then Some(hw.refresh[pa]) else None
  }

  /** So the refresh of a continuous [propId, areaId] is a function of the calls alone: deliveries and
      failed calls about anything else leave no trace in it. */
  lemma PolledIsWhatCallsWanted(env: Env, steps: seq<Step>, pa: PropArea)
    requires IsGrantedRun(env, steps, pa) && IsContinuous(env, pa.propId)
    ensures RefreshOf(Run(env, steps).hw, pa) == OwedRefresh(env, Wanted(env, steps, pa), pa)
  {
    var st, wanted := Run(env, steps), Wanted(env, steps, pa);
    RecordsWhatCallsWanted(env, steps, pa);
    RunKeepsInv(env, steps);
    hide Run, Wanted, IsGrantedRun, IsRun;
    assert PropInv(env, st.m, st.hw, pa);
    assert wanted == map[] <==> wanted.Keys == {};
    if wanted != map[] {
      AggregateIsUnique(wanted, st.m.configs[pa].cached, Combine(wanted));
    }
  }

  /** Two runs in which every client makes the same calls one after the other, however the clients
      interleave, whatever is delivered, in whatever order sets are visited and whichever other calls are
      rejected: the same clients are subscribed, and the hardware polls the same. */
  lemma OnlyTheCallsMatter(env: Env, verdict: nat -> StatusCode, a: seq<Step>, b: seq<Step>, pa: PropArea)
    requires SameCalls(a, b) && IsGrantedRun(env, a, pa) && IsGrantedRun(env.(verdict := verdict), b, pa)
    ensures var x, y := Run(env, a), Run(env.(verdict := verdict), b);
            && ClientsOf(x.m, pa) == ClientsOf(y.m, pa)
            && (IsContinuous(env, pa.propId) ==>
                  Asked(x.m, pa) == Asked(y.m, pa) && RefreshOf(x.hw, pa) == RefreshOf(y.hw, pa))
  {
    hide Run, Wanted, IsGrantedRun, SameCalls;
    var other := env.(verdict := verdict);
    SameCallsWantTheSame(env, a, b, pa);
    VerdictsDoNotDecide(env, verdict, b, pa);
    RecordsWhatCallsWanted(env, a, pa);
    RecordsWhatCallsWanted(other, b, pa);
    if IsContinuous(env, pa.propId) {
      PolledIsWhatCallsWanted(env, a, pa);
      PolledIsWhatCallsWanted(other, b, pa);
    }
  }
}
