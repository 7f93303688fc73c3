/** Subscriptions to changes of supported values: two indices of their own, and a hardware that is
    told of a whole list in one call and may reject any call. */
module SupportedValues {
  import opened VehicleTypes

  datatype Indices = Indices(clients: map<PropArea, set<Client>>, props: map<Client, set<PropArea>>)

  /** The indices, what the hardware is subscribed to, and how many calls it has had. */
  datatype State = State(indices: Indices, subscribed: set<PropArea>, calls: nat)

  function ClientsOf(clients: map<PropArea, set<Client>>, pa: PropArea): set<Client> {
    if pa in clients then clients[pa] else {}
  }

  function PropsOf(props: map<Client, set<PropArea>>, c: Client): set<PropArea> {
    if c in props then props[c] else {}
  }

  function Elements(list: seq<PropArea>): set<PropArea> {
    set pa | pa in list
  }

  // ---- What the calls do, however their lists repeat and order the ids ----

  function Joined(s: Indices, c: Client, asked: set<PropArea>): Indices {
    Indices(
      map pa | pa in s.clients.Keys + asked :: if pa in asked then ClientsOf(s.clients, pa) + {c} else s.clients[pa],
      if asked == {} then s.props else s.props[c := PropsOf(s.props, c) + asked])
  }

  function Parted(s: Indices, c: Client, asked: set<PropArea>): Indices {
    var left := PropsOf(s.props, c) - asked;
    Indices(
      map pa | pa in s.clients && !(pa in asked && s.clients[pa] - {c} == {}) ::
        if pa in asked then s.clients[pa] - {c} else s.clients[pa],
      if asked == {} then s.props else if left == {} then s.props - {c} else s.props[c := left])
  }

  /** The asked [propId, areaId]s whose only client is `c`. */
  function Sole(s: Indices, c: Client, asked: set<PropArea>): set<PropArea> {
    set pa | pa in asked && pa in s.clients && s.clients[pa] == {c}
  }

  function AfterSubscribe(verdict: nat -> StatusCode, s: State, c: Client, asked: set<PropArea>): (State, StatusCode) {
    var called := s.(calls := s.calls + 1);
    if verdict(s.calls) != Ok then (called, verdict(s.calls))
    else (called.(indices := Joined(s.indices, c, asked), subscribed := s.subscribed + asked), Ok)
  }

  function AfterUnsubscribe(verdict: nat -> StatusCode, s: State, c: Client, asked: set<PropArea>)
    : (State, StatusCode)
  {
    var sole := Sole(s.indices, c, asked);
    if sole == {} then (s.(indices := Parted(s.indices, c, asked)), Ok)
    else
      var called := s.(calls := s.calls + 1);
      if verdict(s.calls) != Ok then (called, verdict(s.calls))
      else (called.(indices := Parted(s.indices, c, asked), subscribed := s.subscribed - sole), Ok)
  }

  // ---- Runs ----

  datatype Step =
    | SubscribeStep(c: Client, list: seq<PropArea>)
    | UnsubscribeStep(c: Client, list: seq<PropArea>)
    | UnsubscribeClientStep(c: Client)

  function Next(verdict: nat -> StatusCode, s: State, step: Step): State {
    match step
    case SubscribeStep(c, list) => AfterSubscribe(verdict, s, c, Elements(list)).0
    case UnsubscribeStep(c, list) => AfterUnsubscribe(verdict, s, c, Elements(list)).0
    case UnsubscribeClientStep(c) => AfterUnsubscribe(verdict, s, c, PropsOf(s.indices.props, c)).0
  }

  function Run(verdict: nat -> StatusCode, steps: seq<Step>): State {
    if steps == [] then State(Indices(map[], map[]), {}, 0)
    else Next(verdict, Run(verdict, steps[..|steps| - 1]), steps[|steps| - 1])
  }

  /** The indices are exact inverses without empty entries, and the hardware is subscribed to exactly
      what has a client. */
  ghost predicate Agrees(s: State) {
    && (forall pa <- s.indices.clients :: s.indices.clients[pa] != {})
    && (forall c <- s.indices.props :: s.indices.props[c] != {})
    && (forall pa, c :: c in ClientsOf(s.indices.clients, pa) <==> pa in PropsOf(s.indices.props, c))
    && s.subscribed == s.indices.clients.Keys
  }

  lemma JoinKeepsAgreement(s: State, c: Client, asked: set<PropArea>, calls: nat)
    requires Agrees(s)
    ensures Agrees(State(Joined(s.indices, c, asked), s.subscribed + asked, calls))
  {
    var t := Joined(s.indices, c, asked);
    forall pa, d ensures d in ClientsOf(t.clients, pa) <==> pa in PropsOf(t.props, d) {
      assert d in ClientsOf(s.indices.clients, pa) <==> pa in PropsOf(s.indices.props, d);
    }
  }

  /** What is chosen before the hardware is called is exactly what loses its last client after it. */
  lemma ChosenIsWhatBecomesEmpty(s: State, c: Client, asked: set<PropArea>)
    requires Agrees(s)
    ensures Sole(s.indices, c, asked) == s.indices.clients.Keys - Parted(s.indices, c, asked).clients.Keys
  {
    forall pa | pa in s.indices.clients && pa in asked
      ensures s.indices.clients[pa] == {c} <==> s.indices.clients[pa] - {c} == {}
    {
      assert s.indices.clients[pa] != {};
    }
  }

  lemma PartKeepsAgreement(s: State, c: Client, asked: set<PropArea>, calls: nat)
    requires Agrees(s)
    ensures Agrees(State(Parted(s.indices, c, asked), s.subscribed - Sole(s.indices, c, asked), calls))
  {
    var t := Parted(s.indices, c, asked);
    ChosenIsWhatBecomesEmpty(s, c, asked);
    forall pa, d ensures d in ClientsOf(t.clients, pa) <==> pa in PropsOf(t.props, d) {
      assert d in ClientsOf(s.indices.clients, pa) <==> pa in PropsOf(s.indices.props, d);
    }
  }

  /** After any run, with any calls rejected and any lists repeating ids, the hardware is subscribed to
      exactly the keys of the client map and the two indices are exact inverses. */
  lemma {:induction false} HardwareAgreesAlways(verdict: nat -> StatusCode, steps: seq<Step>)
    ensures Agrees(Run(verdict, steps))
    decreases |steps|
  {
    if steps != [] {
      var before, last := steps[..|steps| - 1], steps[|steps| - 1];
      HardwareAgreesAlways(verdict, before);
      var s := Run(verdict, before);
      match last
      case SubscribeStep(c, list) => JoinKeepsAgreement(s, c, Elements(list), s.calls + 1);
      case UnsubscribeStep(c, list) =>
        PartKeepsAgreement(s, c, Elements(list), s.calls);
        PartKeepsAgreement(s, c, Elements(list), s.calls + 1);
        assert s.subscribed - {} == s.subscribed;
      case UnsubscribeClientStep(c) =>
        PartKeepsAgreement(s, c, PropsOf(s.indices.props, c), s.calls);
        PartKeepsAgreement(s, c, PropsOf(s.indices.props, c), s.calls + 1);
        assert s.subscribed - {} == s.subscribed;
    }
  }

  // ---- What a call changes ----

  /** `d` is under `pa`, by both indices. */
  predicate IsUnder(s: State, d: Client, pa: PropArea) {
    && pa in s.indices.clients && d in s.indices.clients[pa]
    && d in s.indices.props && pa in s.indices.props[d]
  }

  /** `d` is under `pa` by neither. */
  predicate IsNowhere(s: State, d: Client, pa: PropArea) {
    && (pa in s.indices.clients ==> d !in s.indices.clients[pa])
    && (d in s.indices.props ==> pa !in s.indices.props[d])
  }

  // The client is the only one of a [propId, areaId] it leaves.
  ghost predicate LeavesAlone(s: State, c: Client, asked: set<PropArea>) {
    exists pa <- asked :: pa in s.indices.clients && c in s.indices.clients[pa] &&
      forall d <- s.indices.clients[pa] :: d == c
  }

  /** A subscribe makes one hardware call. Rejected it changes nothing; accepted it puts the client under
      what it asked for, and moves nobody else. */
  lemma SubscribeGivesExactly(verdict: nat -> StatusCode, s: State, c: Client, asked: set<PropArea>, d: Client,
                              pa: PropArea)
    requires Agrees(s)
    ensures var (t, status) := AfterSubscribe(verdict, s, c, asked);
            && t.calls == s.calls + 1 && status == verdict(s.calls)
            && (status != Ok ==> t == s.(calls := s.calls + 1))
            && (status == Ok ==>
                  if IsUnder(s, d, pa) || (d == c && pa in asked) then IsUnder(t, d, pa) else IsNowhere(t, d, pa))
  {
    assert d in ClientsOf(s.indices.clients, pa) <==> pa in PropsOf(s.indices.props, d);
  }

  /** A departure makes a hardware call only when it leaves something without a client. Rejected it changes
      nothing; otherwise it takes the client from under what it asked to leave, and moves nobody else. */
  lemma UnsubscribeTakesExactly(verdict: nat -> StatusCode, s: State, c: Client, asked: set<PropArea>, d: Client,
                                pa: PropArea)
    requires Agrees(s)
    ensures var (t, status) := AfterUnsubscribe(verdict, s, c, asked);
            && t.calls == (if LeavesAlone(s, c, asked) then s.calls + 1 else s.calls)
            && status == (if LeavesAlone(s, c, asked) then verdict(s.calls) else Ok)
            && (status != Ok ==> t == s.(calls := s.calls + 1))
            && (status == Ok ==>
                  if IsUnder(s, d, pa) && !(d == c && pa in asked) then IsUnder(t, d, pa) else IsNowhere(t, d, pa))
  {
    assert d in ClientsOf(s.indices.clients, pa) <==> pa in PropsOf(s.indices.props, d);
    LeavesAloneExactly(s, c, asked);
    PartedExactly(s.indices, c, asked, d, pa);
    hide Parted, Sole, LeavesAlone;
  }

  lemma PartedExactly(s: Indices, c: Client, asked: set<PropArea>, d: Client, pa: PropArea)
    ensures var t, leaves := Parted(s, c, asked), d == c && pa in asked;
            && (d in ClientsOf(t.clients, pa) <==> d in ClientsOf(s.clients, pa) && !leaves)
            && (pa in PropsOf(t.props, d) <==> pa in PropsOf(s.props, d) && !leaves)
  {
    if pa in s.clients && d in s.clients[pa] && !(d == c && pa in asked) {
      assert d in s.clients[pa] - {c} || pa !in asked;
    }
  }

  lemma LeavesAloneExactly(s: State, c: Client, asked: set<PropArea>)
    ensures LeavesAlone(s, c, asked) <==> Sole(s.indices, c, asked) != {}
  {
    if LeavesAlone(s, c, asked) {
      var pa :| pa in asked && pa in s.indices.clients && c in s.indices.clients[pa] &&
        forall d <- s.indices.clients[pa] :: d == c;
      assert pa in Sole(s.indices, c, asked);
    }
    if Sole(s.indices, c, asked) != {} {
      var pa :| pa in Sole(s.indices, c, asked);
    }
  }

  /** Whether the hardware lets a call through; what needs no hardware call is let through. */
  ghost predicate LetThrough(verdict: nat -> StatusCode, s: State, step: Step) {
    verdict(s.calls) == Ok ||
    match step
    case SubscribeStep(_, _) => false
    case UnsubscribeStep(c, list) => !LeavesAlone(s, c, Elements(list))
    case UnsubscribeClientStep(c) => forall pa <- s.indices.clients :: s.indices.clients[pa] != {c}
  }

  /** Whether `d` has asked to be under `pa`, by the calls that were let through. */
  ghost predicate Wants(verdict: nat -> StatusCode, steps: seq<Step>, d: Client, pa: PropArea) {
    steps != [] &&
    var before, last := steps[..|steps| - 1], steps[|steps| - 1];
    if !LetThrough(verdict, Run(verdict, before), last) || last.c != d then Wants(verdict, before, d, pa)
    else match last
      case SubscribeStep(_, list) => pa in list || Wants(verdict, before, d, pa)
      case UnsubscribeStep(_, list) => pa !in list && Wants(verdict, before, d, pa)
      case UnsubscribeClientStep(_) => false
  }

  /** After any run a client is under a [propId, areaId], by both indices, exactly when the calls that were
      let through have put it there, and otherwise it is there by neither. */
  lemma {:induction false} IndicesAreWhatCallsWanted(verdict: nat -> StatusCode, steps: seq<Step>, d: Client,
                                                     pa: PropArea)
    ensures if Wants(verdict, steps, d, pa) then IsUnder(Run(verdict, steps), d, pa)
            else IsNowhere(Run(verdict, steps), d, pa)
    decreases |steps|
  {
    if steps != [] {
      var before, last := steps[..|steps| - 1], steps[|steps| - 1];
      var s := Run(verdict, before);
      IndicesAreWhatCallsWanted(verdict, before, d, pa);
      HardwareAgreesAlways(verdict, before);
      LeavesAllExactly(s, last.c);
      match last
      case SubscribeStep(c, list) => SubscribeGivesExactly(verdict, s, c, Elements(list), d, pa);
      case UnsubscribeStep(c, list) => UnsubscribeTakesExactly(verdict, s, c, Elements(list), d, pa);
      case UnsubscribeClientStep(c) =>
        UnsubscribeTakesExactly(verdict, s, c, PropsOf(s.indices.props, c), d, pa);
    }
  }

  lemma LeavesAllExactly(s: State, c: Client)
    requires Agrees(s)
    ensures LeavesAlone(s, c, PropsOf(s.indices.props, c)) <==>
            exists pa <- s.indices.clients :: s.indices.clients[pa] == {c}
  {
    forall pa | pa in s.indices.clients && s.indices.clients[pa] == {c}
      ensures LeavesAlone(s, c, PropsOf(s.indices.props, c))
    {
      assert c in ClientsOf(s.indices.clients, pa);
    }
  }

  // ---- One more element of a list ----

  lemma JoinedOneMore(s: Indices, c: Client, asked: set<PropArea>, pa: PropArea)
    ensures var t := Joined(s, c, asked);
            Joined(s, c, asked + {pa}) ==
              Indices(t.clients[pa := ClientsOf(t.clients, pa) + {c}], t.props[c := PropsOf(t.props, c) + {pa}])
  {
    var t, u := Joined(s, c, asked), Joined(s, c, asked + {pa});
    assert u.clients == t.clients[pa := ClientsOf(t.clients, pa) + {c}];
    assert PropsOf(s.props, c) + (asked + {pa}) == PropsOf(t.props, c) + {pa};
  }

  function PartOne(s: Indices, c: Client, pa: PropArea): Indices {
    Indices(
      if ClientsOf(s.clients, pa) - {c} == {} then s.clients - {pa} else s.clients[pa := s.clients[pa] - {c}],
      if PropsOf(s.props, c) - {pa} == {} then s.props - {c} else s.props[c := s.props[c] - {pa}])
  }

  lemma PartedOneMore(s: Indices, c: Client, asked: set<PropArea>, pa: PropArea)
    ensures Parted(s, c, asked + {pa}) == PartOne(Parted(s, c, asked), c, pa)
  {
    var t, u := Parted(s, c, asked), Parted(s, c, asked + {pa});
    var p := PartOne(t, c, pa);
    forall q ensures q in u.clients <==> q in p.clients {
      if q != pa {
        assert q in u.clients <==> q in t.clients;
        assert q in p.clients <==> q in t.clients;
      }
    }
    forall q | q in u.clients ensures u.clients[q] == p.clients[q] {
      if q != pa {
        assert u.clients[q] == t.clients[q];
      }
    }
    assert u.clients == p.clients;
    assert PropsOf(s.props, c) - (asked + {pa}) == PropsOf(t.props, c) - {pa};
  }

  lemma PartedNone(s: Indices, c: Client)
    ensures Parted(s, c, Elements([])) == s && Parted(s, c, {}) == s
  {
    assert Parted(s, c, {}).clients == s.clients;
  }

  lemma ElementsOneMore(list: seq<PropArea>, x: PropArea)
    ensures Elements(list + [x]) == Elements(list) + {x}
  {
  }

  // ---- The objects ----

  class SupportedValueHardware {
    const verdict: nat -> StatusCode
    var subscribed: set<PropArea>
    var calls: nat

    constructor (verdict: nat -> StatusCode)
      ensures this.verdict == verdict && subscribed == {} && calls == 0
    {
      this.verdict, subscribed, calls := verdict, {}, 0;
    }

    method SubscribeSupportedValueChange(list: seq<PropArea>) returns (status: StatusCode)
      modifies this
      ensures calls == old(calls) + 1 && status == verdict(old(calls))
      ensures subscribed == if status == Ok then old(subscribed) + Elements(list) else old(subscribed)
    {
      status := verdict(calls);
      calls := calls + 1;
      if status == Ok {
        subscribed := subscribed + set pa | pa in list;
      }
    }

    method UnsubscribeSupportedValueChange(list: seq<PropArea>) returns (status: StatusCode)
      modifies this
      ensures calls == old(calls) + 1 && status == verdict(old(calls))
      ensures subscribed == if status == Ok then old(subscribed) - Elements(list) else old(subscribed)
    {
      status := verdict(calls);
      calls := calls + 1;
      if status == Ok {
        subscribed := subscribed - set pa | pa in list;
      }
    }
  }

  class SupportedValueSubscriptions {
    const hardware: SupportedValueHardware
    var clients: map<PropArea, set<Client>>
    var props: map<Client, set<PropArea>>

    ghost function View(): State
      reads this, hardware
    {
      State(Indices(clients, props), hardware.subscribed, hardware.calls)
    }

    constructor (hardware: SupportedValueHardware)
      ensures this.hardware == hardware && clients == map[] && props == map[]
    {
      this.hardware, clients, props := hardware, map[], map[];
    }

    method Subscribe(c: Client, list: seq<PropArea>) returns (status: StatusCode)
      modifies this, hardware
      ensures (View(), status) == AfterSubscribe(hardware.verdict, old(View()), c, Elements(list))
    {
      status := hardware.SubscribeSupportedValueChange(list);
      if status != Ok {
        return status;
      }
      for i := 0 to |list|
        invariant hardware.subscribed == old(hardware.subscribed) + Elements(list) &&
                  hardware.calls == old(hardware.calls) + 1
        invariant Indices(clients, props) == Joined(old(Indices(clients, props)), c, Elements(list[..i]))
      {
        assert list[..i + 1] == list[..i] + [list[i]];
        ElementsOneMore(list[..i], list[i]);
        JoinedOneMore(old(Indices(clients, props)), c, Elements(list[..i]), list[i]);
        clients := clients[list[i] := (if list[i] in clients then clients[list[i]] else {}) + {c}];
        props := props[c := (if c in props then props[c] else {}) + {list[i]}];
      }
      assert list[..|list|] == list;
      return Ok;
    }

    // Which of the listed [propId, areaId]s nobody else subscribes to.
    method ChooseSole(c: Client, list: seq<PropArea>) returns (chosen: seq<PropArea>)
      ensures Elements(chosen) == Sole(Indices(clients, props), c, Elements(list))
    {
      chosen := [];
      for i := 0 to |list|
        invariant Elements(chosen) == Sole(Indices(clients, props), c, Elements(list[..i]))
      {
        assert list[..i + 1] == list[..i] + [list[i]];
        ElementsOneMore(list[..i], list[i]);
        ElementsOneMore(chosen, list[i]);
        if list[i] in clients && |clients[list[i]]| == 1 && c in clients[list[i]] {
          OnlyElement(clients[list[i]], c);
          chosen := chosen + [list[i]];
        }
      }
      assert list[..|list|] == list;
    }

    method RemoveOne(c: Client, pa: PropArea)
      modifies this
      ensures Indices(clients, props) == PartOne(old(Indices(clients, props)), c, pa)
    {
      if pa in clients {
        clients := clients[pa := clients[pa] - {c}];
      }
      // The lookups insert an empty set for a missing key, and what is empty is erased.
      if pa !in clients || clients[pa] == {} {
        clients := clients - {pa};
      }
      props := props[c := (if c in props then props[c] else {}) - {pa}];
      if props[c] == {} {
        props := props - {c};
      }
    }

    // The book-keeping of a departure.
    method RemoveFromIndices(c: Client, list: seq<PropArea>)
      modifies this
      ensures Indices(clients, props) == Parted(old(Indices(clients, props)), c, Elements(list))
    {
      hide Parted, PartOne, Elements;
      PartedNone(Indices(clients, props), c);
      for i := 0 to |list|
        invariant Indices(clients, props) == Parted(old(Indices(clients, props)), c, Elements(list[..i]))
      {
        assert list[..i + 1] == list[..i] + [list[i]];
        ElementsOneMore(list[..i], list[i]);
        PartedOneMore(old(Indices(clients, props)), c, Elements(list[..i]), list[i]);
        RemoveOne(c, list[i]);
      }
      assert list[..|list|] == list;
    }

    method Unsubscribe(c: Client, list: seq<PropArea>) returns (status: StatusCode)
      modifies this, hardware
      ensures (View(), status) == AfterUnsubscribe(hardware.verdict, old(View()), c, Elements(list))
    {
      var chosen := ChooseSole(c, list);
      assert chosen != [] ==> chosen[0] in Elements(chosen);
      if chosen != [] {
        status := hardware.UnsubscribeSupportedValueChange(chosen);
        if status != Ok {
          return status;
        }
      }
      RemoveFromIndices(c, list);
      return Ok;
    }

    /** The part of a whole client's departure that concerns supported values. */
    method UnsubscribeClient(c: Client) returns (status: StatusCode)
      modifies this, hardware
      ensures (View(), status) == AfterUnsubscribe(hardware.verdict, old(View()), c, PropsOf(old(props), c))
    {
      if c !in props {
        PartedNone(Indices(clients, props), c);
        return Ok;
      }
      var list := ListOf(props[c]);
      assert Elements(list) == props[c];
      status := Unsubscribe(c, list);
    }
  }

  lemma OnlyElement<T>(s: set<T>, x: T)
    requires |s| == 1 && x in s
    ensures s == {x}
  {
    assert |s - {x}| == 0;
  }
}
