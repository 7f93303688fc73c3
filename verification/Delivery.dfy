/** Which updates a subscribed client is sent, and in what form. */
module Delivery {
  import opened VehicleTypes
  import opened Rounding
  import opened SubscriptionModel
  import opened SubscriptionSafety

  /** The values a client was once compared with, by [propId, areaId]. */
  type History = map<PropArea, VehiclePropValue>

  /** What one client has been sent so far and the history kept for it. */
  datatype Mailbox = Mailbox(sent: seq<VehiclePropValue>, history: History)

  function Sanitized(v: VehiclePropValue, resolution: real): VehiclePropValue {
    var raw := v.value;
    v.(value := raw.(
      int32Values := seq(|raw.int32Values|,
                         i requires 0 <= i < |raw.int32Values| =>
                           Trunc(Nearest(raw.int32Values[i] as real, resolution))),
      int64Values := seq(|raw.int64Values|,
                         i requires 0 <= i < |raw.int64Values| =>
                           Trunc(Nearest(raw.int64Values[i] as real, resolution))),
      floatValues := seq(|raw.floatValues|,
                         i requires 0 <= i < |raw.floatValues| => Nearest(raw.floatValues[i], resolution))))
  }

  // ---- The filter for variable update rate ----

  // What the lookup of a [propId, areaId] without a config yields.
  function ConfigOf(m: Manager, pa: PropArea): ContSubConfigs {
    if pa in m.configs then m.configs[pa] else NEW_CONFIG
  }

  function ResolutionForClient(config: ContSubConfigs, c: Client): real {
    if c in config.byClient then config.byClient[c].resolution else 0.0
  }

  predicate IsVurEnabledForClient(config: ContSubConfigs, c: Client) {
    c in config.byClient && config.byClient[c].enableVur
  }

  /** The client wants changes only, and the hardware cannot be told so because another does not. */
  predicate IsFiltered(m: Manager, pa: PropArea, c: Client) {
    IsVurEnabledForClient(ConfigOf(m, pa), c) && !ConfigOf(m, pa).cached.vurEnabled
  }

  predicate SameReading(a: VehiclePropValue, b: VehiclePropValue) {
    a.value == b.value && a.status == b.status
  }

  predicate IsValueUpdated(h: History, v: VehiclePropValue) {
    v.pa !in h || (h[v.pa].timestamp <= v.timestamp && !SameReading(h[v.pa], v))
  }

  // Inserting into a hash set keeps the element that is there.
  function Recorded(h: History, v: VehiclePropValue): History {
    if v.pa in h then h else h[v.pa := v]
  }

  function DeliverOne(m: Manager, box: Mailbox, v: VehiclePropValue, c: Client): Mailbox {
    if c !in ClientsOf(m, v.pa) then box
    else
      var rounded := Sanitized(v, ResolutionForClient(ConfigOf(m, v.pa), c));
      if !IsFiltered(m, v.pa, c) then box.(sent := box.sent + [rounded])
      else Mailbox(if IsValueUpdated(box.history, rounded) then box.sent + [rounded] else box.sent,
                   Recorded(box.history, rounded))
  }

  function DeliverAll(m: Manager, box: Mailbox, values: seq<VehiclePropValue>, c: Client): Mailbox
    decreases |values|
  {
    if values == [] then box else DeliverAll(m, DeliverOne(m, box, values[0], c), values[1..], c)
  }

  // ---- What that means ----

  function MatchingOne(m: Manager, v: VehiclePropValue, c: Client): seq<VehiclePropValue> {
    if c in ClientsOf(m, v.pa) then [Sanitized(v, ResolutionForClient(ConfigOf(m, v.pa), c))] else []
  }

  /** Everything a client subscribes to, in order, rounded as it asked. */
  function Matching(m: Manager, values: seq<VehiclePropValue>, c: Client): seq<VehiclePropValue> {
    if values == [] then [] else MatchingOne(m, values[0], c) + Matching(m, values[1..], c)
  }

  function At(values: seq<VehiclePropValue>, pa: PropArea): seq<VehiclePropValue> {
    if values == [] then []
    else if values[0].pa == pa then [values[0]] + At(values[1..], pa)
    else At(values[1..], pa)
  }

  ghost predicate IsSubsequence<T>(xs: seq<T>, ys: seq<T>) {
    if xs == [] then true
    else if ys == [] then false
    else (xs[0] == ys[0] && IsSubsequence(xs[1..], ys[1..])) || IsSubsequence(xs, ys[1..])
  }

  lemma {:induction false} SentOnlyGrows(m: Manager, box: Mailbox, values: seq<VehiclePropValue>, c: Client)
    ensures var alone := DeliverAll(m, box.(sent := []), values, c);
            DeliverAll(m, box, values, c) == alone.(sent := box.sent + alone.sent)
    decreases |values|
  {
    hide Sanitized;
    if values != [] {
      var one, single := DeliverOne(m, box, values[0], c), DeliverOne(m, box.(sent := []), values[0], c);
      assert one == single.(sent := box.sent + single.sent);
      SentOnlyGrows(m, one, values[1..], c);
      SentOnlyGrows(m, single, values[1..], c);
      var rest := DeliverAll(m, single.(sent := []), values[1..], c);
      assert box.sent + single.sent + rest.sent == box.sent + (single.sent + rest.sent);
    }
  }

  /** A client is sent a subsequence of its matching updates, so nothing twice, nothing out of order
      and nothing it does not subscribe to. */
  lemma {:induction false} SentIsSubsequence(m: Manager, h: History, values: seq<VehiclePropValue>, c: Client)
    ensures IsSubsequence(DeliverAll(m, Mailbox([], h), values, c).sent, Matching(m, values, c))
    decreases |values|
  {
    hide Sanitized;
    if values != [] {
      var first, head := DeliverOne(m, Mailbox([], h), values[0], c), MatchingOne(m, values[0], c);
      SentOnlyGrows(m, first, values[1..], c);
      SentIsSubsequence(m, first.history, values[1..], c);
      var rest, tail := DeliverAll(m, Mailbox([], first.history), values[1..], c).sent, Matching(m, values[1..], c);
      assert first.sent == [] || first.sent == head;
      assert (first.sent + rest)[|first.sent|..] == rest && (head + tail)[|head|..] == tail;
      assert [] + rest == rest && [] + tail == tail;
    }
  }

  lemma {:induction false} AtConcat(xs: seq<VehiclePropValue>, ys: seq<VehiclePropValue>, pa: PropArea)
    ensures At(xs + ys, pa) == At(xs, pa) + At(ys, pa)
  {
    if xs == [] {
      assert xs + ys == ys;
    } else {
      AtConcat(xs[1..], ys, pa);
      assert (xs + ys)[1..] == xs[1..] + ys;
    }
  }

  /** What a filtered client gets of a stream, given the value recorded for it: the record never
      moves once it is there. */
  function ChangesFrom(first: VehiclePropValue, stream: seq<VehiclePropValue>): seq<VehiclePropValue> {
    if stream == [] then []
    else
      var v := stream[0];
      var changed := first.timestamp <= v.timestamp && (first.value != v.value || first.status != v.status);
      (if changed then [v] else []) + ChangesFrom(first, stream[1..])
  }

  function Filtered(h: History, pa: PropArea, stream: seq<VehiclePropValue>): seq<VehiclePropValue> {
    if pa in h then ChangesFrom(h[pa], stream)
    else if stream == [] then []
    else [stream[0]] + ChangesFrom(stream[0], stream[1..])
  }

  /** A client gets every matching update of a [propId, areaId] it is not filtered at, exactly once, in
      order and rounded by its own resolution; at one it is filtered at, exactly what differs from the
      first reading it was ever compared with. */
  lemma {:induction false} SentExactly(m: Manager, h: History, values: seq<VehiclePropValue>, c: Client, pa: PropArea)
    ensures var stream := At(Matching(m, values, c), pa);
            At(DeliverAll(m, Mailbox([], h), values, c).sent, pa) ==
              if IsFiltered(m, pa, c) then Filtered(h, pa, stream) else stream
    decreases |values|
  {
    hide Sanitized, IsFiltered, IsValueUpdated;
    if values != [] {
      var v := values[0];
      var first, head, tail := DeliverOne(m, Mailbox([], h), v, c), MatchingOne(m, v, c), Matching(m, values[1..], c);
      SentOnlyGrows(m, first, values[1..], c);
      SentExactly(m, first.history, values[1..], c, pa);
      AtConcat(first.sent, DeliverAll(m, Mailbox([], first.history), values[1..], c).sent, pa);
      AtConcat(head, tail, pa);
      SentOneExactly(m, h, v, c, pa, At(tail, pa));
    }
  }

  lemma SentOneExactly(m: Manager, h: History, v: VehiclePropValue, c: Client, pa: PropArea,
                       tail: seq<VehiclePropValue>)
    ensures var box := DeliverOne(m, Mailbox([], h), v, c);
            var stream := At(MatchingOne(m, v, c), pa) + tail;
            if IsFiltered(m, pa, c) then At(box.sent, pa) + Filtered(box.history, pa, tail) == Filtered(h, pa, stream)
            else At(box.sent, pa) == At(MatchingOne(m, v, c), pa)
  {
    var head := At(MatchingOne(m, v, c), pa);
    assert |MatchingOne(m, v, c)| == 1 ==> MatchingOne(m, v, c)[1..] == [];
    if head == [] {
      assert head + tail == tail;
    } else {
      assert (head + tail)[0] == head[0] && (head + tail)[1..] == tail;
    }
  }

  // ---- What a client gets of the updates themselves ----

  /** `n` is `x` rounded to the resolution, and what is left of a fraction dropped. */
  ghost predicate IsNearestInt(n: int, x: int, resolution: real) {
    exists w: real :: IsNearest(w, x as real, resolution) && IsTruncated(n, w)
  }

  /** `r` is `v` with its numbers rounded and nothing else changed. */
  ghost predicate IsRounded(r: VehiclePropValue, v: VehiclePropValue, resolution: real) {
    && r.pa == v.pa && r.timestamp == v.timestamp && r.status == v.status
    && r.value.byteValues == v.value.byteValues && r.value.stringValue == v.value.stringValue
    && |r.value.int32Values| == |v.value.int32Values|
    && |r.value.int64Values| == |v.value.int64Values|
    && |r.value.floatValues| == |v.value.floatValues|
    && (forall i :: 0 <= i < |v.value.int32Values| ==>
          IsNearestInt(r.value.int32Values[i], v.value.int32Values[i], resolution))
    && (forall i :: 0 <= i < |v.value.int64Values| ==>
          IsNearestInt(r.value.int64Values[i], v.value.int64Values[i], resolution))
    && (forall i :: 0 <= i < |v.value.floatValues| ==>
          IsNearest(r.value.floatValues[i], v.value.floatValues[i], resolution))
  }

  lemma TruncatedIs(w: real)
    ensures IsTruncated(Trunc(w), w)
  {
  }

  lemma NearestIntIs(x: int, resolution: real)
    ensures IsNearestInt(Trunc(Nearest(x as real, resolution)), x, resolution)
  {
    NearestIs(x as real, resolution);
    TruncatedIs(Nearest(x as real, resolution));
  }

  lemma SanitizedIs(v: VehiclePropValue, resolution: real)
    ensures IsRounded(Sanitized(v, resolution), v, resolution)
  {
    hide IsNearest, IsNearestInt, Nearest, Trunc;
    var raw, rounded := v.value, Sanitized(v, resolution).value;
    forall i | 0 <= i < |raw.int32Values|
      ensures IsNearestInt(rounded.int32Values[i], raw.int32Values[i], resolution)
    {
      NearestIntIs(raw.int32Values[i], resolution);
    }
    forall i | 0 <= i < |raw.int64Values|
      ensures IsNearestInt(rounded.int64Values[i], raw.int64Values[i], resolution)
    {
      NearestIntIs(raw.int64Values[i], resolution);
    }
    forall i | 0 <= i < |raw.floatValues| ensures IsNearest(rounded.floatValues[i], raw.floatValues[i], resolution) {
      NearestIs(raw.floatValues[i], resolution);
    }
  }

  ghost predicate AllRounded(rounded: seq<VehiclePropValue>, values: seq<VehiclePropValue>, resolution: real) {
    |rounded| == |values| && forall k :: 0 <= k < |values| ==> IsRounded(rounded[k], values[k], resolution)
  }

  lemma RoundedConcat(xs: seq<VehiclePropValue>, ys: seq<VehiclePropValue>, us: seq<VehiclePropValue>,
                      vs: seq<VehiclePropValue>, resolution: real)
    requires AllRounded(xs, us, resolution) && AllRounded(ys, vs, resolution)
    ensures AllRounded(xs + ys, us + vs, resolution)
  {
    hide IsRounded;
  }

  // The updates of `pa` that a client takes.
  function Taken(m: Manager, values: seq<VehiclePropValue>, c: Client, pa: PropArea): seq<VehiclePropValue> {
    if pa in m.clients && c in m.clients[pa] then At(values, pa) else []
  }

  lemma AtOne(v: VehiclePropValue, pa: PropArea)
    ensures At([v], pa) == if v.pa == pa then [v] else []
  {
    assert [v][1..] == [] && [v] + At([], pa) == [v];
  }

  lemma AtNone(pa: PropArea)
    ensures At([], pa) == []
  {
  }

  lemma OneIsRounded(m: Manager, v: VehiclePropValue, c: Client, pa: PropArea)
    ensures AllRounded(At(MatchingOne(m, v, c), pa), Taken(m, [v], c, pa), ResolutionForClient(ConfigOf(m, pa), c))
  {
    var resolution := ResolutionForClient(ConfigOf(m, v.pa), c);
    var r := Sanitized(v, resolution);
    SanitizedIs(v, resolution);
    assert r.pa == v.pa;
    hide Sanitized, IsRounded, At;
    AtOne(r, pa);
    AtOne(v, pa);
    AtNone(pa);
  }

  lemma {:induction false} MatchingIsRounded(m: Manager, values: seq<VehiclePropValue>, c: Client, pa: PropArea)
    ensures AllRounded(At(Matching(m, values, c), pa), Taken(m, values, c, pa),
                       ResolutionForClient(ConfigOf(m, pa), c))
    decreases |values|
  {
    if values != [] {
      var v, rest := values[0], values[1..];
      MatchingIsRounded(m, rest, c, pa);
      OneIsRounded(m, v, c, pa);
      AtConcat(MatchingOne(m, v, c), Matching(m, rest, c), pa);
      AtConcat([v], rest, pa);
      assert [v] + rest == values;
      hide AllRounded, MatchingOne, ConfigOf, ResolutionForClient, At;
      assert Taken(m, values, c, pa) == Taken(m, [v], c, pa) + Taken(m, rest, c, pa);
      RoundedConcat(At(MatchingOne(m, v, c), pa), At(Matching(m, rest, c), pa), Taken(m, [v], c, pa),
                    Taken(m, rest, c, pa), ResolutionForClient(ConfigOf(m, pa), c));
    }
  }

  /** A client is filtered at a [propId, areaId] exactly when it wants changes only and another does not. */
  lemma FilteredExactly(env: Env, st: Stack, pa: PropArea, c: Client)
    requires Inv(env, st)
    ensures var asked := Asked(st.m, pa);
            IsFiltered(st.m, pa, c) <==>
              c in asked && asked[c].enableVur && exists d <- asked :: !asked[d].enableVur
  {
    assert PropInv(env, st.m, st.hw, pa);
    assert c in Asked(st.m, pa) ==> Asked(st.m, pa) != map[];
  }

  // What is recorded is the first reading that was compared, and it stays.
  lemma {:induction false} RecordedExactly(m: Manager, h: History, values: seq<VehiclePropValue>, c: Client,
                                           pa: PropArea)
    ensures var stream, after := At(Matching(m, values, c), pa), DeliverAll(m, Mailbox([], h), values, c).history;
            && (pa in after <==> pa in h || (IsFiltered(m, pa, c) && stream != []))
            && (pa in after ==> after[pa] == if pa in h then h[pa] else stream[0])
    decreases |values|
  {
    hide Sanitized, IsFiltered, IsValueUpdated;
    if values != [] {
      var v, rest := values[0], values[1..];
      var first, head := DeliverOne(m, Mailbox([], h), v, c), MatchingOne(m, v, c);
      SentOnlyGrows(m, first, rest, c);
      RecordedExactly(m, first.history, rest, c, pa);
      AtConcat(head, Matching(m, rest, c), pa);
      SanitizedKeepsPa(v, ResolutionForClient(ConfigOf(m, v.pa), c));
      assert |head| == 1 ==> head[1..] == [];
    }
  }

  lemma SanitizedKeepsPa(v: VehiclePropValue, resolution: real)
    ensures Sanitized(v, resolution).pa == v.pa
  {
  }

  /** What one call sends a client of a [propId, areaId], in any reachable state, whatever was recorded of
      it before. When it does not subscribe, nothing. When it does, the updates one for one, in order and
      rounded to its resolution; but when it wants changes only and another client does not, of these
      those that differ from the one it was first compared with, and are not older; that one is recorded,
      for this call and all later ones. */
  lemma DeliveredExactly(env: Env, st: Stack, h: History, values: seq<VehiclePropValue>, c: Client, pa: PropArea)
    returns (stream: seq<VehiclePropValue>)
    requires Inv(env, st)
    ensures var asked := Asked(st.m, pa);
            var subscribes := pa in st.m.clients && c in st.m.clients[pa];
            var changesOnly := c in asked && asked[c].enableVur && exists d <- asked :: !asked[d].enableVur;
            var sent := At(DeliverAll(st.m, Mailbox([], h), values, c).sent, pa);
            && AllRounded(stream, if subscribes then At(values, pa) else [],
                          if c in asked then asked[c].resolution else 0.0)
            && sent == if !changesOnly || stream == [] then stream
                       else if pa in h then ChangesFrom(h[pa], stream)
                       else [stream[0]] + ChangesFrom(stream[0], stream[1..])
    ensures var asked, after := Asked(st.m, pa), DeliverAll(st.m, Mailbox([], h), values, c).history;
            var changesOnly := c in asked && asked[c].enableVur && exists d <- asked :: !asked[d].enableVur;
            && (pa in after <==> pa in h || (changesOnly && stream != []))
            && (pa in after ==> after[pa] == if pa in h then h[pa] else stream[0])
  {
    RecordedExactly(st.m, h, values, c, pa);
    stream := At(Matching(st.m, values, c), pa);
    MatchingIsRounded(st.m, values, c, pa);
    SentExactly(st.m, h, values, c, pa);
    FilteredExactly(env, st, pa, c);
    hide IsFiltered, DeliverAll, Matching, AllRounded, Inv;
  }

  // ---- What the comments intend of the filter, and when the code does it ----

  /** The filter that compares with the last reading, as the comments intend. */
  function IntendedChanges(last: VehiclePropValue, stream: seq<VehiclePropValue>): seq<VehiclePropValue>
    decreases |stream|
  {
    if stream == [] then []
    else if last.timestamp > stream[0].timestamp then IntendedChanges(last, stream[1..])
    else (if SameReading(last, stream[0]) then [] else [stream[0]]) + IntendedChanges(stream[0], stream[1..])
  }

  // A filter that remembers `known` sends `v`.
  predicate Sends(known: VehiclePropValue, v: VehiclePropValue) {
    known.timestamp <= v.timestamp && !SameReading(known, v)
  }

  /** What a stream has to be like, after the first reading and the last one that was not outdated: an
      outdated reading is older than the first or the same as it; and any other, once the value has
      left the first, neither repeats the last nor returns to the first. */
  predicate NeverRepeatsOrReturns(first: VehiclePropValue, last: VehiclePropValue, stream: seq<VehiclePropValue>)
    decreases |stream|
  {
    stream == [] ||
    var v, rest := stream[0], stream[1..];
    if v.timestamp < last.timestamp then
      (v.timestamp < first.timestamp || SameReading(first, v)) && NeverRepeatsOrReturns(first, last, rest)
    else
      (SameReading(first, last) || (!SameReading(last, v) && !SameReading(first, v))) &&
      NeverRepeatsOrReturns(first, v, rest)
  }

  lemma {:induction false} HeadsDiffer(first: VehiclePropValue, last: VehiclePropValue, stream: seq<VehiclePropValue>)
    ensures var code := ChangesFrom(first, stream); code != [] ==> !SameReading(first, code[0])
    ensures var intended := IntendedChanges(last, stream);
            intended != [] ==> !SameReading(last, intended[0]) && last.timestamp <= intended[0].timestamp
    decreases |stream|
  {
    if stream != [] {
      HeadsDiffer(first, last, stream[1..]);
      HeadsDiffer(first, stream[0], stream[1..]);
    }
  }

  lemma {:induction false} FilterWalksAlike(first: VehiclePropValue, last: VehiclePropValue,
                                            stream: seq<VehiclePropValue>)
    requires first.timestamp <= last.timestamp
    ensures ChangesFrom(first, stream) == IntendedChanges(last, stream) <==> NeverRepeatsOrReturns(first, last, stream)
    decreases |stream|
  {
    if stream != [] {
      var v, rest := stream[0], stream[1..];
      var kept := if last.timestamp > v.timestamp then last else v;
      FilterWalksAlike(first, kept, rest);
      HeadsDiffer(first, kept, rest);
      var code, intended := ChangesFrom(first, rest), IntendedChanges(kept, rest);
      hide ChangesFrom, IntendedChanges, NeverRepeatsOrReturns, SameReading;
      WalkOne(first, last, stream);
      StepsDiffer(first, last, v, kept, code, intended);
    }
  }

  lemma WalkOne(first: VehiclePropValue, last: VehiclePropValue, stream: seq<VehiclePropValue>)
    requires stream != [] && first.timestamp <= last.timestamp
    ensures var v := stream[0];
            var kept := if last.timestamp > v.timestamp then last else v;
            && ChangesFrom(first, stream) == (if Sends(first, v) then [v] else []) + ChangesFrom(first, stream[1..])
            && IntendedChanges(last, stream) ==
               (if Sends(last, v) then [v] else []) + IntendedChanges(kept, stream[1..])
            && (NeverRepeatsOrReturns(first, last, stream) <==>
                  (Sends(first, v) <==> Sends(last, v)) && NeverRepeatsOrReturns(first, kept, stream[1..]))
  {
  }

  // One step of the two filters keeps what they send equal only when it decides alike.
  lemma StepsDiffer(first: VehiclePropValue, last: VehiclePropValue, v: VehiclePropValue, kept: VehiclePropValue,
                    code: seq<VehiclePropValue>, intended: seq<VehiclePropValue>)
    requires first.timestamp <= last.timestamp && kept == if last.timestamp > v.timestamp then last else v
    requires code != [] ==> !SameReading(first, code[0])
    requires intended != [] ==> !SameReading(kept, intended[0]) && kept.timestamp <= intended[0].timestamp
    ensures (if Sends(first, v) then [v] else []) + code == (if Sends(last, v) then [v] else []) + intended <==>
            (Sends(first, v) <==> Sends(last, v)) && code == intended
  {
    assert [] + code == code && [] + intended == intended;
    assert ([v] + code)[0] == v && ([v] + intended)[0] == v;
    assert ([v] + code)[1..] == code && ([v] + intended)[1..] == intended;
  }

  /** On any stream, in time order or not, the code sends what the comments intend exactly when the
      stream never repeats or returns in that sense. */
  lemma FilterIsAsIntendedExactly(first: VehiclePropValue, stream: seq<VehiclePropValue>)
    ensures ChangesFrom(first, stream) == IntendedChanges(first, stream) <==>
            NeverRepeatsOrReturns(first, first, stream)
  {
    FilterWalksAlike(first, first, stream);
  }

  /** The same of what a filtered client is sent, from its first update on. */
  lemma FilteredClientGetsIntendedExactly(m: Manager, values: seq<VehiclePropValue>, c: Client, pa: PropArea)
    requires IsFiltered(m, pa, c)
    ensures var stream := At(Matching(m, values, c), pa);
            var sent := At(DeliverAll(m, Mailbox([], map[]), values, c).sent, pa);
            if stream == [] then sent == []
            else sent == [stream[0]] + IntendedChanges(stream[0], stream[1..]) <==>
              NeverRepeatsOrReturns(stream[0], stream[0], stream[1..])
  {
    hide IsFiltered, NeverRepeatsOrReturns;
    SentExactly(m, map[], values, c, pa);
    var stream := At(Matching(m, values, c), pa);
    if stream != [] {
      FilterIsAsIntendedExactly(stream[0], stream[1..]);
      var code, intended := ChangesFrom(stream[0], stream[1..]), IntendedChanges(stream[0], stream[1..]);
      assert ([stream[0]] + code)[1..] == code && ([stream[0]] + intended)[1..] == intended;
    }
  }

  function Reading(timestamp: int, x: int): VehiclePropValue {
    VehiclePropValue(PropArea(7, 1), timestamp, 0, RawPropValues([x], [], [], [], ""))
  }

  /** The reading goes from 1 to 2, stays there, and returns: the client is told of 2 twice and is not
      told of the return. */
  lemma FilterRepeatsAndMisses()
    ensures ChangesFrom(Reading(0, 1), [Reading(1, 2), Reading(2, 2), Reading(3, 1)]) == [Reading(1, 2), Reading(2, 2)]
    ensures IntendedChanges(Reading(0, 1), [Reading(1, 2), Reading(2, 2), Reading(3, 1)]) ==
            [Reading(1, 2), Reading(3, 1)]
  {
    var stream := [Reading(1, 2), Reading(2, 2), Reading(3, 1)];
    assert stream[1..] == [Reading(2, 2), Reading(3, 1)] && stream[1..][1..] == [Reading(3, 1)];
    assert Reading(0, 1).value.int32Values[0] == 1 && Reading(1, 2).value.int32Values[0] == 2;
    assert Reading(2, 2).value.int32Values[0] == 2 && Reading(3, 1).value.int32Values[0] == 1;
    assert IntendedChanges(Reading(2, 2), [Reading(3, 1)]) == [Reading(3, 1)];
    assert IntendedChanges(Reading(1, 2), stream[1..]) == [Reading(3, 1)];
  }

  /** A reading that arrives late: it is outdated by the second one, but not by the first. */
  lemma FilterSendsOutdated()
    ensures ChangesFrom(Reading(0, 1), [Reading(10, 2), Reading(5, 3)]) == [Reading(10, 2), Reading(5, 3)]
    ensures IntendedChanges(Reading(0, 1), [Reading(10, 2), Reading(5, 3)]) == [Reading(10, 2)]
  {
    var stream := [Reading(10, 2), Reading(5, 3)];
    assert stream[1..] == [Reading(5, 3)];
    assert Reading(0, 1).value.int32Values[0] == 1 && Reading(10, 2).value.int32Values[0] == 2;
    assert Reading(5, 3).value.int32Values[0] == 3;
    assert ChangesFrom(Reading(0, 1), [Reading(5, 3)]) == [Reading(5, 3)];
  }
}
