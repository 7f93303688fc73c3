/** The queries for supported values: requests that need the hardware are compacted into one call,
    whose answers are scattered back among those given locally. */
module SupportedValueQueries {
  import opened VehicleTypes
  import opened SubscribeOptionParsing

  datatype Query = SupportedValuesLists | MinMaxSupportedValue

  datatype QueryResult =
    | ListResult(status: StatusCode, supportedValuesList: Option<seq<RawPropValues>>)
    | MinMaxResult(status: StatusCode, minSupportedValue: Option<RawPropValues>,
                   maxSupportedValue: Option<RawPropValues>)

  function GetHasSupportedValueInfo(configs: Configs, pa: PropArea): Option<HasSupportedValueInfo> {
    if pa.propId !in configs then None
    else match GetAreaConfig(pa.propId, pa.areaId, configs[pa.propId])
      case None => None
      case Some(areaConfig) => areaConfig.hasSupportedValueInfo
  }

  function EmptyResult(query: Query, status: StatusCode): QueryResult {
    match query
    case SupportedValuesLists => ListResult(status, None)
    case MinMaxSupportedValue => MinMaxResult(status, None, None)
  }

  /** The answer to a request that does not need the hardware. */
  function LocalResult(query: Query, configs: Configs, pa: PropArea): Option<QueryResult> {
    match GetHasSupportedValueInfo(configs, pa)
    case None => Some(EmptyResult(query, InvalidArg))
    case Some(info) =>
      var asks := if query.SupportedValuesLists? then info.hasSupportedValuesList
                  else info.hasMinSupportedValue || info.hasMaxSupportedValue;
      if asks then None else Some(EmptyResult(query, Ok))
  }

  /** Whether an area says that it has what a query asks for; None when it says nothing. */
  ghost predicate Says(configs: Configs, pa: PropArea, info: HasSupportedValueInfo) {
    pa.propId in configs &&
    exists i: nat :: GoesBy(pa.propId, pa.areaId, configs[pa.propId], i) &&
      configs[pa.propId].areaConfigs[i].hasSupportedValueInfo == Some(info)
  }

  /** What a request is answered: an area that says nothing of supported values makes it invalid; when it
      has what is asked for, be it only one of minimum and maximum, the hardware is asked; otherwise there
      is nothing to report. */
  ghost predicate IsAnswer(query: Query, configs: Configs, pa: PropArea, fromHardware: QueryResult, r: QueryResult) {
    && ((forall info :: !Says(configs, pa, info)) ==>
          r == match query
               case SupportedValuesLists => ListResult(InvalidArg, None)
               case MinMaxSupportedValue => MinMaxResult(InvalidArg, None, None))
    && (forall info :: Says(configs, pa, info) ==>
          match query
          case SupportedValuesLists => r == if info.hasSupportedValuesList then fromHardware else ListResult(Ok, None)
          case MinMaxSupportedValue =>
            r == if info.hasMinSupportedValue || info.hasMaxSupportedValue then fromHardware
                 else MinMaxResult(Ok, None, None))
  }

  lemma InfoIs(configs: Configs, pa: PropArea, info: HasSupportedValueInfo)
    ensures Says(configs, pa, info) <==> GetHasSupportedValueInfo(configs, pa) == Some(info)
  {
    if pa.propId in configs {
      var i := AreaConfigIs(pa.propId, pa.areaId, configs[pa.propId]);
      hide GetAreaConfig, GoesBy;
    }
  }

  /** The request goes to the hardware. */
  ghost predicate Asks(query: Query, configs: Configs, pa: PropArea) {
    exists info :: Says(configs, pa, info) &&
      match query
      case SupportedValuesLists => info.hasSupportedValuesList
      case MinMaxSupportedValue => info.hasMinSupportedValue || info.hasMaxSupportedValue
  }

  lemma AsksExactly(query: Query, configs: Configs, pa: PropArea)
    ensures LocalResult(query, configs, pa).None? <==> Asks(query, configs, pa)
  {
    hide Says, GetHasSupportedValueInfo;
    forall info ensures Says(configs, pa, info) <==> GetHasSupportedValueInfo(configs, pa) == Some(info) {
      InfoIs(configs, pa, info);
    }
  }

  lemma LocalResultExactly(query: Query, configs: Configs, pa: PropArea, fromHardware: QueryResult)
    ensures var local := LocalResult(query, configs, pa);
            IsAnswer(query, configs, pa, fromHardware, if local.Some? then local.value else fromHardware)
  {
    hide Says, GetHasSupportedValueInfo;
    forall info ensures Says(configs, pa, info) <==> GetHasSupportedValueInfo(configs, pa) == Some(info) {
      InfoIs(configs, pa, info);
    }
  }

  function ToHardware(query: Query, configs: Configs, requests: seq<PropArea>): seq<PropArea> {
    if requests == [] then []
    else
      var n := |requests| - 1;
      ToHardware(query, configs, requests[..n]) +
      if LocalResult(query, configs, requests[n]).None? then [requests[n]] else []
  }

  // The position of request `i` in the compacted call, if it is part of it.
  function Rank(query: Query, configs: Configs, requests: seq<PropArea>, i: nat): nat
    requires i <= |requests|
  {
    |ToHardware(query, configs, requests[..i])|
  }

  /** The compacted call holds the requests that need the hardware, each at its rank. */
  lemma {:induction false} CompactedAtRank(query: Query, configs: Configs, requests: seq<PropArea>, i: nat)
    requires i < |requests| && LocalResult(query, configs, requests[i]).None?
    ensures Rank(query, configs, requests, i) < |ToHardware(query, configs, requests)|
    ensures ToHardware(query, configs, requests)[Rank(query, configs, requests, i)] == requests[i]
  {
    var n := |requests| - 1;
    if i < n {
      CompactedAtRank(query, configs, requests[..n], i);
      assert requests[..n][..i] == requests[..i];
    }
  }

  // The results as the two loops leave them: local where there is a local answer, and elsewhere the
  // hardware's answer at the request's rank.
  ghost predicate Scattered(query: Query, configs: Configs, requests: seq<PropArea>, fromHardware: seq<QueryResult>,
                            results: seq<QueryResult>)
  {
    && |results| == |requests|
    && forall i :: 0 <= i < |requests| ==>
         match LocalResult(query, configs, requests[i])
         case Some(local) => results[i] == local
         case None => var k := Rank(query, configs, requests, i); k < |fromHardware| && results[i] == fromHardware[k]
  }

  /** `hardware` answers each request of a call by itself, as `answer` says. */
  ghost predicate Pointwise(hardware: seq<PropArea> -> seq<QueryResult>, answer: PropArea -> QueryResult) {
    forall call: seq<PropArea> ::
      |hardware(call)| == |call| && forall k :: 0 <= k < |call| ==> hardware(call)[k] == answer(call[k])
  }

  function HandledAlone(query: Query, configs: Configs, answer: PropArea -> QueryResult, pa: PropArea): QueryResult {
    match LocalResult(query, configs, pa)
    case Some(local) => local
    case None => answer(pa)
  }

  /** The response the two loops leave: None stands for INTERNAL_ERROR. */
  ghost predicate IsResponse(query: Query, configs: Configs, hardware: seq<PropArea> -> seq<QueryResult>,
                             requests: seq<PropArea>, response: Option<seq<QueryResult>>)
  {
    var call := ToHardware(query, configs, requests);
    var fromHardware := if call == [] then [] else hardware(call);
    if |fromHardware| != |call| then response == None
    else response.Some? && Scattered(query, configs, requests, fromHardware, response.value)
  }

  lemma ResultIs(query: Query, configs: Configs, hardware: seq<PropArea> -> seq<QueryResult>,
                 answer: PropArea -> QueryResult, requests: seq<PropArea>, response: Option<seq<QueryResult>>, i: nat)
    requires i < |requests| && Pointwise(hardware, answer) && IsResponse(query, configs, hardware, requests, response)
    ensures response.Some? && |response.value| == |requests|
    ensures response.value[i] == HandledAlone(query, configs, answer, requests[i])
  {
    hide ToHardware, Rank, LocalResult;
    var call := ToHardware(query, configs, requests);
    if LocalResult(query, configs, requests[i]).None? {
      CompactedAtRank(query, configs, requests, i);
      assert hardware(call)[Rank(query, configs, requests, i)] == answer(requests[i]);
    }
  }

  /** With hardware that answers pointwise, each request gets exactly what it would get alone,
      whatever the mix of local and hardware-bound requests around it. */
  lemma EachAsIfAlone(query: Query, configs: Configs, hardware: seq<PropArea> -> seq<QueryResult>,
                      answer: PropArea -> QueryResult, requests: seq<PropArea>, response: Option<seq<QueryResult>>)
    requires Pointwise(hardware, answer) && IsResponse(query, configs, hardware, requests, response)
    ensures response.Some? && |response.value| == |requests|
    ensures forall i :: 0 <= i < |requests| ==> response.value[i] == HandledAlone(query, configs, answer, requests[i])
  {
    assert |hardware(ToHardware(query, configs, requests))| == |ToHardware(query, configs, requests)|;
    hide IsResponse, Pointwise, HandledAlone;
    forall i | 0 <= i < |requests|
      ensures |response.value| == |requests| && response.value[i] == HandledAlone(query, configs, answer, requests[i])
    {
      ResultIs(query, configs, hardware, answer, requests, response, i);
    }
  }

  /** So each request is answered by what its own area says, and by the hardware as if it were asked for it
      alone. */
  lemma EachIsAnswered(query: Query, configs: Configs, hardware: seq<PropArea> -> seq<QueryResult>,
                       answer: PropArea -> QueryResult, requests: seq<PropArea>, response: Option<seq<QueryResult>>)
    requires Pointwise(hardware, answer) && IsResponse(query, configs, hardware, requests, response)
    ensures response.Some? && |response.value| == |requests|
    ensures forall i :: 0 <= i < |requests| ==>
              IsAnswer(query, configs, requests[i], answer(requests[i]), response.value[i])
  {
    EachAsIfAlone(query, configs, hardware, answer, requests, response);
    hide IsResponse, Pointwise, LocalResult, IsAnswer;
    forall i | 0 <= i < |requests| ensures IsAnswer(query, configs, requests[i], answer(requests[i]), response.value[i])
    {
      LocalResultExactly(query, configs, requests[i], answer(requests[i]));
    }
  }

  /** The compacted call is made of the requests that need the hardware, each once and in order. */
  lemma {:induction false} CompactedExactly(query: Query, configs: Configs, requests: seq<PropArea>)
    returns (at: seq<nat>)
    ensures IsSelection(at, |requests|)
    ensures forall i: nat :: i in at <==> i < |requests| && Asks(query, configs, requests[i])
    ensures |ToHardware(query, configs, requests)| == |at|
    ensures forall k :: 0 <= k < |at| ==> ToHardware(query, configs, requests)[k] == requests[at[k]]
  {
    hide LocalResult, Asks;
    at := [];
    if requests != [] {
      var n := |requests| - 1;
      at := CompactedExactly(query, configs, requests[..n]);
      SelectionGrows(at, n);
      AsksExactly(query, configs, requests[n]);
      if Asks(query, configs, requests[n]) {
        at := at + [n];
      }
    }
  }

  /** What a request is answered among others is what a call of its own is answered. */
  lemma SplitCallsAgree(query: Query, configs: Configs, hardware: seq<PropArea> -> seq<QueryResult>,
                        answer: PropArea -> QueryResult, requests: seq<PropArea>, i: nat,
                        together: Option<seq<QueryResult>>, alone: Option<seq<QueryResult>>)
    requires i < |requests| && Pointwise(hardware, answer)
    requires IsResponse(query, configs, hardware, requests, together)
    requires IsResponse(query, configs, hardware, [requests[i]], alone)
    ensures together.Some? && |together.value| == |requests| && alone == Some([together.value[i]])
  {
    hide IsResponse, Pointwise, HandledAlone;
    EachAsIfAlone(query, configs, hardware, answer, requests, together);
    EachAsIfAlone(query, configs, hardware, answer, [requests[i]], alone);
    assert alone.value[0] == HandledAlone(query, configs, answer, [requests[i]][0]);
    assert alone.value == [together.value[i]];
  }

  // The counters list the hardware-bound positions below `i` in order.
  ghost predicate Compacted(query: Query, configs: Configs, requests: seq<PropArea>, i: nat, counters: seq<nat>)
    requires i <= |requests|
  {
    && |counters| == Rank(query, configs, requests, i)
    && (forall k :: 0 <= k < |counters| ==>
          counters[k] < i && LocalResult(query, configs, requests[counters[k]]).None? &&
          Rank(query, configs, requests, counters[k]) == k)
    && forall j: nat :: j < i && LocalResult(query, configs, requests[j]).None? ==>
         Rank(query, configs, requests, j) < |counters| && counters[Rank(query, configs, requests, j)] == j
  }

  lemma RankStep(query: Query, configs: Configs, requests: seq<PropArea>, i: nat)
    requires i < |requests|
    ensures Rank(query, configs, requests, i + 1) ==
            Rank(query, configs, requests, i) + if LocalResult(query, configs, requests[i]).None? then 1 else 0
  {
    hide LocalResult;
    assert requests[..i + 1][..i] == requests[..i];
  }

  lemma CompactedGrows(query: Query, configs: Configs, requests: seq<PropArea>, i: nat, counters: seq<nat>)
    requires i < |requests| && Compacted(query, configs, requests, i, counters)
    ensures Compacted(query, configs, requests, i + 1,
                      if LocalResult(query, configs, requests[i]).None? then counters + [i] else counters)
  {
    hide LocalResult, Rank;
    RankStep(query, configs, requests, i);
    var grown := if LocalResult(query, configs, requests[i]).None? then counters + [i] else counters;
    assert forall k :: 0 <= k < |counters| ==> grown[k] == counters[k];
    forall j: nat | j < i + 1 && LocalResult(query, configs, requests[j]).None?
      ensures Rank(query, configs, requests, j) < |grown| && grown[Rank(query, configs, requests, j)] == j
    {
    }
  }

  ghost predicate LocalsDone(query: Query, configs: Configs, requests: seq<PropArea>, i: nat, results: seq<QueryResult>)
    requires i <= |requests|
  {
    && |results| == |requests|
    && forall j :: 0 <= j < i && LocalResult(query, configs, requests[j]).Some? ==>
         results[j] == LocalResult(query, configs, requests[j]).value
  }

  lemma CountersMatchCall(query: Query, configs: Configs, requests: seq<PropArea>, counters: seq<nat>)
    requires Compacted(query, configs, requests, |requests|, counters)
    ensures |counters| == |ToHardware(query, configs, requests)|
  {
    assert requests[..|requests|] == requests;
  }

  lemma NothingCompacted(query: Query, configs: Configs, requests: seq<PropArea>)
    ensures Compacted(query, configs, requests, 0, [])
  {
  }

  // Answers what needs no hardware and compacts the rest.
  method AnswerLocally(query: Query, configs: Configs, requests: seq<PropArea>)
    returns (results: array<QueryResult>, call: seq<PropArea>, counters: seq<nat>)
    ensures fresh(results) && LocalsDone(query, configs, requests, |requests|, results[..])
    ensures call == ToHardware(query, configs, requests) && Compacted(query, configs, requests, |requests|, counters)
  {
    hide Compacted, LocalResult;
    counters := [];
    call := [];
    results := new QueryResult[|requests|](_ => EmptyResult(query, Ok));
    NothingCompacted(query, configs, requests);
    for i := 0 to |requests|
      invariant fresh(results)
      invariant call == ToHardware(query, configs, requests[..i])
      invariant Compacted(query, configs, requests, i, counters)
      invariant LocalsDone(query, configs, requests, i, results[..])
    {
      assert requests[..i + 1][..i] == requests[..i];
      CompactedGrows(query, configs, requests, i, counters);
      match LocalResult(query, configs, requests[i])
      case Some(local) =>
        results[i] := local;
      case None =>
        call := call + [requests[i]];
        counters := counters + [i];
    }
    assert requests[..|requests|] == requests;
  }

  method ScatterResults(query: Query, configs: Configs, requests: seq<PropArea>, fromHardware: seq<QueryResult>,
                        counters: seq<nat>, results: array<QueryResult>)
    requires |fromHardware| == |counters| && Compacted(query, configs, requests, |requests|, counters)
    requires LocalsDone(query, configs, requests, |requests|, results[..])
    modifies results
    ensures Scattered(query, configs, requests, fromHardware, results[..])
  {
    hide Rank, LocalResult;
    for k := 0 to |counters|
      invariant LocalsDone(query, configs, requests, |requests|, results[..])
      invariant forall j :: 0 <= j < k ==> results[counters[j]] == fromHardware[j]
    {
      assert forall j :: 0 <= j < k ==> counters[j] != counters[k];
      results[counters[k]] := fromHardware[k];
    }
  }

  method GetSupportedValues(query: Query, configs: Configs, hardware: seq<PropArea> -> seq<QueryResult>,
                            requests: seq<PropArea>)
    returns (response: Option<seq<QueryResult>>)
    ensures IsResponse(query, configs, hardware, requests, response)
  {
    hide LocalResult, ToHardware, Compacted, LocalsDone, Scattered;
    var results, call, toHardwareRequestCounters := AnswerLocally(query, configs, requests);
    CountersMatchCall(query, configs, requests, toHardwareRequestCounters);
    var fromHardware := [];
    if |call| != 0 {
      fromHardware := hardware(call);
      if |fromHardware| != |toHardwareRequestCounters| {
        return None;
      }
    }
    ScatterResults(query, configs, requests, fromHardware, toHardwareRequestCounters, results);
    return Some(results[..]);
  }
}
