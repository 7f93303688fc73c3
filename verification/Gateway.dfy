/** The gateway that replicates local property values to remote nodes: polls, change detection, one
    queue of batches per node, and sends that may fail. */
module Gateway {
  import opened VehicleTypes

  /** A named group of properties that travel in one message. */
  datatype MessageFilter = MessageFilter(msgId: string, propIds: set<int>)

  datatype Batch = Batch(msgId: string, values: seq<VehiclePropValue>)

  datatype Attempt = Attempt(batch: Batch, ok: bool)

  /** A forwarder, the batch its worker is sending, what was sent before, and the remote's values. */
  datatype Node = Node(
    messages: seq<MessageFilter>,
    allPropIds: set<int>,
    queue: seq<Batch>,
    sending: Option<Batch>,
    attempts: seq<Attempt>,
    remote: map<int, RawPropValues>)

  datatype GetValueResult = GetValueResult(status: StatusCode, prop: Option<VehiclePropValue>)

  // ---- What the code computes ----

  function Change(previous: map<int, VehiclePropValue>, result: GetValueResult): Option<VehiclePropValue> {
    if result.status != Ok || result.prop.None? then None
    else
      var v := result.prop.value;
      if v.pa.propId in previous && previous[v.pa.propId].value == v.value then None else Some(v)
  }

  function Noted(previous: map<int, VehiclePropValue>, change: Option<VehiclePropValue>): map<int, VehiclePropValue> {
    if change.Some? then previous[change.value.pa.propId := change.value] else previous
  }

  // The changed values of one poll, and the values to compare the next poll with.
  function Scan(previous: map<int, VehiclePropValue>, results: seq<GetValueResult>)
    : (seq<VehiclePropValue>, map<int, VehiclePropValue>)
  {
    if results == [] then ([], previous)
    else
      var (changed, noted) := Scan(previous, results[..|results| - 1]);
      var change := Change(noted, results[|results| - 1]);
      (if change.Some? then changed + [change.value] else changed, Noted(noted, change))
  }

  function Select(values: seq<VehiclePropValue>, propIds: set<int>): seq<VehiclePropValue> {
    if values == [] then []
    else
      var rest, v := Select(values[..|values| - 1], propIds), values[|values| - 1];
      if v.pa.propId in propIds then rest + [v] else rest
  }

  // One batch per message group that has a matching value.
  function Partition(messages: seq<MessageFilter>, values: seq<VehiclePropValue>): seq<Batch> {
    if messages == [] then []
    else
      var rest, last := Partition(messages[..|messages| - 1], values), messages[|messages| - 1];
      if Select(values, last.propIds) == [] then rest else rest + [Batch(last.msgId, Select(values, last.propIds))]
  }

  predicate AnyRelevant(allPropIds: set<int>, values: seq<VehiclePropValue>) {
    exists v <- values :: v.pa.propId in allPropIds
  }

  function Forwarded(node: Node, values: seq<VehiclePropValue>): Node {
    if AnyRelevant(node.allPropIds, values) then node.(queue := node.queue + Partition(node.messages, values)) else node
  }

  function Applied(remote: map<int, RawPropValues>, values: seq<VehiclePropValue>): map<int, RawPropValues> {
    if values == [] then remote
    else
      var v := values[|values| - 1];
      Applied(remote, values[..|values| - 1])[v.pa.propId := v.value]
  }

  function Finished(node: Node, ok: bool): Node
    requires node.sending.Some?
  {
    var batch := node.sending.value;
    node.(sending := None, attempts := node.attempts + [Attempt(batch, ok)],
          remote := if ok then Applied(node.remote, batch.values) else node.remote)
  }

  // ---- Runs ----

  /** The gateway, its nodes, and for each property the value the last successful poll saw. */
  datatype State = State(previous: map<int, VehiclePropValue>, nodes: seq<Node>, polled: map<int, RawPropValues>)

  datatype Step =
    | PollFails
    | Poll(results: seq<GetValueResult>)
    | Take(i: nat)
    | Finish(i: nat, ok: bool)

  function Seen(polled: map<int, RawPropValues>, results: seq<GetValueResult>): map<int, RawPropValues> {
    if results == [] then polled
    else
      var seen, last := Seen(polled, results[..|results| - 1]), results[|results| - 1];
      if last.status == Ok && last.prop.Some? then seen[last.prop.value.pa.propId := last.prop.value.value] else seen
  }

  predicate Enabled(s: State, step: Step) {
    match step
    case Take(i) => i < |s.nodes| && s.nodes[i].queue != [] && s.nodes[i].sending.None?
    case Finish(i, _) => i < |s.nodes| && s.nodes[i].sending.Some?
    case _ => true
  }

  function ForwardedToAll(nodes: seq<Node>, values: seq<VehiclePropValue>): seq<Node> {
    if values == [] then nodes else seq(|nodes|, i requires 0 <= i < |nodes| => Forwarded(nodes[i], values))
  }

  function Next(s: State, step: Step): State
    requires Enabled(s, step)
  {
    match step
    case PollFails => s
    case Poll(results) =>
      var (changed, noted) := Scan(s.previous, results);
      State(noted, ForwardedToAll(s.nodes, changed), Seen(s.polled, results))
    case Take(i) =>
      var node := s.nodes[i];
      s.(nodes := s.nodes[i := node.(queue := node.queue[1..], sending := Some(node.queue[0]))])
    case Finish(i, ok) => s.(nodes := s.nodes[i := Finished(s.nodes[i], ok)])
  }

  function AllOf(messages: seq<MessageFilter>): set<int> {
    set m, p | m in messages && p in m.propIds :: p
  }

  // A config lists message groups, each with the properties it lists.
  function FilterOf(group: (string, seq<int>)): MessageFilter {
    MessageFilter(group.0, set p | p in group.1)
  }

  function Filters(config: seq<(string, seq<int>)>): seq<MessageFilter> {
    if config == [] then [] else Filters(config[..|config| - 1]) + [FilterOf(config[|config| - 1])]
  }

  // The node a config declares: nothing queued, nothing sent.
  function NewNode(messages: seq<MessageFilter>, remote: map<int, RawPropValues>): Node {
    Node(messages, AllOf(messages), [], None, [], remote)
  }

  ghost predicate IsInitial(s: State) {
    && s.previous == map[] && s.polled == map[]
    && forall i :: 0 <= i < |s.nodes| ==> s.nodes[i] == NewNode(s.nodes[i].messages, s.nodes[i].remote)
  }

  ghost predicate IsRun(states: seq<State>, steps: seq<Step>) {
    && |states| == |steps| + 1 && IsInitial(states[0])
    && forall i :: 0 <= i < |steps| ==> Enabled(states[i], steps[i]) && states[i + 1] == Next(states[i], steps[i])
  }

  // ---- The latest value of a property ----

  function LastIn(values: seq<VehiclePropValue>, p: int): Option<RawPropValues> {
    if values == [] then None
    else if values[|values| - 1].pa.propId == p then Some(values[|values| - 1].value)
    else LastIn(values[..|values| - 1], p)
  }

  function LatestIn(batches: seq<Batch>, p: int): Option<RawPropValues> {
    if batches == [] then None
    else if LastIn(batches[|batches| - 1].values, p).Some? then LastIn(batches[|batches| - 1].values, p)
    else LatestIn(batches[..|batches| - 1], p)
  }

  function LatestAttempt(attempts: seq<Attempt>, p: int): Option<Attempt> {
    if attempts == [] then None
    else if LastIn(attempts[|attempts| - 1].batch.values, p).Some? then Some(attempts[|attempts| - 1])
    else LatestAttempt(attempts[..|attempts| - 1], p)
  }

  function BatchesOf(attempts: seq<Attempt>): seq<Batch> {
    seq(|attempts|, i requires 0 <= i < |attempts| => attempts[i].batch)
  }

  function OptSeq(batch: Option<Batch>): seq<Batch> {
    if batch.Some? then [batch.value] else []
  }

  // Every batch ever queued, in order.
  function AllBatches(node: Node): seq<Batch> {
    BatchesOf(node.attempts) + OptSeq(node.sending) + node.queue
  }

  predicate Watches(node: Node, p: int) {
    p in AllOf(node.messages)
  }

  lemma {:induction false} LatestInConcat(xs: seq<Batch>, ys: seq<Batch>, p: int)
    ensures LatestIn(xs + ys, p) == if LatestIn(ys, p).Some? then LatestIn(ys, p) else LatestIn(xs, p)
    decreases |ys|
  {
    if ys == [] {
      assert xs + ys == xs;
    } else {
      assert (xs + ys)[..|xs + ys| - 1] == xs + ys[..|ys| - 1];
      LatestInConcat(xs, ys[..|ys| - 1], p);
    }
  }

  lemma {:induction false} LastInSelect(values: seq<VehiclePropValue>, propIds: set<int>, p: int)
    ensures LastIn(Select(values, propIds), p) == if p in propIds then LastIn(values, p) else None
  {
    if values != [] {
      var rest, v := Select(values[..|values| - 1], propIds), values[|values| - 1];
      LastInSelect(values[..|values| - 1], propIds, p);
      assert (rest + [v])[..|rest + [v]| - 1] == rest;
    }
  }

  /** Whatever the groups share, the last batch with a property carries the last value of it. */
  lemma {:induction false} LatestInPartition(messages: seq<MessageFilter>, values: seq<VehiclePropValue>, p: int)
    ensures LatestIn(Partition(messages, values), p) == if p in AllOf(messages) then LastIn(values, p) else None
  {
    if messages != [] {
      var init, last := messages[..|messages| - 1], messages[|messages| - 1];
      var batch := Batch(last.msgId, Select(values, last.propIds));
      LatestInPartition(init, values, p);
      LastInSelect(values, last.propIds, p);
      assert messages == init + [last];
      assert p in AllOf(messages) <==> p in AllOf(init) || p in last.propIds;
      var rest := Partition(init, values);
      assert (rest + [batch])[..|rest + [batch]| - 1] == rest;
    }
  }

  lemma {:induction false} NothingSelected(messages: seq<MessageFilter>, values: seq<VehiclePropValue>)
    requires !AnyRelevant(AllOf(messages), values)
    ensures Partition(messages, values) == []
  {
    if messages != [] {
      var init, last := messages[..|messages| - 1], messages[|messages| - 1];
      assert forall p <- AllOf(init) :: p in AllOf(messages);
      NothingSelected(init, values);
      assert last in messages;
      SelectsNone(values, last.propIds);
    }
  }

  lemma {:induction false} SelectsNone(values: seq<VehiclePropValue>, propIds: set<int>)
    requires forall v <- values :: v.pa.propId !in propIds
    ensures Select(values, propIds) == []
  {
    if values != [] {
      SelectsNone(values[..|values| - 1], propIds);
    }
  }

  /** The early exit queues exactly what the partition loop alone would. */
  lemma EarlyExitIsHarmless(node: Node, values: seq<VehiclePropValue>)
    requires node.allPropIds == AllOf(node.messages)
    ensures Forwarded(node, values) == node.(queue := node.queue + Partition(node.messages, values))
  {
    if !AnyRelevant(node.allPropIds, values) {
      NothingSelected(node.messages, values);
      assert node.queue + [] == node.queue;
    }
  }

  // ---- Convergence ----

  ghost predicate Tracks(previous: map<int, VehiclePropValue>, polled: map<int, RawPropValues>) {
    previous.Keys == polled.Keys && forall p <- previous :: previous[p].value == polled[p]
  }

  /** Skipping an unchanged value loses nothing: the remembered values are those the last poll saw, and
      the last change of a property is what is remembered of it. */
  lemma {:induction false} ScanTracks(previous: map<int, VehiclePropValue>, polled: map<int, RawPropValues>,
                                      results: seq<GetValueResult>)
    requires Tracks(previous, polled)
    ensures var (changed, noted) := Scan(previous, results);
            && Tracks(noted, Seen(polled, results))
            && forall p :: if LastIn(changed, p).Some? then p in noted && LastIn(changed, p) == Some(noted[p].value)
                           else (p in noted <==> p in previous) && (p in noted ==> noted[p].value == previous[p].value)
  {
    if results != [] {
      ScanTracks(previous, polled, results[..|results| - 1]);
      var (changed, noted) := Scan(previous, results[..|results| - 1]);
      var change := Change(noted, results[|results| - 1]);
      if change.Some? {
        assert (changed + [change.value])[..|changed + [change.value]| - 1] == changed;
      }
    }
  }

  /** A result that tells something: a value that is not the one last seen of its property, in this poll or
      before. */
  predicate IsNews(polled: map<int, RawPropValues>, results: seq<GetValueResult>, i: nat)
    requires i < |results|
  {
    results[i].status == Ok && results[i].prop.Some? &&
    var v, seen := results[i].prop.value, Seen(polled, results[..i]);
    !(v.pa.propId in seen && seen[v.pa.propId] == v.value)
  }

  lemma NewsIsChange(previous: map<int, VehiclePropValue>, polled: map<int, RawPropValues>,
                     results: seq<GetValueResult>, i: nat)
    requires Tracks(previous, polled) && i < |results|
    ensures var change := Change(Scan(previous, results[..i]).1, results[i]);
            && (change.Some? <==> IsNews(polled, results, i))
            && (change.Some? ==> results[i].prop == change)
  {
    ScanTracks(previous, polled, results[..i]);
    hide Seen, Scan;
  }

  lemma SameNews(polled: map<int, RawPropValues>, results: seq<GetValueResult>, n: nat, i: nat)
    requires i < n <= |results|
    ensures IsNews(polled, results[..n], i) <==> IsNews(polled, results, i)
  {
    assert results[..n][..i] == results[..i];
  }

  /** What a poll sends on is exactly its news, each once and in order; nothing unchanged is sent again. */
  lemma {:induction false} ChangedExactly(previous: map<int, VehiclePropValue>, polled: map<int, RawPropValues>,
                                          results: seq<GetValueResult>)
    returns (at: seq<nat>)
    requires Tracks(previous, polled)
    ensures var changed := Scan(previous, results).0;
            && IsSelection(at, |results|) && |changed| == |at|
            && (forall i: nat :: i in at <==> i < |results| && IsNews(polled, results, i))
            && (forall k :: 0 <= k < |at| ==> results[at[k]].prop == Some(changed[k]))
  {
    at := [];
    if results != [] {
      var n := |results| - 1;
      at := ChangedExactly(previous, polled, results[..n]);
      SelectionGrows(at, n);
      NewsIsChange(previous, polled, results, n);
      forall i: nat | i < n ensures IsNews(polled, results[..n], i) <==> IsNews(polled, results, i) {
        SameNews(polled, results, n, i);
      }
      hide IsNews, Change, Tracks;
      if IsNews(polled, results, n) {
        at := at + [n];
      }
    }
  }

  /** A batch is queued for each message group that some value concerns, in order, under the group's own id
      and with the values the group selects. */
  lemma {:induction false} PartitionExactly(messages: seq<MessageFilter>, values: seq<VehiclePropValue>)
    returns (at: seq<nat>)
    ensures IsSelection(at, |messages|) && |Partition(messages, values)| == |at|
    ensures forall i: nat ::
              i in at <==> i < |messages| && exists v <- values :: v.pa.propId in messages[i].propIds
    ensures forall k :: 0 <= k < |at| ==>
              var group, batch := messages[at[k]], Partition(messages, values)[k];
              batch == Batch(group.msgId, Select(values, group.propIds))
  {
    at := [];
    if messages != [] {
      var n := |messages| - 1;
      at := PartitionExactly(messages[..n], values);
      SelectionGrows(at, n);
      var chosen := SelectExactly(values, messages[n].propIds);
      hide Select;
      if Select(values, messages[n].propIds) != [] {
        assert values[chosen[0]].pa.propId in messages[n].propIds;
        at := at + [n];
      } else {
        forall v | v in values ensures v.pa.propId !in messages[n].propIds {
          var i: nat :| i < |values| && values[i] == v;
          assert i !in chosen;
        }
      }
    }
  }

  /** A group selects the values of its properties, in order. */
  lemma {:induction false} SelectExactly(values: seq<VehiclePropValue>, propIds: set<int>) returns (at: seq<nat>)
    ensures IsSelection(at, |values|) && |Select(values, propIds)| == |at|
    ensures forall i: nat :: i in at <==> i < |values| && values[i].pa.propId in propIds
    ensures forall k :: 0 <= k < |at| ==> Select(values, propIds)[k] == values[at[k]]
    ensures forall k :: 0 <= k < |at| ==> values[at[k]].pa.propId in propIds
  {
    at := [];
    if values != [] {
      var n := |values| - 1;
      at := SelectExactly(values[..n], propIds);
      SelectionGrows(at, n);
      if values[n].pa.propId in propIds {
        at := at + [n];
      }
    }
  }

  ghost predicate QueuedInv(node: Node, previous: map<int, VehiclePropValue>) {
    && node.allPropIds == AllOf(node.messages)
    && forall p :: Watches(node, p) ==>
      LatestIn(AllBatches(node), p) == if p in previous then Some(previous[p].value) else None
  }

  ghost predicate RemoteInv(node: Node) {
    forall p :: LatestAttempt(node.attempts, p).Some? && LatestAttempt(node.attempts, p).value.ok ==>
                  p in node.remote && LastIn(LatestAttempt(node.attempts, p).value.batch.values, p) ==
                    Some(node.remote[p])
  }

  ghost predicate Inv(s: State) {
    && Tracks(s.previous, s.polled)
    && (forall i :: 0 <= i < |s.nodes| ==> QueuedInv(s.nodes[i], s.previous))
    && (forall i :: 0 <= i < |s.nodes| ==> RemoteInv(s.nodes[i]))
  }

  lemma {:induction false} AppliedLast(remote: map<int, RawPropValues>, values: seq<VehiclePropValue>, p: int)
    ensures LastIn(values, p).Some? ==>
              p in Applied(remote, values) && Some(Applied(remote, values)[p]) == LastIn(values, p)
    ensures LastIn(values, p).None? ==> (p in Applied(remote, values) <==> p in remote)
    ensures LastIn(values, p).None? && p in remote ==> Applied(remote, values)[p] == remote[p]
    decreases |values|
  {
    if values != [] {
      AppliedLast(remote, values[..|values| - 1], p);
    }
  }

  lemma ForwardKeepsQueuedInv(node: Node, previous: map<int, VehiclePropValue>, noted: map<int, VehiclePropValue>,
                              changed: seq<VehiclePropValue>)
    requires QueuedInv(node, previous)
    requires forall p :: if LastIn(changed, p).Some? then p in noted && LastIn(changed, p) == Some(noted[p].value)
                         else (p in noted <==> p in previous) && (p in noted ==> noted[p].value == previous[p].value)
    ensures QueuedInv(Forwarded(node, changed), noted)
  {
    EarlyExitIsHarmless(node, changed);
    var next, more := Forwarded(node, changed), Partition(node.messages, changed);
    assert AllBatches(next) == AllBatches(node) + more;
    forall p | Watches(node, p)
      ensures LatestIn(AllBatches(next), p) == if p in noted then Some(noted[p].value) else None
    {
      LatestInConcat(AllBatches(node), more, p);
      LatestInPartition(node.messages, changed, p);
    }
  }

  lemma FinishKeepsRemoteInv(node: Node, ok: bool)
    requires node.sending.Some? && RemoteInv(node)
    ensures RemoteInv(Finished(node, ok))
    ensures AllBatches(Finished(node, ok)) == AllBatches(node)
  {
    var next, batch := Finished(node, ok), node.sending.value;
    assert next.attempts[..|next.attempts| - 1] == node.attempts;
    forall p | LatestAttempt(next.attempts, p).Some? && LatestAttempt(next.attempts, p).value.ok
      ensures p in next.remote && LastIn(LatestAttempt(next.attempts, p).value.batch.values, p) == Some(next.remote[p])
    {
      AppliedLast(node.remote, batch.values, p);
    }
    assert BatchesOf(next.attempts) == BatchesOf(node.attempts) + [batch];
  }

  lemma StepKeepsInv(s: State, step: Step)
    requires Inv(s) && Enabled(s, step)
    ensures Inv(Next(s, step))
  {
    match step
    case PollFails =>
    case Poll(results) =>
      var (changed, noted) := Scan(s.previous, results);
      ScanTracks(s.previous, s.polled, results);
      var t := Next(s, step);
      forall i | 0 <= i < |s.nodes| ensures QueuedInv(t.nodes[i], noted) && RemoteInv(t.nodes[i]) {
        ForwardKeepsQueuedInv(s.nodes[i], s.previous, noted, changed);
        EarlyExitIsHarmless(s.nodes[i], changed);
        if changed == [] {
          assert forall p :: LastIn(changed, p).None?;
          assert QueuedInv(s.nodes[i], noted);
        }
      }
    case Take(i) =>
      assert AllBatches(Next(s, step).nodes[i]) == AllBatches(s.nodes[i]);
    case Finish(i, ok) => FinishKeepsRemoteInv(s.nodes[i], ok);
  }

  lemma InitKeepsInv(s: State)
    requires IsInitial(s)
    ensures Inv(s)
  {
    forall i | 0 <= i < |s.nodes| ensures QueuedInv(s.nodes[i], s.previous) {
      assert AllBatches(s.nodes[i]) == [];
    }
  }

  lemma {:induction false} RunKeepsInv(states: seq<State>, steps: seq<Step>, n: nat)
    requires IsRun(states, steps) && n <= |steps|
    ensures Inv(states[n])
    decreases n
  {
    if n == 0 {
      InitKeepsInv(states[0]);
    } else {
      RunKeepsInv(states, steps, n - 1);
      StepKeepsInv(states[n - 1], steps[n - 1]);
    }
  }

  lemma {:induction false} LatestAttemptIsLatest(attempts: seq<Attempt>, p: int)
    ensures var a := LatestAttempt(attempts, p);
            LatestIn(BatchesOf(attempts), p) == if a.Some? then LastIn(a.value.batch.values, p) else None
  {
    if attempts != [] {
      LatestAttemptIsLatest(attempts[..|attempts| - 1], p);
      assert BatchesOf(attempts)[..|attempts| - 1] == BatchesOf(attempts[..|attempts| - 1]);
    }
  }

  /** The last successful attempt with a property. */
  function LatestSuccess(attempts: seq<Attempt>, p: int): Option<Attempt> {
    if attempts == [] then None
    else
      var last := attempts[|attempts| - 1];
      if last.ok && LastIn(last.batch.values, p).Some? then Some(last)
      else LatestSuccess(attempts[..|attempts| - 1], p)
  }

  // What a remote holds of a property, given what it held before anything was sent.
  ghost predicate HoldsWhatArrived(node: Node, before: map<int, RawPropValues>, p: int) {
    var a := LatestSuccess(node.attempts, p);
    if a.Some? then p in node.remote && Some(node.remote[p]) == LastIn(a.value.batch.values, p)
    else (p in node.remote <==> p in before) && (p in before ==> node.remote[p] == before[p])
  }

  lemma FinishedArrives(node: Node, ok: bool, before: map<int, RawPropValues>, p: int)
    requires node.sending.Some? && HoldsWhatArrived(node, before, p)
    ensures HoldsWhatArrived(Finished(node, ok), before, p)
  {
    var next := Finished(node, ok);
    assert next.attempts[..|next.attempts| - 1] == node.attempts;
    AppliedLast(node.remote, node.sending.value.values, p);
  }

  /** Over any run a remote holds of each property the last value of the last successful send that had it;
      a failed send leaves no trace. */
  lemma {:induction false} RemoteHoldsWhatArrived(states: seq<State>, steps: seq<Step>, n: nat, i: nat, p: int)
    requires IsRun(states, steps) && n <= |steps| && i < |states[0].nodes|
    ensures |states[n].nodes| == |states[0].nodes|
    ensures HoldsWhatArrived(states[n].nodes[i], states[0].nodes[i].remote, p)
    decreases n
  {
    if n > 0 {
      RemoteHoldsWhatArrived(states, steps, n - 1, i, p);
      hide HoldsWhatArrived;
      var s := states[n - 1];
      match steps[n - 1]
      case PollFails =>
      case Poll(results) =>
        ForwardingSendsNothing(s.nodes, Scan(s.previous, results).0, i, states[0].nodes[i].remote, p);
      case Take(k) => SameRemote(s.nodes[i], states[n].nodes[i], states[0].nodes[i].remote, p);
      case Finish(k, ok) =>
        if k == i {
          FinishedArrives(s.nodes[i], ok, states[0].nodes[i].remote, p);
        }
    }
  }

  lemma SameRemote(node: Node, next: Node, before: map<int, RawPropValues>, p: int)
    requires HoldsWhatArrived(node, before, p) && next.attempts == node.attempts && next.remote == node.remote
    ensures HoldsWhatArrived(next, before, p)
  {
  }

  lemma ForwardingSendsNothing(nodes: seq<Node>, values: seq<VehiclePropValue>, i: nat, before: map<int, RawPropValues>,
                               p: int)
    requires i < |nodes| && HoldsWhatArrived(nodes[i], before, p)
    ensures |ForwardedToAll(nodes, values)| == |nodes|
    ensures HoldsWhatArrived(ForwardedToAll(nodes, values)[i], before, p)
  {
    hide HoldsWhatArrived;
    if values != [] {
      SameRemote(nodes[i], Forwarded(nodes[i], values), before, p);
    }
  }

  /** The groups a config declares, in order and each under its own id with the properties it lists. */
  lemma {:induction false} FiltersAre(config: seq<(string, seq<int>)>)
    ensures |Filters(config)| == |config|
    ensures forall k :: 0 <= k < |config| ==>
              Filters(config)[k].msgId == config[k].0 &&
              forall p :: p in Filters(config)[k].propIds <==> p in config[k].1
  {
    if config != [] {
      FiltersAre(config[..|config| - 1]);
    }
  }

  /** Once a node's queue is drained, every watched property a poll has ever seen was sent, and unless
      its latest batch failed the remote has the value the last successful poll saw. */
  lemma DrainedNodesConverge(states: seq<State>, steps: seq<Step>, i: nat, p: int)
    requires IsRun(states, steps)
    requires var s := states[|steps|];
             i < |s.nodes| && s.nodes[i].queue == [] && s.nodes[i].sending.None? && Watches(s.nodes[i], p)
    ensures var s := states[|steps|];
            var node := s.nodes[i];
            var latest := LatestAttempt(node.attempts, p);
            && (p in s.polled <==> latest.Some?)
            && (latest.Some? && latest.value.ok ==> p in node.remote && node.remote[p] == s.polled[p])
  {
    RunKeepsInv(states, steps, |steps|);
    var s := states[|steps|];
    var node := s.nodes[i];
    assert AllBatches(node) == BatchesOf(node.attempts);
    LatestAttemptIsLatest(node.attempts, p);
    assert QueuedInv(node, s.previous) && RemoteInv(node);
    AttemptHasValue(node.attempts, p);
  }

  lemma {:induction false} AttemptHasValue(attempts: seq<Attempt>, p: int)
    ensures LatestAttempt(attempts, p).Some? ==> LastIn(LatestAttempt(attempts, p).value.batch.values, p).Some?
  {
    if attempts != [] {
      AttemptHasValue(attempts[..|attempts| - 1], p);
    }
  }

  lemma AllOfOneMore(messages: seq<MessageFilter>, filter: MessageFilter)
    ensures AllOf(messages + [filter]) == AllOf(messages) + filter.propIds
  {
    var all := messages + [filter];
    forall p ensures p in AllOf(all) <==> p in AllOf(messages) + filter.propIds {
      assert p in AllOf(messages) ==> exists m <- messages :: p in m.propIds && m in all;
      assert filter in all;
    }
  }

  // ---- The objects ----

  class NodeForwarder {
    var messages: seq<MessageFilter>
    var allPropIds: set<int>
    var queue: seq<Batch>
    ghost var sending: Option<Batch>
    ghost var attempts: seq<Attempt>
    ghost var remote: map<int, RawPropValues>

    ghost function View(): Node
      reads this
    {
      Node(messages, allPropIds, queue, sending, attempts, remote)
    }

    constructor (config: seq<(string, seq<int>)>, ghost remote: map<int, RawPropValues>)
      ensures View() == NewNode(Filters(config), remote)
    {
      messages, allPropIds, queue, sending, attempts := [], {}, [], None, [];
      this.remote := remote;
      new;
      for i := 0 to |config|
        invariant queue == [] && sending == None && attempts == [] && this.remote == remote
        invariant messages == Filters(config[..i]) && allPropIds == AllOf(messages)
      {
        assert config[..i + 1][..i] == config[..i];
        var filter := MessageFilter(config[i].0, {});
        for j := 0 to |config[i].1|
          invariant queue == [] && sending == None && attempts == [] && this.remote == remote
          invariant messages == Filters(config[..i]) && allPropIds == AllOf(messages) + filter.propIds
          invariant filter == FilterOf((config[i].0, config[i].1[..j]))
        {
          assert config[i].1[..j + 1] == config[i].1[..j] + [config[i].1[j]];
          filter := filter.(propIds := filter.propIds + {config[i].1[j]});
          allPropIds := allPropIds + {config[i].1[j]};
        }
        assert config[i].1[..|config[i].1|] == config[i].1 && config[i] == (config[i].0, config[i].1);
        AllOfOneMore(messages, filter);
        messages := messages + [filter];
      }
      assert config[..|config|] == config;
    }

    /** Partitions changed values by message group and queues one batch for each group with any. */
    method Forward(values: seq<VehiclePropValue>)
      modifies this
      ensures View() == Forwarded(old(View()), values)
    {
      var anyRelevant := false;
      for i := 0 to |values|
        invariant anyRelevant <==> AnyRelevant(allPropIds, values[..i])
      {
        assert values[..i + 1] == values[..i] + [values[i]];
        if values[i].pa.propId in allPropIds {
          anyRelevant := true;
        }
      }
      assert values[..|values|] == values;
      if !anyRelevant {
        return;
      }
      for m := 0 to |messages|
        invariant messages == old(messages)
        invariant View() == old(View()).(queue := old(queue) + Partition(messages[..m], values))
      {
        var batch := Batch(messages[m].msgId, []);
        for i := 0 to |values|
          invariant batch == Batch(messages[m].msgId, Select(values[..i], messages[m].propIds))
        {
          assert values[..i + 1][..i] == values[..i];
          if values[i].pa.propId in messages[m].propIds {
            batch := batch.(values := batch.values + [values[i]]);
          }
        }
        assert messages[..m + 1][..m] == messages[..m];
        if batch.values != [] {
          queue := queue + [batch];
        }
      }
      assert messages[..|messages|] == messages;
    }

    /** One turn of the worker: it takes the oldest batch and sends it; `ok` is what came of that. */
    method WorkOnce(ok: bool)
      requires queue != [] && sending.None?
      modifies this
      ensures View() == Finished(old(View()).(queue := old(queue)[1..], sending := Some(old(queue)[0])), ok)
    {
      var batch := queue[0];
      queue := queue[1..];
      attempts := attempts + [Attempt(batch, ok)];
      if ok {
        remote := Applied(remote, batch.values);
      }
    }
  }

  class VhalGateway {
    const forwarders: seq<NodeForwarder>
    var previousValues: map<int, VehiclePropValue>

    // Every node has a forwarder of its own.
    ghost predicate Valid() {
      forall i, j :: 0 <= i < j < |forwarders| ==> forwarders[i] != forwarders[j]
    }

    constructor (forwarders: seq<NodeForwarder>)
      requires forall i, j :: 0 <= i < j < |forwarders| ==> forwarders[i] != forwarders[j]
      ensures Valid() && this.forwarders == forwarders && previousValues == map[]
    {
      this.forwarders, previousValues := forwarders, map[];
    }

    /** One poll: `status` and `results` are what the local hardware answers. */
    method PollOnce(status: StatusCode, results: seq<GetValueResult>)
      requires Valid()
      modifies this, set f | f in forwarders
      ensures previousValues == if status == Ok then Scan(old(previousValues), results).1 else old(previousValues)
      ensures forall i :: 0 <= i < |forwarders| ==>
                forwarders[i].View() ==
                  if status == Ok && Scan(old(previousValues), results).0 != []
                  then Forwarded(old(forwarders[i].View()), Scan(old(previousValues), results).0)
                  else old(forwarders[i].View())
    {
      hide Forwarded;
      if status != Ok {
        return;
      }
      var changedValues: seq<VehiclePropValue> := [];
      for i := 0 to |results|
        invariant (changedValues, previousValues) == Scan(old(previousValues), results[..i])
        invariant forall k :: 0 <= k < |forwarders| ==> forwarders[k].View() == old(forwarders[k].View())
      {
        assert results[..i + 1][..i] == results[..i];
        var result := results[i];
        if result.status == Ok && result.prop.Some? {
          var val := result.prop.value;
          if val.pa.propId !in previousValues || previousValues[val.pa.propId].value != val.value {
            previousValues := previousValues[val.pa.propId := val];
            changedValues := changedValues + [val];
          }
        }
      }
      assert results[..|results|] == results;
      if changedValues == [] {
        return;
      }
      for i := 0 to |forwarders|
        invariant previousValues == Scan(old(previousValues), results).1
        invariant forall k :: 0 <= k < i ==> forwarders[k].View() == Forwarded(old(forwarders[k].View()), changedValues)
        invariant forall k :: i <= k < |forwarders| ==> forwarders[k].View() == old(forwarders[k].View())
      {
        forwarders[i].Forward(changedValues);
      }
    }
  }
}
