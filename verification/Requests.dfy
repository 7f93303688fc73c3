/** The life of a get or set request: registered as pending, then answered by the hardware, by the
    timeout, or withdrawn because the hardware call failed, whichever comes first. */
module Requests {
  import opened VehicleTypes

  /** A request id of a client object; the get and the set requests of one caller have different
      objects. */
  datatype Key = Key(client: Client, id: int)

  /** What happens to a registration. */
  datatype Event = Registered(key: Key) | Answered(key: Key) | Withdrawn(key: Key)

  /** The keys in `pending` are waiting; `trace` is what has happened so far. */
  datatype State = State(pending: set<Key>, trace: seq<Event>)

  const MAX_PENDING_REQUEST_PER_CLIENT: nat := 10000

  function PendingOf(pending: set<Key>, client: Client): set<Key> {
    set k | k in pending && k.client == client
  }

  function Keys(client: Client, ids: seq<int>): seq<Key> {
    if ids == [] then [] else Keys(client, ids[..|ids| - 1]) + [Key(client, ids[|ids| - 1])]
  }

  function KeySet(client: Client, ids: seq<int>): set<Key> {
    set k | k in Keys(client, ids)
  }

  // ---- Steps ----

  datatype Step =
    | Call(client: Client, ids: seq<int>, order: seq<Key>)
    | HardwareResults(client: Client, ids: seq<int>)
    | HardwareFails(client: Client, ids: seq<int>, order: seq<Key>)
    | Timeout(order: seq<Key>)

  function AddStatus(s: State, client: Client, ids: seq<int>): StatusCode {
    if KeySet(client, ids) * s.pending != {} then InvalidArg
    else if |KeySet(client, ids)| > MAX_PENDING_REQUEST_PER_CLIENT - |PendingOf(s.pending, client)| then TryAgain
    else Ok
  }

  function Register(order: seq<Key>): seq<Event> {
    seq(|order|, i requires 0 <= i < |order| => Registered(order[i]))
  }

  function Withdraw(order: seq<Key>): seq<Event> {
    seq(|order|, i requires 0 <= i < |order| => Withdrawn(order[i]))
  }

  function Answer(order: seq<Key>): seq<Event> {
    seq(|order|, i requires 0 <= i < |order| => Answered(order[i]))
  }

  // The results of a callback whose request was still pending, in order.
  function StillPending(pending: set<Key>, keys: seq<Key>): seq<Key> {
    if keys == [] then []
    else
      var rest, last := StillPending(pending, keys[..|keys| - 1]), keys[|keys| - 1];
      if last in pending then rest + [last] else rest
  }

  /** A call registers the set of its ids; the hardware's failure withdraws what is still pending of
      them; a timeout answers some pending keys. Orders are those of the hash sets involved. */
  ghost predicate Enabled(s: State, step: Step) {
    match step
    case Call(client, ids, order) => Enumerates(order, KeySet(client, ids))
    case HardwareResults(_, _) => true
    case HardwareFails(client, ids, order) => Enumerates(order, KeySet(client, ids) * s.pending)
    case Timeout(order) => Enumerates(order, set k | k in order) && forall k <- order :: k in s.pending
  }

  function Next(s: State, step: Step): State {
    match step
    case Call(client, ids, order) =>
      if AddStatus(s, client, ids) != Ok then s
      else State(s.pending + KeySet(client, ids), s.trace + Register(order))
    case HardwareResults(client, ids) =>
      State(s.pending - KeySet(client, ids), s.trace + Answer(StillPending(s.pending, Keys(client, ids))))
    case HardwareFails(client, ids, order) =>
      State(s.pending - KeySet(client, ids), s.trace + Withdraw(order))
    case Timeout(order) => State(s.pending - (set k | k in order), s.trace + Answer(order))
  }

  // ---- Traces ----

  /** The keys registered and not yet answered or withdrawn. */
  function Open(trace: seq<Event>): set<Key> {
    if trace == [] then {}
    else
      var before, last := Open(trace[..|trace| - 1]), trace[|trace| - 1];
      if last.Registered? then before + {last.key} else before - {last.key}
  }

  /** A key is registered only when it is not open, and answered or withdrawn only while it is. */
  predicate WellFormed(trace: seq<Event>) {
    trace == [] ||
    (WellFormed(trace[..|trace| - 1]) &&
     (trace[|trace| - 1].Registered? <==> trace[|trace| - 1].key !in Open(trace[..|trace| - 1])))
  }

  lemma {:induction false} OpenIsRegistered(trace: seq<Event>, k: Key) returns (i: nat)
    requires k in Open(trace)
    ensures i < |trace| && trace[i] == Registered(k)
    ensures forall j :: i < j < |trace| ==> trace[j].key == k ==> trace[j].Registered?
  {
    var init, last := trace[..|trace| - 1], trace[|trace| - 1];
    if last == Registered(k) {
      i := |trace| - 1;
    } else {
      i := OpenIsRegistered(init, k);
    }
  }

  lemma {:induction false} PrefixWellFormed(trace: seq<Event>, n: nat)
    requires WellFormed(trace) && n <= |trace|
    ensures WellFormed(trace[..n])
  {
    if n < |trace| {
      PrefixWellFormed(trace[..|trace| - 1], n);
      assert trace[..|trace| - 1][..n] == trace[..n];
    } else {
      assert trace[..n] == trace;
    }
  }

  lemma {:induction false} StaysOpen(trace: seq<Event>, i: nat)
    requires i < |trace| && trace[i].Registered?
    requires forall j :: i < j < |trace| ==> trace[j].key == trace[i].key ==> trace[j].Registered?
    ensures trace[i].key in Open(trace)
  {
    if i < |trace| - 1 {
      StaysOpen(trace[..|trace| - 1], i);
    }
  }

  /** In a well-formed trace every reply is preceded by a registration of its key, with no other
      event of that key between: a registration is answered at most once, and only while pending. */
  lemma ReplyFollowsItsRegistration(trace: seq<Event>, r: nat) returns (i: nat)
    requires WellFormed(trace) && r < |trace| && trace[r].Answered?
    ensures i < r && trace[i] == Registered(trace[r].key)
    ensures forall j :: i < j < r ==> trace[j].key != trace[r].key
  {
    var before := trace[..r];
    PrefixWellFormed(trace, r + 1);
    assert trace[..r + 1][..r] == before;
    i := OpenIsRegistered(before, trace[r].key);
    forall j | i < j < r ensures trace[j].key != trace[r].key {
      if trace[j].key == trace[r].key {
        assert before[j] == trace[j];
        PrefixWellFormed(trace, j + 1);
        assert trace[..j + 1][..j] == trace[..j];
        StaysOpen(trace[..j], i);
      }
    }
  }

  /** Two replies to one key have a registration of it between them. */
  lemma AtMostOneReply(trace: seq<Event>, r1: nat, r2: nat)
    requires WellFormed(trace) && r1 < r2 < |trace|
    requires trace[r1].Answered? && trace[r2] == trace[r1]
    ensures exists i :: r1 < i < r2 && trace[i] == Registered(trace[r1].key)
  {
    var i := ReplyFollowsItsRegistration(trace, r2);
  }

  // ---- Runs ----

  ghost predicate Inv(s: State) {
    && WellFormed(s.trace) && Open(s.trace) == s.pending
    && forall client :: |PendingOf(s.pending, client)| <= MAX_PENDING_REQUEST_PER_CLIENT
  }

  predicate Distinct(order: seq<Key>) {
    order == [] || (Distinct(order[..|order| - 1]) && order[|order| - 1] !in order[..|order| - 1])
  }

  lemma {:induction false} EnumeratedIsDistinct(order: seq<Key>)
    requires forall i, j :: 0 <= i < j < |order| ==> order[i] != order[j]
    ensures Distinct(order)
  {
    if order != [] {
      EnumeratedIsDistinct(order[..|order| - 1]);
    }
  }

  lemma {:induction false} RegisterEach(trace: seq<Event>, order: seq<Key>)
    requires WellFormed(trace) && Distinct(order) && forall k <- order :: k !in Open(trace)
    ensures WellFormed(trace + Register(order)) && Open(trace + Register(order)) == Open(trace) + set k | k in order
    decreases |order|
  {
    if order == [] {
      assert trace + Register(order) == trace;
    } else {
      var init, last := order[..|order| - 1], order[|order| - 1];
      RegisterEach(trace, init);
      var all := trace + Register(order);
      assert all[..|all| - 1] == trace + Register(init) && all[|all| - 1] == Registered(last);
      assert forall k :: k in order <==> k in init || k == last;
    }
  }

  /** Answering a list of open keys keeps the trace well-formed exactly when the list has no key
      twice. */
  lemma {:induction false} AnswerEach(trace: seq<Event>, order: seq<Key>, withdrawn: bool)
    requires WellFormed(trace) && forall k <- order :: k in Open(trace)
    ensures var more := if withdrawn then Withdraw(order) else Answer(order);
            (WellFormed(trace + more) <==> Distinct(order)) && Open(trace + more) == Open(trace) - set k | k in order
    decreases |order|
  {
    var more := if withdrawn then Withdraw(order) else Answer(order);
    if order == [] {
      assert trace + more == trace;
    } else {
      var init, last := order[..|order| - 1], order[|order| - 1];
      AnswerEach(trace, init, withdrawn);
      var all := trace + more;
      assert all[..|all| - 1] == trace + (if withdrawn then Withdraw(init) else Answer(init));
      assert all[|all| - 1] == if withdrawn then Withdrawn(last) else Answered(last);
      assert forall k :: k in order <==> k in init || k == last;
    }
  }

  /** Of the keys a callback names those that are pending are answered, in order. */
  lemma {:induction false} StillPendingExactly(pending: set<Key>, keys: seq<Key>) returns (at: seq<nat>)
    ensures IsSelection(at, |keys|) && forall i: nat :: i in at <==> i < |keys| && keys[i] in pending
    ensures |StillPending(pending, keys)| == |at|
    ensures forall k :: 0 <= k < |at| ==> StillPending(pending, keys)[k] == keys[at[k]]
  {
    at := [];
    if keys != [] {
      var n := |keys| - 1;
      at := StillPendingExactly(pending, keys[..n]);
      SelectionGrows(at, n);
      if keys[n] in pending {
        at := at + [n];
      }
    }
  }

  lemma StillPendingIs(pending: set<Key>, keys: seq<Key>)
    ensures forall k :: k in StillPending(pending, keys) <==> k in keys && k in pending
    ensures Distinct(keys) ==> Distinct(StillPending(pending, keys))
  {
    var at := StillPendingExactly(pending, keys);
    forall k | k in keys && k in pending ensures k in StillPending(pending, keys) {
      var i: nat :| i < |keys| && keys[i] == k;
      var j :| 0 <= j < |at| && at[j] == i;
      assert StillPending(pending, keys)[j] == k;
    }
    if Distinct(keys) {
      StillDistinct(pending, keys);
    }
  }

  lemma {:induction false} StillDistinct(pending: set<Key>, keys: seq<Key>)
    requires Distinct(keys)
    ensures Distinct(StillPending(pending, keys)) && forall k <- StillPending(pending, keys) :: k in keys
  {
    if keys != [] {
      var init, last := keys[..|keys| - 1], keys[|keys| - 1];
      StillDistinct(pending, init);
      var rest := StillPending(pending, init);
      assert (rest + [last])[..|rest + [last]| - 1] == rest;
    }
  }

  lemma FewerPending(pending: set<Key>, fewer: set<Key>, client: Client)
    requires fewer <= pending
    ensures |PendingOf(fewer, client)| <= |PendingOf(pending, client)|
  {
    var rest := PendingOf(pending, client) - PendingOf(fewer, client);
    assert PendingOf(pending, client) == PendingOf(fewer, client) + rest;
  }

  lemma {:induction false} KeysOfClient(client: Client, ids: seq<int>)
    ensures forall k <- Keys(client, ids) :: k.client == client
  {
    if ids != [] {
      KeysOfClient(client, ids[..|ids| - 1]);
    }
  }

  lemma RoomForMore(pending: set<Key>, added: set<Key>, client: Client, other: Client)
    requires forall k <- added :: k.client == client
    requires |added| <= MAX_PENDING_REQUEST_PER_CLIENT - |PendingOf(pending, client)|
    requires |PendingOf(pending, other)| <= MAX_PENDING_REQUEST_PER_CLIENT
    ensures |PendingOf(pending + added, other)| <= MAX_PENDING_REQUEST_PER_CLIENT
  {
    if other == client {
      assert PendingOf(pending + added, client) == PendingOf(pending, client) + added;
    } else {
      assert PendingOf(pending + added, other) == PendingOf(pending, other);
    }
  }

  lemma CallKeepsInv(s: State, client: Client, ids: seq<int>, order: seq<Key>)
    requires Inv(s) && Enumerates(order, KeySet(client, ids))
    ensures Inv(Next(s, Call(client, ids, order)))
  {
    hide WellFormed, Open, Keys, PendingOf;
    if AddStatus(s, client, ids) == Ok {
      EnumeratedIsDistinct(order);
      assert (set k | k in order) == KeySet(client, ids);
      forall k | k in order ensures k !in s.pending {
        assert k in KeySet(client, ids) && k !in KeySet(client, ids) * s.pending;
      }
      RegisterEach(s.trace, order);
      KeysOfClient(client, ids);
      forall other ensures |PendingOf(s.pending + KeySet(client, ids), other)| <= MAX_PENDING_REQUEST_PER_CLIENT {
        RoomForMore(s.pending, KeySet(client, ids), client, other);
      }
    }
  }

  lemma AnswerKeepsInv(s: State, order: seq<Key>, withdrawn: bool)
    requires Inv(s) && Distinct(order) && forall k <- order :: k in s.pending
    ensures Inv(State(s.pending - (set k | k in order), s.trace + if withdrawn then Withdraw(order) else Answer(order)))
  {
    hide WellFormed, Open;
    AnswerEach(s.trace, order, withdrawn);
    var rest := s.pending - (set k | k in order);
    forall client ensures |PendingOf(rest, client)| <= MAX_PENDING_REQUEST_PER_CLIENT {
      FewerPending(s.pending, rest, client);
    }
  }

  /** Whether a hardware callback answers each registration at most once: exactly when, among the ids
      it carries that are still pending, none is carried twice. */
  lemma CallbackIsSafeExactly(s: State, client: Client, ids: seq<int>)
    requires Inv(s)
    ensures Inv(Next(s, HardwareResults(client, ids))) <==> Distinct(StillPending(s.pending, Keys(client, ids)))
  {
    hide WellFormed, Open;
    var replies := StillPending(s.pending, Keys(client, ids));
    StillPendingIs(s.pending, Keys(client, ids));
    AnswerEach(s.trace, replies, false);
    assert s.pending - KeySet(client, ids) == s.pending - set k | k in replies;
    if Distinct(replies) {
      AnswerKeepsInv(s, replies, false);
    }
  }

  // The hardware names no id twice in one callback.
  ghost predicate Fair(step: Step) {
    step.HardwareResults? ==> Distinct(Keys(step.client, step.ids))
  }

  ghost predicate IsRun(states: seq<State>, steps: seq<Step>) {
    && |states| == |steps| + 1 && states[0] == State({}, [])
    && forall i :: 0 <= i < |steps| ==>
         Enabled(states[i], steps[i]) && Fair(steps[i]) && states[i + 1] == Next(states[i], steps[i])
  }

  lemma StepKeepsInv(s: State, step: Step)
    requires Inv(s) && Enabled(s, step) && Fair(step)
    ensures Inv(Next(s, step))
  {
    hide WellFormed, Open;
    match step
    case Call(client, ids, order) => CallKeepsInv(s, client, ids, order);
    case HardwareResults(client, ids) =>
      StillPendingIs(s.pending, Keys(client, ids));
      CallbackIsSafeExactly(s, client, ids);
    case HardwareFails(client, ids, order) =>
      EnumeratedIsDistinct(order);
      assert s.pending - KeySet(client, ids) == s.pending - set k | k in order;
      AnswerKeepsInv(s, order, true);
    case Timeout(order) =>
      EnumeratedIsDistinct(order);
      AnswerKeepsInv(s, order, false);
  }

  /** Over any interleaving of calls, hardware callbacks, hardware failures and timeouts, the pool's
      pending ids are those registered and not yet settled, and every registration is answered at most
      once and only while pending. */
  lemma {:induction false} RepliesAreSafeAlways(states: seq<State>, steps: seq<Step>, n: nat)
    requires IsRun(states, steps) && n <= |steps|
    ensures Inv(states[n])
    decreases n
  {
    if n == 0 {
      assert forall client :: PendingOf({}, client) == {};
    } else {
      RepliesAreSafeAlways(states, steps, n - 1);
      StepKeepsInv(states[n - 1], steps[n - 1]);
    }
  }

  /** A callback that carries one pending id twice is passed on twice. */
  lemma DuplicateIsAnsweredTwice(s: State, client: Client, id: int)
    requires Inv(s) && Key(client, id) in s.pending
    ensures var t := Next(s, HardwareResults(client, [id, id]));
            t.trace == s.trace + [Answered(Key(client, id)), Answered(Key(client, id))] && !WellFormed(t.trace)
  {
    hide WellFormed, Open, PendingOf;
    var k, ids := Key(client, id), [id, id];
    assert ids[..1] == [id] && Keys(client, ids[..1]) == [k];
    assert Keys(client, ids) == [k] + [k];
    assert Keys(client, ids)[..1] == [k];
    assert StillPending(s.pending, [k]) == [k];
    assert StillPending(s.pending, Keys(client, ids)) == [k, k];
    assert !Distinct([k, k]) && Answer([k, k]) == [Answered(k), Answered(k)] by {
      assert [k, k][..1] == [k] && Answer([k]) == [Answered(k)];
    }
    AnswerEach(s.trace, [k, k], false);
  }

  // ---- The pool ----

  datatype PendingRequest = PendingRequest(requestIds: set<int>, timeoutTimestamp: int)

  function IdsOf(list: seq<PendingRequest>): set<int> {
    if list == [] then {} else list[0].requestIds + IdsOf(list[1..])
  }

  function Count(list: seq<PendingRequest>): nat {
    if list == [] then 0 else |list[0].requestIds| + Count(list[1..])
  }

  predicate NoIdTwice(list: seq<PendingRequest>) {
    list == [] || (list[0].requestIds !! IdsOf(list[1..]) && NoIdTwice(list[1..]))
  }

  lemma {:induction false} IdsOfConcat(xs: seq<PendingRequest>, ys: seq<PendingRequest>)
    ensures IdsOf(xs + ys) == IdsOf(xs) + IdsOf(ys) && Count(xs + ys) == Count(xs) + Count(ys)
    ensures NoIdTwice(xs + ys) <==> NoIdTwice(xs) && NoIdTwice(ys) && IdsOf(xs) !! IdsOf(ys)
  {
    if xs == [] {
      assert xs + ys == ys;
    } else {
      assert (xs + ys)[1..] == xs[1..] + ys;
      IdsOfConcat(xs[1..], ys);
    }
  }

  lemma {:induction false} CountIsSize(list: seq<PendingRequest>)
    requires NoIdTwice(list)
    ensures Count(list) == |IdsOf(list)|
  {
    if list != [] {
      CountIsSize(list[1..]);
    }
  }

  lemma PrefixGrows(list: seq<PendingRequest>, i: nat)
    requires i < |list|
    ensures IdsOf(list[..i + 1]) == IdsOf(list[..i]) + list[i].requestIds
    ensures Count(list[..i + 1]) == Count(list[..i]) + |list[i].requestIds|
    ensures NoIdTwice(list) ==> list[i].requestIds !! IdsOf(list[..i])
  {
    var one := [list[i]];
    assert list[..i + 1] == list[..i] + one && list == list[..i + 1] + list[i + 1..] && one[1..] == [];
    IdsOfConcat(list[..i], one);
    IdsOfConcat(list[..i + 1], list[i + 1..]);
  }

  lemma OneMore(list: seq<PendingRequest>, request: PendingRequest)
    ensures IdsOf(list + [request]) == IdsOf(list) + request.requestIds
    ensures Count(list + [request]) == Count(list) + |request.requestIds|
    ensures NoIdTwice(list) && request.requestIds !! IdsOf(list) ==> NoIdTwice(list + [request])
  {
    assert [request][1..] == [];
    IdsOfConcat(list, [request]);
  }

  lemma Smaller(s: set<int>, t: set<int>)
    requires s <= t
    ensures |s| <= |t|
  {
    assert t == s + (t - s);
  }

  /** Looks for an id that is pending, and counts the pending ones. */
  method CountUnlessDuplicate(list: seq<PendingRequest>, requestIds: set<int>) returns (duplicate: bool, count: nat)
    requires NoIdTwice(list)
    ensures duplicate <==> requestIds * IdsOf(list) != {}
    ensures !duplicate ==> count == |IdsOf(list)|
  {
    hide IdsOf, Count, NoIdTwice;
    EmptyList();
    count := 0;
    for i := 0 to |list|
      invariant count == Count(list[..i]) && requestIds * IdsOf(list[..i]) == {}
    {
      PrefixGrows(list, i);
      if requestIds * list[i].requestIds != {} {
        assert list == list[..i + 1] + list[i + 1..];
        IdsOfConcat(list[..i + 1], list[i + 1..]);
        var both := requestIds * list[i].requestIds;
        assert both <= requestIds * IdsOf(list);
        return true, count;
      }
      count := count + |list[i].requestIds|;
    }
    assert list[..|list|] == list;
    CountIsSize(list);
    return false, count;
  }

  /** The requests without some ids, and without those left with none. */
  function Stripped(list: seq<PendingRequest>, ids: set<int>): seq<PendingRequest> {
    if list == [] then []
    else
      var left, rest := list[0].requestIds - ids, Stripped(list[1..], ids);
      if left == {} then rest else [list[0].(requestIds := left)] + rest
  }

  /** The requests from the first one on that has not timed out. */
  function Unexpired(list: seq<PendingRequest>, now: int): seq<PendingRequest> {
    if list == [] || list[0].timeoutTimestamp >= now then list else Unexpired(list[1..], now)
  }

  /** What is left are the requests from some position on: those before it have timed out, and the one at it
      has not. */
  lemma {:induction false} UnexpiredExactly(list: seq<PendingRequest>, now: int) returns (n: nat)
    ensures n <= |list| && Unexpired(list, now) == list[n..]
    ensures forall i :: 0 <= i < n ==> list[i].timeoutTimestamp < now
    ensures n < |list| ==> now <= list[n].timeoutTimestamp
    decreases |list|
  {
    n := 0;
    if list != [] && list[0].timeoutTimestamp < now {
      n := UnexpiredExactly(list[1..], now);
      n := n + 1;
      assert list[1..][n - 1..] == list[n..];
      assert forall i :: 0 < i < |list| ==> list[i] == list[1..][i - 1];
    }
  }

  /** A request is overdue when its deadline has passed and those of all before it in the list have. */
  predicate Overdue(list: seq<PendingRequest>, i: nat, now: int)
    requires i < |list|
  {
    forall k :: 0 <= k <= i ==> list[k].timeoutTimestamp < now
  }

  /** An id leaves the pool at a timeout when its request is overdue. */
  predicate LeavesAt(pending: map<Client, seq<PendingRequest>>, now: int, c: Client, id: int) {
    c in pending &&
    exists i :: 0 <= i < |pending[c]| && id in pending[c][i].requestIds && Overdue(pending[c], i, now)
  }

  lemma {:induction false} IdIsAt(list: seq<PendingRequest>, id: int)
    ensures id in IdsOf(list) <==> exists i :: 0 <= i < |list| && id in list[i].requestIds
    decreases |list|
  {
    if list != [] {
      IdIsAt(list[1..], id);
      assert forall i :: 0 < i < |list| ==> list[i] == list[1..][i - 1];
    }
  }

  /** The ids that a check takes out of a list are exactly those of overdue requests. */
  lemma ExpiredExactly(list: seq<PendingRequest>, now: int, id: int)
    requires NoIdTwice(list)
    ensures id in IdsOf(list) - IdsOf(Unexpired(list, now)) <==>
            exists i :: 0 <= i < |list| && id in list[i].requestIds && Overdue(list, i, now)
  {
    hide IdsOf, NoIdTwice, Unexpired;
    var n := UnexpiredExactly(list, now);
    assert list == list[..n] + list[n..];
    IdsOfConcat(list[..n], list[n..]);
    IdIsAt(list[..n], id);
    IdIsAt(list[n..], id);
    forall i | 0 <= i < |list| && id in list[i].requestIds && Overdue(list, i, now)
      ensures id in IdsOf(list) - IdsOf(list[n..])
    {
      assert i < n && list[..n][i] == list[i];
    }
  }

  lemma InFront(request: PendingRequest, rest: seq<PendingRequest>)
    ensures var list := [request] + rest;
            && IdsOf(list) == request.requestIds + IdsOf(rest) && Count(list) == |request.requestIds| + Count(rest)
            && (NoIdTwice(list) <==> request.requestIds !! IdsOf(rest) && NoIdTwice(rest))
  {
    assert ([request] + rest)[1..] == rest;
  }

  lemma WithoutIds(first: set<int>, others: set<int>, ids: set<int>)
    ensures (first - ids) + (others - ids) == (first + others) - ids && |first - ids| <= |first|
    ensures first - ids == {} ==> others - ids == (first + others) - ids
    ensures first !! others ==> (first - ids) !! (others - ids)
  {
    Smaller(first - ids, first);
  }

  lemma {:induction false} StrippedIs(list: seq<PendingRequest>, ids: set<int>)
    requires NoIdTwice(list)
    ensures var kept := Stripped(list, ids);
            NoIdTwice(kept) && Count(kept) <= Count(list) && IdsOf(kept) == IdsOf(list) - ids
  {
    hide IdsOf, Count, NoIdTwice;
    if list == [] {
      EmptyList();
    } else {
      var left, rest := list[0].(requestIds := list[0].requestIds - ids), Stripped(list[1..], ids);
      assert list == [list[0]] + list[1..];
      InFront(list[0], list[1..]);
      StrippedIs(list[1..], ids);
      InFront(left, rest);
      WithoutIds(list[0].requestIds, IdsOf(list[1..]), ids);
    }
  }

  function Shifted(at: seq<nat>): seq<nat> {
    seq(|at|, k requires 0 <= k < |at| => at[k] + 1)
  }

  lemma ShiftedIs(at: seq<nat>, n: nat)
    requires IsSelection(at, n)
    ensures IsSelection(Shifted(at), n + 1) && IsSelection([0] + Shifted(at), n + 1)
    ensures forall i: nat :: i in Shifted(at) <==> i > 0 && i - 1 in at
    ensures forall i: nat :: i in [0] + Shifted(at) <==> i == 0 || i - 1 in at
  {
    forall i: nat | i > 0 && i - 1 in at ensures i in Shifted(at) {
      var k :| 0 <= k < |at| && at[k] == i - 1;
      assert Shifted(at)[k] == i;
    }
  }

  // What is left of a list are the requests at some positions, without some ids.
  ghost predicate LeftAt(list: seq<PendingRequest>, ids: set<int>, left: seq<PendingRequest>, at: seq<nat>) {
    && IsSelection(at, |list|) && |left| == |at|
    && forall k :: 0 <= k < |at| ==>
         left[k] == PendingRequest(list[at[k]].requestIds - ids, list[at[k]].timeoutTimestamp)
  }

  lemma LeftInFront(list: seq<PendingRequest>, ids: set<int>, left: seq<PendingRequest>, at: seq<nat>)
    requires list != [] && LeftAt(list[1..], ids, left, at)
    ensures LeftAt(list, ids, left, Shifted(at))
    ensures LeftAt(list, ids, [list[0].(requestIds := list[0].requestIds - ids)] + left, [0] + Shifted(at))
  {
    ShiftedIs(at, |list| - 1);
  }

  /** What is left are the requests that keep an id, in order and with their deadlines. */
  lemma {:induction false} StrippedExactly(list: seq<PendingRequest>, ids: set<int>) returns (at: seq<nat>)
    ensures LeftAt(list, ids, Stripped(list, ids), at)
    ensures forall i: nat :: i in at <==> i < |list| && list[i].requestIds - ids != {}
  {
    at := [];
    if list != [] {
      var rest := StrippedExactly(list[1..], ids);
      LeftInFront(list, ids, Stripped(list[1..], ids), rest);
      LeftIsSelection(list[1..], ids, Stripped(list[1..], ids), rest);
      ShiftedIs(rest, |list| - 1);
      hide LeftAt, IsSelection, Shifted;
      at := if list[0].requestIds - ids == {} then Shifted(rest) else [0] + Shifted(rest);
      assert forall i :: 0 < i < |list| ==> list[i] == list[1..][i - 1];
    }
  }

  lemma LeftIsSelection(list: seq<PendingRequest>, ids: set<int>, left: seq<PendingRequest>, at: seq<nat>)
    requires LeftAt(list, ids, left, at)
    ensures IsSelection(at, |list|)
  {
  }

  /** Takes ids out of a list of requests, dropping the requests left without any. */
  method Strip(list: seq<PendingRequest>, requestIds: set<int>) returns (kept: seq<PendingRequest>, found: set<int>)
    requires NoIdTwice(list)
    ensures kept == Stripped(list, requestIds) && found == requestIds * IdsOf(list)
  {
    hide IdsOf, Count, NoIdTwice;
    EmptyList();
    kept, found := [], {};
    for i := 0 to |list|
      invariant kept + Stripped(list[i..], requestIds) == Stripped(list, requestIds)
      invariant found == requestIds * IdsOf(list[..i])
    {
      assert list[i..][1..] == list[i + 1..];
      PrefixGrows(list, i);
      var left := list[i].(requestIds := list[i].requestIds - requestIds);
      found := found + list[i].requestIds * requestIds;
      if left.requestIds != {} {
        kept := kept + [left];
      }
    }
    assert list[..|list|] == list;
  }

  lemma EmptyList()
    ensures forall list: seq<PendingRequest> :: |list| == 0 ==> IdsOf(list) == {} && Count(list) == 0 && NoIdTwice(list)
  {
  }

  function ExpiredOf(timedOut: map<Client, set<int>>, c: Client): set<int> {
    if c in timedOut then timedOut[c] else {}
  }

  /** The pool after the clients that are not in `todo` have been checked: what has timed out is gone,
      and so is a client left with nothing. */
  function InTime(pending: map<Client, seq<PendingRequest>>, todo: set<Client>, now: int)
    : map<Client, seq<PendingRequest>>
  {
    map c | c in pending && (c in todo || Unexpired(pending[c], now) != []) ::
      if c in todo then pending[c] else Unexpired(pending[c], now)
  }

  lemma InTimeStep(pending: map<Client, seq<PendingRequest>>, todo: set<Client>, now: int, c: Client)
    requires c in todo && c in pending
    ensures var before, left := InTime(pending, todo, now), Unexpired(pending[c], now);
            InTime(pending, todo - {c}, now) == if left == [] then before - {c} else before[c := left]
  {
    hide Unexpired;
  }

  /** The requests from the first one on that has not timed out, and the ids of those before. */
  method SplitExpired(list: seq<PendingRequest>, now: int) returns (left: seq<PendingRequest>, expired: set<int>)
    requires NoIdTwice(list)
    ensures NoIdTwice(left) && Count(left) <= Count(list)
    ensures IdsOf(left) == IdsOf(list) - expired && expired <= IdsOf(list)
    ensures left == Unexpired(list, now)
  {
    left, expired := list, {};
    while left != []
      invariant Unexpired(left, now) == Unexpired(list, now)
      invariant NoIdTwice(left) && Count(left) <= Count(list)
      invariant IdsOf(left) == IdsOf(list) - expired && expired <= IdsOf(list)
      decreases |left|
    {
      if left[0].timeoutTimestamp >= now {
        return;
      }
      expired := expired + left[0].requestIds;
      left := left[1..];
    }
  }

  class PendingRequestPool {
    const timeoutInNano: int
    var pendingByClient: map<Client, seq<PendingRequest>>

    constructor (timeoutInNano: int)
      ensures Valid() && pendingByClient == map[] && this.timeoutInNano == timeoutInNano
    {
      this.timeoutInNano, pendingByClient := timeoutInNano, map[];
    }

    ghost predicate Valid()
      reads this
    {
      forall c <- pendingByClient :: NoIdTwice(pendingByClient[c]) &&
        Count(pendingByClient[c]) <= MAX_PENDING_REQUEST_PER_CLIENT
    }

    function IdsAt(c: Client): set<int>
      reads this
    {
      if c in pendingByClient then IdsOf(pendingByClient[c]) else {}
    }

    /** Adds all of the ids, as one request with one deadline, or none. */
    method AddRequests(client: Client, requestIds: set<int>, now: int) returns (status: StatusCode)
      requires Valid()
      modifies this
      ensures Valid()
      ensures status == if requestIds * old(IdsAt(client)) != {} then InvalidArg
                        else if |requestIds| > MAX_PENDING_REQUEST_PER_CLIENT - |old(IdsAt(client))| then TryAgain
                        else Ok
      ensures forall c :: IdsAt(c) == if c == client && status == Ok then old(IdsAt(c)) + requestIds else old(IdsAt(c))
      ensures status == InvalidArg ==> pendingByClient == old(pendingByClient)
      ensures status != InvalidArg ==>
                var list := if client in old(pendingByClient) then old(pendingByClient)[client] else [];
                var more := list + [PendingRequest(requestIds, now + timeoutInNano)];
                pendingByClient == old(pendingByClient)[client := if status == Ok then more else list]
    {
      hide IdsOf, Count, NoIdTwice;
      EmptyList();
      var count := 0;
      if client in pendingByClient {
        var duplicate;
        duplicate, count := CountUnlessDuplicate(pendingByClient[client], requestIds);
        CountIsSize(pendingByClient[client]);
        if duplicate {
          return InvalidArg;
        }
      } else {
        pendingByClient := pendingByClient[client := []];
      }
      if |requestIds| > MAX_PENDING_REQUEST_PER_CLIENT - count {
        return TryAgain;
      }
      var request := PendingRequest(requestIds, now + timeoutInNano);
      assert count == Count(pendingByClient[client]) && NoIdTwice(pendingByClient[client]);
      forall id | id in requestIds ensures id !in IdsOf(pendingByClient[client]) {
        assert id !in requestIds * IdsOf(pendingByClient[client]);
      }
      OneMore(pendingByClient[client], request);
      pendingByClient := pendingByClient[client := pendingByClient[client] + [request]];
      return Ok;
    }

    /** Takes the ids that are pending out of the pool. */
    method TryFinishRequests(client: Client, requestIds: set<int>) returns (found: set<int>)
      requires Valid()
      modifies this
      ensures Valid()
      ensures found == requestIds * old(IdsAt(client))
      ensures forall c :: IdsAt(c) == if c == client then old(IdsAt(c)) - requestIds else old(IdsAt(c))
      ensures pendingByClient == if client in old(pendingByClient)
                                 then old(pendingByClient)[client := Stripped(old(pendingByClient)[client], requestIds)]
                                 else old(pendingByClient)
    {
      hide IdsOf, Count, NoIdTwice, Stripped;
      if client !in pendingByClient {
        return {};
      }
      var kept;
      StrippedIs(pendingByClient[client], requestIds);
      kept, found := Strip(pendingByClient[client], requestIds);
      pendingByClient := pendingByClient[client := kept];
    }

    /** Takes the requests that have timed out off the front of every client's list. The callback of
        each is called with its ids; here the ids are put together by client. */
    method CheckTimeout(now: int) returns (timedOut: map<Client, set<int>>)
      requires Valid()
      modifies this
      ensures Valid()
      ensures forall c :: IdsAt(c) == old(IdsAt(c)) - ExpiredOf(timedOut, c) && ExpiredOf(timedOut, c) <= old(IdsAt(c))
      ensures pendingByClient == InTime(old(pendingByClient), {}, now)
      ensures forall c, id :: id in ExpiredOf(timedOut, c) <==> LeavesAt(old(pendingByClient), now, c, id)
    {
      hide IdsOf, Count, NoIdTwice, Unexpired;
      EmptyList();
      timedOut := map[];
      var todo := pendingByClient.Keys;
      while todo != {}
        invariant Valid() && todo <= old(pendingByClient).Keys
        invariant timedOut.Keys !! todo
        invariant forall c ::
                    IdsAt(c) == old(IdsAt(c)) - ExpiredOf(timedOut, c) && ExpiredOf(timedOut, c) <= old(IdsAt(c))
        invariant pendingByClient == InTime(old(pendingByClient), todo, now)
        decreases todo
      {
        var c :| c in todo;
        var left, expired := SplitExpired(pendingByClient[c], now);
        timedOut := timedOut[c := expired];
        InTimeStep(old(pendingByClient), todo, now, c);
        if left == [] {
          pendingByClient := pendingByClient - {c};
        } else {
          pendingByClient := pendingByClient[c := left];
        }
        todo := todo - {c};
      }
      forall c, id ensures id in ExpiredOf(timedOut, c) <==> LeavesAt(old(pendingByClient), now, c, id) {
        if c in old(pendingByClient) {
          ExpiredExactly(old(pendingByClient)[c], now, id);
        }
      }
    }
  }
}
