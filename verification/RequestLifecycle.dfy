/** The get and set calls of the service over the pending request pool, step by step, so that every
    interleaving of their pieces with callbacks and timeouts is a run of the request state machine. */
module RequestLifecycle {
  import opened VehicleTypes
  import opened Requests

  /** A request as the service sees it: `refusal` is what the permission and validity checks say. */
  datatype Request = Request(id: int, prop: VehiclePropValue, refusal: Option<StatusCode>)

  datatype Result = Result(id: int, status: StatusCode, prop: Option<VehiclePropValue>)

  function Refused(requests: seq<Request>): seq<Result> {
    if requests == [] then []
    else
      var rest, last := Refused(requests[..|requests| - 1]), requests[|requests| - 1];
      if last.refusal.Some? then rest + [Result(last.id, last.refusal.value, None)] else rest
  }

  function Allowed(requests: seq<Request>): seq<int> {
    if requests == [] then []
    else
      var rest, last := Allowed(requests[..|requests| - 1]), requests[|requests| - 1];
      if last.refusal.Some? then rest else rest + [last.id]
  }

  predicate NamesAPropTwice(requests: seq<Request>) {
    exists i, j :: 0 <= i < j < |requests| && requests[i].prop == requests[j].prop
  }

  function Ids(results: seq<Result>): seq<int> {
    seq(|results|, i requires 0 <= i < |results| => results[i].id)
  }

  function IdSet(ids: seq<int>): set<int> {
    set id | id in ids
  }

  // The results of a callback that the service passes on.
  function Kept(results: seq<Result>, pending: set<int>): seq<Result> {
    if results == [] then []
    else
      var rest, last := Kept(results[..|results| - 1], pending), results[|results| - 1];
      if last.id in pending then rest + [last] else rest
  }

  function KeysOf(client: Client, ids: set<int>): set<Key> {
    set id | id in ids :: Key(client, id)
  }

  lemma Pick<T>(s: set<T>) returns (x: T)
    requires s != {}
    ensures x in s
  {
    x :| x in s;
  }

  lemma {:induction false} KeysOfSize(client: Client, ids: set<int>)
    ensures |KeysOf(client, ids)| == |ids|
    decreases |ids|
  {
    if ids != {} {
      var id := Pick(ids);
      KeysOfSize(client, ids - {id});
      assert KeysOf(client, ids) == KeysOf(client, ids - {id}) + {Key(client, id)};
    }
  }

  lemma {:induction false} KeySetIs(client: Client, ids: seq<int>)
    ensures KeySet(client, ids) == KeysOf(client, IdSet(ids))
  {
    if ids != [] {
      var init, last := ids[..|ids| - 1], ids[|ids| - 1];
      KeySetIs(client, init);
      assert ids == init + [last];
      assert KeySet(client, ids) == KeySet(client, init) + {Key(client, last)};
      assert IdSet(ids) == IdSet(init) + {last};
      assert KeysOf(client, IdSet(ids)) == KeysOf(client, IdSet(init)) + {Key(client, last)};
    }
  }

  lemma IdsAreElements(results: seq<Result>)
    ensures IdSet(Ids(results)) == set r | r in results :: r.id
  {
    forall id ensures id in Ids(results) <==> exists r <- results :: r.id == id {
      if id in Ids(results) {
        var i :| 0 <= i < |results| && Ids(results)[i] == id;
        assert results[i] in results;
      }
      if r :| r in results && r.id == id {
        var i :| 0 <= i < |results| && results[i] == r;
        assert Ids(results)[i] == id;
      }
    }
  }

  /** What is passed on is exactly the replies of the state machine. */
  lemma {:induction false} KeptAreReplies(client: Client, results: seq<Result>, pending: set<Key>, ids: set<int>)
    requires forall id :: id in ids <==> Key(client, id) in pending
    ensures Keys(client, Ids(Kept(results, ids))) == StillPending(pending, Keys(client, Ids(results)))
  {
    if results != [] {
      var init, last := results[..|results| - 1], results[|results| - 1];
      KeptAreReplies(client, init, pending, ids);
      assert Ids(results)[..|results| - 1] == Ids(init);
      var rest := Kept(init, ids);
      assert Ids(rest + [last])[..|rest|] == Ids(rest);
      assert (Keys(client, Ids(init)) + [Key(client, last.id)])[..|Keys(client, Ids(init))|] == Keys(client, Ids(init));
    }
  }

  lemma {:induction false} KeptGrows(results: seq<Result>, i: nat, pending: set<int>)
    requires i < |results|
    ensures Kept(results[..i + 1], pending) ==
            if results[i].id in pending then Kept(results[..i], pending) + [results[i]] else Kept(results[..i], pending)
  {
    assert results[..i + 1][..i] == results[..i];
  }

  /** The results that are passed on are those whose id is pending, in order. */
  lemma {:induction false} KeptExactly(results: seq<Result>, pending: set<int>) returns (at: seq<nat>)
    ensures IsSelection(at, |results|) && forall i: nat :: i in at <==> i < |results| && results[i].id in pending
    ensures |Kept(results, pending)| == |at|
    ensures forall k :: 0 <= k < |at| ==> Kept(results, pending)[k] == results[at[k]]
  {
    at := [];
    if results != [] {
      var n := |results| - 1;
      at := KeptExactly(results[..n], pending);
      SelectionGrows(at, n);
      if results[n].id in pending {
        at := at + [n];
      }
    }
  }

  /** Each request that is refused is answered with its refusal and no value, in order. */
  lemma {:induction false} RefusedExactly(requests: seq<Request>) returns (at: seq<nat>)
    ensures IsSelection(at, |requests|)
    ensures forall i: nat :: i in at <==> i < |requests| && requests[i].refusal.Some?
    ensures |Refused(requests)| == |at|
    ensures forall k :: 0 <= k < |at| ==>
              Refused(requests)[k] == Result(requests[at[k]].id, requests[at[k]].refusal.value, None)
  {
    at := [];
    if requests != [] {
      var n := |requests| - 1;
      at := RefusedExactly(requests[..n]);
      SelectionGrows(at, n);
      if requests[n].refusal.Some? {
        at := at + [n];
      }
    }
  }

  /** Every other goes to the hardware, in order. */
  lemma {:induction false} AllowedExactly(requests: seq<Request>) returns (at: seq<nat>)
    ensures IsSelection(at, |requests|)
    ensures forall i: nat :: i in at <==> i < |requests| && requests[i].refusal.None?
    ensures |Allowed(requests)| == |at| && forall k :: 0 <= k < |at| ==> Allowed(requests)[k] == requests[at[k]].id
  {
    at := [];
    if requests != [] {
      var n := |requests| - 1;
      at := AllowedExactly(requests[..n]);
      SelectionGrows(at, n);
      if requests[n].refusal.None? {
        at := at + [n];
      }
    }
  }

  /** The ids of a call are registered, all of them, exactly when none is pending already and the client
      will not have more than ten thousand pending; otherwise none is. */
  lemma CallIsRegisteredExactly(s: State, client: Client, ids: seq<int>, order: seq<Key>)
    requires Enabled(s, Step.Call(client, ids, order))
    ensures var t, status := Next(s, Step.Call(client, ids, order)), AddStatus(s, client, ids);
            var pending := set k | k in s.pending && k.client == client;
            && (status == InvalidArg <==> exists id <- ids :: Key(client, id) in s.pending)
            && (status == TryAgain <==>
                  (forall id <- ids :: Key(client, id) !in s.pending) && |pending| + |IdSet(ids)| > 10000)
            && (status != Ok ==> t == s) && status in {Ok, InvalidArg, TryAgain}
            && (status == Ok ==>
                  forall k :: k in t.pending <==> k in s.pending || (k.client == client && k.id in ids))
  {
    KeySetIs(client, ids);
    KeysOfSize(client, IdSet(ids));
    assert PendingOf(s.pending, client) == set k | k in s.pending && k.client == client;
    forall k: Key ensures k in KeySet(client, ids) <==> k.client == client && k.id in ids {
    }
    hide KeySet, KeysOf, PendingOf;
    if id :| id in ids && Key(client, id) in s.pending {
      assert Key(client, id) in KeySet(client, ids) * s.pending;
    }
  }

  class DefaultVehicleHal {
    const pool: PendingRequestPool
    ghost var trace: seq<Event>

    constructor (pool: PendingRequestPool)
      ensures this.pool == pool && trace == []
    {
      this.pool, trace := pool, [];
    }

    ghost predicate Valid()
      reads this, pool
    {
      pool.Valid()
    }

    ghost function PendingKeys(): set<Key>
      reads pool
    {
      set c, id | c in pool.pendingByClient && id in pool.IdsAt(c) :: Key(c, id)
    }

    ghost function View(): State
      reads this, pool
    {
      State(PendingKeys(), trace)
    }

    lemma PendingAt(client: Client)
      ensures PendingOf(PendingKeys(), client) == KeysOf(client, pool.IdsAt(client))
      ensures |PendingOf(PendingKeys(), client)| == |pool.IdsAt(client)|
    {
      assert PendingOf(PendingKeys(), client) == KeysOf(client, pool.IdsAt(client));
      KeysOfSize(client, pool.IdsAt(client));
    }

    lemma PendingKeyIs(k: Key)
      ensures k in PendingKeys() <==> k.id in pool.IdsAt(k.client)
    {
    }

    lemma SharedKeys(client: Client, requestIds: set<int>)
      ensures KeysOf(client, requestIds) * PendingKeys() == {} <==> requestIds * pool.IdsAt(client) == {}
    {
      hide IdsOf, PendingKeys;
      var shared := requestIds * pool.IdsAt(client);
      if shared == {} {
        forall k ensures k !in KeysOf(client, requestIds) * PendingKeys() {
          PendingKeyIs(k);
          assert k in KeysOf(client, requestIds) ==> k.client == client && k.id !in shared;
        }
      } else {
        var id := Pick(shared);
        PendingKeyIs(Key(client, id));
        assert Key(client, id) in KeysOf(client, requestIds) * PendingKeys();
      }
    }

    // The pool's two operations, said of keys.
    method AddToPool(client: Client, requestIds: set<int>, now: int) returns (status: StatusCode)
      requires Valid()
      modifies pool
      ensures Valid()
      ensures var keys, room := KeysOf(client, requestIds),
                  MAX_PENDING_REQUEST_PER_CLIENT - |PendingOf(old(PendingKeys()), client)|;
              status == if keys * old(PendingKeys()) != {} then InvalidArg else if |keys| > room then TryAgain else Ok
      ensures PendingKeys() ==
              if status == Ok then old(PendingKeys()) + KeysOf(client, requestIds) else old(PendingKeys())
    {
      hide IdsOf, Count, NoIdTwice, PendingOf, PendingRequestPool.IdsAt;
      ghost var before := PendingKeys();
      PendingAt(client);
      SharedKeys(client, requestIds);
      KeysOfSize(client, requestIds);
      hide PendingKeys;
      forall k: Key ensures k in before <==> k.id in pool.IdsAt(k.client) {
        PendingKeyIs(k);
      }
      status := pool.AddRequests(client, requestIds, now);
      forall k: Key ensures k in PendingKeys() <==> k in before || (status == Ok && k in KeysOf(client, requestIds)) {
        PendingKeyIs(k);
      }
    }

    method FinishInPool(client: Client, requestIds: set<int>) returns (found: set<int>)
      requires Valid()
      modifies pool
      ensures Valid() && found == requestIds * old(pool.IdsAt(client))
      ensures PendingKeys() == old(PendingKeys()) - KeysOf(client, requestIds)
    {
      hide IdsOf, Count, NoIdTwice;
      found := pool.TryFinishRequests(client, requestIds);
    }

    /** The part of a get or set call before the hardware is called. When the requests cannot be
        registered nothing is sent: neither a refusal to the client nor a request to the hardware. */
    method Call(client: Client, requests: seq<Request>, now: int)
      returns (status: StatusCode, refused: seq<Result>, toHardware: seq<int>, ghost order: seq<Key>)
      requires Valid()
      modifies this, pool
      ensures Valid()
      ensures NamesAPropTwice(requests) ==> status == InvalidArg && View() == old(View())
      ensures !NamesAPropTwice(requests) ==>
                var step := Step.Call(client, Allowed(requests), order);
                && Enabled(old(View()), step) && View() == Next(old(View()), step)
                && status == AddStatus(old(View()), client, Allowed(requests))
      ensures status != Ok ==> refused == [] && toHardware == []
      ensures status == Ok ==> refused == Refused(requests) && toHardware == Allowed(requests)
    {
      order := [];
      var props: set<VehiclePropValue> := {};
      for i := 0 to |requests|
        invariant props == set j | 0 <= j < i :: requests[j].prop
        invariant !NamesAPropTwice(requests[..i])
        invariant View() == old(View()) && Valid()
      {
        if requests[i].prop in props {
          return InvalidArg, [], [], [];
        }
        props := props + {requests[i].prop};
      }
      assert requests[..|requests|] == requests;
      var failedResults, hardwareIds := [], [];
      for i := 0 to |requests|
        invariant failedResults == Refused(requests[..i]) && hardwareIds == Allowed(requests[..i])
        invariant View() == old(View()) && Valid()
      {
        assert requests[..i + 1][..i] == requests[..i];
        if requests[i].refusal.Some? {
          failedResults := failedResults + [Result(requests[i].id, requests[i].refusal.value, None)];
        } else {
          hardwareIds := hardwareIds + [requests[i].id];
        }
      }
      order := Registration(client, hardwareIds);
      status := Add(client, hardwareIds, now, order);
      if status != Ok {
        return status, [], [], order;
      }
      return Ok, failedResults, hardwareIds, order;
    }

    // Some order of the set of ids.
    lemma Registration(client: Client, ids: seq<int>) returns (order: seq<Key>)
      ensures Enumerates(order, KeySet(client, ids))
    {
      order := Listed(KeySet(client, ids));
    }

    method Add(client: Client, ids: seq<int>, now: int, ghost order: seq<Key>) returns (status: StatusCode)
      requires Valid() && Enumerates(order, KeySet(client, ids))
      modifies this, pool
      ensures Valid() && status == AddStatus(old(View()), client, ids)
      ensures View() == Next(old(View()), Step.Call(client, ids, order))
    {
      hide KeySet, KeysOf, PendingOf, PendingKeys;
      KeySetIs(client, ids);
      status := AddToPool(client, (set id | id in ids), now);
      if status == Ok {
        trace := trace + Register(order);
      }
    }

    /** The hardware's callback: results that are no longer pending are erased from the list. */
    method OnHardwareResults(client: Client, results: seq<Result>) returns (sent: seq<Result>)
      requires Valid()
      modifies this, pool
      ensures Valid() && View() == Next(old(View()), HardwareResults(client, Ids(results)))
      ensures Keys(client, Ids(sent)) == StillPending(old(View()).pending, Keys(client, Ids(results)))
      ensures sent == Kept(results, old(pool.IdsAt(client)))
    {
      hide KeySet, KeysOf;
      ghost var before, waiting := PendingKeys(), pool.IdsAt(client);
      assert forall id :: id in waiting <==> Key(client, id) in before;
      var requestIds := set r | r in results :: r.id;
      IdsAreElements(results);
      KeySetIs(client, Ids(results));
      var finished := FinishInPool(client, requestIds);
      sent := [];
      for i := 0 to |results|
        invariant sent == Kept(results[..i], waiting)
        invariant Valid() && trace == old(trace) && PendingKeys() == before - KeySet(client, Ids(results))
      {
        KeptGrows(results, i, waiting);
        assert results[i] in results;
        if results[i].id in finished {
          sent := sent + [results[i]];
        }
      }
      assert results[..|results|] == results;
      KeptAreReplies(client, results, before, waiting);
      trace := trace + Answer(StillPending(before, Keys(client, Ids(results))));
    }

    /** The hardware call failed: what is still pending of it is withdrawn without a reply. */
    method OnHardwareFailure(client: Client, ids: seq<int>) returns (ghost order: seq<Key>)
      requires Valid()
      modifies this, pool
      ensures Valid() && Enabled(old(View()), HardwareFails(client, ids, order))
      ensures View() == Next(old(View()), HardwareFails(client, ids, order))
    {
      hide KeySet, KeysOf, PendingKeys;
      order := Listed(KeySet(client, ids) * PendingKeys());
      KeySetIs(client, ids);
      var found := FinishInPool(client, (set id | id in ids));
      trace := trace + Withdraw(order);
    }

    /** The periodic check: what has timed out is answered with a request to try again. */
    method OnTimeout(now: int) returns (timedOut: map<Client, set<int>>, ghost order: seq<Key>)
      requires Valid()
      modifies this, pool
      ensures Valid() && Enabled(old(View()), Timeout(order)) && View() == Next(old(View()), Timeout(order))
      ensures forall c, id :: Key(c, id) in order <==> id in ExpiredOf(timedOut, c)
      ensures forall c, id :: id in ExpiredOf(timedOut, c) <==> LeavesAt(old(pool.pendingByClient), now, c, id)
    {
      ghost var before := View();
      timedOut := pool.CheckTimeout(now);
      ghost var gone := before.pending - View().pending;
      order := Listed(gone);
      assert View().pending == before.pending - gone && (set k | k in order) == gone;
      trace := trace + Answer(order);
      forall c, id ensures Key(c, id) in order <==> id in ExpiredOf(timedOut, c) {
        assert Key(c, id) in before.pending <==> id in old(pool.IdsAt(c));
        assert Key(c, id) in View().pending <==> id in pool.IdsAt(c);
      }
    }
  }

  lemma {:induction false} Listed(s: set<Key>) returns (order: seq<Key>)
    ensures Enumerates(order, s)
    decreases |s|
  {
    if s == {} {
      order := [];
    } else {
      var k :| k in s;
      var rest := Listed(s - {k});
      order := rest + [k];
    }
  }
}
