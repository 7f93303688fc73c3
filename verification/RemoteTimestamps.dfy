/** The client side of the gRPC hardware: values arrive from the stream and from getValues in any
    interleaving, stamped by the server's clock, and are restamped with the local one. */
module RemoteTimestamps {
  import opened VehicleTypes

  /** A value as it arrives: its server timestamp, and what the local clock reads then. */
  datatype Reading = Reading(pa: PropArea, server: int, now: int)

  datatype Stamp = Stamp(server: int, android: int)

  type Latest = map<PropArea, Stamp>

  predicate IsOutdated(latest: Latest, r: Reading) {
    r.pa in latest && r.server < latest[r.pa].server
  }

  function AndroidTimestamp(latest: Latest, r: Reading): int {
    if r.pa in latest && r.server == latest[r.pa].server then latest[r.pa].android else r.now
  }

  function Received(latest: Latest, r: Reading): Latest {
    if IsOutdated(latest, r) then latest
    else latest[r.pa := Stamp(r.server, AndroidTimestamp(latest, r))]
  }

  /** The table after a run of readings. */
  function After(readings: seq<Reading>): Latest {
    if readings == [] then map[] else Received(After(readings[..|readings| - 1]), readings[|readings| - 1])
  }

  // ---- What the table holds, over whole runs ----

  predicate SeenAt(readings: seq<Reading>, pa: PropArea, server: int, i: nat) {
    i < |readings| && readings[i].pa == pa && readings[i].server == server
  }

  /** `android` is what the local clock read when [pa, server] was first received. */
  ghost predicate IsFirstSight(readings: seq<Reading>, pa: PropArea, server: int, android: int) {
    exists i: nat :: SeenAt(readings, pa, server, i) && readings[i].now == android &&
                     forall j: nat :: j < i ==> !SeenAt(readings, pa, server, j)
  }

  ghost predicate IsNewest(readings: seq<Reading>, pa: PropArea, server: int) {
    forall i :: 0 <= i < |readings| && readings[i].pa == pa ==> readings[i].server <= server
  }

  lemma FirstSightStays(readings: seq<Reading>, r: Reading, pa: PropArea, server: int, android: int)
    requires IsFirstSight(readings, pa, server, android)
    ensures IsFirstSight(readings + [r], pa, server, android)
  {
    var i: nat :| SeenAt(readings, pa, server, i) && readings[i].now == android &&
                  forall j: nat :: j < i ==> !SeenAt(readings, pa, server, j);
    assert SeenAt(readings + [r], pa, server, i);
    forall j: nat | j < i ensures !SeenAt(readings + [r], pa, server, j) {
      assert !SeenAt(readings, pa, server, j);
    }
  }

  lemma FirstSightNow(readings: seq<Reading>, r: Reading)
    requires forall i :: 0 <= i < |readings| && readings[i].pa == r.pa ==> readings[i].server < r.server
    ensures IsFirstSight(readings + [r], r.pa, r.server, r.now)
  {
    assert SeenAt(readings + [r], r.pa, r.server, |readings|);
  }

  /** For any clock and any run: the newest server timestamp of a [propId, areaId], and the local time
      at which that timestamp was first received. */
  lemma {:induction false} TableIs(readings: seq<Reading>, pa: PropArea)
    ensures pa in After(readings) <==> exists i :: 0 <= i < |readings| && readings[i].pa == pa
    ensures pa in After(readings) ==>
              var stamp := After(readings)[pa];
              IsNewest(readings, pa, stamp.server) && IsFirstSight(readings, pa, stamp.server, stamp.android)
  {
    if readings != [] {
      var before, r := readings[..|readings| - 1], readings[|readings| - 1];
      assert readings == before + [r];
      TableIs(before, pa);
      assert forall i :: 0 <= i < |before| ==> readings[i] == before[i];
      hide IsFirstSight;
      if pa in After(before) {
        FirstSightStays(before, r, pa, After(before)[pa].server, After(before)[pa].android);
      }
      if r.pa == pa {
        assert readings[|before|].pa == pa;
        if pa !in After(before) || After(before)[pa].server < r.server {
          FirstSightNow(before, r);
        }
      }
    }
  }

  predicate IsAccepted(readings: seq<Reading>, i: nat)
    requires i < |readings|
  {
    !IsOutdated(After(readings[..i]), readings[i])
  }

  // The local timestamp given to an accepted reading.
  function StampOf(readings: seq<Reading>, i: nat): int
    requires i < |readings|
  {
    AndroidTimestamp(After(readings[..i]), readings[i])
  }

  /** A reading is accepted exactly when nothing newer was received before, accepted or not. */
  lemma AcceptedExactly(readings: seq<Reading>, i: nat)
    requires i < |readings|
    ensures IsAccepted(readings, i) <==>
            forall j :: 0 <= j < i && readings[j].pa == readings[i].pa ==> readings[j].server <= readings[i].server
  {
    var before, r := readings[..i], readings[i];
    TableIs(before, r.pa);
    assert forall j :: 0 <= j < i ==> readings[j] == before[j];
    if r.pa in After(before) {
      var k: nat :| SeenAt(before, r.pa, After(before)[r.pa].server, k);
      assert readings[k].server == After(before)[r.pa].server;
    }
  }

  /** An accepted reading is given the local time at which its server timestamp was first received. */
  lemma StampIsFirstSight(readings: seq<Reading>, i: nat)
    requires i < |readings| && IsAccepted(readings, i)
    ensures IsFirstSight(readings[..i + 1], readings[i].pa, readings[i].server, StampOf(readings, i))
  {
    hide IsFirstSight;
    TableIs(readings[..i + 1], readings[i].pa);
    assert readings[..i + 1][..i] == readings[..i];
    assert readings[..i + 1][i].pa == readings[i].pa;
  }

  lemma FirstSightIsUnique(readings: seq<Reading>, i: nat, j: nat, pa: PropArea, server: int, a: int, b: int)
    requires i <= j <= |readings|
    requires IsFirstSight(readings[..i], pa, server, a) && IsFirstSight(readings[..j], pa, server, b)
    ensures a == b
  {
    var x: nat :| SeenAt(readings[..i], pa, server, x) && readings[..i][x].now == a &&
                  forall k: nat :: k < x ==> !SeenAt(readings[..i], pa, server, k);
    var y: nat :| SeenAt(readings[..j], pa, server, y) && readings[..j][y].now == b &&
                  forall k: nat :: k < y ==> !SeenAt(readings[..j], pa, server, k);
    assert SeenAt(readings[..j], pa, server, x);
    assert y < x ==> SeenAt(readings[..i], pa, server, y);
  }

  /** Accepted server timestamps never decrease, and equal ones always map to the same local one. */
  lemma AcceptedInOrder(readings: seq<Reading>, i: nat, j: nat)
    requires i < j < |readings| && readings[i].pa == readings[j].pa
    requires IsAccepted(readings, i) && IsAccepted(readings, j)
    ensures readings[i].server <= readings[j].server
    ensures readings[i].server == readings[j].server ==> StampOf(readings, i) == StampOf(readings, j)
  {
    hide IsFirstSight, After, StampOf;
    AcceptedExactly(readings, j);
    StampIsFirstSight(readings, i);
    StampIsFirstSight(readings, j);
    if readings[i].server == readings[j].server {
      FirstSightIsUnique(readings, i + 1, j + 1, readings[i].pa, readings[i].server, StampOf(readings, i),
                         StampOf(readings, j));
    }
  }

  lemma NewestSoFar(readings: seq<Reading>, i: nat, y: nat)
    requires y <= i < |readings| && IsAccepted(readings, i) && readings[y].pa == readings[i].pa
    ensures readings[y].server <= readings[i].server
  {
    AcceptedExactly(readings, i);
  }

  /** A reading strictly newer than all before it of the same [propId, areaId]. */
  ghost predicate IsRecord(readings: seq<Reading>, i: nat) {
    && i < |readings|
    && forall j :: 0 <= j < i && readings[j].pa == readings[i].pa ==> readings[j].server < readings[i].server
  }

  ghost predicate StampsInOrder(readings: seq<Reading>, pa: PropArea) {
    forall i: nat, j: nat ::
      i < j < |readings| && readings[i].pa == pa && readings[j].pa == pa && IsAccepted(readings, i) &&
        IsAccepted(readings, j)
      ==> StampOf(readings, i) <= StampOf(readings, j)
  }

  ghost predicate RecordsInOrder(readings: seq<Reading>, pa: PropArea) {
    forall i: nat, j: nat ::
      i < j && IsRecord(readings, i) && IsRecord(readings, j) && readings[i].pa == pa && readings[j].pa == pa
      ==> readings[i].now <= readings[j].now
  }

  lemma RecordIsNewer(readings: seq<Reading>, i: nat, j: nat)
    requires j < i && IsRecord(readings, i) && readings[j].pa == readings[i].pa
    ensures readings[j].server < readings[i].server
  {
  }

  lemma RecordIsStamped(readings: seq<Reading>, i: nat)
    requires IsRecord(readings, i)
    ensures IsAccepted(readings, i) && StampOf(readings, i) == readings[i].now
  {
    hide After, StampOf;
    AcceptedExactly(readings, i);
    hide IsRecord;
    StampIsFirstSight(readings, i);
    var all, pa, server := readings[..i + 1], readings[i].pa, readings[i].server;
    var x: nat :| SeenAt(all, pa, server, x) && all[x].now == StampOf(readings, i);
    if x < i {
      RecordIsNewer(readings, i, x);
    }
  }

  // The reading an accepted one has its local timestamp from.
  lemma RecordOf(readings: seq<Reading>, i: nat) returns (x: nat)
    requires i < |readings| && IsAccepted(readings, i)
    ensures x <= i && IsRecord(readings, x) && readings[x].pa == readings[i].pa &&
            readings[x].server == readings[i].server
    ensures StampOf(readings, i) == readings[x].now
  {
    hide After, StampOf, IsAccepted;
    StampIsFirstSight(readings, i);
    var all, pa, server := readings[..i + 1], readings[i].pa, readings[i].server;
    x :| SeenAt(all, pa, server, x) && all[x].now == StampOf(readings, i) &&
         forall j: nat :: j < x ==> !SeenAt(all, pa, server, j);
    forall j | 0 <= j < x && readings[j].pa == readings[x].pa ensures readings[j].server < readings[x].server {
      NewestSoFar(readings, i, j);
      assert !SeenAt(all, pa, server, j);
    }
  }

  /** The local timestamps of a [propId, areaId] never go back exactly when the clock does not between
      its records. */
  lemma LocalTimesInOrderExactly(readings: seq<Reading>, pa: PropArea)
    ensures StampsInOrder(readings, pa) <==> RecordsInOrder(readings, pa)
  {
    hide IsAccepted, StampOf;
    if StampsInOrder(readings, pa) {
      forall i: nat, j: nat | i < j && IsRecord(readings, i) && IsRecord(readings, j) && readings[i].pa == pa &&
        readings[j].pa == pa
        ensures readings[i].now <= readings[j].now
      {
        RecordIsStamped(readings, i);
        RecordIsStamped(readings, j);
      }
    }
    if RecordsInOrder(readings, pa) {
      hide IsRecord;
      forall i: nat, j: nat | i < j < |readings| && readings[i].pa == pa && readings[j].pa == pa &&
                              IsAccepted(readings, i) && IsAccepted(readings, j)
        ensures StampOf(readings, i) <= StampOf(readings, j)
      {
        var x := RecordOf(readings, i);
        var y := RecordOf(readings, j);
        NewestSoFar(readings, j, i);
        if y < x {
          RecordIsNewer(readings, x, y);
        }
      }
    }
  }

  /** In particular when the clock does not go back at all. */
  lemma LocalTimesInOrder(readings: seq<Reading>, pa: PropArea)
    requires forall k, l :: 0 <= k < l < |readings| ==> readings[k].now <= readings[l].now
    ensures StampsInOrder(readings, pa)
  {
    LocalTimesInOrderExactly(readings, pa);
  }

  /** The clock is read before the lock on the table is taken, so two threads can enter in the other
      order; then a newer value carries an older local timestamp. */
  lemma LocalTimesCanGoBack()
    ensures var pa := PropArea(1, 0); var readings := [Reading(pa, 10, 6), Reading(pa, 20, 5)];
            IsAccepted(readings, 0) && IsAccepted(readings, 1) && StampOf(readings, 1) < StampOf(readings, 0)
  {
    var pa := PropArea(1, 0);
    var readings := [Reading(pa, 10, 6), Reading(pa, 20, 5)];
    assert readings[..0] == [] && readings[..1] == [readings[0]];
    assert readings[..1][..0] == [];
    assert After(readings[..1]) == map[pa := Stamp(10, 6)];
  }

  // ---- getValues with retries ----

  datatype GetValueRequest = GetValueRequest(requestId: int, pa: PropArea)

  /** A reply as the server sent it: without a value, or with one. */
  datatype ProtoResult = ProtoResult(requestId: int, status: int, value: Option<Reading>)

  datatype GetValueResult = GetValueResult(requestId: int, status: int, timestamp: Option<int>)

  /** One call to the server: what the stream delivered meanwhile, and the reply unless the call failed. */
  datatype Round = Round(streamed: seq<Reading>, reply: Option<seq<ProtoResult>>)

  datatype Progress = Progress(readings: seq<Reading>, results: seq<GetValueResult>, retries: seq<GetValueRequest>)

  datatype Answer = Answer(status: StatusCode, readings: seq<Reading>, results: seq<GetValueResult>)

  const MAX_RETRY_COUNT: nat := 5

  // The map from ids keeps the last request of an id.
  function RequestById(requests: seq<GetValueRequest>, id: int): Option<GetValueRequest> {
    if requests == [] then None
    else
      var last := requests[|requests| - 1];
      if last.requestId == id then Some(last) else RequestById(requests[..|requests| - 1], id)
  }

  function HandleOne(p: Progress, requests: seq<GetValueRequest>, result: ProtoResult): Progress {
    match RequestById(requests, result.requestId)
    case None => p
    case Some(request) =>
      match result.value
      case None => p.(results := p.results + [GetValueResult(result.requestId, result.status, None)])
      case Some(r) =>
        var latest := After(p.readings);
        if IsOutdated(latest, r) then p.(readings := p.readings + [r], retries := p.retries + [request])
        else
          Progress(p.readings + [r],
                   p.results + [GetValueResult(result.requestId, result.status, Some(AndroidTimestamp(latest, r)))],
                   p.retries)
  }

  function HandleAll(p: Progress, requests: seq<GetValueRequest>, reply: seq<ProtoResult>): Progress {
    if reply == [] then p
    else HandleOne(HandleAll(p, requests, reply[..|reply| - 1]), requests, reply[|reply| - 1])
  }

  /** getValues against a server that answers the calls in turn as `rounds` says. None: it has not
      returned yet when the rounds are used up. The recursive call passes on the count it was given,
      because `retryCount++` evaluates to the old one. */
  function GetValuesWithRetry(p: Progress, requests: seq<GetValueRequest>, retryCount: nat,
                              rounds: seq<Round>): Option<Answer>
    decreases |rounds|
  {
    if retryCount == MAX_RETRY_COUNT then Some(Answer(TryAgain, p.readings, p.results))
    else if rounds == [] then None
    else
      var start := p.(readings := p.readings + rounds[0].streamed, retries := []);
      match rounds[0].reply
      case None => Some(Answer(InternalError, start.readings, start.results))
      case Some(reply) =>
        var q := HandleAll(start, requests, reply);
        if q.retries != [] then GetValuesWithRetry(q, q.retries, retryCount, rounds[1..])
        else Some(Answer(Ok, q.readings, q.results))
  }

  /** The bound on retries is met only by a caller that starts at it; getValues starts at 0. */
  lemma {:induction false} GivesUpExactly(p: Progress, requests: seq<GetValueRequest>, retryCount: nat,
                                          rounds: seq<Round>)
    ensures (exists a :: GetValuesWithRetry(p, requests, retryCount, rounds) == Some(a) && a.status == TryAgain)
            <==> retryCount == MAX_RETRY_COUNT
    decreases |rounds|
  {
    hide HandleAll;
    if retryCount == MAX_RETRY_COUNT {
      assert GetValuesWithRetry(p, requests, retryCount, rounds) == Some(Answer(TryAgain, p.readings, p.results));
    } else if rounds != [] && rounds[0].reply.Some? {
      var start := p.(readings := p.readings + rounds[0].streamed, retries := []);
      var q := HandleAll(start, requests, rounds[0].reply.value);
      GivesUpExactly(q, q.retries, retryCount, rounds[1..]);
    }
  }

  /** getValues as the bound intends it: the recursive call passes on the next count. */
  function GetValuesBounded(p: Progress, requests: seq<GetValueRequest>, retryCount: nat,
                            rounds: seq<Round>): Option<Answer>
    decreases |rounds|
  {
    if retryCount == MAX_RETRY_COUNT then Some(Answer(TryAgain, p.readings, p.results))
    else if rounds == [] then None
    else
      var start := p.(readings := p.readings + rounds[0].streamed, retries := []);
      match rounds[0].reply
      case None => Some(Answer(InternalError, start.readings, start.results))
      case Some(reply) =>
        var q := HandleAll(start, requests, reply);
        if q.retries != [] then GetValuesBounded(q, q.retries, retryCount + 1, rounds[1..])
        else Some(Answer(Ok, q.readings, q.results))
  }

  /** The server answers the first `n` calls, and each time with something outdated. */
  predicate NeedsRetries(p: Progress, requests: seq<GetValueRequest>, n: nat, rounds: seq<Round>)
    decreases n
  {
    n == 0 ||
    (rounds != [] && rounds[0].reply.Some? &&
     var q := HandleAll(p.(readings := p.readings + rounds[0].streamed, retries := []), requests,
                        rounds[0].reply.value);
     q.retries != [] && NeedsRetries(q, q.retries, n - 1, rounds[1..]))
  }

  lemma {:induction false} AgreesWithBoundFrom(p: Progress, requests: seq<GetValueRequest>, count: nat,
                                               rounds: seq<Round>)
    requires count <= MAX_RETRY_COUNT
    ensures GetValuesWithRetry(p, requests, 0, rounds) == GetValuesBounded(p, requests, count, rounds) <==>
            !NeedsRetries(p, requests, MAX_RETRY_COUNT - count, rounds)
    decreases MAX_RETRY_COUNT - count
  {
    hide HandleAll;
    if count == MAX_RETRY_COUNT {
      GivesUpExactly(p, requests, 0, rounds);
    } else if rounds != [] && rounds[0].reply.Some? {
      var start := p.(readings := p.readings + rounds[0].streamed, retries := []);
      var q := HandleAll(start, requests, rounds[0].reply.value);
      AgreesWithBoundFrom(q, q.retries, count + 1, rounds[1..]);
    }
  }

  /** getValues does what the bound intends, to the same answer and the same state, exactly when the
      server does not answer the first five calls with something outdated each time. */
  lemma BoundIsKeptExactly(p: Progress, requests: seq<GetValueRequest>, rounds: seq<Round>)
    ensures GetValuesWithRetry(p, requests, 0, rounds) == GetValuesBounded(p, requests, 0, rounds) <==>
            !NeedsRetries(p, requests, 5, rounds)
  {
    AgreesWithBoundFrom(p, requests, 0, rounds);
  }

  // The server answers every call with a value that the stream has overtaken.
  function Overtaken(pa: PropArea, n: nat): seq<Round> {
    if n == 0 then []
    else [Round([Reading(pa, 2, 0)], Some([ProtoResult(7, 0, Some(Reading(pa, 1, 0)))]))] + Overtaken(pa, n - 1)
  }

  /** So it can call the server any number of times without returning. */
  lemma {:induction false} CanRetryForEver(p: Progress, pa: PropArea, n: nat)
    requires p.results == []
    ensures GetValuesWithRetry(p, [GetValueRequest(7, pa)], 0, Overtaken(pa, n)) == None
    decreases n
  {
    if n != 0 {
      var requests := [GetValueRequest(7, pa)];
      var rounds := Overtaken(pa, n);
      var start := p.(readings := p.readings + [Reading(pa, 2, 0)], retries := []);
      var reply := [ProtoResult(7, 0, Some(Reading(pa, 1, 0)))];
      assert reply[..0] == [];
      assert HandleAll(start, requests, reply[..0]) == start;
      TableIs(start.readings, pa);
      assert start.readings[|p.readings|] == Reading(pa, 2, 0);
      assert IsOutdated(After(start.readings), Reading(pa, 1, 0));
      var q := HandleAll(start, requests, reply);
      assert q.retries == requests && q.results == [];
      assert rounds[0] == Round([Reading(pa, 2, 0)], Some(reply)) && rounds[1..] == Overtaken(pa, n - 1);
      CanRetryForEver(q, pa, n - 1);
    }
  }

  // ---- Every request is answered once ----

  function RequestIds(requests: seq<GetValueRequest>): multiset<int> {
    if requests == [] then multiset{}
    else RequestIds(requests[..|requests| - 1]) + multiset{requests[|requests| - 1].requestId}
  }

  function ReplyIds(reply: seq<ProtoResult>): multiset<int> {
    if reply == [] then multiset{} else ReplyIds(reply[..|reply| - 1]) + multiset{reply[|reply| - 1].requestId}
  }

  function ResultIds(results: seq<GetValueResult>): multiset<int> {
    if results == [] then multiset{}
    else ResultIds(results[..|results| - 1]) + multiset{results[|results| - 1].requestId}
  }

  lemma {:induction false} KnownIds(requests: seq<GetValueRequest>, id: int)
    ensures id in RequestIds(requests) <==> RequestById(requests, id).Some?
    ensures RequestById(requests, id).Some? ==> RequestById(requests, id).value.requestId == id
  {
    if requests != [] {
      KnownIds(requests[..|requests| - 1], id);
    }
  }

  lemma {:induction false} ReplyIsAccountedFor(p: Progress, requests: seq<GetValueRequest>, reply: seq<ProtoResult>)
    requires forall id :: id in ReplyIds(reply) ==> id in RequestIds(requests)
    ensures var q := HandleAll(p, requests, reply);
            ResultIds(q.results) + RequestIds(q.retries) ==
              ResultIds(p.results) + RequestIds(p.retries) + ReplyIds(reply)
  {
    if reply != [] {
      var rest, last := reply[..|reply| - 1], reply[|reply| - 1];
      ReplyIsAccountedFor(p, requests, rest);
      assert last.requestId in ReplyIds(reply);
      KnownIds(requests, last.requestId);
      OneIsAccountedFor(HandleAll(p, requests, rest), requests, last);
    }
  }

  lemma OneMoreResult(results: seq<GetValueResult>, result: GetValueResult)
    ensures ResultIds(results + [result]) == ResultIds(results) + multiset{result.requestId}
  {
    assert (results + [result])[..|results|] == results;
  }

  lemma OneMoreRetry(retries: seq<GetValueRequest>, request: GetValueRequest)
    ensures RequestIds(retries + [request]) == RequestIds(retries) + multiset{request.requestId}
  {
    assert (retries + [request])[..|retries|] == retries;
  }

  lemma OneIsAccountedFor(p: Progress, requests: seq<GetValueRequest>, result: ProtoResult)
    requires RequestById(requests, result.requestId).Some? &&
             RequestById(requests, result.requestId).value.requestId == result.requestId
    ensures var q := HandleOne(p, requests, result);
            ResultIds(q.results) + RequestIds(q.retries) ==
              ResultIds(p.results) + RequestIds(p.retries) + multiset{result.requestId}
  {
    hide RequestById, After, ResultIds, RequestIds;
    var q := HandleOne(p, requests, result);
    if |q.results| > |p.results| {
      OneMoreResult(p.results, q.results[|p.results|]);
    } else {
      OneMoreRetry(p.retries, q.retries[|p.retries|]);
    }
  }

  /** Each reply answers exactly the requests of its call. */
  ghost predicate RepliesMatch(p: Progress, requests: seq<GetValueRequest>, rounds: seq<Round>)
    decreases |rounds|
  {
    rounds != [] && rounds[0].reply.Some? ==>
      && ReplyIds(rounds[0].reply.value) == RequestIds(requests)
      && var q := HandleAll(p.(readings := p.readings + rounds[0].streamed, retries := []), requests,
                            rounds[0].reply.value);
         q.retries != [] ==> RepliesMatch(q, q.retries, rounds[1..])
  }

  /** However many retries it takes, a successful getValues has one result for each request. */
  lemma {:induction false} EachRequestIsAnsweredOnce(p: Progress, requests: seq<GetValueRequest>, retryCount: nat,
                                                     rounds: seq<Round>)
    requires RepliesMatch(p, requests, rounds)
    ensures match GetValuesWithRetry(p, requests, retryCount, rounds)
            case Some(Answer(Ok, _, results)) => ResultIds(results) == ResultIds(p.results) + RequestIds(requests)
            case _ => true
    decreases |rounds|
  {
    if retryCount != MAX_RETRY_COUNT && rounds != [] && rounds[0].reply.Some? {
      var start := p.(readings := p.readings + rounds[0].streamed, retries := []);
      var reply := rounds[0].reply.value;
      ReplyIsAccountedFor(start, requests, reply);
      hide HandleAll, ResultIds, ReplyIds;
      assert RequestIds([]) == multiset{};
      var q := HandleAll(start, requests, reply);
      if q.retries != [] {
        EachRequestIsAnsweredOnce(q, q.retries, retryCount, rounds[1..]);
      }
    }
  }

  // ---- What the results say ----

  /** A result says what the server's reply said: the same id and status, no timestamp when there was no
      value, and otherwise one by the local clock, when the value was not outdated as it came in. */
  ghost predicate SaysWhat(result: GetValueResult, proto: ProtoResult, readings: seq<Reading>) {
    && result.requestId == proto.requestId && result.status == proto.status
    && match proto.value
       case None => result.timestamp == None
       case Some(r) => result.timestamp.Some? && IsStampedAs(readings, r, result.timestamp.value)
  }

  // Nothing newer came in before, and the time is that of the first sight of the server's timestamp.
  ghost predicate IsStampedAs(readings: seq<Reading>, r: Reading, android: int) {
    exists i: nat :: IsStampedAt(readings, r, android, i)
  }

  ghost predicate IsStampedAt(readings: seq<Reading>, r: Reading, android: int, i: nat) {
    && i < |readings| && readings[i] == r && IsNewest(readings[..i], r.pa, r.server)
    && IsFirstSight(readings[..i + 1], r.pa, r.server, android)
  }

  lemma StampedNow(readings: seq<Reading>, r: Reading)
    requires !IsOutdated(After(readings), r)
    ensures IsStampedAs(readings + [r], r, AndroidTimestamp(After(readings), r))
  {
    var all, n := readings + [r], |readings|;
    assert all[..n] == readings && all[..n + 1] == all;
    AcceptedExactly(all, n);
    StampIsFirstSight(all, n);
    assert IsStampedAt(all, r, AndroidTimestamp(After(readings), r), n);
  }

  lemma StillSays(result: GetValueResult, proto: ProtoResult, before: seq<Reading>, after: seq<Reading>)
    requires SaysWhat(result, proto, before) && before <= after
    ensures SaysWhat(result, proto, after)
  {
    if proto.value.Some? {
      var r, android := proto.value.value, result.timestamp.value;
      var i: nat :| IsStampedAt(before, r, android, i);
      assert after[..i] == before[..i] && after[..i + 1] == before[..i + 1];
      assert IsStampedAt(after, r, android, i);
    }
  }

  ghost predicate SomeReplySays(result: GetValueResult, reply: seq<ProtoResult>, readings: seq<Reading>) {
    exists proto <- reply :: SaysWhat(result, proto, readings)
  }

  ghost predicate SomeRoundSays(result: GetValueResult, rounds: seq<Round>, readings: seq<Reading>) {
    exists round <- rounds :: round.reply.Some? && SomeReplySays(result, round.reply.value, readings)
  }

  lemma OneIsReported(p: Progress, requests: seq<GetValueRequest>, proto: ProtoResult)
    ensures var q := HandleOne(p, requests, proto);
            && p.results <= q.results && p.readings <= q.readings && |q.results| <= |p.results| + 1
            && (|q.results| > |p.results| ==> SaysWhat(q.results[|p.results|], proto, q.readings))
  {
    if proto.value.Some? && !IsOutdated(After(p.readings), proto.value.value) {
      StampedNow(p.readings, proto.value.value);
    }
    hide IsStampedAs, After, IsOutdated, AndroidTimestamp;
  }

  lemma StillReported(result: GetValueResult, reply: seq<ProtoResult>, more: seq<ProtoResult>, before: seq<Reading>,
                      after: seq<Reading>)
    requires SomeReplySays(result, reply, before) && before <= after && forall proto <- reply :: proto in more
    ensures SomeReplySays(result, more, after)
  {
    var proto :| proto in reply && SaysWhat(result, proto, before);
    StillSays(result, proto, before, after);
  }

  lemma {:induction false} RepliesAreReported(p: Progress, requests: seq<GetValueRequest>, reply: seq<ProtoResult>)
    ensures var q := HandleAll(p, requests, reply);
            && p.results <= q.results && p.readings <= q.readings
            && forall k :: |p.results| <= k < |q.results| ==> SomeReplySays(q.results[k], reply, q.readings)
  {
    if reply != [] {
      var init, last := reply[..|reply| - 1], reply[|reply| - 1];
      RepliesAreReported(p, requests, init);
      var q, t := HandleAll(p, requests, init), HandleAll(p, requests, reply);
      OneIsReported(q, requests, last);
      assert last in reply && forall proto <- init :: proto in reply;
      hide HandleOne, SaysWhat;
      forall k | |p.results| <= k < |t.results| ensures SomeReplySays(t.results[k], reply, t.readings) {
        if k < |q.results| {
          StillReported(q.results[k], init, reply, q.readings, t.readings);
        }
      }
    }
  }

  // A value of the reply came in after a newer one of its [propId, areaId].
  ghost predicate CameOutdated(proto: ProtoResult, readings: seq<Reading>) {
    proto.value.Some? &&
    exists i, j :: 0 <= j < i < |readings| && readings[i] == proto.value.value &&
      readings[j].pa == readings[i].pa && readings[j].server > readings[i].server
  }

  lemma OutdatedNow(readings: seq<Reading>, proto: ProtoResult)
    requires proto.value.Some? && IsOutdated(After(readings), proto.value.value)
    ensures CameOutdated(proto, readings + [proto.value.value])
  {
    var all, n := readings + [proto.value.value], |readings|;
    assert all[..n] == readings;
    AcceptedExactly(all, n);
  }

  /** What is asked for again are requests of the call, unchanged, whose value came in outdated. */
  lemma {:induction false} RetriesAreOutdated(p: Progress, requests: seq<GetValueRequest>, reply: seq<ProtoResult>,
                                              request: GetValueRequest)
    requires p.retries == []
    ensures var q := HandleAll(p, requests, reply);
            request in q.retries ==>
              request in requests &&
              exists proto <- reply :: proto.requestId == request.requestId && CameOutdated(proto, q.readings)
  {
    if reply != [] {
      var init, last := reply[..|reply| - 1], reply[|reply| - 1];
      var q, t := HandleAll(p, requests, init), HandleAll(p, requests, reply);
      RetriesAreOutdated(p, requests, init, request);
      KnownRequest(requests, last.requestId);
      if last.value.Some? && IsOutdated(After(q.readings), last.value.value) {
        OutdatedNow(q.readings, last);
      }
      assert last in reply && forall proto <- init :: proto in reply;
      hide After, IsOutdated, RequestById;
      forall proto | CameOutdated(proto, q.readings) ensures CameOutdated(proto, t.readings) {
        assert q.readings <= t.readings;
      }
    }
  }

  lemma {:induction false} KnownRequest(requests: seq<GetValueRequest>, id: int)
    ensures var r := RequestById(requests, id); r.Some? ==> r.value in requests && r.value.requestId == id
  {
    if requests != [] {
      KnownRequest(requests[..|requests| - 1], id);
    }
  }

  lemma RoundSays(result: GetValueResult, rounds: seq<Round>, before: seq<Reading>, after: seq<Reading>)
    requires rounds != [] && before <= after
    requires (rounds[0].reply.Some? && SomeReplySays(result, rounds[0].reply.value, before)) ||
             SomeRoundSays(result, rounds[1..], after)
    ensures SomeRoundSays(result, rounds, after)
  {
    hide SomeReplySays;
    if rounds[0].reply.Some? && SomeReplySays(result, rounds[0].reply.value, before) {
      StillReported(result, rounds[0].reply.value, rounds[0].reply.value, before, after);
      assert rounds[0] in rounds;
    } else {
      var round :| round in rounds[1..] && round.reply.Some? && SomeReplySays(result, round.reply.value, after);
      assert round in rounds;
    }
  }

  /** Every result of a getValues, however many retries it took, says what some reply of the server said; an
      outdated value never makes one. */
  lemma {:induction false} ResultsAreFaithful(p: Progress, requests: seq<GetValueRequest>, retryCount: nat,
                                              rounds: seq<Round>)
    ensures match GetValuesWithRetry(p, requests, retryCount, rounds)
            case None => true
            case Some(a) =>
              && p.results <= a.results && p.readings <= a.readings
              && forall k :: |p.results| <= k < |a.results| ==> SomeRoundSays(a.results[k], rounds, a.readings)
    decreases |rounds|
  {
    if retryCount != MAX_RETRY_COUNT && rounds != [] && rounds[0].reply.Some? {
      var start, reply := p.(readings := p.readings + rounds[0].streamed, retries := []), rounds[0].reply.value;
      RepliesAreReported(start, requests, reply);
      hide HandleAll, SomeReplySays, SomeRoundSays;
      var q := HandleAll(start, requests, reply);
      assert p.readings <= start.readings;
      if q.retries != [] {
        ResultsAreFaithful(q, q.retries, retryCount, rounds[1..]);
      }
      var answer := GetValuesWithRetry(p, requests, retryCount, rounds);
      if answer.Some? {
        var a := answer.value;
        forall k | |p.results| <= k < |a.results| ensures SomeRoundSays(a.results[k], rounds, a.readings) {
          assert k < |q.results| ==> a.results[k] == q.results[k];
          RoundSays(a.results[k], rounds, q.readings, a.readings);
        }
      }
    }
  }

  // ---- The object ----

  class GRPCVehicleHardware {
    var latestUpdateTimestamps: Latest
    ghost var readings: seq<Reading>

    ghost predicate Valid()
      reads this
    {
      latestUpdateTimestamps == After(readings)
    }

    constructor ()
      ensures Valid() && readings == []
    {
      latestUpdateTimestamps := map[];
      readings := [];
    }

    method SetAndroidTimestamp(r: Reading) returns (timestamp: Option<int>)
      requires Valid()
      modifies this
      ensures Valid() && readings == old(readings) + [r]
      ensures timestamp ==
              if IsAccepted(readings, |old(readings)|) then Some(StampOf(readings, |old(readings)|)) else None
    {
      readings := readings + [r];
      assert readings[..|readings| - 1] == old(readings);
      if r.pa !in latestUpdateTimestamps || latestUpdateTimestamps[r.pa].server < r.server {
        latestUpdateTimestamps := latestUpdateTimestamps[r.pa := Stamp(r.server, r.now)];
        return Some(r.now);
      }
      if r.server == latestUpdateTimestamps[r.pa].server {
        assert latestUpdateTimestamps[r.pa := latestUpdateTimestamps[r.pa]] == latestUpdateTimestamps;
        return Some(latestUpdateTimestamps[r.pa].android);
      }
      return None;
    }

    // The events of one batch of the stream, without the outdated ones.
    method PollValue(batch: seq<Reading>) returns (values: seq<(PropArea, int)>)
      requires Valid()
      modifies this
      ensures Valid() && readings == old(readings) + batch
      ensures values == Accepted(readings, |old(readings)|)
    {
      values := [];
      assert batch[..|batch|] == batch;
      for i := 0 to |batch|
        invariant Valid() && readings == old(readings) + batch[..i]
        invariant values == Accepted(readings, |old(readings)|)
      {
        assert batch[..i + 1] == batch[..i] + [batch[i]];
        ghost var before := readings;
        AcceptedGrows(before, |old(readings)|, batch[i]);
        var timestamp := SetAndroidTimestamp(batch[i]);
        if timestamp.Some? {
          values := values + [(batch[i].pa, timestamp.value)];
        }
      }
    }

    method HandleReply(requests: seq<GetValueRequest>, reply: seq<ProtoResult>, earlier: seq<GetValueResult>)
      returns (results: seq<GetValueResult>, retryRequests: seq<GetValueRequest>)
      requires Valid()
      modifies this
      ensures Valid()
      ensures Progress(readings, results, retryRequests) ==
              HandleAll(Progress(old(readings), earlier, []), requests, reply)
    {
      hide After;
      results, retryRequests := earlier, [];
      assert reply[..|reply|] == reply;
      ghost var start := Progress(readings, earlier, []);
      for i := 0 to |reply|
        invariant Valid()
        invariant Progress(readings, results, retryRequests) == HandleAll(start, requests, reply[..i])
      {
        assert reply[..i + 1][..i] == reply[..i];
        var request := RequestById(requests, reply[i].requestId);
        if request == None {
          continue;
        }
        if reply[i].value == None {
          results := results + [GetValueResult(reply[i].requestId, reply[i].status, None)];
          continue;
        }
        ghost var before := readings;
        var timestamp := SetAndroidTimestamp(reply[i].value.value);
        assert readings[..|before|] == before;
        if timestamp == None {
          retryRequests := retryRequests + [request.value];
          continue;
        }
        results := results + [GetValueResult(reply[i].requestId, reply[i].status, timestamp)];
      }
    }

    // Each of `rounds` is one call to the server, with what the stream delivers during the call.
    method Retry(requests: seq<GetValueRequest>, earlier: seq<GetValueResult>, ghost retries: seq<GetValueRequest>,
                 retryCount: nat, rounds: seq<Round>)
      returns (status: Option<StatusCode>, results: seq<GetValueResult>)
      requires Valid()
      modifies this
      ensures Valid()
      ensures match GetValuesWithRetry(Progress(old(readings), earlier, retries), requests, retryCount, rounds)
              case None => status == None
              case Some(a) => status == Some(a.status) && results == a.results && readings == a.readings
      decreases |rounds|
    {
      hide After, HandleAll;
      if retryCount == MAX_RETRY_COUNT {
        return Some(TryAgain), earlier;
      }
      if rounds == [] {
        return None, earlier;
      }
      var _ := PollValue(rounds[0].streamed);
      if rounds[0].reply == None {
        return Some(InternalError), earlier;
      }
      var retryRequests;
      results, retryRequests := HandleReply(requests, rounds[0].reply.value, earlier);
      if |retryRequests| != 0 {
        status, results := Retry(retryRequests, results, retryRequests, retryCount, rounds[1..]);
      } else {
        status := Some(Ok);
      }
    }
  }

  /** The readings accepted from position `from` on, restamped. */
  function Accepted(readings: seq<Reading>, from: nat): seq<(PropArea, int)>
    requires from <= |readings|
  {
    if |readings| == from then []
    else
      var last := |readings| - 1;
      Accepted(readings[..last], from) +
      if IsAccepted(readings, last) then [(readings[last].pa, StampOf(readings, last))] else []
  }

  lemma AcceptedGrows(readings: seq<Reading>, from: nat, r: Reading)
    requires from <= |readings|
    ensures Accepted(readings + [r], from) == Accepted(readings, from) +
            if IsAccepted(readings + [r], |readings|) then [(r.pa, StampOf(readings + [r], |readings|))] else []
  {
    assert (readings + [r])[..|readings|] == readings;
  }
}
