/** The thread of the gRPC server that drains two event queues under a lock and writes each event to
    every stream connection of its kind. */
module EventWriter {
  import opened VehicleTypes

  /** What is streamed: a batch of values, or the [propId, areaId]s whose supported values changed. */
  datatype Event = PropValues(values: seq<VehiclePropValue>) | SupportedValuesChange(propAreas: seq<PropArea>)

  /** A stream connection: how many events had been offered when it joined, what it has received, and
      whether a write to it has failed. */
  datatype Conn = Conn(id: nat, joined: nat, received: seq<Event>, shut: bool)

  /** One kind of event: all that was ever enqueued, what waits in the queue, what the writer has taken
      out, what it has offered to the connections, and the connections. `broken` are those the last
      write failed on and which are yet to be removed; `gone` are the removed ones. */
  datatype Channel = Channel(
    enqueued: seq<Event>,
    queue: seq<Event>,
    batch: seq<Event>,
    offered: seq<Event>,
    conns: seq<Conn>,
    broken: set<nat>,
    gone: seq<Conn>,
    nextId: nat)

  function Empty(): Channel {
    Channel([], [], [], [], [], {}, [], 0)
  }

  function Enqueue(ch: Channel, v: Event): Channel {
    ch.(enqueued := ch.enqueued + [v], queue := ch.queue + [v])
  }

  function Join(ch: Channel): Channel {
    ch.(conns := ch.conns + [Conn(ch.nextId, |ch.offered|, [], false)], nextId := ch.nextId + 1)
  }

  function TakeAll(ch: Channel): Channel {
    ch.(queue := [], batch := ch.batch + ch.queue)
  }

  // One write; `accepted` is whether the stream takes it.
  function Write(c: Conn, v: Event, accepted: bool): Conn {
    if !c.shut && accepted then c.(received := c.received + [v]) else c.(shut := true)
  }

  function WriteAll(conns: seq<Conn>, v: Event, accepts: nat -> bool): seq<Conn> {
    if conns == [] then []
    else
      var last := conns[|conns| - 1];
      WriteAll(conns[..|conns| - 1], v, accepts) + [Write(last, v, accepts(last.id))]
  }

  function Broken(conns: seq<Conn>): set<nat> {
    set c | c in conns && c.shut :: c.id
  }

  function WriteNext(ch: Channel, accepts: nat -> bool): Channel
    requires ch.batch != []
  {
    var written := WriteAll(ch.conns, ch.batch[0], accepts);
    ch.(batch := ch.batch[1..], offered := ch.offered + [ch.batch[0]], conns := written, broken := Broken(written))
  }

  function With(conns: seq<Conn>, ids: set<nat>): seq<Conn> {
    if conns == [] then []
    else
      var rest, last := With(conns[..|conns| - 1], ids), conns[|conns| - 1];
      if last.id in ids then rest + [last] else rest
  }

  function Without(conns: seq<Conn>, ids: set<nat>): seq<Conn> {
    if conns == [] then []
    else
      var rest, last := Without(conns[..|conns| - 1], ids), conns[|conns| - 1];
      if last.id in ids then rest else rest + [last]
  }

  function Prune(ch: Channel): Channel {
    ch.(conns := Without(ch.conns, ch.broken), gone := ch.gone + With(ch.conns, ch.broken), broken := {})
  }

  /** What offering a whole batch does, the broken connections removed after every event; `accepts` says
      which connection takes which event of the batch. */
  function Drained(ch: Channel, accepts: (nat, nat) -> bool, turn: nat): Channel
    decreases |ch.batch|
  {
    if ch.batch == [] then ch
    else Drained(Prune(WriteNext(ch, (id: nat) => accepts(turn, id))), accepts, turn + 1)
  }

  // ---- What every step keeps for one kind of event ----

  /** A connection's share is a gap-free, duplicate-free run of what was offered, from where it joined;
      it is up to date unless a write to it failed. */
  predicate GaplessRun(offered: seq<Event>, c: Conn) {
    && c.joined + |c.received| <= |offered|
    && c.received == offered[c.joined..c.joined + |c.received|]
    && (!c.shut ==> c.joined + |c.received| == |offered|)
  }

  predicate DistinctIds(conns: seq<Conn>) {
    conns == [] ||
    (DistinctIds(conns[..|conns| - 1]) && forall c <- conns[..|conns| - 1] :: c.id != conns[|conns| - 1].id)
  }

  // The id of a removed connection is not used again.
  ghost predicate GoneForGood(ch: Channel) {
    && (forall c <- ch.conns, d <- ch.gone :: c.id != d.id)
    && (forall c <- ch.gone, d <- ch.gone :: c.id == d.id ==> c == d)
  }

  ghost predicate ChannelInv(ch: Channel) {
    && ch.enqueued == ch.offered + ch.batch + ch.queue
    && (forall c <- ch.conns :: GaplessRun(ch.offered, c) && c.id < ch.nextId && (c.shut <==> c.id in ch.broken))
    && (forall c <- ch.gone :: GaplessRun(ch.offered, c) && c.shut && c.id < ch.nextId)
    && DistinctIds(ch.conns) && GoneForGood(ch)
    && (forall id <- ch.broken :: id < ch.nextId)
  }

  lemma EnqueueAndTakeKeepInv(ch: Channel, v: Event)
    requires ChannelInv(ch)
    ensures ChannelInv(Enqueue(ch, v))
    ensures ChannelInv(TakeAll(ch))
  {
    assert ch.offered + ch.batch + (ch.queue + [v]) == (ch.offered + ch.batch + ch.queue) + [v];
    assert ch.offered + (ch.batch + ch.queue) + [] == ch.offered + ch.batch + ch.queue;
  }

  lemma JoinKeepsInv(ch: Channel)
    requires ChannelInv(ch)
    ensures ChannelInv(Join(ch))
  {
    var t := Join(ch);
    assert t.conns[..|ch.conns|] == ch.conns;
  }

  lemma RunGrows(offered: seq<Event>, v: Event, c: Conn, accepted: bool)
    requires GaplessRun(offered, c)
    ensures GaplessRun(offered + [v], Write(c, v, accepted))
    ensures c.shut ==> Write(c, v, accepted) == c && GaplessRun(offered + [v], c)
  {
    assert c.received == (offered + [v])[c.joined..c.joined + |c.received|];
    if !c.shut {
      assert c.received + [v] == (offered + [v])[c.joined..c.joined + |c.received| + 1];
    }
  }

  lemma {:induction false} OnePerId(conns: seq<Conn>, c: Conn, d: Conn)
    requires DistinctIds(conns) && c in conns && d in conns && c.id == d.id
    ensures c == d
  {
    var init, last := conns[..|conns| - 1], conns[|conns| - 1];
    assert conns == init + [last];
    if c != last && d != last {
      OnePerId(init, c, d);
    }
  }

  lemma {:induction false} WrittenFrom(conns: seq<Conn>, v: Event, accepts: nat -> bool, c: Conn) returns (d: Conn)
    requires c in WriteAll(conns, v, accepts)
    ensures d in conns && c == Write(d, v, accepts(d.id)) && c.id == d.id
  {
    var init, last := conns[..|conns| - 1], conns[|conns| - 1];
    assert conns == init + [last];
    if c == Write(last, v, accepts(last.id)) {
      d := last;
    } else {
      d := WrittenFrom(init, v, accepts, c);
    }
  }

  lemma {:induction false} WritingKeepsIds(conns: seq<Conn>, v: Event, accepts: nat -> bool)
    requires DistinctIds(conns)
    ensures DistinctIds(WriteAll(conns, v, accepts))
  {
    hide Write;
    if conns != [] {
      var init, last := conns[..|conns| - 1], conns[|conns| - 1];
      var written := WriteAll(init, v, accepts);
      WritingKeepsIds(init, v, accepts);
      assert WriteAll(conns, v, accepts)[..|written|] == written;
      forall c | c in written ensures c.id != Write(last, v, accepts(last.id)).id {
        var d := WrittenFrom(init, v, accepts, c);
        SameId(last, v, accepts(last.id));
      }
    }
  }

  lemma SameId(c: Conn, v: Event, accepted: bool)
    ensures Write(c, v, accepted).id == c.id
  {
  }

  lemma WriteKeepsConn(ch: Channel, accepts: nat -> bool, c: Conn)
    requires ChannelInv(ch) && ch.batch != [] && ch.broken == {} && c in WriteNext(ch, accepts).conns
    ensures var t := WriteNext(ch, accepts);
            GaplessRun(t.offered, c) && c.id < t.nextId && (c.shut <==> c.id in t.broken)
  {
    hide GaplessRun;
    var t, v := WriteNext(ch, accepts), ch.batch[0];
    var d := WrittenFrom(ch.conns, v, accepts, c);
    RunGrows(ch.offered, v, d, accepts(d.id));
    WritingKeepsIds(ch.conns, v, accepts);
    if c.id in t.broken {
      var e :| e in t.conns && e.shut && e.id == c.id;
      OnePerId(t.conns, c, e);
    }
  }

  lemma WriteKeepsInv(ch: Channel, accepts: nat -> bool)
    requires ChannelInv(ch) && ch.batch != [] && ch.broken == {}
    ensures ChannelInv(WriteNext(ch, accepts))
  {
    hide GaplessRun, Broken;
    var t, v := WriteNext(ch, accepts), ch.batch[0];
    assert ch.offered + [v] + ch.batch[1..] + ch.queue == ch.offered + ch.batch + ch.queue;
    WritingKeepsIds(ch.conns, v, accepts);
    forall c | c in t.conns ensures GaplessRun(t.offered, c) && c.id < t.nextId && (c.shut <==> c.id in t.broken) {
      WriteKeepsConn(ch, accepts, c);
    }
    forall c | c in t.gone ensures GaplessRun(t.offered, c) {
      RunGrows(ch.offered, v, c, false);
    }
    forall id | id in t.broken ensures id < t.nextId {
      BrokenIsOf(t.conns, id);
    }
    forall c, d | c in t.conns && d in t.gone ensures c.id != d.id {
      var from := WrittenFrom(ch.conns, v, accepts, c);
    }
  }

  lemma BrokenIsOf(conns: seq<Conn>, id: nat)
    requires id in Broken(conns)
    ensures exists c <- conns :: c.shut && c.id == id
  {
  }

  lemma {:induction false} WithAndWithout(conns: seq<Conn>, ids: set<nat>, c: Conn)
    ensures c in With(conns, ids) <==> c in conns && c.id in ids
    ensures c in Without(conns, ids) <==> c in conns && c.id !in ids
  {
    if conns != [] {
      WithAndWithout(conns[..|conns| - 1], ids, c);
      assert conns == conns[..|conns| - 1] + [conns[|conns| - 1]];
    }
  }

  lemma {:induction false} WithoutKeepsIds(conns: seq<Conn>, ids: set<nat>)
    requires DistinctIds(conns)
    ensures DistinctIds(Without(conns, ids))
  {
    if conns != [] {
      var init, last := conns[..|conns| - 1], conns[|conns| - 1];
      var rest := Without(init, ids);
      WithoutKeepsIds(init, ids);
      assert (rest + [last])[..|rest + [last]| - 1] == rest;
      forall c | c in rest ensures c.id != last.id {
        WithAndWithout(init, ids, c);
      }
    }
  }

  lemma PruneKeepsInv(ch: Channel)
    requires ChannelInv(ch)
    ensures ChannelInv(Prune(ch))
  {
    hide GaplessRun, DistinctIds;
    var t := Prune(ch);
    WithoutKeepsIds(ch.conns, ch.broken);
    forall c | c in t.conns ensures c in ch.conns && c.id !in ch.broken {
      WithAndWithout(ch.conns, ch.broken, c);
    }
    forall c | c in t.gone ensures c in ch.gone || (c in ch.conns && c.id in ch.broken) {
      if c !in ch.gone {
        WithAndWithout(ch.conns, ch.broken, c);
      }
    }
    forall c, d | c in t.gone && d in t.gone && c.id == d.id ensures c == d {
      if c in ch.conns && d in ch.conns {
        OnePerId(ch.conns, c, d);
      }
    }
  }

  predicate IsConnOf(ch: Channel, c: Conn) {
    c in ch.conns || c in ch.gone
  }

  // A connection a write has failed on is not changed by what happens to its channel.
  lemma ShutStays(ch: Channel, v: Event, accepts: nat -> bool, c: Conn)
    requires ChannelInv(ch) && c.shut && IsConnOf(ch, c)
    ensures IsConnOf(Enqueue(ch, v), c) && IsConnOf(Join(ch), c) && IsConnOf(TakeAll(ch), c) && IsConnOf(Prune(ch), c)
    ensures ch.batch != [] ==> IsConnOf(WriteNext(ch, accepts), c)
  {
    WithAndWithout(ch.conns, ch.broken, c);
    if ch.batch != [] && c in ch.conns {
      StillThere(ch.conns, ch.batch[0], accepts, c);
    }
  }

  lemma {:induction false} StillThere(conns: seq<Conn>, v: Event, accepts: nat -> bool, c: Conn)
    requires c in conns && c.shut
    ensures c in WriteAll(conns, v, accepts)
  {
    if c != conns[|conns| - 1] {
      assert conns == conns[..|conns| - 1] + [conns[|conns| - 1]];
      StillThere(conns[..|conns| - 1], v, accepts, c);
    }
  }

  // ---- What a batch comes to, connection by connection ----

  /** Of a batch of `n` events a connection takes the first `j`, and refuses the next if there is one. */
  ghost predicate TakesFirst(accepts: (nat, nat) -> bool, turn: nat, id: nat, j: nat, n: nat) {
    && j <= n
    && (forall k: nat :: turn <= k < turn + j ==> accepts(k, id))
    && (j < n ==> !accepts(turn + j, id))
  }

  /** A connection that took the first `j` events of a batch: it has them, and it is still served exactly
      when those are all. */
  ghost predicate Served(c: Conn, batch: seq<Event>, j: nat, conns: seq<Conn>, gone: seq<Conn>)
    requires j <= |batch|
  {
    if j == |batch| then Conn(c.id, c.joined, c.received + batch, false) in conns
    else
      && Conn(c.id, c.joined, c.received + batch[..j], true) in gone
      && forall d <- conns :: d.id != c.id
  }

  lemma {:induction false} WrittenTo(conns: seq<Conn>, v: Event, accepts: nat -> bool, c: Conn)
    requires c in conns && !c.shut
    ensures var after := if accepts(c.id) then c.(received := c.received + [v]) else c.(shut := true);
            after in WriteAll(conns, v, accepts)
  {
    var init, last := conns[..|conns| - 1], conns[|conns| - 1];
    assert conns == init + [last];
    if c != last {
      WrittenTo(init, v, accepts, c);
    }
  }

  // One event and the removal that follows it.
  lemma OneIsServed(ch: Channel, accepts: nat -> bool, c: Conn)
    requires ChannelInv(ch) && ch.batch != [] && ch.broken == {} && c in ch.conns
    ensures var t := Prune(WriteNext(ch, accepts));
            && ChannelInv(t)
            && if accepts(c.id) then c.(received := c.received + [ch.batch[0]]) in t.conns
               else c.(shut := true) in t.gone
  {
    hide GaplessRun, DistinctIds, Broken;
    var w := WriteNext(ch, accepts);
    WriteKeepsInv(ch, accepts);
    PruneKeepsInv(w);
    WrittenTo(ch.conns, ch.batch[0], accepts, c);
    var after := if accepts(c.id) then c.(received := c.received + [ch.batch[0]]) else c.(shut := true);
    WithAndWithout(w.conns, w.broken, after);
  }

  lemma {:induction false} GoneStays(ch: Channel, accepts: (nat, nat) -> bool, turn: nat, c: Conn)
    requires ChannelInv(ch) && ch.broken == {} && c in ch.gone
    ensures var t := Drained(ch, accepts, turn); c in t.gone && ChannelInv(t)
    decreases |ch.batch|
  {
    hide ChannelInv;
    if ch.batch != [] {
      var one := (id: nat) => accepts(turn, id);
      WriteKeepsInv(ch, one);
      PruneKeepsInv(WriteNext(ch, one));
      GoneStays(Prune(WriteNext(ch, one)), accepts, turn + 1, c);
    }
  }

  lemma NoneWithThatId(ch: Channel, c: Conn)
    requires ChannelInv(ch) && c in ch.gone
    ensures forall d <- ch.conns :: d.id != c.id
  {
  }

  lemma TakesRest(accepts: (nat, nat) -> bool, turn: nat, id: nat, j: nat, n: nat)
    requires TakesFirst(accepts, turn, id, j, n) && n > 0
    ensures accepts(turn, id) <==> j > 0
    ensures j > 0 ==> TakesFirst(accepts, turn + 1, id, j - 1, n - 1)
  {
  }

  lemma ServedAll(c: Conn, batch: seq<Event>, j: nat, conns: seq<Conn>, gone: seq<Conn>)
    requires 0 < j <= |batch| && Served(c.(received := c.received + [batch[0]]), batch[1..], j - 1, conns, gone)
    ensures Served(c, batch, j, conns, gone)
  {
    var d := c.received + [batch[0]];
    assert d + batch[1..][..j - 1] == c.received + batch[..j];
    assert j == |batch| ==> d + batch[1..] == c.received + batch;
  }

  lemma ServedNone(ch: Channel, c: Conn, batch: seq<Event>)
    requires ChannelInv(ch) && batch != [] && c.(shut := true) in ch.gone
    ensures Served(c, batch, 0, ch.conns, ch.gone)
  {
    assert c.received + [] == c.received;
    assert c.(shut := true) == Conn(c.id, c.joined, c.received + batch[..0], true);
    NoneWithThatId(ch, c.(shut := true));
  }

  lemma ServedBefore(ch: Channel, c: Conn)
    requires ChannelInv(ch) && ch.broken == {} && c in ch.conns
    ensures !c.shut && Served(c, [], 0, ch.conns, ch.gone)
  {
    assert c.received + [] == c.received;
  }

  // The channel after one event, and what is left to do.
  lemma DrainOne(ch: Channel, accepts: (nat, nat) -> bool, turn: nat) returns (next: Channel)
    requires ChannelInv(ch) && ch.broken == {} && ch.batch != []
    ensures ChannelInv(next) && next.batch == ch.batch[1..] && next.broken == {}
    ensures Drained(ch, accepts, turn) == Drained(next, accepts, turn + 1)
    ensures forall c <- ch.conns ::
              if accepts(turn, c.id) then c.(received := c.received + [ch.batch[0]]) in next.conns
              else c.(shut := true) in next.gone
  {
    hide ChannelInv, WriteAll, With, Without, Broken;
    var one := (id: nat) => accepts(turn, id);
    next := Prune(WriteNext(ch, one));
    WriteKeepsInv(ch, one);
    PruneKeepsInv(WriteNext(ch, one));
    forall c | c in ch.conns
      ensures if accepts(turn, c.id) then c.(received := c.received + [ch.batch[0]]) in next.conns
              else c.(shut := true) in next.gone
    {
      OneIsServed(ch, one, c);
    }
  }

  /** Every connection gets exactly the events before the first it refuses, and goes when there is one. */
  lemma {:induction false} EachIsServed(ch: Channel, accepts: (nat, nat) -> bool, turn: nat, c: Conn, j: nat)
    requires ChannelInv(ch) && ch.broken == {} && c in ch.conns
    requires TakesFirst(accepts, turn, c.id, j, |ch.batch|)
    ensures var t := Drained(ch, accepts, turn); Served(c, ch.batch, j, t.conns, t.gone)
    decreases |ch.batch|
  {
    hide ChannelInv, Served, WriteNext, Prune;
    if ch.batch == [] {
      ServedBefore(ch, c);
      assert j == 0;
    } else {
      hide Drained, TakesFirst;
      var next := DrainOne(ch, accepts, turn);
      var t := Drained(next, accepts, turn + 1);
      TakesRest(accepts, turn, c.id, j, |ch.batch|);
      if j == 0 {
        GoneStays(next, accepts, turn + 1, c.(shut := true));
        ServedNone(t, c, ch.batch);
      } else {
        EachIsServed(next, accepts, turn + 1, c.(received := c.received + [ch.batch[0]]), j - 1);
        ServedAll(c, ch.batch, j, t.conns, t.gone);
      }
    }
  }

  /** And no connection comes out of a batch that did not go into it. */
  lemma {:induction false} NobodyComes(ch: Channel, accepts: (nat, nat) -> bool, turn: nat, d: Conn) returns (c: Conn)
    requires ChannelInv(ch) && ch.broken == {} && d in Drained(ch, accepts, turn).conns
    ensures c in ch.conns && c.id == d.id
    decreases |ch.batch|
  {
    if ch.batch == [] {
      c := d;
    } else {
      var one := (id: nat) => accepts(turn, id);
      var w := WriteNext(ch, one);
      WriteKeepsInv(ch, one);
      PruneKeepsInv(w);
      var next := NobodyComes(Prune(w), accepts, turn + 1, d);
      WithAndWithout(w.conns, w.broken, next);
      c := WrittenFrom(ch.conns, ch.batch[0], one, next);
    }
  }

  /** What offering a batch does to all connections. */
  ghost predicate AllServed(before: seq<Conn>, batch: seq<Event>, accepts: (nat, nat) -> bool, conns: seq<Conn>,
                            gone: seq<Conn>)
  {
    && (forall c <- before, j: nat :: TakesFirst(accepts, 0, c.id, j, |batch|) ==> Served(c, batch, j, conns, gone))
    && (forall d <- conns :: exists c <- before :: c.id == d.id)
  }

  lemma AllAreServed(ch: Channel, accepts: (nat, nat) -> bool)
    requires ChannelInv(ch) && ch.broken == {}
    ensures var t := Drained(ch, accepts, 0); AllServed(ch.conns, ch.batch, accepts, t.conns, t.gone)
  {
    var t := Drained(ch, accepts, 0);
    hide ChannelInv, Drained;
    forall c, j: nat | c in ch.conns && TakesFirst(accepts, 0, c.id, j, |ch.batch|)
      ensures Served(c, ch.batch, j, t.conns, t.gone)
    {
      EachIsServed(ch, accepts, 0, c, j);
    }
    forall d | d in t.conns ensures exists c <- ch.conns :: c.id == d.id {
      var c := NobodyComes(ch, accepts, 0, d);
    }
  }

  // ---- The server ----

  datatype Phase = Waiting | Writing | Exited

  /** Both kinds of event and the loop that serves them. `stopping` is the flag as the loop last read
      it; `due` is how much of each kind had been enqueued when the flag was set. */
  datatype Server = Server(
    props: Channel,
    changes: Channel,
    phase: Phase,
    stop: bool,
    stopping: bool,
    due: (nat, nat))

  datatype Step =
    | OnProps(v: Event)
    | OnChanges(v: Event)
    | JoinProps
    | JoinChanges
    | Stop
    | Drain
    | WriteProps(accepts: nat -> bool)
    | WriteChanges(accepts: nat -> bool)
    | PruneProps
    | PruneChanges
    | Finish

  predicate Enabled(s: Server, step: Step) {
    match step
    case Drain => s.phase.Waiting? && (s.stop || s.props.queue != [] || s.changes.queue != [])
    case WriteProps(_) => s.phase.Writing? && s.props.batch != [] && s.props.broken == {}
    case WriteChanges(_) =>
      s.phase.Writing? && s.props.batch == [] && s.props.broken == {} && s.changes.batch != [] && s.changes.broken == {}
    case PruneProps => s.phase.Writing? && s.props.broken != {}
    case PruneChanges => s.phase.Writing? && s.changes.broken != {}
    case Finish =>
      s.phase.Writing? && s.props.batch == [] && s.changes.batch == [] && s.props.broken == {} && s.changes.broken == {}
    case _ => true
  }

  function Next(s: Server, step: Step): Server
    requires Enabled(s, step)
  {
    match step
    case OnProps(v) => s.(props := Enqueue(s.props, v))
    case OnChanges(v) => s.(changes := Enqueue(s.changes, v))
    case JoinProps => s.(props := Join(s.props))
    case JoinChanges => s.(changes := Join(s.changes))
    case Stop => s.(stop := true, due := if s.stop then s.due else (|s.props.enqueued|, |s.changes.enqueued|))
    case Drain => s.(props := TakeAll(s.props), changes := TakeAll(s.changes), phase := Writing, stopping := s.stop)
    case WriteProps(accepts) => s.(props := WriteNext(s.props, accepts))
    case WriteChanges(accepts) => s.(changes := WriteNext(s.changes, accepts))
    case PruneProps => s.(props := Prune(s.props))
    case PruneChanges => s.(changes := Prune(s.changes))
    case Finish => s.(phase := if s.stopping then Exited else Waiting)
  }

  ghost predicate Inv(s: Server) {
    && ChannelInv(s.props) && ChannelInv(s.changes)
    && (!s.phase.Writing? ==> s.props.batch == [] && s.changes.batch == [])
    && (s.stopping ==> s.stop)
    && (s.stop ==> s.due.0 <= |s.props.enqueued| && s.due.1 <= |s.changes.enqueued|)
    && (s.stopping ==>
          && s.due.0 <= |s.props.offered| + |s.props.batch|
          && s.due.1 <= |s.changes.offered| + |s.changes.batch|)
    && (s.phase.Exited? ==> s.stopping)
  }

  ghost predicate IsRun(states: seq<Server>, steps: seq<Step>) {
    && |states| == |steps| + 1 && states[0] == Server(Empty(), Empty(), Waiting, false, false, (0, 0))
    && forall i :: 0 <= i < |steps| ==>
         Enabled(states[i], steps[i]) && states[i + 1] == Next(states[i], steps[i])
  }

  lemma StepKeepsInv(s: Server, step: Step)
    requires Inv(s) && Enabled(s, step)
    ensures Inv(Next(s, step))
  {
    hide ChannelInv, WriteAll, Broken, Without, With;
    match step
    case OnProps(v) => EnqueueAndTakeKeepInv(s.props, v);
    case OnChanges(v) => EnqueueAndTakeKeepInv(s.changes, v);
    case JoinProps => JoinKeepsInv(s.props);
    case JoinChanges => JoinKeepsInv(s.changes);
    case Stop =>
    case Drain =>
      EnqueueAndTakeKeepInv(s.props, PropValues([]));
      EnqueueAndTakeKeepInv(s.changes, PropValues([]));
      Accounted(s.props);
      Accounted(s.changes);
    case WriteProps(accepts) => WriteKeepsInv(s.props, accepts);
    case WriteChanges(accepts) => WriteKeepsInv(s.changes, accepts);
    case PruneProps => PruneKeepsInv(s.props);
    case PruneChanges => PruneKeepsInv(s.changes);
    case Finish =>
  }

  lemma Accounted(ch: Channel)
    requires ChannelInv(ch)
    ensures |ch.enqueued| == |ch.offered| + |ch.batch| + |ch.queue| && ch.offered <= ch.enqueued
  {
  }

  lemma {:induction false} RunKeepsInv(states: seq<Server>, steps: seq<Step>, n: nat)
    requires IsRun(states, steps) && n <= |steps|
    ensures Inv(states[n])
    decreases n
  {
    if n > 0 {
      RunKeepsInv(states, steps, n - 1);
      StepKeepsInv(states[n - 1], steps[n - 1]);
    }
  }

  /** `c` is a connection of the channel and the only one with its id. */
  ghost predicate IsTheConnOf(ch: Channel, c: Conn) {
    IsConnOf(ch, c) && forall d :: IsConnOf(ch, d) && d.id == c.id ==> d == c
  }

  lemma OnlyConnOf(ch: Channel, c: Conn)
    requires ChannelInv(ch)
    ensures IsConnOf(ch, c) ==> IsTheConnOf(ch, c)
  {
    hide GaplessRun, DistinctIds;
    forall d | IsConnOf(ch, c) && IsConnOf(ch, d) && d.id == c.id ensures d == c {
      if c in ch.conns && d in ch.conns {
        OnePerId(ch.conns, c, d);
      }
    }
  }

  lemma TheConnIsAConn(ch: Channel, c: Conn)
    ensures IsTheConnOf(ch, c) ==> IsConnOf(ch, c)
  {
  }

  lemma StepKeepsShut(s: Server, step: Step, c: Conn)
    requires Inv(s) && Enabled(s, step) && c.shut
    ensures IsConnOf(s.props, c) ==> IsConnOf(Next(s, step).props, c)
    ensures IsConnOf(s.changes, c) ==> IsConnOf(Next(s, step).changes, c)
  {
    hide ChannelInv, IsConnOf, Enqueue, Join, TakeAll, Prune, WriteNext;
    var v := match step case OnProps(v) => v case OnChanges(v) => v case _ => PropValues([]);
    var accepts := match step case WriteProps(a) => a case WriteChanges(a) => a case _ => (id: nat) => true;
    if IsConnOf(s.props, c) {
      ShutStays(s.props, v, accepts, c);
    }
    if IsConnOf(s.changes, c) {
      ShutStays(s.changes, v, accepts, c);
    }
  }

  /** After its first failed write a connection gets nothing more: from then on, over the rest of any
      run, it is one of the channel's connections, removed or not, exactly as it was. */
  lemma {:induction false} ShutIsFinal(states: seq<Server>, steps: seq<Step>, n: nat, m: nat, c: Conn)
    requires IsRun(states, steps) && n <= m <= |steps| && c.shut
    ensures IsConnOf(states[n].props, c) ==> IsTheConnOf(states[m].props, c)
    ensures IsConnOf(states[n].changes, c) ==> IsTheConnOf(states[m].changes, c)
    decreases m - n
  {
    hide ChannelInv, IsConnOf, Next, Enabled, IsTheConnOf;
    RunKeepsInv(states, steps, m);
    OnlyConnOf(states[m].props, c);
    OnlyConnOf(states[m].changes, c);
    if n < m {
      ShutIsFinal(states, steps, n, m - 1, c);
      TheConnIsAConn(states[m - 1].props, c);
      TheConnIsAConn(states[m - 1].changes, c);
      RunKeepsInv(states, steps, m - 1);
      StepKeepsShut(states[m - 1], steps[m - 1], c);
    }
  }

  /** Over any run, for either kind of event: what a connection has received is a gap-free run of what
      was enqueued, starting where it joined, and complete so far unless a write to it failed; and when
      the writer has exited, everything enqueued before it was told to stop has been offered. */
  lemma ConnectionsReceiveRuns(states: seq<Server>, steps: seq<Step>, n: nat, c: Conn)
    requires IsRun(states, steps) && n <= |steps|
    ensures var s := states[n];
            && (c in s.props.conns || c in s.props.gone ==>
                  && c.joined + |c.received| <= |s.props.enqueued|
                  && c.received == s.props.enqueued[c.joined..c.joined + |c.received|]
                  && (!c.shut ==> c.joined + |c.received| == |s.props.offered|))
            && (c in s.changes.conns || c in s.changes.gone ==>
                  && c.joined + |c.received| <= |s.changes.enqueued|
                  && c.received == s.changes.enqueued[c.joined..c.joined + |c.received|]
                  && (!c.shut ==> c.joined + |c.received| == |s.changes.offered|))
            && (s.phase.Exited? ==>
                  && s.due.0 <= |s.props.offered| <= |s.props.enqueued| &&
                    s.props.enqueued[..s.due.0] == s.props.offered[..s.due.0]
                  && s.due.1 <= |s.changes.offered| <= |s.changes.enqueued| &&
                    s.changes.enqueued[..s.due.1] == s.changes.offered[..s.due.1])
  {
    RunKeepsInv(states, steps, n);
    RunInEnqueued(states[n].props, c);
    RunInEnqueued(states[n].changes, c);
  }

  /** A turn of the loop ends it exactly when the flag was set as the turn took the queues. */
  lemma ExitsExactly(states: seq<Server>, steps: seq<Step>, i: nat, n: nat)
    requires IsRun(states, steps) && i < n < |steps| && steps[i].Drain? && steps[n].Finish?
    requires forall k :: i < k < n ==> !steps[k].Drain?
    ensures states[n + 1].phase == if states[i].stop then Exited else Waiting
  {
    ReadOnce(states, steps, i, n);
  }

  lemma {:induction false} ReadOnce(states: seq<Server>, steps: seq<Step>, i: nat, n: nat)
    requires IsRun(states, steps) && i < n < |steps| && steps[i].Drain?
    requires forall k :: i < k < n ==> !steps[k].Drain?
    ensures states[n].stopping == states[i].stop
    decreases n
  {
    if i < n - 1 {
      ReadOnce(states, steps, i, n - 1);
      assert !steps[n - 1].Drain?;
    }
  }

  // ---- What the streams' answers make of a connection, over whole runs ----

  function ChannelOf(s: Server, ofProps: bool): Channel {
    if ofProps then s.props else s.changes
  }

  /** An event of the kind is written, and the stream of a connection that has joined refuses it. */
  predicate Refuses(s: Server, step: Step, ofProps: bool, id: nat) {
    id < ChannelOf(s, ofProps).nextId &&
    match step
    case WriteProps(accepts) => ofProps && !accepts(id)
    case WriteChanges(accepts) => !ofProps && !accepts(id)
    case _ => false
  }

  // Where a connection of a channel comes from when an event is written.
  lemma WrittenConn(ch: Channel, accepts: nat -> bool, c: Conn) returns (d: Conn)
    requires ChannelInv(ch) && ch.batch != [] && ch.broken == {} && IsConnOf(WriteNext(ch, accepts), c)
    ensures IsConnOf(ch, d) && d.id == c.id && d.joined == c.joined && c.id < ch.nextId
    ensures c.shut <==> d.shut || !accepts(c.id)
    ensures c.shut ==> c.received == d.received
  {
    hide GaplessRun, DistinctIds;
    if c in WriteNext(ch, accepts).conns {
      d := WrittenFrom(ch.conns, ch.batch[0], accepts, c);
    } else {
      d := c;
    }
  }

  lemma PrunedConn(ch: Channel, c: Conn)
    ensures IsConnOf(Prune(ch), c) <==> IsConnOf(ch, c)
  {
    WithAndWithout(ch.conns, ch.broken, c);
  }

  lemma IdIsTaken(ch: Channel, c: Conn)
    requires ChannelInv(ch) && IsConnOf(ch, c)
    ensures c.id < ch.nextId
  {
  }

  // What `c` of the state after a step was before it; it is shut when it was, or when it refuses now.
  ghost predicate WasBefore(s: Server, step: Step, ofProps: bool, c: Conn, d: Conn) {
    && IsConnOf(ChannelOf(s, ofProps), d) && d.id == c.id && d.joined == c.joined
    && (c.shut <==> d.shut || Refuses(s, step, ofProps, c.id))
    && (c.shut ==> c.received == d.received)
  }

  lemma ConnBefore(s: Server, step: Step, ofProps: bool, c: Conn) returns (d: Conn)
    requires Inv(s) && Enabled(s, step) && IsConnOf(ChannelOf(Next(s, step), ofProps), c)
    ensures var ch := ChannelOf(s, ofProps);
            if c.id < ch.nextId then WasBefore(s, step, ofProps, c, d)
            else c == Conn(ch.nextId, |ch.offered|, [], false)
    ensures ChannelOf(s, ofProps).nextId <= ChannelOf(Next(s, step), ofProps).nextId
  {
    hide ChannelInv, WriteNext, Prune;
    var ch := ChannelOf(s, ofProps);
    d := c;
    match step
    case WriteProps(accepts) =>
      WriteKeepsNextId(ch, accepts);
      if ofProps {
        d := WrittenConn(ch, accepts, c);
      } else {
        IdIsTaken(ch, c);
      }
    case WriteChanges(accepts) =>
      WriteKeepsNextId(ch, accepts);
      if !ofProps {
        d := WrittenConn(ch, accepts, c);
      } else {
        IdIsTaken(ch, c);
      }
    case PruneProps =>
      PrunedConn(ch, c);
      PruneKeepsNextId(ch);
      IdIsTaken(ch, c);
    case PruneChanges =>
      PrunedConn(ch, c);
      PruneKeepsNextId(ch);
      IdIsTaken(ch, c);
    case _ =>
      if IsConnOf(ch, c) {
        IdIsTaken(ch, c);
      }
  }

  lemma WriteKeepsNextId(ch: Channel, accepts: nat -> bool)
    ensures ch.batch != [] ==> WriteNext(ch, accepts).nextId == ch.nextId
  {
  }

  lemma PruneKeepsNextId(ch: Channel)
    ensures Prune(ch).nextId == ch.nextId
  {
  }

  /** Over any run, a connection is shut exactly when its stream has refused an event since it joined. */
  lemma {:induction false} ShutExactly(states: seq<Server>, steps: seq<Step>, n: nat, ofProps: bool, c: Conn)
    requires IsRun(states, steps) && n <= |steps| && IsConnOf(ChannelOf(states[n], ofProps), c)
    ensures c.shut <==> exists i :: 0 <= i < n && Refuses(states[i], steps[i], ofProps, c.id)
    decreases n
  {
    hide IsConnOf, Refuses, Next, Inv;
    if n == 0 {
      NoneYet(ofProps, c);
    } else {
      var s := states[n - 1];
      RunKeepsInv(states, steps, n - 1);
      var d := ConnBefore(s, steps[n - 1], ofProps, c);
      if c.id < ChannelOf(s, ofProps).nextId {
        ShutExactly(states, steps, n - 1, ofProps, d);
        assert Refuses(s, steps[n - 1], ofProps, c.id) ==> c.shut;
      } else {
        forall i | 0 <= i < n ensures !Refuses(states[i], steps[i], ofProps, c.id) {
          IdsAreGivenInOrder(states, steps, i, n - 1, ofProps);
          RefusesOnlyOnceJoined(states[i], steps[i], ofProps, c.id);
        }
      }
    }
  }

  lemma NoneYet(ofProps: bool, c: Conn)
    ensures !IsConnOf(ChannelOf(Server(Empty(), Empty(), Waiting, false, false, (0, 0)), ofProps), c)
  {
  }

  lemma RefusesOnlyOnceJoined(s: Server, step: Step, ofProps: bool, id: nat)
    ensures Refuses(s, step, ofProps, id) ==> id < ChannelOf(s, ofProps).nextId
  {
  }

  lemma {:induction false} IdsAreGivenInOrder(states: seq<Server>, steps: seq<Step>, n: nat, m: nat, ofProps: bool)
    requires IsRun(states, steps) && n <= m <= |steps|
    ensures ChannelOf(states[n], ofProps).nextId <= ChannelOf(states[m], ofProps).nextId
    decreases m - n
  {
    if n < m {
      IdsAreGivenInOrder(states, steps, n, m - 1, ofProps);
    }
  }

  /** And what it has received then is all that had been offered since it joined, up to the event it
      refused. */
  lemma {:induction false} ReceivedUntilRefused(states: seq<Server>, steps: seq<Step>, n: nat, ofProps: bool, c: Conn,
                                                i: nat)
    requires IsRun(states, steps) && i < n <= |steps| && IsConnOf(ChannelOf(states[n], ofProps), c)
    requires Refuses(states[i], steps[i], ofProps, c.id)
    requires forall k :: 0 <= k < i ==> !Refuses(states[k], steps[k], ofProps, c.id)
    ensures var offered := ChannelOf(states[i], ofProps).offered;
            c.joined <= |offered| && c.received == offered[c.joined..]
    decreases n
  {
    hide IsConnOf, Refuses, Next, Inv;
    var s := states[n - 1];
    RunKeepsInv(states, steps, n - 1);
    var d := ConnBefore(s, steps[n - 1], ofProps, c);
    IdsAreGivenInOrder(states, steps, i, n - 1, ofProps);
    RefusesOnlyOnceJoined(states[i], steps[i], ofProps, c.id);
    ShutExactly(states, steps, n, ofProps, c);
    if i == n - 1 {
      ShutExactly(states, steps, i, ofProps, d);
      OpenIsUpToDate(s, ofProps, d);
    } else {
      ReceivedUntilRefused(states, steps, n - 1, ofProps, d, i);
    }
  }

  lemma OpenIsUpToDate(s: Server, ofProps: bool, c: Conn)
    requires Inv(s) && IsConnOf(ChannelOf(s, ofProps), c) && !c.shut
    ensures var offered := ChannelOf(s, ofProps).offered; c.joined <= |offered| && c.received == offered[c.joined..]
  {
    assert GaplessRun(ChannelOf(s, ofProps).offered, c);
  }

  /** Every connection that ever joined is there, served or removed. */
  lemma {:induction false} EveryoneIsKept(states: seq<Server>, steps: seq<Step>, n: nat, ofProps: bool, id: nat)
    returns (c: Conn)
    requires IsRun(states, steps) && n <= |steps| && id < ChannelOf(states[n], ofProps).nextId
    ensures IsConnOf(ChannelOf(states[n], ofProps), c) && c.id == id
    decreases n
  {
    hide Next, Inv, Enabled;
    if n == 0 {
      NoneHasJoined(ofProps);
    } else {
      var s := states[n - 1];
      RunKeepsInv(states, steps, n - 1);
      if id < ChannelOf(s, ofProps).nextId {
        var d := EveryoneIsKept(states, steps, n - 1, ofProps, id);
        c := ConnAfter(s, steps[n - 1], ofProps, d);
      } else {
        c := NewConn(s, steps[n - 1], ofProps, id);
      }
    }
  }

  lemma NoneHasJoined(ofProps: bool)
    ensures ChannelOf(Server(Empty(), Empty(), Waiting, false, false, (0, 0)), ofProps).nextId == 0
  {
  }

  lemma NewConn(s: Server, step: Step, ofProps: bool, id: nat) returns (c: Conn)
    requires Enabled(s, step) && ChannelOf(s, ofProps).nextId <= id < ChannelOf(Next(s, step), ofProps).nextId
    ensures IsConnOf(ChannelOf(Next(s, step), ofProps), c) && c.id == id
  {
    c := Conn(id, |ChannelOf(s, ofProps).offered|, [], false);
  }

  lemma ConnAfter(s: Server, step: Step, ofProps: bool, d: Conn) returns (c: Conn)
    requires Inv(s) && Enabled(s, step) && IsConnOf(ChannelOf(s, ofProps), d)
    ensures IsConnOf(ChannelOf(Next(s, step), ofProps), c) && c.id == d.id
  {
    hide ChannelInv;
    c := d;
    var ch := ChannelOf(s, ofProps);
    match step
    case WriteProps(accepts) =>
      if ofProps {
        c := WrittenAfter(ch, accepts, d);
      }
    case WriteChanges(accepts) =>
      if !ofProps {
        c := WrittenAfter(ch, accepts, d);
      }
    case PruneProps => PrunedConn(ch, d);
    case PruneChanges => PrunedConn(ch, d);
    case _ =>
  }

  lemma WrittenAfter(ch: Channel, accepts: nat -> bool, d: Conn) returns (c: Conn)
    requires ChannelInv(ch) && ch.batch != [] && ch.broken == {} && IsConnOf(ch, d)
    ensures IsConnOf(WriteNext(ch, accepts), c) && c.id == d.id
  {
    c := d;
    if d in ch.conns {
      WrittenTo(ch.conns, ch.batch[0], accepts, d);
      c := if accepts(d.id) then d.(received := d.received + [ch.batch[0]]) else d.(shut := true);
    }
  }

  lemma RunInEnqueued(ch: Channel, c: Conn)
    requires ChannelInv(ch)
    ensures ch.offered <= ch.enqueued
    ensures c in ch.conns || c in ch.gone ==>
              && c.joined + |c.received| <= |ch.enqueued|
              && c.received == ch.enqueued[c.joined..c.joined + |c.received|]
              && (!c.shut ==> c.joined + |c.received| == |ch.offered|)
  {
    assert ch.offered <= ch.enqueued;
    if c in ch.conns || c in ch.gone {
      assert GaplessRun(ch.offered, c);
      assert ch.enqueued[c.joined..c.joined + |c.received|] == ch.offered[c.joined..c.joined + |c.received|];
    }
  }

  // ---- The objects ----

  lemma {:induction false} WriteAllEach(conns: seq<Conn>, v: Event, accepts: nat -> bool)
    ensures |WriteAll(conns, v, accepts)| == |conns|
    ensures forall i :: 0 <= i < |conns| ==>
              var c := conns[i];
              WriteAll(conns, v, accepts)[i] ==
                if c.shut || !accepts(c.id) then Conn(c.id, c.joined, c.received, true)
                else Conn(c.id, c.joined, c.received + [v], false)
  {
    if conns != [] {
      WriteAllEach(conns[..|conns| - 1], v, accepts);
    }
  }

  /** One event to every connection; the ids of those it could not be written to. */
  method WriteToEach(connections: seq<Conn>, v: Event, accepts: nat -> bool)
    returns (written: seq<Conn>, brokenConn: set<nat>)
    ensures written == WriteAll(connections, v, accepts) && brokenConn == Broken(written)
    ensures |written| == |connections|
    ensures forall i :: 0 <= i < |connections| ==>
              var c := connections[i];
              written[i] == if c.shut || !accepts(c.id) then Conn(c.id, c.joined, c.received, true)
                            else Conn(c.id, c.joined, c.received + [v], false)
  {
    written, brokenConn := [], {};
    for i := 0 to |connections|
      invariant written == WriteAll(connections[..i], v, accepts) && brokenConn == Broken(written)
    {
      var c := connections[i];
      var after := if !c.shut && accepts(c.id) then c.(received := c.received + [v]) else c.(shut := true);
      assert connections[..i + 1][..i] == connections[..i];
      BrokenOneMore(written, after);
      if after.shut {
        brokenConn := brokenConn + {after.id};
      }
      written := written + [after];
    }
    WriteAllEach(connections, v, accepts);
    assert connections[..|connections|] == connections;
  }

  method RemoveBroken(connections: seq<Conn>, brokenConn: set<nat>) returns (kept: seq<Conn>)
    ensures kept == Without(connections, brokenConn)
  {
    kept := [];
    for i := 0 to |connections|
      invariant kept == Without(connections[..i], brokenConn)
    {
      assert connections[..i + 1][..i] == connections[..i];
      if connections[i].id !in brokenConn {
        kept := kept + [connections[i]];
      }
    }
    assert connections[..|connections|] == connections;
  }

  /** The queue and the connections of one kind of event. */
  class EventStream {
    var queue: seq<Event>
    var connections: seq<Conn>
    var nextId: nat
    ghost var enqueued: seq<Event>
    var offered: seq<Event>  // history, read only to note where a connection joined
    ghost var gone: seq<Conn>

    ghost function View(batch: seq<Event>): Channel
      reads this
    {
      Channel(enqueued, queue, batch, offered, connections, {}, gone, nextId)
    }

    constructor ()
      ensures View([]) == Empty()
    {
      queue, connections, nextId, enqueued, offered, gone := [], [], 0, [], [], [];
    }

    method Push(v: Event)
      modifies this
      ensures forall batch :: View(batch) == Enqueue(old(View(batch)), v)
    {
      queue := queue + [v];
      enqueued := enqueued + [v];
    }

    method Connect()
      modifies this
      ensures forall batch :: View(batch) == Join(old(View(batch)))
    {
      connections := connections + [Conn(nextId, |offered|, [], false)];
      nextId := nextId + 1;
    }

    /** Swaps the queue out, under the queue lock. */
    method SwapOut() returns (batch: seq<Event>)
      modifies this
      ensures View(batch) == TakeAll(old(View([]))) && batch == old(queue)
    {
      batch := queue;
      queue := [];
    }

    /** Writes an event to every connection and then removes the ones it could not be written to. */
    method WriteToStream(v: Event, accepts: nat -> bool, ghost batch: seq<Event>)
      requires ChannelInv(View([v] + batch))
      modifies this
      ensures View(batch) == Prune(WriteNext(old(View([v] + batch)), accepts)) && ChannelInv(View(batch))
      ensures forall c <- old(connections) ::
                if accepts(c.id) then c.(received := c.received + [v]) in connections else c.(shut := true) in gone
    {
      hide ChannelInv, WriteAll, Without, With, Broken;
      ghost var before := View([v] + batch);
      forall c | c in connections
        ensures var t := Prune(WriteNext(before, accepts));
                if accepts(c.id) then c.(received := c.received + [v]) in t.conns else c.(shut := true) in t.gone
      {
        OneIsServed(before, accepts, c);
      }
      assert before.batch[0] == v && before.batch[1..] == batch;
      WriteKeepsInv(before, accepts);
      PruneKeepsInv(WriteNext(before, accepts));
      var written, brokenConn := WriteToEach(connections, v, accepts);
      offered := offered + [v];
      gone := gone + With(written, brokenConn);
      connections := RemoveBroken(written, brokenConn);
    }

    /** Writes a whole batch, oldest event first. */
    method WriteBatch(batch: seq<Event>, accepts: (nat, nat) -> bool)
      requires ChannelInv(View(batch))
      modifies this
      ensures View([]) == Drained(old(View(batch)), accepts, 0) && ChannelInv(View([]))
      ensures offered == old(offered) + batch && queue == old(queue) && enqueued == old(enqueued)
      ensures AllServed(old(connections), batch, accepts, connections, gone)
    {
      hide ChannelInv, WriteAll, Without, With, Broken, AllServed;
      AllAreServed(View(batch), accepts);
      var rest: seq<Event>, turn: nat := batch, 0;
      while rest != []
        invariant ChannelInv(View(rest)) && offered + rest == old(offered) + batch
        invariant Drained(View(rest), accepts, turn) == Drained(old(View(batch)), accepts, 0)
        invariant queue == old(queue) && enqueued == old(enqueued)
        decreases |rest|
      {
        assert [rest[0]] + rest[1..] == rest;
        var now := turn;
        WriteToStream(rest[0], (id: nat) => accepts(now, id), rest[1..]);
        rest, turn := rest[1..], turn + 1;
      }
    }
  }

  lemma BrokenOneMore(conns: seq<Conn>, c: Conn)
    ensures Broken(conns + [c]) == if c.shut then Broken(conns) + {c.id} else Broken(conns)
  {
    var all := conns + [c];
    forall id ensures id in Broken(all) <==> id in if c.shut then Broken(conns) + {c.id} else Broken(conns) {
      if id in Broken(all) {
        var d :| d in all && d.shut && d.id == id;
        assert d in conns || d == c;
      }
      if id in Broken(conns) {
        var d :| d in conns && d.shut && d.id == id;
        assert d in all;
      }
      assert c in all;
    }
  }

  class ProxyServer {
    const propStream: EventStream
    const changeStream: EventStream
    var stopEventWriter: bool

    constructor (propStream: EventStream, changeStream: EventStream)
      ensures this.propStream == propStream && this.changeStream == changeStream && !stopEventWriter
    {
      this.propStream, this.changeStream, stopEventWriter := propStream, changeStream, false;
    }

    ghost predicate Valid()
      reads this, propStream, changeStream
    {
      propStream != changeStream && ChannelInv(propStream.View([])) && ChannelInv(changeStream.View([]))
    }

    /** One turn of the writer's loop: everything queued of either kind is offered, in order, before the
        stop flag read with the queues ends the loop. */
    method EventWriterTurn(accepts: (nat, nat) -> bool) returns (exits: bool)
      requires Valid()
      modifies propStream, changeStream
      ensures Valid() && exits == stopEventWriter
      ensures propStream.queue == [] && propStream.offered == propStream.enqueued == old(propStream.enqueued)
      ensures changeStream.queue == [] && changeStream.offered == changeStream.enqueued == old(changeStream.enqueued)
      ensures propStream.View([]) == Drained(TakeAll(old(propStream.View([]))), accepts, 0)
      ensures changeStream.View([]) == Drained(TakeAll(old(changeStream.View([]))), accepts, 0)
      ensures AllServed(old(propStream.connections), old(propStream.queue), accepts, propStream.connections,
                        propStream.gone)
      ensures AllServed(old(changeStream.connections), old(changeStream.queue), accepts, changeStream.connections,
                        changeStream.gone)
    {
      hide ChannelInv, AllServed;
      EnqueueAndTakeKeepInv(propStream.View([]), PropValues([]));
      EnqueueAndTakeKeepInv(changeStream.View([]), PropValues([]));
      var propBatch := propStream.SwapOut();
      var changeBatch := changeStream.SwapOut();
      var stop := stopEventWriter;
      AllEnqueued(propStream.View(propBatch));
      AllEnqueued(changeStream.View(changeBatch));
      propStream.WriteBatch(propBatch, accepts);
      changeStream.WriteBatch(changeBatch, accepts);
      exits := stop;
    }
  }

  lemma AllEnqueued(ch: Channel)
    requires ChannelInv(ch) && ch.queue == []
    ensures ch.enqueued == ch.offered + ch.batch
  {
    assert ch.offered + ch.batch + [] == ch.offered + ch.batch;
  }
}
