/** One client mirroring the server across commits, overflows, lost connections and server
    restarts: what holds in every interleaving. */
module Replication {
  import opened Common
  import opened Tree
  import opened Stores

  // The client's connection: none; its hello on the way; or served, with the messages still
  // on the wire. A server that died sends no more, but what it sent may still arrive.
  datatype Link =
    | Down
    | Hello(epoch: Option<string>, since: int)
    | Open(server: string, alive: bool, stream: Stream, wire: seq<Message>)

  // `logs` is everything committed, by the epochs of the servers so far.
  datatype World = World(store: Store, logs: map<string, Log>, client: Client, link: Link, maxSize: nat)

  datatype Event =
    | DoCommit(ops: seq<Op>)
    | Dial                    // the client opens a socket and says hello
    | Accept(heard: bool)     // the server serves it; an unheard hello counts as an empty one
    | DoBegin
    | DoSendMissed
    | DoTake
    | Deliver
    | Hangup                  // the client sees the socket closed
    | Cut                     // the server stops serving
    | Restart(epoch: string, maxHistory: nat)

  ghost predicate Possible(w: World, e: Event) {
    match e
    case DoCommit(ops) => Accepted(ops)
    case Dial => w.link.Down?
    case Accept(_) => w.link.Hello?
    case DoBegin => w.link.Open? && w.link.alive && !w.link.stream.started
    case DoSendMissed => w.link.Open? && w.link.alive && w.link.stream.started && w.link.stream.missed != []
    case DoTake => w.link.Open? && w.link.alive && w.link.stream.started && w.link.stream.missed == [] && w.link.stream.queue != []
    case Deliver => w.link.Open? && w.link.wire != []
    case Hangup => !w.link.Down?
    case Cut => w.link.Open?
    case Restart(epoch, _) => epoch !in w.logs
  }

  function Sent(link: Link, step: (Stream, seq<Message>)): Link
    requires link.Open?
  {
    link.(stream := step.0, wire := link.wire + step.1)
  }

  // A commit reaches the connection's subscription too.
  function Offered(w: World, ops: seq<Op>): Link {
    if w.link.Open? && w.link.alive then
      w.link.(stream := w.link.stream.(queue := Offer(w.link.stream.queue, w.maxSize, Patch(w.store.version + 1, ops))))
    else w.link
  }

  function Next(w: World, e: Event): World
    requires Possible(w, e) && w.store.epoch in w.logs
  {
    match e
    case DoCommit(ops) =>
      w.(store := Commit(w.store, ops),
         logs := w.logs[w.store.epoch := w.logs[w.store.epoch] + [ops]],
         link := Offered(w, ops))
    case Dial => w.(link := Hello(w.client.epoch, w.client.version))
    case Accept(heard) =>
      var since := if heard && w.link.epoch == Some(w.store.epoch) then Some(w.link.since) else None;
      w.(link := Open(w.store.epoch, true, Stream(since, false, 0, [], []), []))
    case DoBegin => w.(link := Sent(w.link, Begin(w.link.stream, w.store)))
    case DoSendMissed => w.(link := Sent(w.link, SendMissed(w.link.stream)))
    case DoTake => w.(link := Sent(w.link, TakeItem(w.link.stream, w.store)))
    case Deliver =>
      var (client, gap) := Handle(w.client, w.link.wire[0]);
      w.(client := client, link := if gap then Down else w.link.(wire := w.link.wire[1..]))
    case Hangup => w.(link := Down)
    case Cut => w.(link := w.link.(alive := false))
    case Restart(epoch, maxHistory) =>
      w.(store := Store(epoch, map[], 0, [], maxHistory),
         logs := w.logs[epoch := []],
         link := if w.link.Open? then w.link.(alive := false) else Down)
  }

  // -- the invariant ------------------------------------------------------------------------------

  // Where the client stands in a server's log, if it follows that server.
  function At(c: Client, server: string): Option<int> {
    if c.epoch == Some(server) then Some(c.version) else None
  }

  // The client's tree is its server's after exactly `version` commits.
  ghost predicate Mirrors(c: Client, logs: map<string, Log>) {
    match c.epoch
    case None => c.version == 0 && c.state == map[]
    case Some(epoch) =>
      && epoch in logs
      && 0 <= c.version <= |logs[epoch]|
      && c.state == Replay(logs[epoch][..c.version])
  }

  // A message that a client standing at `at` can take: a snapshot not older, or the next change.
  ghost predicate Fits(m: Message, at: Option<int>, server: string, log: Log) {
    && 0 <= m.version <= |log|
    && match m
       case Snapshot(epoch, version, state) =>
         epoch == server && state == Replay(log[..version]) && (at.Some? ==> at.value <= version)
       case Changes(version, ops) =>
         at == Some(version - 1) && version > 0 && ops == AllToWire(log[version - 1])
  }

  // Everything on the wire fits, in turn.
  ghost predicate Feed(wire: seq<Message>, at: Option<int>, server: string, log: Log) {
    wire == [] || (Fits(wire[0], at, server, log) && Feed(wire[1..], Some(wire[0].version), server, log))
  }

  // Where the client will stand once the wire is empty.
  function EndsAt(wire: seq<Message>, at: Option<int>): Option<int> {
    if wire == [] then at else Some(wire[|wire| - 1].version)
  }

  // The queue is the end of the log, or says that its front is missing.
  ghost predicate TailOf(queue: seq<Item>, log: Log) {
    && |queue| <= |log|
    && forall i :: 0 <= i < |queue| ==> queue[i] == Change(PatchAt(log, |log| - |queue| + i))
  }

  ghost predicate QueueOk(queue: seq<Item>, log: Log, reach: int) {
    || (TailOf(queue, log) && |log| - |queue| <= reach)
    || (queue != [] && queue[0].Resync? && TailOf(queue[1..], log))
  }

  ghost predicate MissedOk(missed: seq<Patch>, last: int, log: Log) {
    && 0 <= last && last + |missed| <= |log|
    && forall i :: 0 <= i < |missed| ==> missed[i] == PatchAt(log, last + i)
  }

  ghost predicate StreamOk(t: Stream, wire: seq<Message>, at: Option<int>, log: Log) {
    if t.started then
      && MissedOk(t.missed, t.last, log)
      && QueueOk(t.queue, log, t.last + |t.missed|)
      && EndsAt(wire, at) == Some(t.last)
    else
      && wire == [] && (t.since.Some? ==> at == t.since)
      && QueueOk(t.queue, log, |log|)
  }

  ghost predicate LinkOk(w: World) {
    match w.link
    case Down => true
    case Hello(epoch, since) => epoch == w.client.epoch && since == w.client.version
    case Open(server, alive, stream, wire) =>
      && server in w.logs
      && Feed(wire, At(w.client, server), server, w.logs[server])
      && (alive ==> server == w.store.epoch && StreamOk(stream, wire, At(w.client, server), w.logs[server]))
  }

  ghost predicate Inv(w: World) {
    && w.store.epoch in w.logs
    && StoreOk(w.store, w.logs[w.store.epoch])
    && Mirrors(w.client, w.logs)
    && LinkOk(w)
  }

  // -- growing logs -----------------------------------------------------------------------------------

  lemma {:induction false} FeedGrows(wire: seq<Message>, at: Option<int>, server: string, log: Log, ops: seq<Op>)
    requires Feed(wire, at, server, log) && Accepted(ops)
    ensures Feed(wire, at, server, log + [ops])
  {
    if wire != [] {
      var v := wire[0].version;
      assert (log + [ops])[..v] == log[..v];
      FeedGrows(wire[1..], Some(v), server, log, ops);
    }
  }

  lemma {:induction false} FeedAppends(wire: seq<Message>, at: Option<int>, server: string, log: Log, m: Message)
    requires Feed(wire, at, server, log) && Fits(m, EndsAt(wire, at), server, log)
    ensures Feed(wire + [m], at, server, log)
    ensures EndsAt(wire + [m], at) == Some(m.version)
  {
    if wire == [] {
      assert ([] + [m])[1..] == [];
    } else {
      assert (wire + [m])[1..] == wire[1..] + [m];
      FeedAppends(wire[1..], Some(wire[0].version), server, log, m);
    }
  }

  lemma OfferKeeps(queue: seq<Item>, log: Log, reach: int, maxSize: nat, ops: seq<Op>)
    requires QueueOk(queue, log, reach) && Accepted(ops)
    ensures QueueOk(Offer(queue, maxSize, Patch(|log| + 1, ops)), log + [ops], reach)
  {
    var q := Offer(queue, maxSize, Patch(|log| + 1, ops));
    if maxSize > 0 && |queue| >= maxSize {
      assert q[1..] == [] && TailOf([], log + [ops]);
    } else if TailOf(queue, log) && |log| - |queue| <= reach {
      TailGrows(queue, log, ops);
    } else {
      ConcatTail(queue, [Change(Patch(|log| + 1, ops))]);
      TailGrows(queue[1..], log, ops);
    }
  }

  lemma TailGrows(queue: seq<Item>, log: Log, ops: seq<Op>)
    requires TailOf(queue, log) && Accepted(ops)
    ensures TailOf(queue + [Change(Patch(|log| + 1, ops))], log + [ops])
  {
  }

  lemma CommitKeepsLink(w: World, ops: seq<Op>)
    requires Inv(w) && Accepted(ops)
    ensures LinkOk(Next(w, DoCommit(ops)))
  {
    var log := w.logs[w.store.epoch];
    if w.link.Open? {
      var t := w.link.stream;
      if w.link.server == w.store.epoch {
        FeedGrows(w.link.wire, At(w.client, w.link.server), w.link.server, log, ops);
      }
      if w.link.alive {
        OfferKeeps(t.queue, log, if t.started then t.last + |t.missed| else |log|, w.maxSize, ops);
      }
    }
  }

  // -- the steps ---------------------------------------------------------------------------------------

  lemma BeginKeeps(w: World)
    requires Inv(w) && Possible(w, DoBegin)
    ensures LinkOk(Next(w, DoBegin))
  {
    var log := w.logs[w.store.epoch];
    var t := w.link.stream;
    assert log[..|log|] == log;
    var missed := if t.since.Some? then PatchesSince(w.store, t.since.value) else None;
    if t.since.Some? {
      PatchesSinceExact(w.store, log, t.since.value);
    }
    if missed == None {
      FeedAppends([], At(w.client, w.link.server), w.link.server, log, SnapshotOf(w.store));
      assert [] + [SnapshotOf(w.store)] == w.link.wire + [SnapshotOf(w.store)];
    } else {
      assert w.link.wire + [] == w.link.wire;
    }
  }

  lemma SendMissedKeeps(w: World)
    requires Inv(w) && Possible(w, DoSendMissed)
    ensures LinkOk(Next(w, DoSendMissed))
  {
    var log := w.logs[w.store.epoch];
    var t := w.link.stream;
    assert t.missed[0] == PatchAt(log, t.last);
    FeedAppends(w.link.wire, At(w.client, w.link.server), w.link.server, log, MessageOf(t.missed[0]));
    forall i | 0 <= i < |t.missed[1..]| ensures t.missed[1..][i] == PatchAt(log, t.last + 1 + i) {
      assert t.missed[i + 1] == PatchAt(log, t.last + (i + 1));
    }
  }

  lemma TakeKeeps(w: World)
    requires Inv(w) && Possible(w, DoTake)
    ensures LinkOk(Next(w, DoTake))
  {
    var log := w.logs[w.store.epoch];
    var t := w.link.stream;
    var (t', sent) := TakeItem(t, w.store);
    assert log[..|log|] == log;
    if t.queue[0].Resync? {
      FeedAppends(w.link.wire, At(w.client, w.link.server), w.link.server, log, SnapshotOf(w.store));
    } else {
      var p := t.queue[0].patch;
      assert p == PatchAt(log, |log| - |t.queue|);
      assert TailOf(t.queue[1..], log);
      if p.version > t.last {
        FeedAppends(w.link.wire, At(w.client, w.link.server), w.link.server, log, MessageOf(p));
      } else {
        assert w.link.wire + [] == w.link.wire;
      }
    }
  }

  // The client takes whatever arrives: never a gap, never an older version of the same server.
  lemma DeliverKeeps(w: World)
    requires Inv(w) && Possible(w, Deliver)
    ensures !Handle(w.client, w.link.wire[0]).1
    ensures Mirrors(Next(w, Deliver).client, w.logs) && LinkOk(Next(w, Deliver))
    ensures At(w.client, w.link.server).Some? ==> w.client.version <= Next(w, Deliver).client.version
    ensures Next(w, Deliver).client.epoch == Some(w.link.server)
  {
    var log := w.logs[w.link.server];
    var m := w.link.wire[0];
    assert Fits(m, At(w.client, w.link.server), w.link.server, log);
    if m.Changes? {
      SameEffects(w.client.state, log[m.version - 1]);
      assert log[..m.version][..m.version - 1] == log[..m.version - 1];
    }
  }

  lemma StepKeeps(w: World, e: Event)
    requires Inv(w) && Possible(w, e)
    ensures Inv(Next(w, e))
  {
    match e
    case DoCommit(ops) =>
      CommitKeeps(w.store, w.logs[w.store.epoch], ops);
      CommitKeepsLink(w, ops);
      if w.client.epoch == Some(w.store.epoch) {
        var log := w.logs[w.store.epoch];
        assert (log + [ops])[..w.client.version] == log[..w.client.version];
      }
    case Dial =>
    case Accept(heard) =>
    case DoBegin => BeginKeeps(w);
    case DoSendMissed => SendMissedKeeps(w);
    case DoTake => TakeKeeps(w);
    case Deliver => DeliverKeeps(w);
    case Hangup =>
    case Cut =>
    case Restart(epoch, _) =>
  }

  // -- runs -----------------------------------------------------------------------------------------------

  const FRESH := Client(map[], 0, None)

  ghost predicate IsRun(run: seq<World>, events: seq<Event>) {
    && |run| == |events| + 1
    && run[0].client == FRESH && run[0].link == Down
    && run[0].logs == map[run[0].store.epoch := []]
    && run[0].store == Store(run[0].store.epoch, map[], 0, [], run[0].store.maxHistory)
    && forall i :: 0 <= i < |events| ==>
         run[i].store.epoch in run[i].logs && Possible(run[i], events[i]) && run[i + 1] == Next(run[i], events[i])
  }

  lemma {:induction false} RunKeeps(run: seq<World>, events: seq<Event>, i: nat)
    requires IsRun(run, events) && i < |run|
    ensures Inv(run[i])
  {
    if i > 0 {
      RunKeeps(run, events, i - 1);
      StepKeeps(run[i - 1], events[i - 1]);
    }
  }

  // Whatever happened, the client shows its server's tree after exactly `version` commits.
  lemma ClientMirrors(run: seq<World>, events: seq<Event>, i: nat)
    requires IsRun(run, events) && i < |run|
    ensures var c := run[i].client;
            match c.epoch
            case None => c == FRESH
            case Some(epoch) =>
              && epoch in run[i].logs && 0 <= c.version <= |run[i].logs[epoch]|
              && c.state == Replay(run[i].logs[epoch][..c.version])
  {
    RunKeeps(run, events, i);
  }

  lemma StepGoesForward(w: World, e: Event)
    requires Inv(w) && Possible(w, e) && Next(w, e).client.epoch == w.client.epoch
    ensures w.client.version <= Next(w, e).client.version
  {
    if e.Deliver? {
      DeliverKeeps(w);
    }
  }

  // While it follows one server, its version never goes back.
  lemma {:induction false} VersionsGoForward(run: seq<World>, events: seq<Event>, i: nat, k: nat)
    requires IsRun(run, events) && i <= k < |run|
    requires forall n :: i <= n <= k ==> run[n].client.epoch == run[i].client.epoch
    ensures run[i].client.version <= run[k].client.version
    decreases k - i
  {
    if i < k {
      VersionsGoForward(run, events, i, k - 1);
      OneStepForward(run, events, k - 1);
    }
  }

  lemma OneStepForward(run: seq<World>, events: seq<Event>, k: nat)
    requires IsRun(run, events) && k < |events|
    requires run[k + 1].client.epoch == run[k].client.epoch
    ensures run[k].client.version <= run[k + 1].client.version
  {
    RunKeeps(run, events, k);
    StepGoesForward(run[k], events[k]);
  }

  // No connection ever leaves a gap: the client never has to close it for one.
  lemma NoGap(run: seq<World>, events: seq<Event>, i: nat)
    requires IsRun(run, events) && i < |events| && events[i].Deliver?
    ensures !Handle(run[i].client, run[i].link.wire[0]).1
    ensures run[i + 1].link == run[i].link.(wire := run[i].link.wire[1..])
  {
    RunKeeps(run, events, i);
    DeliverKeeps(run[i]);
  }

  // A connection with nothing left to send or to arrive shows the server's tree as it is.
  lemma CaughtUp(run: seq<World>, events: seq<Event>, i: nat)
    requires IsRun(run, events) && i < |run|
    requires var l := run[i].link;
             l.Open? && l.alive && l.stream.started && l.stream.missed == [] && l.stream.queue == [] && l.wire == []
    ensures run[i].client == Client(run[i].store.state, run[i].store.version, Some(run[i].store.epoch))
  {
    RunKeeps(run, events, i);
    var w := run[i];
    var log := w.logs[w.store.epoch];
    assert log[..|log|] == log;
  }

  // -- what is sent, and how much is kept for it ----------------------------------------------------------

  predicate Sends(e: Event) {
    e.DoBegin? || e.DoSendMissed? || e.DoTake?
  }

  // A snapshot is due: at first, when the client follows another server or its version is no
  // longer in reach of the history; later, when changes were dropped.
  ghost predicate SnapshotDue(w: World, e: Event)
    requires Possible(w, e) && Sends(e) && w.store.epoch in w.logs
  {
    var t, log := w.link.stream, w.logs[w.store.epoch];
    match e
    case DoBegin => t.since == None || !(|log| - |w.store.history| <= t.since.value <= |log|)
    case DoTake => t.queue[0].Resync?
    case _ => false
  }

  // Exactly then one is sent; else one change at most, and none only when the client has it.
  lemma SnapshotsOnlyWhenDue(w: World, e: Event)
    requires Inv(w) && Possible(w, e) && Sends(e)
    ensures Next(w, e).link.Open? && w.link.wire <= Next(w, e).link.wire
    ensures var sent := Next(w, e).link.wire[|w.link.wire|..];
            && |sent| <= 1
            && (SnapshotDue(w, e) <==> sent != [] && sent[0].Snapshot?)
            && (sent == [] ==> e.DoBegin? || (w.link.stream.queue[0].Change? && w.link.stream.queue[0].patch.version <= w.link.stream.last))
            && (sent != [] && sent[0].Changes? ==> sent[0].version == w.link.stream.last + 1)
  {
    var t, log := w.link.stream, w.logs[w.store.epoch];
    var wire := Next(w, e).link.wire;
    match e
    case DoBegin =>
      if t.since.Some? { PatchesSinceExact(w.store, log, t.since.value); }
    case DoSendMissed =>
      assert t.missed[0] == PatchAt(log, t.last);
    case DoTake =>
      if t.queue[0].Change? { assert t.queue[0] == Change(PatchAt(log, |log| - |t.queue|)); }
  }

  // A hello that is heard tells where a client of this server stands, and nothing of others.
  lemma HelloHeard(w: World)
    requires Inv(w) && Possible(w, Accept(true))
    ensures Next(w, Accept(true)).link.Open?
    ensures Next(w, Accept(true)).link.stream.since == if w.client.epoch == Some(w.store.epoch) then Some(w.client.version) else None
  {
  }

  // A client of this server that is in reach is sent just the changes it lacks.
  lemma ResumesFrom(w: World)
    requires Inv(w) && Possible(w, DoBegin) && w.link.stream.since.Some?
    requires var since := w.link.stream.since.value; |w.logs[w.store.epoch]| - |w.store.history| <= since <= |w.logs[w.store.epoch]|
    ensures Next(w, DoBegin).link.Open? && Next(w, DoBegin).link.wire == []
    ensures var t := Next(w, DoBegin).link.stream;
            t.last == w.client.version && t.missed == PatchesFrom(w.logs[w.store.epoch], w.client.version)
  {
    PatchesSinceExact(w.store, w.logs[w.store.epoch], w.link.stream.since.value);
  }

  // The queue of a connection, as long as its limit allows.
  ghost predicate Bounded(w: World) {
    w.maxSize > 0 && w.link.Open? ==> |w.link.stream.queue| <= w.maxSize
  }

  lemma {:induction false} QueueBounded(run: seq<World>, events: seq<Event>, i: nat)
    requires IsRun(run, events) && i < |run|
    ensures Bounded(run[i]) && run[i].maxSize == run[0].maxSize
  {
    if i > 0 {
      QueueBounded(run, events, i - 1);
      RunKeeps(run, events, i - 1);
      StepBounded(run[i - 1], events[i - 1]);
    }
  }

  lemma StepBounded(w: World, e: Event)
    requires Inv(w) && Possible(w, e) && Bounded(w)
    ensures Bounded(Next(w, e)) && Next(w, e).maxSize == w.maxSize
  {
  }

  ghost predicate Marked(queue: seq<Item>) {
    Resync in queue
  }

  // A commit drops changes exactly when the queue holds as many as it may; else it only adds its own.
  lemma DropsOnlyWhenFull(w: World, ops: seq<Op>)
    requires Inv(w) && Accepted(ops) && w.link.Open? && w.link.alive && !Marked(w.link.stream.queue)
    ensures Next(w, DoCommit(ops)).link.Open?
    ensures var queue, next := w.link.stream.queue, Next(w, DoCommit(ops)).link.stream.queue;
            && (Marked(next) <==> w.maxSize > 0 && |queue| >= w.maxSize)
            && (!Marked(next) ==> |next| == |queue| + 1 && queue <= next)
  {
  }
}
