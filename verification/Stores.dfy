/** The store, its stream and its mirror, as values. */
module Stores {
  // server/src/nocs/state/store.py, server/src/nocs/api/app.py and web/src/lib/live.svelte.ts.
  import opened Common
  import opened Tree

  datatype Patch = Patch(version: nat, ops: seq<Op>)

  // What a subscription's queue holds: a change, or the marker of dropped ones.
  datatype Item = Change(patch: Patch) | Resync

  datatype Store = Store(epoch: string, state: Node, version: nat, history: seq<Patch>, maxHistory: nat)

  predicate Accepted(ops: seq<Op>) {
    forall op :: op in ops ==> op.path != []
  }

  // The last `most` elements, as a deque with maxlen keeps them.
  function LastOf<T>(items: seq<T>, most: nat): seq<T> {
    items[|items| - Min(most, |items|)..]
  }

  function Commit(s: Store, ops: seq<Op>): Store
    requires Accepted(ops)
  {
    s.(state := ServerApplyAll(s.state, ops),
       version := s.version + 1,
       history := LastOf(s.history + [Patch(s.version + 1, ops)], s.maxHistory))
  }

  // A full queue is emptied and says so; `maxSize` 0 is no limit.
  function Offer(queue: seq<Item>, maxSize: nat, patch: Patch): seq<Item> {
    if maxSize > 0 && |queue| >= maxSize then [Resync] else queue + [Change(patch)]
  }

  function Above(history: seq<Patch>, version: int): seq<Patch> {
    if history == [] then []
    else (if history[0].version > version then [history[0]] else []) + Above(history[1..], version)
  }

  function PatchesSince(s: Store, version: int): Option<seq<Patch>> {
    if version == s.version then Some([])
    else if version > s.version || s.history == [] then None
    else if s.history[0].version > version + 1 then None
    else Some(Above(s.history, version))
  }

  // -- the messages ----------------------------------------------------------------------------

  datatype Message =
    | Snapshot(epoch: string, version: int, state: Node)
    | Changes(version: int, ops: seq<WireOp>)

  function SnapshotOf(s: Store): Message {
    Snapshot(s.epoch, s.version, s.state)
  }

  function MessageOf(p: Patch): Message {
    Changes(p.version, AllToWire(p.ops))
  }

  // -- the server's side of one connection -------------------------------------------------------

  datatype Stream = Stream(since: Option<int>, started: bool, last: int, missed: seq<Patch>, queue: seq<Item>)

  // The sender's first look at the store: a snapshot, or what the client missed.
  function Begin(t: Stream, s: Store): (Stream, seq<Message>) {
    var missed := if t.since.Some? then PatchesSince(s, t.since.value) else None;
    match missed
    case None => (t.(started := true, last := s.version, missed := []), [SnapshotOf(s)])
    case Some(patches) => (t.(started := true, last := t.since.value, missed := patches), [])
  }

  function SendMissed(t: Stream): (Stream, seq<Message>)
    requires t.missed != []
  {
    (t.(last := t.missed[0].version, missed := t.missed[1..]), [MessageOf(t.missed[0])])
  }

  // One turn of the sender's loop.
  function TakeItem(t: Stream, s: Store): (Stream, seq<Message>)
    requires t.queue != []
  {
    var t' := t.(queue := t.queue[1..]);
    match t.queue[0]
    case Resync => (t'.(last := s.version), [SnapshotOf(s)])
    case Change(p) => if p.version > t.last then (t'.(last := p.version), [MessageOf(p)]) else (t', [])
  }

  // -- the client -----------------------------------------------------------------------------------

  datatype Client = Client(state: Node, version: int, epoch: Option<string>)

  // The second component: the message left a gap, and the socket is closed.
  function Handle(c: Client, m: Message): (Client, bool) {
    match m
    case Snapshot(epoch, version, state) => (Client(state, version, Some(epoch)), false)
    case Changes(version, ops) =>
      if version != c.version + 1 then (c, true)
      else (c.(state := ClientApplyAll(c.state, ops), version := version), false)
  }

  // -- the store against the list of everything committed -----------------------------------------

  type Log = log: seq<seq<Op>> | forall i :: 0 <= i < |log| ==> Accepted(log[i]) witness []

  function Replay(log: Log): Node {
    if log == [] then map[] else ServerApplyAll(Replay(log[..|log| - 1]), log[|log| - 1])
  }

  function PatchAt(log: Log, i: nat): Patch
    requires i < |log|
  {
    Patch(i + 1, log[i])
  }

  ghost predicate StoreOk(s: Store, log: Log) {
    && s.version == |log|
    && s.state == Replay(log)
    && |s.history| == Min(s.maxHistory, |log|)
    && forall i :: 0 <= i < |s.history| ==> s.history[i] == PatchAt(log, |log| - |s.history| + i)
  }

  lemma CommitKeeps(s: Store, log: Log, ops: seq<Op>)
    requires StoreOk(s, log) && Accepted(ops)
    ensures StoreOk(Commit(s, ops), log + [ops])
  {
    assert (log + [ops])[..|log|] == log;
  }

  lemma {:induction false} AboveOfRun(history: seq<Patch>, first: nat, version: int)
    requires forall i :: 0 <= i < |history| ==> history[i].version == first + i
    ensures Above(history, version) == history[Min(|history|, Max(0, version + 1 - first))..]
  {
    if history != [] {
      AboveOfRun(history[1..], first + 1, version);
    }
  }

  // The changes after a version, one by one.
  function PatchesFrom(log: Log, version: nat): (r: seq<Patch>)
    requires version <= |log|
    ensures |r| == |log| - version && forall i :: 0 <= i < |r| ==> r[i] == PatchAt(log, version + i)
  {
    seq(|log| - version, i requires 0 <= i < |log| - version => PatchAt(log, version + i))
  }

  // patches_since gives exactly the changes after a version, or nothing when the history no
  // longer reaches back to it.
  lemma PatchesSinceExact(s: Store, log: Log, version: int)
    requires StoreOk(s, log) && 0 <= version
    ensures PatchesSince(s, version).Some? <==> |log| - |s.history| <= version <= |log|
    ensures PatchesSince(s, version).Some? ==>
              PatchesSince(s, version).value == PatchesFrom(log, version)
  {
    if version < |log| && s.history != [] {
      AboveOfRun(s.history, |log| - |s.history| + 1, version);
    }
  }
}
