/** The objects behind Stores.dfy: the store and its subscriptions, the server's sender and
    the client's mirror, whose methods update their fields in place.

    Each method is proved equal to its function there, so that Replication.dfy speaks of
    them. */
module StateStores {
  import opened Common
  import opened Tree
  import Spec = Stores

  class Subscription {
    const maxSize: nat
    var queue: seq<Spec.Item>

    constructor (maxSize: nat)
      ensures queue == [] && this.maxSize == maxSize
    {
      this.maxSize := maxSize;
      queue := [];
    }

    method Offer(patch: Spec.Patch)
      modifies this
      ensures queue == Spec.Offer(old(queue), maxSize, patch)
    {
      if maxSize > 0 && |queue| >= maxSize {
        while queue != []
          decreases |queue|
        {
          queue := queue[1..];
        }
        queue := [Spec.Resync];
      } else {
        queue := queue + [Spec.Change(patch)];
      }
    }
  }

  lemma {:induction false} ApplyAllAppend(node: Node, ops: seq<Op>, op: Op)
    requires Spec.Accepted(ops) && op.path != []
    ensures Spec.Accepted(ops + [op])
    ensures ServerApplyAll(node, ops + [op]) == ServerApply(ServerApplyAll(node, ops), op)
    decreases ops
  {
    if ops == [] {
      assert ([] + [op])[1..] == [];
    } else {
      assert (ops + [op])[1..] == ops[1..] + [op];
      ApplyAllAppend(ServerApply(node, ops[0]), ops[1..], op);
    }
  }

  lemma AboveStep(history: seq<Spec.Patch>, i: nat, since: int, found: seq<Spec.Patch>)
    requires i < |history|
    ensures found + Spec.Above(history[i..], since)
         == (if history[i].version > since then found + [history[i]] else found) + Spec.Above(history[i + 1..], since)
  {
    DropDrop(history, i, 1);
    Associative(found, if history[i].version > since then [history[i]] else [], Spec.Above(history[i + 1..], since));
  }

  class StateStore {
    const epoch: string
    const maxHistory: nat
    var state: Node
    var version: nat
    var history: seq<Spec.Patch>
    var subscribers: set<Subscription>
    var pending: Option<seq<Op>>
    ghost var committed: Node  // the tree as of `version`

    // What clients may see: the tree of the last version.
    ghost function Model(): Spec.Store
      reads this
    {
      Spec.Store(epoch, committed, version, history, maxHistory)
    }

    ghost predicate Valid()
      reads this
    {
      match pending
      case None => state == committed
      case Some(ops) => Spec.Accepted(ops) && state == ServerApplyAll(committed, ops)
    }

    constructor (epoch: string, maxHistory: nat)
      ensures Valid() && pending == None && subscribers == {}
      ensures Model() == Spec.Store(epoch, map[], 0, [], maxHistory)
    {
      this.epoch, this.maxHistory := epoch, maxHistory;
      state, version, history, committed := map[], 0, [], map[];
      subscribers, pending := {}, None;
    }

    // Everything that happened to the tree since the last version becomes one version.
    method Commit(ops: seq<Op>)
      requires Spec.Accepted(ops) && state == ServerApplyAll(committed, ops) && pending == None
      modifies this, subscribers
      ensures Valid() && pending == None && subscribers == old(subscribers)
      ensures Model() == Spec.Commit(old(Model()), ops)
      ensures forall s :: s in subscribers ==>
                s.queue == Spec.Offer(old(s.queue), s.maxSize, Spec.Patch(old(version) + 1, ops))
    {
      version := version + 1;
      var patch := Spec.Patch(version, ops);
      history := Spec.LastOf(history + [patch], maxHistory);
      committed := state;
      var rest := subscribers;
      while rest != {}
        invariant rest <= subscribers
        invariant unchanged(this) || (subscribers == old(subscribers) && version == old(version) + 1)
        invariant Model() == Spec.Commit(old(Model()), ops) && subscribers == old(subscribers) && pending == None && state == committed
        invariant forall s :: s in rest ==> s.queue == old(s.queue)
        invariant forall s :: s in subscribers - rest ==> s.queue == Spec.Offer(old(s.queue), s.maxSize, patch)
        decreases |rest|
      {
        var s :| s in rest;
        s.Offer(patch);
        rest := rest - {s};
      }
    }

    // False: an empty path is refused (ValueError) and changes nothing.
    method Record(op: Op) returns (accepted: bool)
      requires Valid()
      modifies this, subscribers
      ensures Valid() && subscribers == old(subscribers) && accepted == (op.path != [])
      ensures !accepted ==> unchanged(this) && forall s :: s in subscribers ==> unchanged(s)
      ensures accepted && old(pending).Some? ==>
                && Model() == old(Model()) && pending == Some(old(pending).value + [op])
                && forall s :: s in subscribers ==> unchanged(s)
      ensures accepted && old(pending) == None ==>
                && pending == None && Model() == Spec.Commit(old(Model()), [op])
                && forall s :: s in subscribers ==>
                     s.queue == Spec.Offer(old(s.queue), s.maxSize, Spec.Patch(old(version) + 1, [op]))
    {
      if op.path == [] {
        return false;
      }
      accepted := true;
      state := ServerApply(state, op);
      if pending.Some? {
        ApplyAllAppend(committed, pending.value, op);
        pending := Some(pending.value + [op]);
      } else {
        assert [op][1..] == [];
        assert ServerApplyAll(committed, [op]) == ServerApplyAll(ServerApply(committed, op), []);
        Commit([op]);
      }
    }

    // Whether this call opened a transaction: an inner one does nothing of its own.
    method Enter() returns (outer: bool)
      requires Valid()
      modifies this`pending
      ensures Valid() && Model() == old(Model()) && outer == (old(pending) == None)
      ensures pending == if outer then Some([]) else old(pending)
    {
      outer := pending == None;
      if outer {
        pending := Some([]);
      }
    }

    // Leaving a transaction commits all its changes as a single version, if there are any.
    method Leave(outer: bool)
      requires Valid() && (outer ==> pending.Some?)
      modifies this, subscribers
      ensures Valid() && subscribers == old(subscribers)
      ensures pending == if outer then None else old(pending)
      ensures Model() == if outer && old(pending).value != [] then Spec.Commit(old(Model()), old(pending).value) else old(Model())
      ensures forall s :: s in subscribers ==>
                s.queue == if outer && old(pending).value != []
                           then Spec.Offer(old(s.queue), s.maxSize, Spec.Patch(old(version) + 1, old(pending).value))
                           else old(s.queue)
    {
      if !outer {
        return;
      }
      var ops := pending.value;
      pending := None;
      if ops != [] {
        Commit(ops);
      }
    }

    method Subscribe(maxSize: nat) returns (s: Subscription)
      requires Valid()
      modifies this`subscribers
      ensures Valid() && Model() == old(Model()) && pending == old(pending)
      ensures fresh(s) && s.queue == [] && s.maxSize == maxSize && subscribers == old(subscribers) + {s}
    {
      s := new Subscription(maxSize);
      subscribers := subscribers + {s};
    }

    method PatchesSince(since: int) returns (missed: Option<seq<Spec.Patch>>)
      ensures missed == Spec.PatchesSince(Model(), since)
    {
      if since == version {
        return Some([]);
      }
      if since > version || history == [] {
        return None;
      }
      if history[0].version > since + 1 {
        return None;
      }
      var found: seq<Spec.Patch> := [];
      for i := 0 to |history|
        invariant found + Spec.Above(history[i..], since) == Spec.Above(history, since)
      {
        AboveStep(history, i, since, found);
        if history[i].version > since {
          found := found + [history[i]];
        }
      }
      assert history[|history|..] == [] && found + [] == found;
      return Some(found);
    }
  }

  // The sender of one connection; `wire` is everything it sent.
  class Sender {
    const store: StateStore
    const subscription: Subscription
    const since: Option<int>
    var started: bool
    var last: int
    var missed: seq<Spec.Patch>
    var wire: seq<Spec.Message>

    ghost function Model(): Spec.Stream
      reads this, subscription
    {
      Spec.Stream(since, started, last, missed, subscription.queue)
    }

    constructor (store: StateStore, subscription: Subscription, since: Option<int>)
      ensures this.store == store && this.subscription == subscription && this.since == since
      ensures Model() == Spec.Stream(since, false, 0, [], subscription.queue) && wire == []
    {
      this.store, this.subscription, this.since := store, subscription, since;
      started, last, missed, wire := false, 0, [], [];
    }

    method Begin()
      requires store.Valid() && store.pending == None
      modifies this
      ensures (Model(), wire) == (Spec.Begin(old(Model()), old(store.Model())).0,
                                  old(wire) + Spec.Begin(old(Model()), old(store.Model())).1)
    {
      var found: Option<seq<Spec.Patch>> := None;
      if since.Some? {
        found := store.PatchesSince(since.value);
      }
      started := true;
      if found == None {
        last, missed := store.version, [];
        wire := wire + [Spec.Snapshot(store.epoch, last, store.state)];
      } else {
        last, missed := since.value, found.value;
        assert wire + [] == wire;
      }
    }

    method SendMissed()
      requires missed != []
      modifies this
      ensures (Model(), wire) == (Spec.SendMissed(old(Model())).0, old(wire) + Spec.SendMissed(old(Model())).1)
    {
      wire := wire + [Spec.MessageOf(missed[0])];
      last := missed[0].version;
      missed := missed[1..];
    }

    method Take()
      requires store.Valid() && store.pending == None && subscription.queue != []
      modifies this, subscription
      ensures (Model(), wire) == (Spec.TakeItem(old(Model()), old(store.Model())).0,
                                  old(wire) + Spec.TakeItem(old(Model()), old(store.Model())).1)
    {
      var item := subscription.queue[0];
      subscription.queue := subscription.queue[1..];
      match item {
        case Resync =>
          last := store.version;
          wire := wire + [Spec.Snapshot(store.epoch, last, store.state)];
        case Change(patch) =>
          if patch.version > last {
            wire := wire + [Spec.MessageOf(patch)];
            last := patch.version;
          } else {
            assert wire + [] == wire;
          }
      }
    }
  }

  class Live {
    var state: Node
    var version: int
    var epoch: Option<string>
    var synced: bool
    var connected: bool

    ghost function Model(): Spec.Client
      reads this
    {
      Spec.Client(state, version, epoch)
    }

    constructor ()
      ensures Model() == Spec.Client(map[], 0, None) && !connected
    {
      state, version, epoch, synced, connected := map[], 0, None, false, false;
    }

    method Hello() returns (epoch: Option<string>, since: int)
      modifies this`connected
      ensures connected && (epoch, since) == (this.epoch, version)
    {
      connected := true;
      return this.epoch, version;
    }

    method Handle(message: Spec.Message)
      modifies this
      ensures Model() == Spec.Handle(old(Model()), message).0
      ensures connected == (old(connected) && !Spec.Handle(old(Model()), message).1)
    {
      match message {
        case Snapshot(e, _, tree) =>
          state, epoch, synced := tree, Some(e), true;
        case Changes(v, ops) =>
          if v != version + 1 {
            connected := false;
            return;
          }
          for i := 0 to |ops|
            invariant version == old(version) && epoch == old(epoch) && connected == old(connected)
            invariant ClientApplyAll(state, ops[i..]) == ClientApplyAll(old(state), ops)
          {
            assert ops[i..][1..] == ops[i + 1..];
            state := ClientApply(state, ops[i]);
          }
      }
      version := message.version;
    }
  }
}
