/** The state tree and its operations, on both sides of the wire. */
module Tree {
  import opened Common

  datatype Json =
    | Null
    | Bool(b: bool)
    | Number(n: real)
    | Text(s: string)
    | Array(items: seq<Json>)
    | Object(fields: map<string, Json>)

  type Node = map<string, Json>

  datatype Op = Set(path: seq<string>, value: Json) | Delete(path: seq<string>)

  // -- the server: StateStore._apply, for the non-empty paths it accepts -------------------

  function ServerApply(node: Node, op: Op): Node
    requires op.path != []
    decreases op.path
  {
    var key := op.path[0];
    if |op.path| == 1 then
      if op.Set? then node[key := op.value] else node - {key}
    else
      var rest := op.(path := op.path[1..]);
      if key in node && node[key].Object? then
        node[key := Object(ServerApply(node[key].fields, rest))]
      else if op.Delete? then node
      else node[key := Object(ServerApply(map[], rest))]
  }

  function ServerApplyAll(node: Node, ops: seq<Op>): Node
    requires forall op :: op in ops ==> op.path != []
    decreases ops
  {
    if ops == [] then node else ServerApplyAll(ServerApply(node, ops[0]), ops[1..])
  }

  // -- what an operation leaves in the tree ---------------------------------------------------

  // What the tree shows at a path.
  function Lookup(node: Node, path: seq<string>): Option<Json>
    requires path != []
    decreases path
  {
    if path[0] !in node then None
    else if |path| == 1 then Some(node[path[0]])
    else if node[path[0]].Object? then Lookup(node[path[0]].fields, path[1..])
    else None
  }

  // The value set, or nothing where it was deleted.
  lemma {:induction false} AppliedThere(node: Node, op: Op)
    requires op.path != []
    ensures Lookup(ServerApply(node, op), op.path) == if op.Set? then Some(op.value) else None
    decreases op.path
  {
    if |op.path| > 1 {
      var key, rest := op.path[0], op.(path := op.path[1..]);
      AppliedThere(if key in node && node[key].Object? then node[key].fields else map[], rest);
    }
  }

  // Nothing else: not at paths that neither lead to this one nor go on from it.
  lemma {:induction false} OtherPathsStay(node: Node, op: Op, path: seq<string>)
    requires op.path != [] && path != [] && !(path <= op.path) && !(op.path <= path)
    ensures Lookup(ServerApply(node, op), path) == Lookup(node, path)
    decreases op.path
  {
    var key := op.path[0];
    if path[0] == key {
      var below := if key in node && node[key].Object? then node[key].fields else map[];
      DivergeLater(path, op.path);
      OtherPathsStay(below, op.(path := op.path[1..]), path[1..]);
    }
  }

  lemma DivergeLater(a: seq<string>, b: seq<string>)
    requires a != [] && b != [] && a[0] == b[0] && !(a <= b) && !(b <= a)
    ensures !(a[1..] <= b[1..]) && !(b[1..] <= a[1..])
  {
    assert a == [a[0]] + a[1..] && b == [b[0]] + b[1..];
  }

  // -- the wire: PatchOp, whose value is null for a delete ------------------------------------

  datatype WireOp = WireOp(isSet: bool, path: seq<string>, value: Json)

  function ToWire(op: Op): WireOp {
    match op
    case Set(path, value) => WireOp(true, path, value)
    case Delete(path) => WireOp(false, path, Null)
  }

  function AllToWire(ops: seq<Op>): seq<WireOp> {
    seq(|ops|, i requires 0 <= i < |ops| => ToWire(ops[i]))
  }

  // -- the client: applyOp -----------------------------------------------------------------------

  // What `parents` leads to, with missing or plain nodes on the way created; None when a
  // delete stops there.
  function Descend(node: Node, parents: seq<string>, create: bool): Option<Node>
    decreases parents
  {
    if parents == [] then Some(node)
    else if parents[0] in node && node[parents[0]].Object? then Descend(node[parents[0]].fields, parents[1..], create)
    else if create then Some(map[])
    else None
  }

  // The tree with the node at `parents` replaced.
  function Graft(node: Node, parents: seq<string>, child: Node): Node
    decreases parents
  {
    if parents == [] then child
    else
      var below := if parents[0] in node && node[parents[0]].Object? then node[parents[0]].fields else map[];
      node[parents[0] := Object(Graft(below, parents[1..], child))]
  }

  function ClientApply(root: Node, op: WireOp): Node {
    if op.path == [] then root
    else
      var parents := op.path[..|op.path| - 1];
      var last := op.path[|op.path| - 1];
      match Descend(root, parents, op.isSet)
      case None => root
      case Some(node) => Graft(root, parents, if op.isSet then node[last := op.value] else node - {last})
  }

  function ClientApplyAll(root: Node, ops: seq<WireOp>): Node
    decreases ops
  {
    if ops == [] then root else ClientApplyAll(ClientApply(root, ops[0]), ops[1..])
  }

  // An operation the server made does to the client's tree what it did to the server's.
  lemma {:induction false} SameEffect(node: Node, op: Op)
    requires op.path != []
    ensures ClientApply(node, ToWire(op)) == ServerApply(node, op)
    decreases op.path
  {
    if |op.path| > 1 {
      var rest := op.(path := op.path[1..]);
      var parents := op.path[..|op.path| - 1];
      InitOfTail(op.path);
      var key := op.path[0];
      if key in node && node[key].Object? {
        SameEffect(node[key].fields, rest);
        assert node[key := Object(node[key].fields)] == node;
      } else if op.Set? {
        SameEffect(map[], rest);
      }
    }
  }

  lemma {:induction false} SameEffects(node: Node, ops: seq<Op>)
    requires forall op :: op in ops ==> op.path != []
    ensures ClientApplyAll(node, AllToWire(ops)) == ServerApplyAll(node, ops)
    decreases ops
  {
    if ops != [] {
      SameEffect(node, ops[0]);
      SameEffects(ServerApply(node, ops[0]), ops[1..]);
      assert AllToWire(ops)[1..] == AllToWire(ops[1..]);
    }
  }
}
