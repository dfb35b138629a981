/** sdks/express-middleware/index.js: deletion in place on a cloned tree of mutable objects. */
module ExpressMiddleware {
  import opened DottedPaths
  import opened Json
  import opened Options
  import opened Pruning
  import RO = ResponseOptimizer

  /** A JavaScript value: a scalar, or a reference to an object or array. */
  datatype Val = Prim(scalar: Json) | Ref(node: Node)

  /** A mutable object (`props`) or array (`elems`).  The ghost fields give the nodes below it and the
      document it denotes. */
  class Node {
    const isArray: bool
    var elems: seq<Val>
    var props: map<string, Val>
    ghost const repr: set<Node>
    ghost var value: Json

    constructor (isArray: bool, elems: seq<Val>, props: map<string, Val>, ghost below: set<Node>, ghost value: Json)
      ensures this.isArray == isArray && this.elems == elems && this.props == props
      ensures this.repr == below + {this} && this.value == value
    {
      this.isArray := isArray;
      this.elems := elems;
      this.props := props;
      this.repr := below + {this};
      this.value := value;
    }

    /** `v` is a scalar or a node strictly below this one. */
    ghost predicate Below(v: Val) {
      match v
      case Prim(s) => s.Scalar()
      case Ref(n) => n in n.repr && n.repr <= repr - {this}
    }

    /** Children are below this node, and no two of them share a node. */
    ghost predicate Linked()
      reads this
    {
      && this in repr
      && (isArray ==>
            && (forall i | 0 <= i < |elems| :: Below(elems[i]))
            && (forall i, j | 0 <= i < j < |elems| :: Nodes(elems[i]) !! Nodes(elems[j])))
      && (!isArray ==>
            && (forall k | k in props :: Below(props[k]))
            && (forall k, l | k in props && l in props && k != l :: Nodes(props[k]) !! Nodes(props[l])))
    }

    /** The children are themselves trees. */
    ghost predicate ChildrenValid()
      requires Linked()
      reads this, repr
      decreases repr, 0
    {
      && (isArray ==> forall i | 0 <= i < |elems| && elems[i].Ref? :: elems[i].node.Valid())
      && (!isArray ==> forall k | k in props && props[k].Ref? :: props[k].node.Valid())
    }

    /** `value` is the document the children denote. */
    ghost predicate Denotes()
      requires Linked()
      reads this, repr
    {
      && (isArray ==>
            && value.Arr? && |value.items| == |elems|
            && forall i | 0 <= i < |elems| :: value.items[i] == ValueOf(elems[i]))
      && (!isArray ==>
            && value.Obj? && value.fields.Keys == props.Keys
            && forall k | k in props :: value.fields[k] == ValueOf(props[k]))
    }

    ghost predicate Valid()
      reads this, repr
      decreases repr, 1
    {
      Linked() && ChildrenValid() && Denotes()
    }
  }

  ghost function Nodes(v: Val): set<Node> {
    if v.Ref? then v.node.repr else {}
  }

  ghost function ValueOf(v: Val): Json
    reads if v.Ref? then {v.node} else {}
  {
    if v.Ref? then v.node.value else v.scalar
  }

  /** `v` is a tree: acyclic and without sharing. */
  ghost predicate Tree(v: Val)
    reads if v.Ref? then {v.node} else {}, Nodes(v)
  {
    if v.Ref? then v.node.Valid() else v.scalar.Scalar()
  }

  // ---- Paths ----

  predicate Reserved(key: string) {
    key in {"__proto__", "prototype", "constructor"}
  }

  /** The paths one dotted field deletes: none when a segment is reserved. */
  function JsPath(field: string): (paths: Paths)
    ensures [] !in paths
  {
    if exists k | k in Split(field) :: Reserved(k) then {} else {Split(field)}
  }

  function JsPaths(fields: seq<string>): (paths: Paths)
    ensures [] !in paths
  {
    if fields == [] then {} else JsPath(fields[0]) + JsPaths(fields[1..])
  }

  // ---- Deletion in place ----

  /** `deleteNestedPath`: afterwards the tree denotes the pruned document. */
  method DeleteNestedPath(v: Val, path: string)
    requires Tree(v)
    modifies Nodes(v)
    ensures Tree(v) && ValueOf(v) == Prune(old(ValueOf(v)), JsPath(path))
    decreases |Split(path)|, Nodes(v), 1
  {
    if v.Prim? { return; }
    var keys := Split(path);
    if exists k | k in keys :: Reserved(k) {
      RO.PruneNothing(ValueOf(v));
      return;
    }
    if v.node.isArray {
      DeleteFromItems(v.node, path);
    } else {
      DeleteFromObject(v.node, keys);
    }
  }

  /** The array branch: every item in turn. */
  method DeleteFromItems(obj: Node, path: string)
    requires obj.Valid() && obj.isArray
    modifies obj.repr
    ensures obj.Valid() && obj.value == Prune(old(obj.value), JsPath(path))
    decreases |Split(path)|, obj.repr, 0
  {
    for i := 0 to |obj.elems|
      invariant obj.elems == old(obj.elems) && obj.value == old(obj.value)
      invariant obj.Linked() && obj.ChildrenValid()
      invariant forall j | 0 <= j < i :: ValueOf(obj.elems[j]) == Prune(obj.value.items[j], JsPath(path))
      invariant forall j | i <= j < |obj.elems| :: ValueOf(obj.elems[j]) == obj.value.items[j]
    {
      assert obj.Below(obj.elems[i]);
      var here := obj.elems[i];
      label before:
      DeleteNestedPath(here, path);
      forall j | 0 <= j < |obj.elems| && j != i
        ensures Nodes(obj.elems[j]) !! Nodes(here)
        ensures ValueOf(obj.elems[j]) == old@before(ValueOf(obj.elems[j])) && Tree(obj.elems[j])
      {
        assert obj.Below(obj.elems[j]);
      }
    }
    obj.value := Prune(obj.value, JsPath(path));
  }

  /** The object branch: one own property. */
  method DeleteFromObject(obj: Node, keys: seq<string>)
    requires obj.Valid() && !obj.isArray
    requires keys != [] && forall k | k in keys :: '.' !in k && !Reserved(k)
    modifies obj.repr
    ensures obj.Valid() && obj.value == Prune(old(obj.value), {keys})
    decreases |keys|, obj.repr, 0
  {
    var head, tail := keys[0], keys[1..];
    ghost var fields := obj.value.fields;
    assert Prune(obj.value, {keys}) == Obj(RO.RemovePath(fields, keys)) by { RO.PruneOnePath(fields, keys); }
    if head !in obj.props { return; }
    if tail != [] {
      DeleteFromProperty(obj, head, tail);
    } else {
      DeleteProperty(obj, head);
    }
  }

  method DeleteProperty(obj: Node, head: string)
    requires obj.Valid() && !obj.isArray
    modifies obj
    ensures obj.Valid() && obj.value == Obj(old(obj.value).fields - {head})
  {
    obj.props := obj.props - {head};
    obj.value := Obj(obj.value.fields - {head});
    assert forall k | k in obj.props :: obj.Below(obj.props[k]);
  }

  method DeleteFromProperty(obj: Node, head: string, tail: seq<string>)
    requires obj.Valid() && !obj.isArray && head in obj.props
    requires tail != [] && forall k | k in tail :: '.' !in k && !Reserved(k)
    modifies obj.repr
    ensures obj.Valid()
    ensures var fields := old(obj.value).fields;
            obj.value == Obj(fields[head := Prune(fields[head], {tail})])
    decreases |tail|, obj.repr, 3
  {
    var here := obj.props[head];
    ghost var fields := obj.value.fields;
    assert obj.Below(here);
    obj.value := Obj(fields[head := Prune(fields[head], {tail})]);
    DeleteKeys(here, tail);
    forall k | k in obj.props && k != head
      ensures ValueOf(obj.props[k]) == fields[k] && Tree(obj.props[k])
    {
      assert obj.Below(obj.props[k]) && Nodes(obj.props[k]) !! Nodes(here);
    }
  }

  /** Joining the remaining segments and splitting them again changes nothing. */
  method DeleteKeys(v: Val, keys: seq<string>)
    requires Tree(v) && keys != [] && forall k | k in keys :: '.' !in k && !Reserved(k)
    modifies Nodes(v)
    ensures Tree(v) && ValueOf(v) == Prune(old(ValueOf(v)), {keys})
    decreases |keys|, Nodes(v), 2
  {
    SplitJoin(keys);
    DeleteNestedPath(v, Join(keys));
  }

  // ---- The cloned payload ----

  /** The second half of the clone: a fresh tree for a parsed document. */
  method Parse(doc: Json) returns (v: Val)
    ensures Tree(v) && ValueOf(v) == doc && fresh(Nodes(v))
    decreases doc, 1
  {
    match doc
    case Arr(items) => v := ParseArray(items, doc);
    case Obj(m) => v := ParseObject(m, doc);
    case _ => v := Prim(doc);
  }

  method ParseArray(items: seq<Json>, ghost doc: Json) returns (v: Val)
    requires doc == Arr(items)
    ensures Tree(v) && ValueOf(v) == doc && fresh(Nodes(v))
    decreases doc, 0
  {
    var elems: seq<Val> := [];
    ghost var below: set<Node> := {};
    for i := 0 to |items|
      invariant |elems| == i && fresh(below)
      invariant forall j | 0 <= j < i :: Tree(elems[j]) && Nodes(elems[j]) <= below
      invariant forall j | 0 <= j < i :: ValueOf(elems[j]) == items[j]
      invariant forall j, k | 0 <= j < k < i :: Nodes(elems[j]) !! Nodes(elems[k])
    {
      var child := Parse(items[i]);
      elems := elems + [child];
      below := below + Nodes(child);
    }
    var node := new Node(true, elems, map[], below, doc);
    v := Ref(node);
  }

  method ParseObject(m: map<string, Json>, ghost doc: Json) returns (v: Val)
    requires doc == Obj(m)
    ensures Tree(v) && ValueOf(v) == doc && fresh(Nodes(v))
    decreases doc, 0
  {
    var props: map<string, Val> := map[];
    ghost var below: set<Node> := {};
    var todo := m.Keys;
    while todo != {}
      invariant fresh(below) && todo <= m.Keys && props.Keys == m.Keys - todo
      invariant forall k | k in props :: Tree(props[k]) && Nodes(props[k]) <= below
      invariant forall k | k in props :: ValueOf(props[k]) == m[k]
      invariant forall k, l | k in props && l in props && k != l :: Nodes(props[k]) !! Nodes(props[l])
      decreases todo
    {
      var k :| k in todo;
      todo := todo - {k};
      var child := Parse(m[k]);
      props := props[k := child];
      below := below + Nodes(child);
    }
    var node := new Node(false, [], props, below, doc);
    v := Ref(node);
  }

  /** `fields.forEach(field => deleteNestedPath(v, field))`. */
  method DeleteAll(v: Val, fields: seq<string>)
    requires Tree(v)
    modifies Nodes(v)
    ensures Tree(v) && ValueOf(v) == Prune(old(ValueOf(v)), JsPaths(fields))
  {
    RO.PruneNothing(ValueOf(v));
    assert JsPaths(fields[..0]) == {};
    hide Prune, JsPaths, JsPath;
    for n := 0 to |fields|
      invariant Tree(v) && ValueOf(v) == Prune(old(ValueOf(v)), JsPaths(fields[..n]))
    {
      DeleteNestedPath(v, fields[n]);
      PruneCompose(old(ValueOf(v)), JsPaths(fields[..n]), JsPath(fields[n]));
      assert fields[..n + 1] == fields[..n] + [fields[n]];
      JsPathsAppend(fields[..n], fields[n]);
    }
    assert fields[..|fields|] == fields;
  }

  lemma {:induction false} JsPathsAppend(fields: seq<string>, field: string)
    ensures JsPaths(fields + [field]) == JsPaths(fields) + JsPath(field)
  {
    if fields != [] {
      assert (fields + [field])[1..] == fields[1..] + [field];
      JsPathsAppend(fields[1..], field);
    }
  }

  /** `stripPayload`.  `text` is what serialising the payload and parsing it back gives: nothing when
      serialising throws, and for a tree the document the tree denotes.  Nothing that existed before the
      call is modified, so the original payload is left as it was.  With portable fields the returned value
      is what the Python stripper makes of the payload. */
  method StripPayload(payload: Val, text: Option<Json>, fields: seq<string>) returns (r: Val)
    requires Tree(payload) ==> text == Some(ValueOf(payload))
    ensures text.None? ==> r == payload
    ensures text.Some? ==> Tree(r) && fresh(Nodes(r)) && ValueOf(r) == Prune(text.value, JsPaths(fields))
    ensures Tree(payload) ==> ValueOf(r) == Prune(ValueOf(payload), JsPaths(fields))
    ensures Tree(payload) && (forall f | f in fields :: Portable(f)) ==>
              ValueOf(r) == Prune(ValueOf(payload), RO.FieldPaths(fields))
  {
    if forall f | f in fields :: Portable(f) { PortableFieldsAgree(fields); }
    hide Portable, JsPaths, RO.FieldPaths, Prune;
    if text.None? { return payload; }
    r := Parse(text.value);
    if r.Ref? && r.node.isArray {
      DeleteAllFromItems(r.node, fields);
    } else {
      DeleteAll(r, fields);
    }
  }

  method DeleteAllFromItems(obj: Node, fields: seq<string>)
    requires obj.Valid() && obj.isArray
    modifies obj.repr
    ensures obj.Valid() && obj.value == Prune(old(obj.value), JsPaths(fields))
  {
    for i := 0 to |obj.elems|
      invariant obj.elems == old(obj.elems) && obj.value == old(obj.value)
      invariant obj.Linked() && obj.ChildrenValid()
      invariant forall j | 0 <= j < i :: ValueOf(obj.elems[j]) == Prune(obj.value.items[j], JsPaths(fields))
      invariant forall j | i <= j < |obj.elems| :: ValueOf(obj.elems[j]) == obj.value.items[j]
    {
      assert obj.Below(obj.elems[i]);
      var here := obj.elems[i];
      label before:
      DeleteAll(here, fields);
      forall j | 0 <= j < |obj.elems| && j != i
        ensures Nodes(obj.elems[j]) !! Nodes(here)
        ensures ValueOf(obj.elems[j]) == old@before(ValueOf(obj.elems[j])) && Tree(obj.elems[j])
      {
        assert obj.Below(obj.elems[j]);
      }
    }
    obj.value := Prune(obj.value, JsPaths(fields));
  }

  // ---- Agreement with the Python stripper ----

  predicate EndsWithDot(field: string) {
    field != "" && field[|field| - 1] == '.'
  }

  /** Both implementations may be given this field and delete the same thing. */
  predicate Portable(field: string) {
    !EndsWithDot(field) && forall k | k in Split(field) :: !Reserved(k)
  }

  /** The two ways of cutting a field differ in one case only: a trailing dot is one more, empty,
      segment for `split` and nothing for repeated `partition`. */
  lemma {:induction false} SplitVersusPartition(field: string)
    ensures Split(field) == if EndsWithDot(field) then RO.Keys(field) + [""] else RO.Keys(field)
    decreases |field|
  {
    var (head, tail) := RO.Partition(field);
    if field == head && tail == "" {
      SplitPlain(head);
      assert forall i | 0 <= i < |field| :: field[i] in head;
    } else {
      assert field == head + "." + tail;
      SplitPrefix(head, tail);
      if tail == "" {
        assert Split(tail) == [""];
      } else {
        SplitVersusPartition(tail);
        assert tail[|tail| - 1] == field[|field| - 1];
      }
    }
  }

  /** On portable fields the in-place deletion refines the pure stripper. */
  lemma {:induction false} PortableFieldsAgree(fields: seq<string>)
    requires forall f | f in fields :: Portable(f)
    ensures JsPaths(fields) == RO.FieldPaths(fields)
  {
    if fields != [] {
      PortableFieldsAgree(fields[1..]);
      assert Portable(fields[0]);
      SplitVersusPartition(fields[0]);
      assert fields == [fields[0]] + fields[1..];
      assert RO.FieldPaths(fields) == {RO.Keys(fields[0])} + RO.FieldPaths(fields[1..]);
    }
  }

  /** A chain of objects along the given keys. */
  function Chain(keys: seq<string>): Json {
    if keys == [] then Null else Obj(map[keys[0] := Chain(keys[1..])])
  }

  lemma {:induction false} ChainCut(keys: seq<string>)
    requires keys != []
    ensures Prune(Chain(keys), {keys}) != Chain(keys)
  {
    var m := Chain(keys).fields;
    RO.PruneOnePath(m, keys);
    if |keys| > 1 {
      ChainCut(keys[1..]);
      assert RO.RemovePath(m, keys)[keys[0]] != m[keys[0]];
    } else {
      assert keys[0] !in RO.RemovePath(m, keys);
    }
  }

  lemma {:induction false} ChainKept(keys: seq<string>)
    ensures Prune(Chain(keys), {keys + [""]}) == Chain(keys)
  {
    if keys != [] {
      var m, q := Chain(keys).fields, keys + [""];
      RO.PruneOnePath(m, q);
      assert q[1..] == keys[1..] + [""];
      ChainKept(keys[1..]);
    }
  }

  /** Exactly when the two implementations delete the same from every document: the field must not
      end with a dot and must have no reserved segment. */
  lemma SameDeletionIffPortable(field: string)
    ensures (forall doc :: Prune(doc, JsPath(field)) == Prune(doc, RO.FieldPaths([field]))) <==> Portable(field)
    ensures Portable(field) <==>
            && (field == "" || field[|field| - 1] != '.')
            && forall k | k in Split(field) :: k !in {"__proto__", "prototype", "constructor"}
  {
    RO.OneFieldPath(field);
    SplitVersusPartition(field);
    if !Portable(field) {
      var keys := RO.Keys(field);
      var doc := Chain(keys);
      ChainCut(keys);
      if JsPath(field) == {} {
        RO.PruneNothing(doc);
      } else {
        ChainKept(keys);
      }
      assert Prune(doc, JsPath(field)) != Prune(doc, RO.FieldPaths([field]));
    }
  }
}
