/**
 * `Data.Graph`: a schema of types and properties, and the object and literal
 * nodes of a document, all kept in one node arena. Two indices make
 * identity explicit: `objects` maps an object id to its one node, and
 * `literals` maps a (type, property, value) triple to its one interned leaf.
 */
module SchemaGraph {
  import opened OrderedMaps
  import opened SortedHashes
  import opened Nodes

  // ---------------------------------------------------------------------------
  // The schema
  // ---------------------------------------------------------------------------

  /** A property expects either a literal of some kind ("string", "number", ...) or an object of a type. */
  datatype Expected = LiteralKind(kind: string) | ObjectKind(typeId: string)

  datatype PropertyDecl = PropertyDecl(name: string, unique: bool, expected: Expected)

  datatype TypeDecl = TypeDecl(name: string, properties: OMap<string, PropertyDecl>)

  /** The `types` partition: type id to its declaration, in declaration order. */
  type Schema = OMap<string, TypeDecl>

  /** The declaration of property `p` of type `t`, if there is one. */
  function Declared(schema: Schema, t: string, p: string): (r: Option<PropertyDecl>)
    ensures r.Some? <==> t in schema.data && p in schema.data[t].properties.data
  {
    if t in schema.data then schema.data[t].properties.Get(p) else None
  }

  /** The four access scenarios, by cardinality and expected kind. */
  datatype PropertyKind = UniqueValue | MultiValue | UniqueObject | MultiObject

  function KindOf(d: PropertyDecl): (k: PropertyKind)
    ensures k.UniqueValue? || k.UniqueObject? <==> d.unique
    ensures k.UniqueValue? || k.MultiValue? <==> d.expected.LiteralKind?
  {
    if d.unique then
      if d.expected.LiteralKind? then UniqueValue else UniqueObject
    else
      if d.expected.LiteralKind? then MultiValue else MultiObject
  }

  // ---------------------------------------------------------------------------
  // The node store and its canonical form
  // ---------------------------------------------------------------------------

  /** The interning key of a literal leaf. */
  datatype LiteralKey = LiteralKey(typeId: string, property: string, value: Prim)

  /**
   * A snapshot of a graph: the arena, the two identity indices, and for each
   * object node its `key` (the object id) and its type.
   */
  datatype Store = Store(
    nodes: seq<NodeRec>,
    objects: OMap<string, NodeId>,
    literals: map<LiteralKey, NodeId>,
    keyOf: map<NodeId, string>,
    typeOf: map<NodeId, string>)

  /** Every object id names one node of the arena, whose `key` is that id. */
  ghost predicate ObjectsCanonical(st: Store) {
    && st.objects.Valid()
    && forall o :: o in st.objects.data ==>
         st.objects.data[o] < |st.nodes| && st.objects.data[o] in st.keyOf && st.keyOf[st.objects.data[o]] == o
  }

  /** Every interned leaf is a node of the arena whose payload is the literal it was interned for. */
  ghost predicate LiteralsCanonical(st: Store) {
    forall lk :: lk in st.literals ==> st.literals[lk] < |st.nodes| && st.nodes[st.literals[lk]].val == lk.value
  }

  /** Every object node's type is declared. */
  ghost predicate TypesCanonical(schema: Schema, st: Store) {
    forall a :: a in st.typeOf ==> a < |st.nodes| && st.typeOf[a] in schema.data
  }

  /**
   * The targets of an edge list of a property of type `t`: a literal-kind
   * property keys each edge by its literal and targets the interned leaf;
   * an object-kind property keys each edge by the object id and targets
   * that object's node.
   */
  ghost predicate TargetsCanonical(objects: OMap<string, NodeId>, literals: map<LiteralKey, NodeId>,
                                   t: string, p: string, e: Expected, es: OMap<Prim, NodeId>) {
    match e
    case LiteralKind(_) =>
      forall k :: k in es.data ==> LiteralKey(t, p, k) in literals && literals[LiteralKey(t, p, k)] == es.data[k]
    case ObjectKind(_) =>
      forall k :: k in es.data ==> k.Str? && objects.Get(k.s) == Some(es.data[k])
  }

  /** Only typed nodes carry edges, only for declared properties, and with canonical targets. */
  ghost predicate EdgesCanonical(schema: Schema, st: Store, a: NodeId, p: string)
    requires a < |st.nodes| && p in st.nodes[a].edges
  {
    && a in st.typeOf
    && Declared(schema, st.typeOf[a], p).Some?
    && TargetsCanonical(st.objects, st.literals, st.typeOf[a], p,
                        Declared(schema, st.typeOf[a], p).value.expected, st.nodes[a].edges[p])
  }

  /** The invariant every graph keeps: reference canonicalization and literal identity. */
  ghost predicate Canonical(schema: Schema, st: Store) {
    && Closed(st.nodes)
    && ObjectsCanonical(st)
    && LiteralsCanonical(st)
    && TypesCanonical(schema, st)
    && AllEdgesCanonical(schema, st)
  }

  ghost predicate AllEdgesCanonical(schema: Schema, st: Store) {
    forall a, p :: 0 <= a < |st.nodes| && p in st.nodes[a].edges ==> EdgesCanonical(schema, st, a, p)
  }

  /** `later` adds to `st` and changes nothing it had: no payload, no index entry, no type. */
  ghost predicate Extends(later: Store, st: Store) {
    && |st.nodes| <= |later.nodes|
    && (forall a :: 0 <= a < |st.nodes| ==> later.nodes[a].val == st.nodes[a].val)
    && (forall o :: o in st.objects.data ==> later.objects.Get(o) == Some(st.objects.data[o]))
    && (forall lk :: lk in st.literals ==> lk in later.literals && later.literals[lk] == st.literals[lk])
    && (forall a :: a in st.typeOf ==> a in later.typeOf && later.typeOf[a] == st.typeOf[a])
  }

  /** Object `id` is known, and its node has type `t`. */
  ghost predicate DeclaredAs(st: Store, id: string, t: string) {
    id in st.objects.data && st.objects.data[id] in st.typeOf && st.typeOf[st.objects.data[id]] == t
  }

  lemma DeclaredAsKept(st: Store, later: Store, id: string, t: string)
    requires Extends(later, st) && DeclaredAs(st, id, t)
    ensures DeclaredAs(later, id, t)
  {
    assert later.objects.Get(id) == Some(st.objects.data[id]);
  }

  lemma ExtendsTransitive(s1: Store, s2: Store, s3: Store)
    requires Extends(s2, s1) && Extends(s3, s2)
    ensures Extends(s3, s1)
  {
  }

  /** An edge list that did not change stays canonical in a store that extends the old one. */
  lemma ExtendsKeepsEdges(schema: Schema, st: Store, later: Store, a: NodeId, p: string)
    requires a < |st.nodes| && p in st.nodes[a].edges && EdgesCanonical(schema, st, a, p)
    requires Extends(later, st) && p in later.nodes[a].edges && later.nodes[a].edges[p] == st.nodes[a].edges[p]
    ensures EdgesCanonical(schema, later, a, p)
  {
    var t := st.typeOf[a];
    var es := st.nodes[a].edges[p];
    match Declared(schema, t, p).value.expected
    case LiteralKind(_) =>
      assert forall k :: k in es.data ==> LiteralKey(t, p, k) in st.literals;
    case ObjectKind(_) =>
      assert forall k :: k in es.data ==> k.s in st.objects.data;
  }

  /** Growth that leaves the old nodes alone and adds nodes without edges keeps every edge canonical. */
  lemma GrowthKeepsEdges(schema: Schema, st: Store, later: Store)
    requires Canonical(schema, st) && Extends(later, st)
    requires forall a :: 0 <= a < |st.nodes| ==> later.nodes[a] == st.nodes[a]
    requires forall a :: |st.nodes| <= a < |later.nodes| ==> later.nodes[a].edges == map[]
    ensures AllEdgesCanonical(schema, later)
  {
    forall a, p | 0 <= a < |later.nodes| && p in later.nodes[a].edges
      ensures EdgesCanonical(schema, later, a, p)
    {
      ExtendsKeepsEdges(schema, st, later, a, p);
    }
  }

  lemma AssignedKeepsKeys<V>(h: OMap<Prim, V>, key: Prim, value: V)
    requires IsHash(h)
    ensures forall k :: k in h.data ==> k in Assigned(h, key, value).data
    ensures key != Undefined ==> key in Assigned(h, key, value).data
  {
  }

  /** The edge a canonical graph may add to node `a` under property `p`. */
  ghost predicate CanonicalLink(schema: Schema, st: Store, a: NodeId, p: string, key: Prim, target: NodeId) {
    && a in st.typeOf
    && Declared(schema, st.typeOf[a], p).Some?
    && target < |st.nodes|
    && match Declared(schema, st.typeOf[a], p).value.expected
       case LiteralKind(_) =>
         LiteralKey(st.typeOf[a], p, key) in st.literals && st.literals[LiteralKey(st.typeOf[a], p, key)] == target
       case ObjectKind(_) =>
         key.Str? && st.objects.Get(key.s) == Some(target)
  }

  /** Adding a canonical edge keeps the graph canonical. */
  lemma LinkKeepsCanonical(schema: Schema, st: Store, a: NodeId, p: string, key: Prim, target: NodeId, later: Store)
    requires Canonical(schema, st) && a < |st.nodes| && CanonicalLink(schema, st, a, p, key, target)
    requires Closed(later.nodes)
    requires later == st.(nodes := st.nodes[a := st.nodes[a].Linked(p, key, target)])
    ensures Canonical(schema, later)
  {
    assert forall x :: 0 <= x < |st.nodes| ==> later.nodes[x].val == st.nodes[x].val;
    assert LiteralsCanonical(later);
    assert Extends(later, st);
    LinkedEdgesCanonical(schema, st, a, p, key, target, later);
    forall b, q | 0 <= b < |later.nodes| && q in later.nodes[b].edges && (b != a || q != p)
      ensures EdgesCanonical(schema, later, b, q)
    {
      assert later.nodes[b].edges[q] == st.nodes[b].edges[q];
      ExtendsKeepsEdges(schema, st, later, b, q);
    }
  }

  /** The edge list that received the canonical edge is canonical. */
  lemma LinkedEdgesCanonical(schema: Schema, st: Store, a: NodeId, p: string, key: Prim, target: NodeId, later: Store)
    requires Canonical(schema, st) && a < |st.nodes| && CanonicalLink(schema, st, a, p, key, target)
    requires later == st.(nodes := st.nodes[a := st.nodes[a].Linked(p, key, target)])
    ensures p in later.nodes[a].edges && EdgesCanonical(schema, later, a, p)
  {
    AllWithin(st.nodes, a, p);
    var t := st.typeOf[a];
    var e := Declared(schema, t, p).value.expected;
    var before := st.nodes[a].All(p);
    assert TargetsCanonical(st.objects, st.literals, t, p, e, before) by {
      if p in st.nodes[a].edges {
        assert EdgesCanonical(schema, st, a, p);
      }
    }
    AssignedTargetsCanonical(st.objects, st.literals, t, p, e, before, key, target);
  }

  /** An edge list stays canonical when it receives an edge whose key names its target. */
  lemma AssignedTargetsCanonical(objects: OMap<string, NodeId>, literals: map<LiteralKey, NodeId>,
                                 t: string, p: string, e: Expected, before: OMap<Prim, NodeId>,
                                 key: Prim, target: NodeId)
    requires IsHash(before) && TargetsCanonical(objects, literals, t, p, e, before)
    requires match e
      case LiteralKind(_) => LiteralKey(t, p, key) in literals && literals[LiteralKey(t, p, key)] == target
      case ObjectKind(_) => key.Str? && objects.Get(key.s) == Some(target)
    ensures TargetsCanonical(objects, literals, t, p, e, Assigned(before, key, target))
  {
    var es := Assigned(before, key, target);
    forall k | k in es.data
      ensures k in before.data || (k == key && es.data[k] == target)
    {
      if k != key {
        assert es.Get(k) == before.Get(k);
      }
    }
  }


  // ---------------------------------------------------------------------------
  // Identity sharing
  // ---------------------------------------------------------------------------

  ghost predicate ObjectProperty(schema: Schema, st: Store, a: NodeId, p: string) {
    a in st.typeOf && Declared(schema, st.typeOf[a], p).Some? && Declared(schema, st.typeOf[a], p).value.expected.ObjectKind?
  }

  ghost predicate LiteralProperty(schema: Schema, st: Store, a: NodeId, p: string) {
    a in st.typeOf && Declared(schema, st.typeOf[a], p).Some? && Declared(schema, st.typeOf[a], p).value.expected.LiteralKind?
  }

  /** In a canonical graph an edge list exists only for a declared property of a typed node. */
  lemma EdgesOnlyWhereDeclared(schema: Schema, st: Store, a: NodeId, p: string)
    requires Canonical(schema, st) && a < |st.nodes| && All(st.nodes, a, p).Length() > 0
    ensures a in st.typeOf && Declared(schema, st.typeOf[a], p).Some?
  {
    assert p in st.nodes[a].edges;
    assert EdgesCanonical(schema, st, a, p);
  }

  /** Every edge of an object-kind property targets the one node of the object it names. */
  lemma ReferenceTarget(schema: Schema, st: Store, a: NodeId, p: string, k: Prim)
    requires Canonical(schema, st) && a < |st.nodes| && ObjectProperty(schema, st, a, p)
    requires k in All(st.nodes, a, p).data
    ensures k.Str? && GetEdge(st.nodes, a, p, k) == st.objects.Get(k.s)
    ensures GetEdge(st.nodes, a, p, k).value in st.keyOf && Str(st.keyOf[GetEdge(st.nodes, a, p, k).value]) == k
  {
    assert p in st.nodes[a].edges;
    assert EdgesCanonical(schema, st, a, p);
  }

  /** Every edge of a literal-kind property targets the interned leaf of its key. */
  lemma LiteralTarget(schema: Schema, st: Store, a: NodeId, p: string, k: Prim)
    requires Canonical(schema, st) && a < |st.nodes| && LiteralProperty(schema, st, a, p)
    requires k in All(st.nodes, a, p).data
    ensures LiteralKey(st.typeOf[a], p, k) in st.literals
    ensures GetEdge(st.nodes, a, p, k) == Some(st.literals[LiteralKey(st.typeOf[a], p, k)])
    ensures st.nodes[st.literals[LiteralKey(st.typeOf[a], p, k)]].val == k
  {
    assert p in st.nodes[a].edges;
    assert EdgesCanonical(schema, st, a, p);
  }

  /** Two edges that reference the same object id, from any nodes and properties, reach the same node. */
  lemma ReferencesShareNode(schema: Schema, st: Store, a: NodeId, p: string, b: NodeId, q: string, id: string)
    requires Canonical(schema, st) && a < |st.nodes| && b < |st.nodes|
    requires ObjectProperty(schema, st, a, p) && ObjectProperty(schema, st, b, q)
    requires Str(id) in All(st.nodes, a, p).data && Str(id) in All(st.nodes, b, q).data
    ensures GetEdge(st.nodes, a, p, Str(id)) == GetEdge(st.nodes, b, q, Str(id)) == st.objects.Get(id)
  {
    ReferenceTarget(schema, st, a, p, Str(id));
    ReferenceTarget(schema, st, b, q, Str(id));
  }

  /**
   * Two objects of one type holding the same literal under one property
   * hold it as the same leaf node: position `i` of `a`'s list and position
   * `j` of `b`'s list are the same node when their keys are equal.
   */
  lemma LiteralsShareNode(schema: Schema, st: Store, a: NodeId, b: NodeId, p: string, i: nat, j: nat)
    requires Canonical(schema, st) && a < |st.nodes| && b < |st.nodes|
    requires LiteralProperty(schema, st, a, p) && b in st.typeOf && st.typeOf[b] == st.typeOf[a]
    requires i < All(st.nodes, a, p).Length() && j < All(st.nodes, b, p).Length()
    requires All(st.nodes, a, p).Key(i) == All(st.nodes, b, p).Key(j)
    ensures All(st.nodes, a, p).At(i) == All(st.nodes, b, p).At(j)
    ensures Payload(st.nodes, All(st.nodes, a, p).At(i).value) == All(st.nodes, a, p).Key(i).value
  {
    var k := All(st.nodes, a, p).keyOrder[i];
    AllWithin(st.nodes, a, p);
    AllWithin(st.nodes, b, p);
    LiteralTarget(schema, st, a, p, k);
    LiteralTarget(schema, st, b, p, k);
  }

  /** Distinct object ids never share a node. */
  lemma DistinctObjectsDistinctNodes(schema: Schema, st: Store, o1: string, o2: string)
    requires Canonical(schema, st) && o1 in st.objects.data && o2 in st.objects.data
    ensures st.objects.Get(o1) == st.objects.Get(o2) <==> o1 == o2
  {
  }

  // ---------------------------------------------------------------------------
  // Schema-driven access
  // ---------------------------------------------------------------------------

  /** What `object.get(p)` returns, one variant per access scenario. */
  datatype Access =
    | Scalar(value: Option<Prim>)
    | One(node: Option<NodeId>)
    | Payloads(values: OMap<Prim, Prim>)
    | Many(nodes: OMap<Prim, NodeId>)
    | Undeclared

  /** `object.get(p)`: the declared kind of `p` picks `value`, `values`, `first` or `all`. */
  function SchemaGet(schema: Schema, st: Store, a: NodeId, p: string): (r: Access)
    requires Closed(st.nodes) && a < |st.nodes|
    ensures r.Undeclared? <==> !(a in st.typeOf && Declared(schema, st.typeOf[a], p).Some?)
    ensures !r.Undeclared? ==>
      match KindOf(Declared(schema, st.typeOf[a], p).value)
      case UniqueValue => r == Scalar(Value(st.nodes, a, p))
      case MultiValue => r == Payloads(Values(st.nodes, a, p))
      case UniqueObject => r == One(First(st.nodes, a, p))
      case MultiObject => r == Many(All(st.nodes, a, p))
  {
    if a !in st.typeOf || Declared(schema, st.typeOf[a], p).None? then Undeclared
    else match KindOf(Declared(schema, st.typeOf[a], p).value)
      case UniqueValue => Scalar(Value(st.nodes, a, p))
      case MultiValue => Payloads(Values(st.nodes, a, p))
      case UniqueObject => One(First(st.nodes, a, p))
      case MultiObject => Many(All(st.nodes, a, p))
  }

  /** A unique value property reads as the literal of its first edge (scenario 1). */
  lemma UniqueValueIsLiteral(schema: Schema, st: Store, a: NodeId, p: string)
    requires Canonical(schema, st) && a < |st.nodes| && LiteralProperty(schema, st, a, p)
    requires Declared(schema, st.typeOf[a], p).value.unique
    ensures SchemaGet(schema, st, a, p) == Scalar(All(st.nodes, a, p).Key(0))
  {
    if All(st.nodes, a, p).Length() > 0 {
      LiteralTarget(schema, st, a, p, All(st.nodes, a, p).keyOrder[0]);
    }
  }

  /** A non-unique value property reads as its literals, each under itself, in edge order (scenario 2). */
  lemma MultiValueIsLiterals(schema: Schema, st: Store, a: NodeId, p: string)
    requires Canonical(schema, st) && a < |st.nodes| && LiteralProperty(schema, st, a, p)
    requires !Declared(schema, st.typeOf[a], p).value.unique
    ensures SchemaGet(schema, st, a, p).Payloads?
    ensures SchemaGet(schema, st, a, p).values.keyOrder == All(st.nodes, a, p).keyOrder
    ensures forall k :: k in All(st.nodes, a, p).data ==> SchemaGet(schema, st, a, p).values.Get(k) == Some(k)
    ensures SchemaGet(schema, st, a, p).values.Values() == All(st.nodes, a, p).keyOrder
  {
    var r := SchemaGet(schema, st, a, p).values;
    forall k | k in All(st.nodes, a, p).data
      ensures r.Get(k) == Some(k)
    {
      LiteralTarget(schema, st, a, p, k);
    }
    forall i | 0 <= i < r.Length()
      ensures r.Values()[i] == All(st.nodes, a, p).keyOrder[i]
    {
      assert r.At(i) == r.Get(r.keyOrder[i]);
    }
  }

  /** A unique object property reads as the node of the object its first edge names (scenario 3). */
  lemma UniqueObjectIsReferenced(schema: Schema, st: Store, a: NodeId, p: string)
    requires Canonical(schema, st) && a < |st.nodes| && ObjectProperty(schema, st, a, p)
    requires Declared(schema, st.typeOf[a], p).value.unique
    ensures SchemaGet(schema, st, a, p).One?
    ensures All(st.nodes, a, p).Length() == 0 ==> SchemaGet(schema, st, a, p).node == None
    ensures All(st.nodes, a, p).Length() > 0 ==>
      All(st.nodes, a, p).keyOrder[0].Str? &&
      SchemaGet(schema, st, a, p).node == st.objects.Get(All(st.nodes, a, p).keyOrder[0].s)
    ensures All(st.nodes, a, p).Length() > 0 ==>
      SchemaGet(schema, st, a, p).node.Some? && SchemaGet(schema, st, a, p).node.value in st.keyOf &&
      Str(st.keyOf[SchemaGet(schema, st, a, p).node.value]) == All(st.nodes, a, p).keyOrder[0]
  {
    if All(st.nodes, a, p).Length() > 0 {
      ReferenceTarget(schema, st, a, p, All(st.nodes, a, p).keyOrder[0]);
    }
  }

  /** A non-unique object property reads as the nodes of the objects its edges name (scenario 4). */
  lemma MultiObjectIsReferenced(schema: Schema, st: Store, a: NodeId, p: string)
    requires Canonical(schema, st) && a < |st.nodes| && ObjectProperty(schema, st, a, p)
    requires !Declared(schema, st.typeOf[a], p).value.unique
    ensures SchemaGet(schema, st, a, p) == Many(All(st.nodes, a, p))
    ensures forall k :: k in All(st.nodes, a, p).data ==>
      k.Str? && st.objects.Get(k.s) == Some(All(st.nodes, a, p).data[k])
  {
    forall k | k in All(st.nodes, a, p).data
      ensures k.Str? && st.objects.Get(k.s) == Some(All(st.nodes, a, p).data[k])
    {
      ReferenceTarget(schema, st, a, p, k);
    }
  }

  // ---------------------------------------------------------------------------
  // Building a graph from a document
  // ---------------------------------------------------------------------------

  /** One object of a document: its id, its type and its values per property. */
  datatype ObjectDecl = ObjectDecl(id: string, typeId: string, values: seq<(string, seq<Prim>)>)

  datatype LoadError =
    | UnknownType(typeId: string)
    | UnknownProperty(typeId: string, property: string)
    | ConflictingType(id: string)
    | BadReference(property: string, value: Prim)
    | Unresolved(id: string)

  datatype Declaration = Accepted(node: NodeId) | Refused(error: LoadError)

  // ---------------------------------------------------------------------------
  // What loading promises
  // ---------------------------------------------------------------------------

  /** No edge list of an old node loses a key. */
  ghost predicate KeysGrow(later: seq<NodeRec>, nodes: seq<NodeRec>) {
    && |nodes| <= |later|
    && forall a, p :: 0 <= a < |nodes| ==> nodes[a].All(p).data.Keys <= later[a].All(p).data.Keys
  }

  lemma KeysGrowTransitive(n1: seq<NodeRec>, n2: seq<NodeRec>, n3: seq<NodeRec>)
    requires KeysGrow(n2, n1) && KeysGrow(n3, n2)
    ensures KeysGrow(n3, n1)
  {
  }

  lemma AppendKeysGrow(nodes: seq<NodeRec>, n: NodeRec)
    ensures KeysGrow(nodes + [n], nodes)
  {
    assert forall a :: 0 <= a < |nodes| ==> (nodes + [n])[a] == nodes[a];
  }

  lemma LinkKeysGrow(nodes: seq<NodeRec>, a: NodeId, p: string, key: Prim, target: NodeId)
    requires a < |nodes| && IsHash(nodes[a].All(p))
    ensures KeysGrow(nodes[a := nodes[a].Linked(p, key, target)], nodes)
  {
    var later := nodes[a := nodes[a].Linked(p, key, target)];
    forall b, q | 0 <= b < |nodes|
      ensures nodes[b].All(q).data.Keys <= later[b].All(q).data.Keys
    {
      if b == a && q == p {
        AssignedKeepsKeys(nodes[a].All(p), key, target);
      }
    }
  }

  /** Property `p` of type `t` is declared and expects objects: its string values are references. */
  predicate RefProperty(schema: Schema, t: string, p: string) {
    Declared(schema, t, p).Some? && Declared(schema, t, p).value.expected.ObjectKind?
  }

  /** The object ids the values `vs` of a property declared as `d` refer to. */
  ghost function RefsOf(d: PropertyDecl, vs: seq<Prim>): set<string> {
    set v | v in vs && v.Str? && d.expected.ObjectKind? :: v.s
  }

  /** The object ids object `o` refers to. */
  ghost function ObjRefs(schema: Schema, o: ObjectDecl): set<string> {
    set j, v | 0 <= j < |o.values| && v in o.values[j].1 && v.Str? && RefProperty(schema, o.typeId, o.values[j].0) :: v.s
  }

  lemma RefsWithin(schema: Schema, o: ObjectDecl, j: nat, d: PropertyDecl)
    requires j < |o.values| && Declared(schema, o.typeId, o.values[j].0) == Some(d)
    ensures RefsOf(d, o.values[j].1) <= ObjRefs(schema, o)
  {
    forall x | x in RefsOf(d, o.values[j].1)
      ensures x in ObjRefs(schema, o)
    {
      var v :| v in o.values[j].1 && v.Str? && d.expected.ObjectKind? && v.s == x;
    }
  }

  /** The ids `doc` declares. */
  ghost function DocIds(doc: seq<ObjectDecl>): set<string> {
    set k | 0 <= k < |doc| :: doc[k].id
  }

  /** The ids `doc` refers to. */
  ghost function DocRefs(schema: Schema, doc: seq<ObjectDecl>): set<string> {
    set k, x | 0 <= k < |doc| && x in ObjRefs(schema, doc[k]) :: x
  }

  /** Every defined value of the first `n` properties in `values` is a key of its edge list at node `a`. */
  ghost predicate ValuesLinked(nodes: seq<NodeRec>, a: NodeId, values: seq<(string, seq<Prim>)>, n: nat) {
    && a < |nodes|
    && forall j, v :: 0 <= j < n && j < |values| && v in values[j].1 && v != Undefined ==>
         v in nodes[a].All(values[j].0).data
  }

  /** Every defined value of object `o` is an edge of its node. */
  ghost predicate ObjectLinked(st: Store, o: ObjectDecl) {
    o.id in st.objects.data && ValuesLinked(st.nodes, st.objects.data[o.id], o.values, |o.values|)
  }

  lemma ValuesLinkedStep(nodes: seq<NodeRec>, later: seq<NodeRec>, a: NodeId, values: seq<(string, seq<Prim>)>, n: nat)
    requires ValuesLinked(nodes, a, values, n) && KeysGrow(later, nodes) && n < |values|
    requires forall v :: v in values[n].1 && v != Undefined ==> v in later[a].All(values[n].0).data
    ensures ValuesLinked(later, a, values, n + 1)
  {
  }

  lemma ObjectLinkedKept(st: Store, later: Store, o: ObjectDecl)
    requires ObjectLinked(st, o) && Extends(later, st) && KeysGrow(later.nodes, st.nodes)
    ensures ObjectLinked(later, o)
  {
    assert later.objects.Get(o.id) == Some(st.objects.data[o.id]);
  }

  /** The values the property lists `values` give property `p`, list after list. */
  function ValuesFor(values: seq<(string, seq<Prim>)>, p: string): (r: seq<Prim>)
    ensures forall v :: v in r ==> exists j :: 0 <= j < |values| && values[j].0 == p && v in values[j].1
    decreases |values|
  {
    if values == [] then []
    else
      var last := values[|values| - 1];
      ValuesFor(values[..|values| - 1], p) + if last.0 == p then last.1 else []
  }

  /** The key order of property `p` at node `n`; empty for a node not in `nodes`. */
  ghost function EdgeKeys(nodes: seq<NodeRec>, n: NodeId, p: string): seq<Prim> {
    if n < |nodes| then nodes[n].All(p).keyOrder else []
  }

  /** Every edge list of every old node stays as it was, except list `p` of node `a`. */
  ghost predicate ListsKept(later: seq<NodeRec>, nodes: seq<NodeRec>, a: NodeId, p: string) {
    && |nodes| <= |later|
    && forall b, q :: 0 <= b < |nodes| && (b != a || q != p) ==> later[b].All(q) == nodes[b].All(q)
  }

  /** Every edge list of every old node other than `a` stays as it was. */
  ghost predicate NodesKept(later: seq<NodeRec>, nodes: seq<NodeRec>, a: NodeId) {
    && |nodes| <= |later|
    && forall b, q :: 0 <= b < |nodes| && b != a ==> later[b].All(q) == nodes[b].All(q)
  }

  /** Node `a`'s key order of every property moved on by `set`ting the values `values` give it. */
  ghost predicate ObjectBuilt(later: seq<NodeRec>, nodes: seq<NodeRec>, a: NodeId, values: seq<(string, seq<Prim>)>) {
    forall q :: EdgeKeys(later, a, q) == SetAllOrder(EdgeKeys(nodes, a, q), ValuesFor(values, q))
  }

  lemma ListsKeptTransitive(n1: seq<NodeRec>, n2: seq<NodeRec>, n3: seq<NodeRec>, a: NodeId, p: string)
    requires ListsKept(n2, n1, a, p) && ListsKept(n3, n2, a, p)
    ensures ListsKept(n3, n1, a, p)
  {
  }

  /** Declaring an object keeps every old node or appends one fresh placeholder: nothing is built yet. */
  lemma DeclaredStart(nodes: seq<NodeRec>, later: seq<NodeRec>, a: NodeId, values: seq<(string, seq<Prim>)>)
    requires later == nodes || later == nodes + [Fresh(Undefined)]
    requires a < |later|
    ensures Building(later, nodes, a, values, 0)
  {
    assert forall b :: 0 <= b < |nodes| ==> later[b] == nodes[b];
    assert values[..0] == [];
  }

  /**
   * Node `a`, starting from `base`, has taken the first `j` property lists of
   * `values`: their defined values are edges, the key orders moved on by
   * exactly those values, and no other old node changed.
   */
  ghost predicate Building(nodes: seq<NodeRec>, base: seq<NodeRec>, a: NodeId, values: seq<(string, seq<Prim>)>, j: nat)
    requires j <= |values|
  {
    ValuesLinked(nodes, a, values, j) && NodesKept(nodes, base, a) && ObjectBuilt(nodes, base, a, values[..j])
  }

  /** One more property list of the object moves the key order of that property only. */
  lemma BuiltStep(base: seq<NodeRec>, nodes: seq<NodeRec>, later: seq<NodeRec>, a: NodeId,
                  values: seq<(string, seq<Prim>)>, j: nat)
    requires j < |values| && a < |nodes| && ListsKept(later, nodes, a, values[j].0) && KeysGrow(later, nodes)
    requires Building(nodes, base, a, values, j)
    requires forall v :: v in values[j].1 && v != Undefined ==> v in later[a].All(values[j].0).data
    requires later[a].All(values[j].0).keyOrder == SetAllOrder(nodes[a].All(values[j].0).keyOrder, values[j].1)
    ensures Building(later, base, a, values, j + 1)
  {
    ValuesLinkedStep(nodes, later, a, values, j);
    assert values[..j + 1][..j] == values[..j];
    forall q
      ensures EdgeKeys(later, a, q) == SetAllOrder(EdgeKeys(base, a, q), ValuesFor(values[..j + 1], q))
    {
      SetAllOrderAppend(EdgeKeys(base, a, q), ValuesFor(values[..j], q), if values[j].0 == q then values[j].1 else []);
    }
  }

  /**
   * Adding object `o`, declared at node `a`, to `st0` has reached the `j`-th
   * property list with result `err`: only `a` may have gained its type,
   * only `o` and the ids it refers to became objects, no edge was lost, and
   * either the first `j` lists are built into `a` or `err` is justified.
   */
  ghost predicate ObjectProgress(schema: Schema, st0: Store, st: Store, o: ObjectDecl, a: NodeId, j: nat, err: Option<LoadError>) {
    && j <= |o.values| && a < |st.nodes|
    && Extends(st, st0) && KeysGrow(st.nodes, st0.nodes)
    && st.objects.Get(o.id) == Some(a) && a in st.typeOf && st.typeOf[a] == o.typeId
    && (st.typeOf == st0.typeOf || (a !in st0.typeOf && st.typeOf == st0.typeOf[a := o.typeId]))
    && st.objects.data.Keys <= st0.objects.data.Keys + {o.id} + ObjRefs(schema, o)
    && (err.None? ==> Building(st.nodes, st0.nodes, a, o.values, j))
    && (err.Some? ==> ObjectError(schema, st0, o, err.value))
  }

  /** Right after its declaration, object `o` has made progress through none of its lists. */
  lemma ObjectStart(schema: Schema, st0: Store, st: Store, o: ObjectDecl, a: NodeId)
    requires Extends(st, st0) && KeysGrow(st.nodes, st0.nodes) && a < |st.nodes|
    requires st.objects.Get(o.id) == Some(a) && a in st.typeOf && st.typeOf[a] == o.typeId
    requires st.typeOf == st0.typeOf || (a !in st0.typeOf && st.typeOf == st0.typeOf[a := o.typeId])
    requires st.objects.data.Keys == st0.objects.data.Keys + {o.id}
    requires st.nodes == st0.nodes || st.nodes == st0.nodes + [Fresh(Undefined)]
    ensures ObjectProgress(schema, st0, st, o, a, 0, None)
  {
    DeclaredStart(st0.nodes, st.nodes, a, o.values);
  }

  /** An undeclared property of `o` is a justified error. */
  lemma UndeclaredStep(schema: Schema, st0: Store, st: Store, o: ObjectDecl, a: NodeId, j: nat)
    requires j < |o.values| && o.typeId in schema.data && Declared(schema, o.typeId, o.values[j].0).None?
    requires ObjectProgress(schema, st0, st, o, a, j, None)
    ensures ObjectProgress(schema, st0, st, o, a, j, Some(UnknownProperty(o.typeId, o.values[j].0)))
  {
  }

  /** Adding the values of `o`'s `j`-th list moves the progress on by one list, or stops it with a justified error. */
  lemma PropertyStep(schema: Schema, st0: Store, st: Store, later: Store, o: ObjectDecl, a: NodeId, j: nat,
                     d: PropertyDecl, err: Option<LoadError>)
    requires j < |o.values| && Declared(schema, o.typeId, o.values[j].0) == Some(d)
    requires ObjectProgress(schema, st0, st, o, a, j, None)
    requires Extends(later, st) && KeysGrow(later.nodes, st.nodes) && later.typeOf == st.typeOf
    requires later.objects.data.Keys <= st.objects.data.Keys + RefsOf(d, o.values[j].1)
    requires ListsKept(later.nodes, st.nodes, a, o.values[j].0)
    requires err.None? ==>
      later.nodes[a].All(o.values[j].0).keyOrder == SetAllOrder(st.nodes[a].All(o.values[j].0).keyOrder, o.values[j].1)
    requires err.None? ==> forall v :: v in o.values[j].1 && v != Undefined ==> v in later.nodes[a].All(o.values[j].0).data
    requires err.Some? ==>
      exists m :: 0 <= m < |o.values[j].1| && err.value == BadReference(o.values[j].0, o.values[j].1[m]) &&
        d.expected.ObjectKind? && !o.values[j].1[m].Str?
    ensures ObjectProgress(schema, st0, later, o, a, if err.None? then j + 1 else j, err)
  {
    ExtendsTransitive(st0, st, later);
    KeysGrowTransitive(st0.nodes, st.nodes, later.nodes);
    RefsWithin(schema, o, j, d);
    assert later.objects.Get(o.id) == Some(a);
    if err.Some? {
      var m :| 0 <= m < |o.values[j].1| && err.value == BadReference(o.values[j].0, o.values[j].1[m]) &&
        d.expected.ObjectKind? && !o.values[j].1[m].Str?;
      assert o.values[j].1[m] in o.values[j].1;
    } else {
      BuiltStep(st0.nodes, st.nodes, later.nodes, a, o.values, j);
    }
  }

  /** Progress through all of `o`'s lists, or up to a justified error, is what adding `o` promises. */
  lemma ObjectFinished(schema: Schema, st0: Store, st: Store, o: ObjectDecl, a: NodeId, j: nat, err: Option<LoadError>)
    requires ObjectProgress(schema, st0, st, o, a, j, err) && (err.None? ==> j == |o.values|)
    ensures AddedObject(schema, st0, st, o, err)
  {
    assert o.values[..|o.values|] == o.values;
  }

  /** No two objects of `doc` share an id. */
  ghost predicate DistinctIds(doc: seq<ObjectDecl>) {
    forall k, j :: 0 <= k < j < |doc| ==> doc[k].id != doc[j].id
  }

  /** Each of the first `n` objects of `doc` has a node whose key orders are exactly its values, built from nothing. */
  ghost predicate DocBuilt(st: Store, doc: seq<ObjectDecl>, n: nat) {
    forall k :: 0 <= k < n && k < |doc| ==>
      && doc[k].id in st.objects.data
      && forall q :: EdgeKeys(st.nodes, st.objects.data[doc[k].id], q) == SetAllOrder([], ValuesFor(doc[k].values, q))
  }

  /** With distinct values and no undefined, an object's key order of `q` lists exactly its values for `q`. */
  lemma BuiltListsAreValues(st: Store, doc: seq<ObjectDecl>, k: nat, q: string)
    requires DocBuilt(st, doc, |doc|) && k < |doc|
    requires Distinct(ValuesFor(doc[k].values, q)) && Undefined !in ValuesFor(doc[k].values, q)
    ensures EdgeKeys(st.nodes, st.objects.data[doc[k].id], q) == ValuesFor(doc[k].values, q)
  {
    SetAllOrderFresh([], ValuesFor(doc[k].values, q));
  }

  /**
   * The error `e` of adding object `o` to graph `st` is justified by `o`
   * itself, or for a type conflict by the type `st` already gave `o.id`.
   */
  ghost predicate ObjectError(schema: Schema, st: Store, o: ObjectDecl, e: LoadError) {
    match e
    case UnknownType(t) => t == o.typeId && t !in schema.data
    case UnknownProperty(t, p) =>
      t == o.typeId && t in schema.data && Declared(schema, t, p).None? &&
      exists j :: 0 <= j < |o.values| && o.values[j].0 == p
    case ConflictingType(id) =>
      id == o.id && id in st.objects.data && st.objects.data[id] in st.typeOf && st.typeOf[st.objects.data[id]] != o.typeId
    case BadReference(p, v) =>
      RefProperty(schema, o.typeId, p) && !v.Str? &&
      exists j :: 0 <= j < |o.values| && o.values[j].0 == p && v in o.values[j].1
    case Unresolved(_) => false
  }

  /**
   * Adding object `o` to graph `st` gives `later` with result `err`: only
   * `o`'s node may gain a type, only `o` and the ids it refers to may become
   * objects, no edge is lost, and on success `o` is declared, all its
   * values are edges of its node, no other old node changes, and each key
   * order of `o`'s node moved on by exactly `o`'s values for that property.
   */
  ghost predicate AddedObject(schema: Schema, st: Store, later: Store, o: ObjectDecl, err: Option<LoadError>) {
    && Extends(later, st) && KeysGrow(later.nodes, st.nodes)
    && (|| later.typeOf == st.typeOf
        || (o.id in later.objects.data && later.objects.data[o.id] !in st.typeOf &&
            later.typeOf == st.typeOf[later.objects.data[o.id] := o.typeId]))
    && later.objects.data.Keys <= st.objects.data.Keys + {o.id} + ObjRefs(schema, o)
    && (err.None? ==> DeclaredAs(later, o.id, o.typeId) && ObjectLinked(later, o))
    && (err.None? ==>
          && o.id in later.objects.data
          && NodesKept(later.nodes, st.nodes, later.objects.data[o.id])
          && ObjectBuilt(later.nodes, st.nodes, later.objects.data[o.id], o.values))
    && (err.Some? ==> ObjectError(schema, st, o, err.value))
  }

  /** `doc[k]` gives its id a type that the graph `st0` loaded into, or an earlier object of `doc`, gave it already. */
  ghost predicate TypeConflict(st0: Store, st: Store, doc: seq<ObjectDecl>, k: nat)
    requires k < |doc|
  {
    || (doc[k].id in st.objects.data && st.objects.data[doc[k].id] in st0.typeOf &&
        st0.typeOf[st.objects.data[doc[k].id]] != doc[k].typeId)
    || exists j :: 0 <= j < k && doc[j].id == doc[k].id && doc[j].typeId != doc[k].typeId
  }

  /** The error `e` of loading `doc` into `st0`, which gave `st`, is justified by the document or by `st0`. */
  ghost predicate DocError(schema: Schema, st0: Store, st: Store, doc: seq<ObjectDecl>, e: LoadError) {
    match e
    case ConflictingType(id) => exists k :: 0 <= k < |doc| && doc[k].id == id && TypeConflict(st0, st, doc, k)
    case Unresolved(id) =>
      && id in st.objects.data && st.objects.data[id] !in st.typeOf
      && (id in st0.objects.data || id in DocRefs(schema, doc))
      && forall k :: 0 <= k < |doc| ==> doc[k].id != id
    case _ => exists k :: 0 <= k < |doc| && ObjectError(schema, st0, doc[k], e)
  }

  /**
   * A document that loads into an empty graph: its types and properties are
   * declared, an object-kind property holds only ids, no id is given two
   * types, and every id it refers to it also declares.
   */
  ghost predicate WellFormed(schema: Schema, doc: seq<ObjectDecl>) {
    && (forall k :: 0 <= k < |doc| ==> doc[k].typeId in schema.data)
    && (forall k, j :: 0 <= k < |doc| && 0 <= j < |doc[k].values| ==>
          Declared(schema, doc[k].typeId, doc[k].values[j].0).Some?)
    && (forall k, j, v ::
          0 <= k < |doc| && 0 <= j < |doc[k].values| && v in doc[k].values[j].1 &&
          RefProperty(schema, doc[k].typeId, doc[k].values[j].0)
          ==> v.Str?)
    && (forall k, j :: 0 <= k < |doc| && 0 <= j < |doc| && doc[k].id == doc[j].id ==> doc[k].typeId == doc[j].typeId)
    && DocRefs(schema, doc) <= DocIds(doc)
  }

  /** Loading `doc` into an empty graph fails only if `doc` is not well formed. */
  lemma DocErrorIllFormed(schema: Schema, st0: Store, st: Store, doc: seq<ObjectDecl>, e: LoadError)
    requires st0.objects.data == map[] && st0.typeOf == map[] && DocError(schema, st0, st, doc, e)
    ensures !WellFormed(schema, doc)
  {
    match e
    case ConflictingType(id) =>
      var k :| 0 <= k < |doc| && doc[k].id == id && TypeConflict(st0, st, doc, k);
      var j :| 0 <= j < k && doc[j].id == doc[k].id && doc[j].typeId != doc[k].typeId;
    case Unresolved(id) =>
      assert id in DocRefs(schema, doc);
    case UnknownType(_) =>
      var k :| 0 <= k < |doc| && ObjectError(schema, st0, doc[k], e);
    case UnknownProperty(_, p) =>
      var k :| 0 <= k < |doc| && ObjectError(schema, st0, doc[k], e);
      var j :| 0 <= j < |doc[k].values| && doc[k].values[j].0 == p;
    case BadReference(p, v) =>
      var k :| 0 <= k < |doc| && ObjectError(schema, st0, doc[k], e);
      var j :| 0 <= j < |doc[k].values| && doc[k].values[j].0 == p && v in doc[k].values[j].1;
  }

  /** Every node typed since `st0` was typed by one of the first `n` objects of `doc`. */
  ghost predicate TypedBy(st0: Store, st: Store, doc: seq<ObjectDecl>, n: nat) {
    forall m :: m in st.typeOf && m !in st0.typeOf ==>
      exists j :: 0 <= j < n && j < |doc| && st.objects.Get(doc[j].id) == Some(m) && st.typeOf[m] == doc[j].typeId
  }

  /** The first `n` objects of `doc` are declared with their types and all their values are edges. */
  ghost predicate Loaded(st: Store, doc: seq<ObjectDecl>, n: nat) {
    forall j :: 0 <= j < n && j < |doc| ==> DeclaredAs(st, doc[j].id, doc[j].typeId) && ObjectLinked(st, doc[j])
  }

  /** Only the next object and the ids it refers to become objects. */
  lemma KnownStep(schema: Schema, st0: Store, st: Store, later: Store, doc: seq<ObjectDecl>, n: nat)
    requires n < |doc|
    requires st.objects.data.Keys <= st0.objects.data.Keys + DocIds(doc) + DocRefs(schema, doc)
    requires later.objects.data.Keys <= st.objects.data.Keys + {doc[n].id} + ObjRefs(schema, doc[n])
    ensures later.objects.data.Keys <= st0.objects.data.Keys + DocIds(doc) + DocRefs(schema, doc)
  {
    assert doc[n].id in DocIds(doc);
    forall x | x in ObjRefs(schema, doc[n])
      ensures x in DocRefs(schema, doc)
    {
    }
  }

  /** Every node typed since `st0` was typed by one of the objects loaded so far. */
  lemma TypedStep(st0: Store, st: Store, later: Store, doc: seq<ObjectDecl>, n: nat)
    requires n < |doc| && Extends(later, st) && TypedBy(st0, st, doc, n)
    requires || later.typeOf == st.typeOf
             || (doc[n].id in later.objects.data && later.objects.data[doc[n].id] !in st.typeOf &&
                 later.typeOf == st.typeOf[later.objects.data[doc[n].id] := doc[n].typeId])
    ensures TypedBy(st0, later, doc, n + 1)
  {
    forall m | m in later.typeOf && m !in st0.typeOf
      ensures exists j :: 0 <= j < n + 1 && j < |doc| && later.objects.Get(doc[j].id) == Some(m) && later.typeOf[m] == doc[j].typeId
    {
      if m in st.typeOf {
        var j :| 0 <= j < n && j < |doc| && st.objects.Get(doc[j].id) == Some(m) && st.typeOf[m] == doc[j].typeId;
        assert later.objects.Get(doc[j].id) == Some(m);
      } else {
        assert later.objects.Get(doc[n].id) == Some(m);
      }
    }
  }

  /** The objects loaded before stay declared and linked, and the next one joins them. */
  lemma PrefixKept(st: Store, later: Store, doc: seq<ObjectDecl>, n: nat)
    requires n < |doc| && Extends(later, st) && KeysGrow(later.nodes, st.nodes) && Loaded(st, doc, n)
    requires DeclaredAs(later, doc[n].id, doc[n].typeId) && ObjectLinked(later, doc[n])
    ensures Loaded(later, doc, n + 1)
  {
    forall j | 0 <= j < n
      ensures DeclaredAs(later, doc[j].id, doc[j].typeId) && ObjectLinked(later, doc[j])
    {
      DeclaredAsKept(st, later, doc[j].id, doc[j].typeId);
      ObjectLinkedKept(st, later, doc[j]);
    }
  }

  /** An error of the next object is an error of the document. */
  lemma ConflictStep(schema: Schema, st0: Store, st: Store, later: Store, doc: seq<ObjectDecl>, n: nat, e: LoadError)
    requires n < |doc| && ObjectsCanonical(st) && Extends(st, st0) && Extends(later, st) && TypedBy(st0, st, doc, n)
    requires ObjectError(schema, st, doc[n], e)
    ensures DocError(schema, st0, later, doc, e)
  {
    match e
    case ConflictingType(id) =>
      var m := st.objects.data[id];
      assert later.objects.Get(id) == Some(m);
      if m !in st0.typeOf {
        var j :| 0 <= j < n && j < |doc| && st.objects.Get(doc[j].id) == Some(m) && st.typeOf[m] == doc[j].typeId;
        assert st.keyOf[m] == doc[j].id;
      }
      assert TypeConflict(st0, later, doc, n);
    case _ =>
      assert ObjectError(schema, st0, doc[n], e);
  }

  /**
   * Into a graph that typed no node, with distinct ids: the node `later`
   * gives the next object is none of the nodes the earlier objects typed.
   */
  lemma NextNodeUntyped(st0: Store, st: Store, later: Store, doc: seq<ObjectDecl>, n: nat)
    requires n < |doc| && st0.typeOf == map[] && DistinctIds(doc)
    requires ObjectsCanonical(later) && Extends(later, st) && TypedBy(st0, st, doc, n)
    requires doc[n].id in later.objects.data
    ensures later.objects.data[doc[n].id] !in st.typeOf
  {
    var m := later.objects.data[doc[n].id];
    forall j | 0 <= j < n && st.objects.Get(doc[j].id) == Some(m)
      ensures false
    {
    }
  }

  /** A node no object typed has no edge lists: every list sits on a typed node. */
  lemma UntypedWithoutEdges(schema: Schema, st: Store, m: NodeId)
    requires AllEdgesCanonical(schema, st) && m !in st.typeOf
    ensures forall q :: EdgeKeys(st.nodes, m, q) == []
  {
    forall q | m < |st.nodes|
      ensures q !in st.nodes[m].edges
    {
    }
  }

  /** Building the next object's node `m` leaves the earlier objects' nodes, and so their lists, as they were. */
  lemma EarlierBuiltKept(st: Store, later: Store, doc: seq<ObjectDecl>, n: nat, m: NodeId)
    requires n < |doc| && DistinctIds(doc)
    requires ObjectsCanonical(st) && ObjectsCanonical(later) && Extends(later, st) && DocBuilt(st, doc, n)
    requires doc[n].id in later.objects.data && m == later.objects.data[doc[n].id]
    requires NodesKept(later.nodes, st.nodes, m)
    ensures DocBuilt(later, doc, n)
  {
    forall k | 0 <= k < n
      ensures doc[k].id in later.objects.data
      ensures forall q :: EdgeKeys(later.nodes, later.objects.data[doc[k].id], q) == SetAllOrder([], ValuesFor(doc[k].values, q))
    {
      var mk := st.objects.data[doc[k].id];
      assert later.objects.Get(doc[k].id) == Some(mk);
      assert later.keyOf[mk] == doc[k].id;
    }
  }

  /**
   * Into a graph that typed no node, with distinct ids: the next object's
   * node starts without edges, and building it leaves the earlier objects'
   * nodes alone.
   */
  lemma DocBuiltStep(schema: Schema, st0: Store, st: Store, later: Store, doc: seq<ObjectDecl>, n: nat)
    requires n < |doc| && st0.typeOf == map[] && DistinctIds(doc)
    requires ObjectsCanonical(st) && AllEdgesCanonical(schema, st) && ObjectsCanonical(later)
    requires Extends(later, st) && TypedBy(st0, st, doc, n) && DocBuilt(st, doc, n)
    requires doc[n].id in later.objects.data
    requires NodesKept(later.nodes, st.nodes, later.objects.data[doc[n].id])
    requires ObjectBuilt(later.nodes, st.nodes, later.objects.data[doc[n].id], doc[n].values)
    ensures DocBuilt(later, doc, n + 1)
  {
    var m := later.objects.data[doc[n].id];
    NextNodeUntyped(st0, st, later, doc, n);
    UntypedWithoutEdges(schema, st, m);
    EarlierBuiltKept(st, later, doc, n, m);
    assert forall q :: EdgeKeys(later.nodes, m, q) == SetAllOrder([], ValuesFor(doc[n].values, q));
  }

  /**
   * What loading the first `n` objects of `doc` into `st0` promises, with
   * result `err`: the graph only grew, only the document's ids became
   * objects, only its objects typed nodes, and either every object so far
   * is declared, linked and (in the fresh case) built, or `err` is
   * justified.
   */
  ghost predicate LoadProgress(schema: Schema, st0: Store, st: Store, doc: seq<ObjectDecl>, n: nat, err: Option<LoadError>) {
    && Extends(st, st0) && KeysGrow(st.nodes, st0.nodes)
    && st.objects.data.Keys <= st0.objects.data.Keys + DocIds(doc) + DocRefs(schema, doc)
    && TypedBy(st0, st, doc, n)
    && (err.None? ==> Loaded(st, doc, n))
    && (err.Some? ==> DocError(schema, st0, st, doc, err.value))
    && (err.None? && st0.typeOf == map[] && DistinctIds(doc) ==> DocBuilt(st, doc, n))
  }

  /** Before any object is added, nothing is promised but what holds already. */
  lemma ProgressStart(schema: Schema, st: Store, doc: seq<ObjectDecl>)
    ensures LoadProgress(schema, st, st, doc, 0, None)
  {
  }

  /** A run stopped early by an error promises what a complete run with that error would. */
  lemma ProgressWidened(schema: Schema, st0: Store, st: Store, doc: seq<ObjectDecl>, n: nat, err: Option<LoadError>)
    requires n <= |doc| && (err.None? ==> n == |doc|) && LoadProgress(schema, st0, st, doc, n, err)
    ensures LoadProgress(schema, st0, st, doc, |doc|, err)
  {
  }

  /** One object of `doc` further: adding `doc[n]` moves `LoadProgress` on to `n + 1`. */
  lemma DocStep(schema: Schema, st0: Store, st: Store, later: Store, doc: seq<ObjectDecl>, n: nat, err: Option<LoadError>)
    requires n < |doc| && Canonical(schema, st) && ObjectsCanonical(later)
    requires LoadProgress(schema, st0, st, doc, n, None)
    requires AddedObject(schema, st, later, doc[n], err)
    ensures LoadProgress(schema, st0, later, doc, n + 1, err)
  {
    ExtendsTransitive(st0, st, later);
    KeysGrowTransitive(st0.nodes, st.nodes, later.nodes);
    KnownStep(schema, st0, st, later, doc, n);
    TypedStep(st0, st, later, doc, n);
    if err.None? {
      PrefixKept(st, later, doc, n);
      if st0.typeOf == map[] && DistinctIds(doc) {
        DocBuiltStep(schema, st0, st, later, doc, n);
      }
    } else {
      ConflictStep(schema, st0, st, later, doc, n, err.value);
    }
  }

  /** A first reference to `id` adds an untyped placeholder node and changes nothing else. */
  lemma PlaceholderAdded(schema: Schema, st: Store, id: string, later: Store)
    requires Canonical(schema, st) && id !in st.objects.data && Closed(later.nodes)
    requires later == Store(st.nodes + [Fresh(Undefined)], st.objects.Put(id, |st.nodes|), st.literals,
                            st.keyOf[|st.nodes| := id], st.typeOf)
    ensures Canonical(schema, later) && Extends(later, st) && KeysGrow(later.nodes, st.nodes)
    ensures later.objects.data.Keys == st.objects.data.Keys + {id}
  {
    assert forall o :: o in st.objects.data ==> later.objects.Get(o) == Some(st.objects.data[o]);
    GrowthKeepsEdges(schema, st, later);
    AppendKeysGrow(st.nodes, Fresh(Undefined));
  }

  /** Typing an untyped node keeps the graph canonical and changes nothing else. */
  lemma TypeGiven(schema: Schema, st: Store, n: NodeId, t: string, later: Store)
    requires Canonical(schema, st) && n < |st.nodes| && n !in st.typeOf && t in schema.data
    requires later == st.(typeOf := st.typeOf[n := t])
    ensures Canonical(schema, later) && Extends(later, st) && KeysGrow(later.nodes, st.nodes)
  {
    GrowthKeepsEdges(schema, st, later);
  }

  class Graph {
    const schema: Schema
    const arena: Arena
    var objects: OMap<string, NodeId>
    var literals: map<LiteralKey, NodeId>
    var keyOf: map<NodeId, string>
    var typeOf: map<NodeId, string>

    function Snapshot(): Store
      reads this, arena
    {
      Store(arena.nodes, objects, literals, keyOf, typeOf)
    }

    ghost predicate Valid()
      reads this, arena
    {
      Canonical(schema, Snapshot())
    }

    /** An empty graph over `schema`. */
    constructor (schema: Schema)
      ensures Valid() && this.schema == schema && fresh(arena)
      ensures arena.nodes == [] && objects == Empty() && literals == map[] && keyOf == map[] && typeOf == map[]
    {
      this.schema := schema;
      arena := new Arena();
      objects := Empty();
      literals := map[];
      keyOf := map[];
      typeOf := map[];
    }

    /** The one node of object `id`; a first reference creates an untyped placeholder. */
    method ResolveObject(id: string) returns (n: NodeId)
      requires Valid()
      modifies this, arena
      ensures Valid() && Extends(Snapshot(), old(Snapshot())) && KeysGrow(arena.nodes, old(arena.nodes))
      ensures objects.Get(id) == Some(n) && objects.data.Keys == old(objects.data.Keys) + {id}
      ensures id in old(objects.data) ==> n == old(objects.data[id]) && arena.nodes == old(arena.nodes) && objects == old(objects)
      ensures id !in old(objects.data) ==>
        n == |old(arena.nodes)| && arena.nodes == old(arena.nodes) + [Fresh(Undefined)] &&
        objects == old(objects).Put(id, n) && keyOf == old(keyOf)[n := id]
      ensures id in old(objects.data) ==> keyOf == old(keyOf)
      ensures literals == old(literals) && typeOf == old(typeOf)
    {
      if id in objects.data {
        n := objects.data[id];
        return;
      }
      ghost var before := Snapshot();
      n := arena.NewNode(Undefined);
      objects := objects.Put(id, n);
      keyOf := keyOf[n := id];
      PlaceholderAdded(schema, before, id, Snapshot());
    }

    /** The interned leaf of literal `v` under property `p` of type `t`. */
    method InternLiteral(t: string, p: string, v: Prim) returns (n: NodeId)
      requires Valid()
      modifies this, arena
      ensures Valid() && Extends(Snapshot(), old(Snapshot())) && KeysGrow(arena.nodes, old(arena.nodes))
      ensures LiteralKey(t, p, v) in literals && literals[LiteralKey(t, p, v)] == n
      ensures LiteralKey(t, p, v) in old(literals) ==>
        n == old(literals[LiteralKey(t, p, v)]) && arena.nodes == old(arena.nodes) && literals == old(literals)
      ensures LiteralKey(t, p, v) !in old(literals) ==>
        n == |old(arena.nodes)| && arena.nodes == old(arena.nodes) + [Fresh(v)] && literals == old(literals)[LiteralKey(t, p, v) := n]
      ensures objects == old(objects) && keyOf == old(keyOf) && typeOf == old(typeOf)
    {
      var lk := LiteralKey(t, p, v);
      if lk in literals {
        n := literals[lk];
        return;
      }
      ghost var before := Snapshot();
      n := arena.NewNode(v);
      literals := literals[lk := n];
      GrowthKeepsEdges(schema, before, Snapshot());
      AppendKeysGrow(before.nodes, Fresh(v));
    }

    /** Declares object `id` of type `t`, reusing a placeholder; a second, different type is refused. */
    method Declare(id: string, t: string) returns (r: Declaration)
      requires Valid() && t in schema.data
      modifies this, arena
      ensures Valid() && Extends(Snapshot(), old(Snapshot())) && KeysGrow(arena.nodes, old(arena.nodes))
      ensures r.Refused? <==>
        id in old(objects.data) && old(objects.data[id]) in old(typeOf) && old(typeOf)[old(objects.data[id])] != t
      ensures r.Refused? ==> r.error == ConflictingType(id)
      ensures r.Accepted? ==> objects.Get(id) == Some(r.node) && r.node in typeOf && typeOf[r.node] == t
      ensures typeOf == old(typeOf) || (r.Accepted? && r.node !in old(typeOf) && typeOf == old(typeOf)[r.node := t])
      ensures objects.data.Keys == old(objects.data.Keys) + {id}
      ensures arena.nodes == old(arena.nodes) || arena.nodes == old(arena.nodes) + [Fresh(Undefined)]
    {
      var n := ResolveObject(id);
      if n in typeOf {
        if typeOf[n] != t {
          return Refused(ConflictingType(id));
        }
        return Accepted(n);
      }
      ghost var before := Snapshot();
      typeOf := typeOf[n := t];
      TypeGiven(schema, before, n, t, Snapshot());
      r := Accepted(n);
    }

    /** Attaches a canonical edge to node `a`. */
    method Link(a: NodeId, p: string, key: Prim, target: NodeId)
      requires Valid() && a < |arena.nodes| && CanonicalLink(schema, Snapshot(), a, p, key, target)
      modifies arena
      ensures Valid() && Extends(Snapshot(), old(Snapshot())) && KeysGrow(arena.nodes, old(arena.nodes))
      ensures arena.nodes == old(arena.nodes)[a := old(arena.nodes)[a].Linked(p, key, target)]
    {
      ghost var before := Snapshot();
      AllWithin(arena.nodes, a, p);
      arena.Set(a, p, key, target);
      LinkKeepsCanonical(schema, before, a, p, key, target, Snapshot());
      LinkKeysGrow(before.nodes, a, p, key, target);
    }

    /** Adds literal `v` to the literal-kind property `p` of object node `a`. */
    method AddValue(a: NodeId, p: string, v: Prim)
      requires Valid() && a < |arena.nodes| && LiteralProperty(schema, Snapshot(), a, p)
      modifies this, arena
      ensures Valid() && Extends(Snapshot(), old(Snapshot())) && KeysGrow(arena.nodes, old(arena.nodes))
      ensures LiteralKey(typeOf[a], p, v) in literals
      ensures All(arena.nodes, a, p) == Assigned(All(old(arena.nodes), a, p), v, literals[LiteralKey(typeOf[a], p, v)])
      ensures v != Undefined ==> v in All(arena.nodes, a, p).data
      ensures forall b, q :: 0 <= b < |old(arena.nodes)| && (b != a || q != p) ==> arena.nodes[b].All(q) == old(arena.nodes)[b].All(q)
      ensures objects == old(objects) && keyOf == old(keyOf) && typeOf == old(typeOf)
    {
      AllWithin(arena.nodes, a, p);
      var n := InternLiteral(typeOf[a], p, v);
      AssignedKeepsKeys(All(arena.nodes, a, p), v, n);
      Link(a, p, v, n);
      KeysGrowTransitive(old(arena.nodes), old(arena.nodes), arena.nodes);
    }

    /** Adds a reference to object `id` to the object-kind property `p` of object node `a`. */
    method AddReference(a: NodeId, p: string, id: string)
      requires Valid() && a < |arena.nodes| && ObjectProperty(schema, Snapshot(), a, p)
      modifies this, arena
      ensures Valid() && Extends(Snapshot(), old(Snapshot())) && KeysGrow(arena.nodes, old(arena.nodes))
      ensures id in objects.data && objects.data.Keys == old(objects.data.Keys) + {id}
      ensures All(arena.nodes, a, p) == Assigned(All(old(arena.nodes), a, p), Str(id), objects.data[id])
      ensures Str(id) in All(arena.nodes, a, p).data
      ensures forall b, q :: 0 <= b < |old(arena.nodes)| && (b != a || q != p) ==> arena.nodes[b].All(q) == old(arena.nodes)[b].All(q)
      ensures literals == old(literals) && typeOf == old(typeOf)
    {
      AllWithin(arena.nodes, a, p);
      ghost var start := arena.nodes;
      var n := ResolveObject(id);
      ghost var mid := arena.nodes;
      AssignedKeepsKeys(All(arena.nodes, a, p), Str(id), n);
      Link(a, p, Str(id), n);
      KeysGrowTransitive(start, mid, arena.nodes);
    }

    /** Adds one value `v` of property `p`, declared as `d`, to object node `a`. */
    method AddOneValue(a: NodeId, p: string, d: PropertyDecl, v: Prim) returns (err: Option<LoadError>)
      requires Valid() && a < |arena.nodes| && a in typeOf && Declared(schema, typeOf[a], p) == Some(d)
      modifies this, arena
      ensures Valid() && Extends(Snapshot(), old(Snapshot())) && KeysGrow(arena.nodes, old(arena.nodes))
      ensures err.Some? <==> d.expected.ObjectKind? && !v.Str?
      ensures err.Some? ==> err.value == BadReference(p, v)
      ensures All(arena.nodes, a, p).keyOrder ==
        if err.Some? then All(old(arena.nodes), a, p).keyOrder else SetOrder(All(old(arena.nodes), a, p).keyOrder, v)
      ensures ListsKept(arena.nodes, old(arena.nodes), a, p)
      ensures d.expected.LiteralKind? && v == Undefined ==> Snapshot() == old(Snapshot())
      ensures typeOf == old(typeOf)
      ensures d.expected.ObjectKind? && v.Str? ==> objects.data.Keys == old(objects.data.Keys) + {v.s}
      ensures !(d.expected.ObjectKind? && v.Str?) ==> objects == old(objects)
    {
      AllWithin(arena.nodes, a, p);
      ghost var before := All(arena.nodes, a, p);
      if d.expected.LiteralKind? && v == Undefined {
        return None;
      } else if d.expected.LiteralKind? {
        AddValue(a, p, v);
        AssignedOrder(before, v, literals[LiteralKey(typeOf[a], p, v)]);
      } else if v.Str? {
        AddReference(a, p, v.s);
        AssignedOrder(before, v, objects.data[v.s]);
      } else {
        return Some(BadReference(p, v));
      }
      return None;
    }

    /**
     * Adds the values `vs` of property `p` to object node `a` of type `t`, in
     * order: each new defined value is appended to the edge list. A
     * non-string value of an object-kind property stops the run.
     */
    method AddValues(a: NodeId, t: string, p: string, d: PropertyDecl, vs: seq<Prim>) returns (err: Option<LoadError>)
      requires Valid() && a < |arena.nodes| && a in typeOf && typeOf[a] == t && Declared(schema, t, p) == Some(d)
      modifies this, arena
      ensures Valid() && Extends(Snapshot(), old(Snapshot())) && KeysGrow(arena.nodes, old(arena.nodes))
      ensures typeOf == old(typeOf) && objects.data.Keys <= old(objects.data.Keys) + RefsOf(d, vs)
      ensures ListsKept(arena.nodes, old(arena.nodes), a, p)
      ensures err.None? <==> d.expected.LiteralKind? || forall v :: v in vs ==> v.Str?
      ensures err.None? ==> All(arena.nodes, a, p).keyOrder == SetAllOrder(All(old(arena.nodes), a, p).keyOrder, vs)
      ensures err.None? ==> forall v :: v in vs && v != Undefined ==> v in All(arena.nodes, a, p).data
      ensures err.Some? ==>
        exists j :: 0 <= j < |vs| && err.value == BadReference(p, vs[j]) && d.expected.ObjectKind? && !vs[j].Str? &&
          All(arena.nodes, a, p).keyOrder == SetAllOrder(All(old(arena.nodes), a, p).keyOrder, vs[..j])
    {
      ghost var ks := All(arena.nodes, a, p).keyOrder;
      var i := 0;
      while i < |vs|
        invariant 0 <= i <= |vs|
        invariant Valid() && Extends(Snapshot(), old(Snapshot())) && KeysGrow(arena.nodes, old(arena.nodes))
        invariant a < |arena.nodes| && typeOf == old(typeOf)
        invariant objects.data.Keys <= old(objects.data.Keys) + RefsOf(d, vs)
        invariant forall m :: 0 <= m < i ==> d.expected.LiteralKind? || vs[m].Str?
        invariant All(arena.nodes, a, p).keyOrder == SetAllOrder(ks, vs[..i])
        invariant ListsKept(arena.nodes, old(arena.nodes), a, p)
      {
        ghost var prior := Snapshot();
        err := AddOneValue(a, p, d, vs[i]);
        ExtendsTransitive(old(Snapshot()), prior, Snapshot());
        KeysGrowTransitive(old(arena.nodes), prior.nodes, arena.nodes);
        ListsKeptTransitive(old(arena.nodes), prior.nodes, arena.nodes, a, p);
        if err.Some? {
          return;
        }
        if d.expected.ObjectKind? && vs[i].Str? {
          assert vs[i].s in RefsOf(d, vs);
        }
        assert d.expected.LiteralKind? || vs[i].Str?;
        SetAllOrderSnoc(ks, vs, i);
        assert forall m :: 0 <= m < i + 1 ==> d.expected.LiteralKind? || vs[m].Str?;
        assert All(arena.nodes, a, p).keyOrder == SetAllOrder(ks, vs[..i + 1]);
        i := i + 1;
      }
      assert vs[..i] == vs;
      AllWithin(arena.nodes, a, p);
      return None;
    }

    /** Declares object `o`, then adds its values property by property. */
    method AddObject(o: ObjectDecl) returns (err: Option<LoadError>)
      requires Valid()
      modifies this, arena
      ensures Valid() && AddedObject(schema, old(Snapshot()), Snapshot(), o, err)
    {
      if o.typeId !in schema.data {
        return Some(UnknownType(o.typeId));
      }
      var r := Declare(o.id, o.typeId);
      if r.Refused? {
        return Some(r.error);
      }
      var a := r.node;
      ObjectStart(schema, old(Snapshot()), Snapshot(), o, a);
      err := None;
      var j := 0;
      while j < |o.values| && err.None?
        invariant Valid() && ObjectProgress(schema, old(Snapshot()), Snapshot(), o, a, j, err)
        decreases |o.values| - j, if err.None? then 1 else 0
      {
        var (p, vs) := o.values[j];
        var d := Declared(schema, o.typeId, p);
        if d.None? {
          UndeclaredStep(schema, old(Snapshot()), Snapshot(), o, a, j);
          err := Some(UnknownProperty(o.typeId, p));
        } else {
          ghost var prior := Snapshot();
          err := AddValues(a, o.typeId, p, d.value, vs);
          PropertyStep(schema, old(Snapshot()), prior, Snapshot(), o, a, j, d.value, err);
          if err.None? {
            j := j + 1;
          }
        }
      }
      ObjectFinished(schema, old(Snapshot()), Snapshot(), o, a, j, err);
    }

    /**
     * Builds the objects of `doc` in order. A reference may name an object
     * declared later; one still undeclared at the end is reported.
     */
    method Load(doc: seq<ObjectDecl>) returns (err: Option<LoadError>)
      requires Valid()
      modifies this, arena
      ensures Valid() && Extends(Snapshot(), old(Snapshot())) && KeysGrow(arena.nodes, old(arena.nodes))
      ensures err == None ==> forall o :: o in objects.data ==> objects.data[o] in typeOf
      ensures err == None ==> forall i :: 0 <= i < |doc| ==>
        DeclaredAs(Snapshot(), doc[i].id, doc[i].typeId) && ObjectLinked(Snapshot(), doc[i])
      ensures err.Some? ==> DocError(schema, old(Snapshot()), Snapshot(), doc, err.value)
      ensures old(objects.data) == map[] && old(typeOf) == map[] && WellFormed(schema, doc) ==> err == None
      ensures err == None && old(typeOf) == map[] && DistinctIds(doc) ==> DocBuilt(Snapshot(), doc, |doc|)
    {
      err := LoadObjects(doc);
      if err.None? {
        err := FindUnresolved();
        if err.Some? {
          var id := err.value.id;
          forall k | 0 <= k < |doc|
            ensures doc[k].id != id
          {
            assert DeclaredAs(Snapshot(), doc[k].id, doc[k].typeId);
          }
          assert id !in DocIds(doc);
        }
      }
      if err.Some? && old(objects.data) == map[] && old(typeOf) == map[] {
        DocErrorIllFormed(schema, old(Snapshot()), Snapshot(), doc, err.value);
      }
    }

    /** Adds the objects of `doc` in order, stopping at the first error. */
    method LoadObjects(doc: seq<ObjectDecl>) returns (err: Option<LoadError>)
      requires Valid()
      modifies this, arena
      ensures Valid() && LoadProgress(schema, old(Snapshot()), Snapshot(), doc, |doc|, err)
    {
      err := None;
      var i := 0;
      ProgressStart(schema, Snapshot(), doc);
      while i < |doc| && err.None?
        invariant 0 <= i <= |doc| && Valid()
        invariant LoadProgress(schema, old(Snapshot()), Snapshot(), doc, i, err)
        decreases |doc| - i
      {
        ghost var prior := Snapshot();
        err := AddObject(doc[i]);
        DocStep(schema, old(Snapshot()), prior, Snapshot(), doc, i, err);
        i := i + 1;
      }
      ProgressWidened(schema, old(Snapshot()), Snapshot(), doc, i, err);
    }

    /** The first object, in order of first mention, that was referenced but never declared. */
    method FindUnresolved() returns (err: Option<LoadError>)
      requires Valid()
      ensures err == None <==> forall o :: o in objects.data ==> objects.data[o] in typeOf
      ensures err.Some? ==> err.value.Unresolved? && err.value.id in objects.data && objects.data[err.value.id] !in typeOf
    {
      var k := 0;
      while k < |objects.keyOrder|
        invariant 0 <= k <= |objects.keyOrder|
        invariant forall m :: 0 <= m < k ==> objects.data[objects.keyOrder[m]] in typeOf
      {
        var id := objects.keyOrder[k];
        if objects.data[id] !in typeOf {
          return Some(Unresolved(id));
        }
        k := k + 1;
      }
      forall o | o in objects.data
        ensures objects.data[o] in typeOf
      {
        var m := IndexOf(objects.keyOrder, o);
      }
      return None;
    }
  }
}
