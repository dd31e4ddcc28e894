# Data.js core, modelled in Dafny

This project models the core of Data.js, a JavaScript "utility belt for data manipulation". It has four parts.

- **`Data.SortedHash`** — an ordered map (ordered_map.dfy, sorted_hash.dfy).
  - It keeps its keys in insertion order.
  - `set` and `del` change it in place.
  - `get`, `at`, `key`, `each`, `values`, `first` and `last` read it.
  - `clone`, `sort`, `map`, `select`, `intersect` and `union` return new maps and leave their operands alone.
  - `null` is a key like any other; `undefined` is never a key.
- **`Data.Node`** — a payload `val` plus, per property name, an ordered edge list keyed by edge key (node.dfy).
  - It has the accessors `set`, `all`, `get`, `first`, `values` and `value`.
  - Nodes live in an `Arena` and edges hold arena ids, so many edges may share a target.
- **`Data.Graph`** — a schema of types and typed properties over one arena (schema_graph.dfy).
  - It has two identity indices:
    - every object id resolves to exactly one node;
    - every literal of a (type, property) pair is interned as exactly one leaf.
  - Schema-driven `get(p)` dispatches on four cases: unique or non-unique, value or object.
  - `Graph.Load` builds a graph from a document of object declarations and keeps the identity invariant throughout.
- **The live-query dispatcher of server.js** (dispatch.dfy).
  - A `Registry` holds the `channels` dictionary, the subscriber groups and a log of broadcasts.
  - `watch` and `unwatch` update the registry.
  - `dispatchUpdates` runs nested loops that match every written node against every channel's query. It then sends one broadcast per channel that matched something, carrying exactly the nodes it matched.

The implementation module `data` (required at server.js:2) is not part of this model. The behaviour of `SortedHash`, `Node` and `Graph` is taken from the assertions of test/testsuite.js; the dispatcher follows server.js line by line.

Modelling choices:

- **JavaScript values.** They are the datatype `Prim` in sorted_hash.dfy: `Undefined | Null | Bool | Num | Str`, with numbers as unbounded integers.
- **Missing results.** A missing key or out-of-range index gives `None`. A stored `undefined` value gives `Some(Undefined)`, so the model tells apart what JavaScript conflates.
- **JavaScript dictionaries.** `channels` and `notifications` become the same ordered map. Assigning to an existing key keeps its position, and a new key goes last, as JavaScript's object iteration order does for non-numeric string keys.
- **`Data.matches`.** It is a parameter `matches: (N, Q) -> bool`. Nodes and queries are the type parameters `N` and `Q`.
- **Broadcasts.** `nowjs.getGroup(name).now.update(name, nodes)` becomes one `Delivery` appended to the registry's log. The delivery records the group's members at that moment.

## Model

| member | source | states |
|---|---|---|
| OrderedMaps.OMap.Put | test/testsuite.js:55-66 | A new key is appended and length grows by one. An existing key keeps its position and the length, and only its value changes. No other key's value changes. |
| OrderedMaps.OMap.Get | test/testsuite.js:48-51 | `get(k)` is defined exactly when `k` is a key, and then it is the value stored under `k`; a missing key gives `undefined`. |
| OrderedMaps.OMap.Key | test/testsuite.js:73-76 | `key(i)` is defined exactly for `0 <= i < length`. |
| OrderedMaps.OMap.Length | test/testsuite.js:35 | `length` is the number of keys in iteration order; `AccessorsAgree` states that it counts the entries. |
| OrderedMaps.AccessorsAgree | test/testsuite.js:21-36 | In a valid map `length` is the number of entries, `get(k)` is defined exactly for the keys of the iteration order, and `key(i)` names a present key that no earlier position names. |
| OrderedMaps.OMap.At | test/testsuite.js:24-27 | `at(i)` is defined exactly for `0 <= i < length`, and it is the value stored under `key(i)`. |
| OrderedMaps.OMap.Values | test/testsuite.js:137-144 | `values()` has one element per entry, and element `i` is `at(i)`. |
| OrderedMaps.OMap.Each | test/testsuite.js:127-135 | The `i`-th callback of `each` receives `(at(i), key(i), i)`. |
| OrderedMaps.OMap.First | test/testsuite.js:113 | `first()` is defined exactly when the map is non-empty. |
| OrderedMaps.OMap.Last | test/testsuite.js:114 | `last()` is defined exactly when the map is non-empty. |
| OrderedMaps.OMap.Remove | test/testsuite.js:118-124 | `del(k)` leaves a valid map; `get(k)` is undefined afterwards and every other key keeps its value. Length drops by one exactly when `k` was present. The remaining keys keep their relative order. |
| OrderedMaps.OMap.Map | test/testsuite.js:164-180 | `map(f)` has the same key order, and each key holds `f` of its old value. The receiver is a value and is never changed. |
| OrderedMaps.OMap.Select | test/testsuite.js:184-198 | `select(p)` holds exactly the entries that satisfy `p`, each with its value, in their original relative order. |
| OrderedMaps.OMap.Sort | test/testsuite.js:147-160 | `sort(cmp)` holds the same entries and permutes the key order. When `cmp` is a consistent comparator on the values, the values come out ordered by `cmp`. |
| OrderedMaps.OMap.Intersect | test/testsuite.js:201-222 | `intersect(other)` holds exactly the keys both maps share, with the receiver's values, in the receiver's order. It is no longer than either operand. |
| OrderedMaps.OMap.Union | test/testsuite.js:225-248 | `union(other)` holds every key of either map; where both have a key, the receiver's value wins. Its length is `length + |keys(other) \ keys(self)|`. It starts with the receiver's key order and continues with `other`'s remaining keys in `other`'s order. |
| OrderedMaps.PutAllInInsertionOrder | test/testsuite.js:73-76 | After inserting distinct keys, `key(i)` and `at(i)` are the `i`-th inserted key and value, and the length is their number. |
| OrderedMaps.IterationInInsertionOrder | test/testsuite.js:79-116 | `values()`, `each`, `first()` and `last()` all follow insertion order. |
| OrderedMaps.PutRemoveInverse | test/testsuite.js:118-124 | `del` of a freshly `set` key gives back exactly the map before the `set`. |
| OrderedMaps.SelectAll | test/testsuite.js:184-198 | `select` with a predicate that every entry satisfies gives back the same map, order included. |
| OrderedMaps.InsertKeySorted | test/testsuite.js:155 | Inserting a key into a key sequence already sorted by a consistent comparator keeps the sequence sorted (the core step of `sort`). |
| SortedHashes.SetEffect | test/testsuite.js:55-66 | `set` with an undefined key changes nothing. `set` with a new key appends it. `set` with an existing key keeps the key order. In both defined cases `get(key)` then returns the new value. |
| SortedHashes.SetAllOrder | test/testsuite.js:55-66 | After a run of `set`s the keys are exactly the old keys plus the defined keys set, and the old key order is a prefix of the new one. |
| SortedHashes.SetAllOrderFresh | test/testsuite.js:430-433 | `set`ting distinct new defined keys one after the other appends them in exactly that order. |
| SortedHashes.SetAllOrderAppend | test/testsuite.js:55-66 | Setting one run of keys and then another gives the key order of setting both runs as one. |
| SortedHashes.FailPrevention | test/testsuite.js:251-259 | A `null` key, a stored `null` and a stored `undefined` each add one entry; an `undefined` key adds none. So two entries become five. |
| SortedHashes.GreaterIsStrictTotalOrder | test/testsuite.js:155 | The `>` behind `Data.Comparators.DESC` is irreflexive, total on distinct values and transitive. |
| SortedHashes.Descending | test/testsuite.js:155 | `Data.Comparators.DESC(a, b)` is negative exactly when `a > b`, zero exactly when `a` and `b` are equal, and positive exactly when `b > a`. |
| SortedHashes.SortDescending | test/testsuite.js:155-159 | `sort(DESC)` keeps the entries. Each value in the result is greater than or equal to every value after it. |
| SortedHashes.SortedHash.constructor | test/testsuite.js:12 | A new hash is valid and empty. |
| SortedHashes.SortedHash.FromArray | test/testsuite.js:21-36 | Construction from an array gives keys `0 .. n-1` in order, and `get(i)` and `at(i)` are element `i`. |
| SortedHashes.SortedHash.FromObject | test/testsuite.js:38-52 | Construction from an object holds exactly its properties under string keys, and its length is their number. |
| SortedHashes.SortedHash.Set | test/testsuite.js:55-66 | The object's new state is `Assigned(old state, key, value)`: the undefined key is rejected, a new key is appended, and an existing key is overwritten in place. |
| SortedHashes.SortedHash.Del | test/testsuite.js:118-124 | The linear search plus cut leaves exactly `old state.Remove(key)`. |
| SortedHashes.SortedHash.Clone | test/testsuite.js:68-71 | `clone()` is a fresh object with the same entries in the same order. |
| Nodes.NodeRec.Linked | test/testsuite.js:285-288 | `set(p, key, node)` assigns into `p`'s edge list as `SortedHash.set` does. Every other property and the payload stay as they were. |
| Nodes.All | test/testsuite.js:297-322 | `all(p)` of a property without edges is the empty hash. In a closed arena it is a sorted hash whose every edge targets a node of the arena. |
| Nodes.GetEdge | test/testsuite.js:301-302 | `get(p, key)` is defined exactly when `key` labels an edge of `p`, and then it is a node of the arena. |
| Nodes.First | test/testsuite.js:305-308 | `first(p)` is `all(p).at(0)`. It is defined exactly when `p` has an edge, and it is the target of the first edge key. |
| Nodes.Values | test/testsuite.js:329-340 | `values(p)` has `all(p)`'s key order, and each key's value is the payload of its target. |
| Nodes.Value | test/testsuite.js:342-350 | `value(p)` is the payload of `first(p)`, and undefined when there is no edge. |
| Nodes.LinkAllInOrder | test/testsuite.js:295-303 | Successive `set`s on a fresh property build exactly the sorted hash of those edges, in that order. |
| Nodes.LinkedEdgesFollowInsertionOrder | test/testsuite.js:295-303 | With distinct keys, `all(p).key(i)`, `all(p).at(i)` and `get(p, key_i)` give the `i`-th edge set. |
| Nodes.TwoLinks | test/testsuite.js:285-286 | Setting `at` and then `ger` on a fresh property gives the key order `[at, ger]` with those two targets. |
| Nodes.TwoEdgeAccessors | test/testsuite.js:295-350 | On that node, `all(p).at(1)`, `get(p, "ger")`, `first(p)`, `values(p).get("ger")` and `value(p)` give the German node, the German node, the Austrian node, "German" and "Austrian". |
| Nodes.Arena.NewNode | test/testsuite.js:269-282 | `new Data.Node(...)` appends a node with that payload and no edges, and returns its id. |
| Nodes.Arena.Set | test/testsuite.js:285-288 | Only node `a` changes, to `a.Linked(p, key, target)`, and every edge still targets a node of the arena. |
| SchemaGraph.Declared | test/testsuite.js:397-401 | A property declaration is found exactly when the type is in the schema and declares the property. |
| SchemaGraph.KindOf | test/testsuite.js:416-420 | The access scenario is unique exactly when the property is unique, and value-typed exactly when it expects a literal. |
| SchemaGraph.SchemaGet | test/testsuite.js:416-453 | `get(p)` is undeclared exactly when `p` is not declared on the object's type. Otherwise it delegates: unique value to `value(p)`, non-unique value to `values(p)`, unique object to `first(p)`, non-unique object to `all(p)`. |
| SchemaGraph.UniqueValueIsLiteral | test/testsuite.js:422-428 | In a canonical graph, a unique value property reads as the very literal that keys its first edge. |
| SchemaGraph.MultiValueIsLiterals | test/testsuite.js:430-437 | A non-unique value property reads as its literals, each stored under itself, in edge order. |
| SchemaGraph.UniqueObjectIsReferenced | test/testsuite.js:439-444 | A unique object property reads as the one node of the object its first edge names, and that node's `key` is the object id. |
| SchemaGraph.MultiObjectIsReferenced | test/testsuite.js:446-453 | A non-unique object property reads as `all(p)`, and every edge targets the node registered for the object id that keys it. |
| SchemaGraph.ReferenceTarget | test/testsuite.js:439-453 | Each object-property edge is keyed by an object id. Its target is that object's node, and the node's `key` is that id. |
| SchemaGraph.LiteralTarget | test/testsuite.js:482-487 | Each value-property edge targets the interned leaf of its key, and that leaf's payload is the key. |
| SchemaGraph.EdgesOnlyWhereDeclared | test/testsuite.js:416-420 | Only typed nodes have edges, and only under properties their type declares. |
| SchemaGraph.ReferencesShareNode | test/testsuite.js:455-457 | Two edges naming the same object id reach the same node, from any nodes and any properties. |
| SchemaGraph.LiteralsShareNode | test/testsuite.js:482-487 | When two objects of one type hold the same literal under one property, the two edges reach the same leaf, whose payload is that literal. |
| SchemaGraph.DistinctObjectsDistinctNodes | test/testsuite.js:403-413 | Two object ids share a node exactly when they are the same id. |
| SchemaGraph.LinkKeepsCanonical | test/testsuite.js:455-457 | Adding an edge whose key names its target keeps the whole graph canonical. |
| SchemaGraph.Graph.constructor | test/testsuite.js:374 | A new graph over a schema is empty and canonical. |
| SchemaGraph.Graph.ResolveObject | test/testsuite.js:403-408 | Resolving an id returns its one node. A known id returns the same node with nothing changed. A first reference appends one untyped placeholder and records the id as its `key`. |
| SchemaGraph.Graph.InternLiteral | test/testsuite.js:482-487 | A literal of a (type, property) pair resolves to its one leaf. A repeat returns the same leaf; the first occurrence appends one leaf with that payload. |
| SchemaGraph.Graph.Declare | test/testsuite.js:403-413 | Declaring an object gives its node the type, reusing an earlier placeholder. The declaration is refused exactly when the id already has a different type. The arena either stays as it was or gains one untyped placeholder without edges. |
| SchemaGraph.Graph.Link | test/testsuite.js:285-288 | Adding a canonical edge changes exactly that node's edge list, keeps the graph canonical, and keeps every earlier payload and index entry. |
| SchemaGraph.Graph.AddValue | test/testsuite.js:482-487 | A literal value becomes an edge keyed by the literal, targeting its interned leaf. Earlier edges and every other edge list stay. |
| SchemaGraph.Graph.AddReference | test/testsuite.js:455-457 | A reference becomes an edge keyed by the object id, targeting that object's one node. Earlier edges and every other edge list stay. |
| SchemaGraph.Graph.AddOneValue | test/testsuite.js:416-453 | A value of an object-kind property is refused exactly when it is not an id string; a refusal names that value and leaves the edge list as it was. Otherwise one `set` moves the key order on: a new defined value goes last, a repeated or undefined one changes nothing. An undefined value of a literal property leaves the whole graph unchanged, so no leaf is interned for it. No other edge list of any node changes, no type changes, and only a reference adds an object id, its own. |
| SchemaGraph.Graph.AddValues | test/testsuite.js:430-437 | The values are added in list order. On success the edge list's key order is the old order followed by each new defined value in order of first occurrence, and every defined value is a key. It fails exactly when the property expects objects and some value is not a string. The refusal names such a value, and the values before it have been added in order. No other edge list of any node changes, and only the ids the values refer to may become objects. |
| SchemaGraph.Graph.AddObject | test/testsuite.js:403-413 | Every error is justified by the object itself or, for a type conflict, by the type its id already had. An unknown type is the object's type; an undeclared property is one of its properties; a bad reference is one of its non-string values under an object-kind property. On success the object has its declared type and every defined value it lists is an edge of its node. For every property, its node's key order is the old one moved on by exactly the values the object lists for that property, in order (`ValuesFor`). Every other old node keeps every edge list. Only the object's own node may gain a type, and only it and the ids it refers to may become objects. |
| SchemaGraph.Graph.Load | test/testsuite.js:372-449 | Loading keeps the graph canonical and loses no edge. On success every object of the document has its declared type, every defined value it lists is an edge of its node, and no object is left untyped. Loading distinct ids into a graph with no typed node gives each object's node, for every property, exactly the key order of `set`ting its values for that property into an empty hash (`DocBuilt`). Every error is justified by the document or by the graph loaded into: a type, property or value of one of the document's objects; an id typed differently by an earlier object or by the graph; or an untyped id that the document never declares but refers to or the graph already knew. A well-formed document loads into an empty graph without error. |
| SchemaGraph.Graph.LoadObjects | test/testsuite.js:372-379 | Adding the document's objects in order keeps the graph canonical. On success every object is declared, linked and, in the fresh case, built from nothing. An error is justified by the document or by the graph loaded into. |
| SchemaGraph.Graph.FindUnresolved | test/testsuite.js:403-408 | It reports nothing exactly when every referenced id was declared. A report names an id that was referenced but never typed. |
| SchemaGraph.PlaceholderAdded | test/testsuite.js:403-408 | A first reference adds an untyped node for the id and nothing else: the graph stays canonical, every earlier entry and edge stays, and exactly that id is new among the objects. |
| SchemaGraph.DocErrorIllFormed | test/testsuite.js:372-379 | Loading into an empty graph can fail only when the document is not well formed: an unknown type or property, a non-id reference, one id with two types, or a reference to an id the document never declares. |
| SchemaGraph.ValuesFor | test/testsuite.js:430-433 | Every value given to a property by an object's property lists occurs in one of that property's lists. |
| SchemaGraph.DeclaredStart | test/testsuite.js:403-408 | Right after a declaration the object's node has taken none of its values yet, and no other node has changed. |
| SchemaGraph.BuiltStep | test/testsuite.js:430-437 | Adding one more property list of the object moves that property's key order by exactly its values, and keeps every other property and every other old node. |
| SchemaGraph.DocBuiltStep | test/testsuite.js:430-449 | With distinct ids, loaded into a graph with no typed node, the next object's node starts without edges, and building it leaves every earlier object's node alone. |
| SchemaGraph.DocStep | test/testsuite.js:372-379 | Adding one more object of the document keeps every promise of loading: growth, typing only by the document, the loaded prefix, justified errors and built edge lists. |
| SchemaGraph.BuiltListsAreValues | test/testsuite.js:430-449 | After such a load, an object whose values for a property are distinct and defined has exactly those values as that property's key order, in order. |
| SchemaGraph.TypeGiven | test/testsuite.js:403-413 | Giving an untyped node a declared type keeps the graph canonical and changes nothing else. |
| SchemaGraph.ObjectStart | test/testsuite.js:403-408 | Once the object is declared, its property loop starts with no value added and no error: the graph only grew, the object's node has its type, and only that node may be newly typed. |
| SchemaGraph.UndeclaredStep | test/testsuite.js:403-413 | A property its type does not declare ends the object with an error naming that type and that property, one of the object's own. |
| SchemaGraph.PropertyStep | test/testsuite.js:430-437 | Adding one property list keeps the object's promises: on success one more list is built into its node; a refusal names one of the object's non-id values under an object-kind property. |
| SchemaGraph.ObjectFinished | test/testsuite.js:403-413 | A property loop that ended without error after all lists, or with an error, gives exactly what adding an object promises. |
| SchemaGraph.ProgressWidened | test/testsuite.js:372-379 | A load stopped early by an error keeps its promises for the whole document. |
| SchemaGraph.NextNodeUntyped | test/testsuite.js:403-413 | With distinct ids, loaded into a graph with no typed node, the next object's node is none that an earlier object typed. |
| SchemaGraph.UntypedWithoutEdges | test/testsuite.js:416-420 | In a canonical graph an untyped node has an empty key order under every property. |
| SchemaGraph.EarlierBuiltKept | test/testsuite.js:446-449 | Building the next object's node leaves every earlier object's lists as they were built. |
| Dispatch.MatchingKeys | server.js:55-59 | The reference batch of a query: the node keys whose nodes match it, in the order of the nodes. |
| Dispatch.NotifyEffect | server.js:57-60 | One inner-loop round changes only the entry of the channel it looks at, and only when the node matches its query. |
| Dispatch.ScanChannelsEffect | server.js:56-61 | The inner loop gives every matching channel one more entry under the node's key and leaves every other channel's entry as it was. |
| Dispatch.NotificationsExact | server.js:51-62 | After the nested loops, a channel has a `notifications` entry exactly when some node matched its query. The entry lists exactly the matching (key, node) pairs, in node order. |
| Dispatch.DeliveryAt | server.js:65-67 | Each broadcast goes to a registered channel's group members and carries that channel's whole non-empty batch. |
| Dispatch.Deliveries | server.js:65-67 | The second loop makes one broadcast per `notifications` entry, in entry order, each to the channel that entry names. |
| Dispatch.DeliveriesExact | server.js:51-67 | Every channel with a match gets exactly one broadcast: to its current group members, carrying exactly its matching nodes in order. A channel that matched nothing gets none. |
| Dispatch.Registry.constructor | server.js:45 | The registry starts with no channels, no groups and no broadcasts. |
| Dispatch.Registry.Watch | server.js:71-80 | `channels[name]` becomes `{name, group: name, query}`, replacing an earlier entry in place. The caller joins group `name`, and nothing is broadcast. |
| Dispatch.Registry.Unwatch | server.js:82-86 | The caller leaves group `name`, and the channel entry stays even when the group is left empty. |
| Dispatch.Registry.CollectNotifications | server.js:51-62 | The nested loops compute exactly `Notifications(nodes, channels)`, whose meaning `NotificationsExact` states. |
| Dispatch.Registry.DispatchUpdates | server.js:51-67 | The log grows by exactly the broadcasts `DeliveriesExact` describes, and the channels and groups stay unchanged. |

## Left out

- The `data` module's own source (server.js:2) is not part of this model. `SortedHash`, `Node` and `Graph` behave as the test suite asserts, not as an implementation that was read.
- The HTTP endpoints, JSON-P formatting and query-string parsing (server.js:10-35) are I/O plumbing.
- The nowjs transport — `initialize`, `connected`, `disconnected`, `getGroup` and the remote `update` call — is foreign library code. A broadcast is a `Delivery` in the log, and a group is its member set.
- `Data.matches` (server.js:57) is left uninterpreted: its query grammar is not shown.
- The adapter's `read` and `write` (server.js:89-104) are asynchronous I/O. So are the `watch` callback (server.js:79) and the second, unconditional callback at server.js:103. Their effects, such as calling `dispatchUpdates` with the written graph, are not modelled.
- Concurrency is not modelled: between the two loops of `dispatchUpdates` nothing else may run, and each operation is one atomic step.
- The regex query of the test suite (test/testsuite.js:470-479) is left out: regular expressions are not modelled.
- Graph traversal (test/testsuite.js:460-467) and the counts of 3 types, 4 properties and 6 author values (test/testsuite.js:383, 392, 492) depend on a document fixture that is not part of this model. The traversal step they rely on is `UniqueObjectIsReferenced`/`MultiObjectIsReferenced`.
- The schema is plain data. In Data.js types and properties are themselves nodes reachable through `graph.get('types', ...)` and `type.get('properties', ...)` (test/testsuite.js:381-401); here they are the `Schema` value with `Declared` and `KindOf`.
- SchemaGraph.Graph.Load: the error kinds `UnknownType`, `UnknownProperty`, `ConflictingType`, `BadReference` and `Unresolved` are choices of this model, and so is stopping at the first one. The test suite only loads a well-formed fixture, so how Data.js reacts to other documents is not known.
- SortedHashes.SortedHash.FromObject: fixes no key order, because the order in which a JavaScript object yields its properties is not determined (test/testsuite.js:45-47).
- SortedHashes.Greater: orders values of different kinds by kind, after `undefined`, `null`, booleans and numbers in that order; JavaScript's `>` coerces instead. The test suite compares strings only, and cross-kind comparison is not modelled.
- SortedHashes.StrLess: compares strings by Unicode scalar values, while JavaScript compares UTF-16 code units. The two orders differ for a character above U+FFFF compared with one in U+E000–U+FFFF.
- SortedHashes.Prim: `null` is a key distinct from the string `"null"`, and a number key such as `Num(0)` (the keys construction from an array uses) is distinct from the string `"0"`. A plain JavaScript object would coerce each pair to the same property name, and the test suite does not tell them apart.
- Dispatch.NotificationsExact: JavaScript iterates an object's integer-like property names (`"0"`, `"17"`) in ascending numeric order before all other names. The model keeps every name in insertion order, so for channel names or node keys that look like integers the order of `notifications`, and of the broadcasts in Dispatch.DeliveriesExact, may differ from Data.js's.
- Dispatch.NotificationsExact: names inherited from `Object.prototype` are outside the model. For a node key or channel name such as `"constructor"` or `"toString"`, server.js:58 finds a truthy built-in, line 59 writes the keys onto it, and line 66 broadcasts it. A channel named `"__proto__"` replaces the prototype at line 74, so `_.each` never visits it and it gets no broadcast.
- Numbers are unbounded integers: floating point and `NaN` are not modelled.
- The statements at test/testsuite.js:62 and 101-103 are comparisons without an assertion, so no behaviour is derived from them.
- SortedHashes.SortedHash.Clone: copies the entries, not the values; stored objects stay shared, as they are in JavaScript.
