/**
 * The live-query side of server.js: a registry of named channels, each
 * with a subscriber group and a query, and `dispatchUpdates`, which matches
 * a batch of written nodes against every channel's query and broadcasts to
 * each channel that matched something exactly the nodes it matched.
 *
 * Nodes and queries are opaque here (type parameters `N` and `Q`), and
 * `Data.matches` is a parameter `matches: (N, Q) -> bool`. A broadcast is
 * recorded by appending a `Delivery` to the registry's log.
 */
module Dispatch {
  import opened OrderedMaps

  type ClientId = string

  /** A channel entry: the channel's name, the name of its subscriber group, and its query. */
  datatype Channel<Q> = Channel(name: string, group: string, query: Q)

  /** One `update(groupName, nodes)` broadcast, with the group members it reached. */
  datatype Delivery<N> = Delivery(group: string, recipients: set<ClientId>, batch: OMap<string, N>)

  /** The `notifications` dictionary: channel name to the batch of (key, node) entries for it. */
  type Notes<N> = OMap<string, OMap<string, N>>

  ghost predicate NotesValid<N>(notes: Notes<N>) {
    notes.Valid() && forall nm :: nm in notes.data ==> notes.data[nm].Valid()
  }

  /** Every channel is stored under its own name. */
  ghost predicate NamedBy<Q>(channels: map<string, Channel<Q>>) {
    forall nm :: nm in channels ==> channels[nm].name == nm
  }

  /** The members of group `name`; a group nobody joined is empty. */
  function Members(groups: map<string, set<ClientId>>, name: string): set<ClientId> {
    if name in groups then groups[name] else {}
  }

  /** The entry of channel `nm`, empty when it has none. */
  function Lookup<N>(notes: Notes<N>, nm: string): (r: OMap<string, N>)
    requires NotesValid(notes)
    ensures r.Valid()
  {
    if nm in notes.data then notes.data[nm] else Empty()
  }

  // ---------------------------------------------------------------------------
  // What the nested loops compute
  // ---------------------------------------------------------------------------

  /** The body of the inner loop: channel `c` sees `node` under `key`. */
  function Notify<N, Q>(notes: Notes<N>, key: string, node: N, c: Channel<Q>, matches: (N, Q) -> bool): (r: Notes<N>)
    requires NotesValid(notes)
    ensures NotesValid(r)
  {
    if matches(node, c.query) then notes.Put(c.name, Lookup(notes, c.name).Put(key, node)) else notes
  }

  /** The inner loop: every channel in `names`, in order, sees `node` under `key`. */
  function ScanChannels<N, Q>(notes: Notes<N>, key: string, node: N, names: seq<string>,
                              channels: map<string, Channel<Q>>, matches: (N, Q) -> bool): (r: Notes<N>)
    requires NotesValid(notes) && forall nm :: nm in names ==> nm in channels
    ensures NotesValid(r)
    decreases |names|
  {
    if names == [] then notes
    else
      var prev := ScanChannels(notes, key, node, names[..|names| - 1], channels, matches);
      Notify(prev, key, node, channels[names[|names| - 1]], matches)
  }

  /** The outer loop over the node keys `keys`, starting from no notifications. */
  function Notifications<N, Q>(nodes: OMap<string, N>, keys: seq<string>,
                               channels: OMap<string, Channel<Q>>, matches: (N, Q) -> bool): (r: Notes<N>)
    requires channels.Valid() && forall k :: k in keys ==> k in nodes.data
    ensures NotesValid(r)
    decreases |keys|
  {
    if keys == [] then Empty()
    else
      var k := keys[|keys| - 1];
      ScanChannels(Notifications(nodes, keys[..|keys| - 1], channels, matches), k, nodes.data[k],
                   channels.keyOrder, channels.data, matches)
  }

  /** The reference definition of a channel's batch: the keys whose nodes match `q`, in order. */
  function MatchingKeys<N, Q>(nodes: map<string, N>, keys: seq<string>, q: Q, matches: (N, Q) -> bool): (r: seq<string>)
    requires forall k :: k in keys ==> k in nodes
    ensures forall k :: k in r <==> k in keys && matches(nodes[k], q)
    decreases |keys|
  {
    if keys == [] then []
    else
      var k := keys[|keys| - 1];
      MatchingKeys(nodes, keys[..|keys| - 1], q, matches) + (if matches(nodes[k], q) then [k] else [])
  }

  lemma PutAppends<V>(m: OMap<string, V>, k: string, v: V)
    requires m.Valid() && k !in m.data
    ensures m.Put(k, v).keyOrder == m.keyOrder + [k]
  {
  }

  /**
   * The inner loop gives every listed channel that matches the node one more
   * entry under `key`, and leaves every other channel's entry as it was.
   */
  lemma {:induction false} ScanChannelsEffect<N, Q>(notes: Notes<N>, key: string, node: N, names: seq<string>,
                                                    channels: map<string, Channel<Q>>, matches: (N, Q) -> bool)
    requires NotesValid(notes) && Distinct(names) && NamedBy(channels)
    requires forall nm :: nm in names ==> nm in channels
    ensures forall nm :: nm in names && matches(node, channels[nm].query) ==>
      ScanChannels(notes, key, node, names, channels, matches).Get(nm) == Some(Lookup(notes, nm).Put(key, node))
    ensures forall nm :: !(nm in names && matches(node, channels[nm].query)) ==>
      ScanChannels(notes, key, node, names, channels, matches).Get(nm) == notes.Get(nm)
    decreases |names|
  {
    if names != [] {
      var init := names[..|names| - 1];
      var last := names[|names| - 1];
      assert forall nm :: nm in init ==> nm in names;
      assert last !in init by {
        assert forall i :: 0 <= i < |init| ==> init[i] == names[i];
      }
      assert forall nm :: nm in names <==> nm in init || nm == last;
      ScanChannelsEffect(notes, key, node, init, channels, matches);
      var prev := ScanChannels(notes, key, node, init, channels, matches);
      NotifyEffect(prev, key, node, channels[last], matches);
    }
  }

  /** One round of the inner loop touches only the entry of the channel it looks at. */
  lemma NotifyEffect<N, Q>(notes: Notes<N>, key: string, node: N, c: Channel<Q>, matches: (N, Q) -> bool)
    requires NotesValid(notes)
    ensures forall nm ::
              Notify(notes, key, node, c, matches).Get(nm) ==
              if nm == c.name && matches(node, c.query) then Some(Lookup(notes, nm).Put(key, node)) else notes.Get(nm)
  {
  }

  /** A channel has an entry exactly when some node seen so far matched its query. */
  ghost predicate ExactDomain<N, Q>(notes: Notes<N>, nodes: OMap<string, N>, keys: seq<string>,
                                    channels: map<string, Channel<Q>>, matches: (N, Q) -> bool)
    requires forall k :: k in keys ==> k in nodes.data
  {
    forall nm :: nm in notes.data <==> nm in channels && MatchingKeys(nodes.data, keys, channels[nm].query, matches) != []
  }

  /** A channel's entry lists the matching keys seen so far, in order. */
  ghost predicate ExactOrder<N, Q>(notes: Notes<N>, nodes: OMap<string, N>, keys: seq<string>,
                                   channels: map<string, Channel<Q>>, matches: (N, Q) -> bool)
    requires NotesValid(notes) && forall k :: k in keys ==> k in nodes.data
  {
    forall nm :: nm in channels ==> Lookup(notes, nm).keyOrder == MatchingKeys(nodes.data, keys, channels[nm].query, matches)
  }

  /** A channel's entry maps each matching key seen so far to its node, and nothing else. */
  ghost predicate ExactContents<N, Q>(notes: Notes<N>, nodes: OMap<string, N>, keys: seq<string>,
                                      channels: map<string, Channel<Q>>, matches: (N, Q) -> bool)
    requires NotesValid(notes) && forall k :: k in keys ==> k in nodes.data
  {
    forall nm, k :: nm in channels ==>
      Lookup(notes, nm).Get(k) == if k in keys && matches(nodes.data[k], channels[nm].query) then Some(nodes.data[k]) else None
  }

  ghost predicate Exact<N, Q>(notes: Notes<N>, nodes: OMap<string, N>, keys: seq<string>,
                              channels: map<string, Channel<Q>>, matches: (N, Q) -> bool)
    requires NotesValid(notes) && forall k :: k in keys ==> k in nodes.data
  {
    && ExactDomain(notes, nodes, keys, channels, matches)
    && ExactOrder(notes, nodes, keys, channels, matches)
    && ExactContents(notes, nodes, keys, channels, matches)
  }

  lemma MatchingKeysSnoc<N, Q>(nodes: map<string, N>, init: seq<string>, k: string, q: Q, matches: (N, Q) -> bool)
    requires k in nodes && forall x :: x in init ==> x in nodes
    ensures MatchingKeys(nodes, init + [k], q, matches) ==
      MatchingKeys(nodes, init, q, matches) + (if matches(nodes[k], q) then [k] else [])
  {
    assert (init + [k])[..|init|] == init;
  }

  /** How one round of the outer loop changes the entries: what a step lemma may assume. */
  ghost predicate Stepped<N, Q>(prev: Notes<N>, next: Notes<N>, nodes: OMap<string, N>, init: seq<string>, k: string,
                                channels: map<string, Channel<Q>>, matches: (N, Q) -> bool)
    requires NotesValid(prev) && k in nodes.data && forall x :: x in init ==> x in nodes.data
  {
    && SteppedEntries(prev, next, nodes.data[k], k, channels, matches)
    && (forall nm :: nm in channels ==>
          MatchingKeys(nodes.data, init + [k], channels[nm].query, matches) ==
            MatchingKeys(nodes.data, init, channels[nm].query, matches) + (if matches(nodes.data[k], channels[nm].query) then [k] else []))
  }

  /** Each channel that matches `node` gains the entry `k`; every other entry stays. */
  ghost predicate SteppedEntries<N, Q>(prev: Notes<N>, next: Notes<N>, node: N, k: string,
                                       channels: map<string, Channel<Q>>, matches: (N, Q) -> bool)
    requires NotesValid(prev)
  {
    forall nm :: next.Get(nm) ==
      if nm in channels && matches(node, channels[nm].query)
      then Some(Lookup(prev, nm).Put(k, node)) else prev.Get(nm)
  }

  lemma {:induction false} SteppedByScan<N, Q>(prev: Notes<N>, nodes: OMap<string, N>, init: seq<string>, k: string,
                                               channels: OMap<string, Channel<Q>>, matches: (N, Q) -> bool)
    requires NotesValid(prev) && k in nodes.data && forall x :: x in init ==> x in nodes.data
    requires channels.Valid() && NamedBy(channels.data)
    ensures Stepped(prev, ScanChannels(prev, k, nodes.data[k], channels.keyOrder, channels.data, matches),
                    nodes, init, k, channels.data, matches)
  {
    DistinctKeyOrder(channels);
    ScanChannelsEffect(prev, k, nodes.data[k], channels.keyOrder, channels.data, matches);
    forall nm | nm in channels.data {
      MatchingKeysSnoc(nodes.data, init, k, channels.data[nm].query, matches);
    }
  }

  lemma DomainStep<N, Q>(prev: Notes<N>, next: Notes<N>, nodes: OMap<string, N>, init: seq<string>, k: string,
                         channels: map<string, Channel<Q>>, matches: (N, Q) -> bool)
    requires NotesValid(prev) && NotesValid(next) && k in nodes.data && forall x :: x in init ==> x in nodes.data
    requires Stepped(prev, next, nodes, init, k, channels, matches)
    requires ExactDomain(prev, nodes, init, channels, matches)
    ensures ExactDomain(next, nodes, init + [k], channels, matches)
  {
    forall nm ensures nm in next.data <==> nm in channels && MatchingKeys(nodes.data, init + [k], channels[nm].query, matches) != [] {
      assert next.Get(nm).Some? <==> nm in next.data;
    }
  }

  lemma OrderStep<N, Q>(prev: Notes<N>, next: Notes<N>, nodes: OMap<string, N>, init: seq<string>, k: string,
                        channels: map<string, Channel<Q>>, matches: (N, Q) -> bool)
    requires NotesValid(prev) && NotesValid(next) && k in nodes.data && k !in init && forall x :: x in init ==> x in nodes.data
    requires Stepped(prev, next, nodes, init, k, channels, matches)
    requires ExactOrder(prev, nodes, init, channels, matches) && ExactContents(prev, nodes, init, channels, matches)
    ensures ExactOrder(next, nodes, init + [k], channels, matches)
  {
    forall nm | nm in channels
      ensures Lookup(next, nm).keyOrder == MatchingKeys(nodes.data, init + [k], channels[nm].query, matches)
    {
      var q := channels[nm].query;
      assert next.Get(nm).Some? <==> nm in next.data;
      if matches(nodes.data[k], q) {
        assert Lookup(next, nm) == Lookup(prev, nm).Put(k, nodes.data[k]);
        assert Lookup(prev, nm).Get(k) == None;
        PutAppends(Lookup(prev, nm), k, nodes.data[k]);
      } else {
        assert Lookup(next, nm) == Lookup(prev, nm);
      }
    }
  }

  lemma ContentsStep<N, Q>(prev: Notes<N>, next: Notes<N>, nodes: OMap<string, N>, init: seq<string>, k: string,
                           channels: map<string, Channel<Q>>, matches: (N, Q) -> bool)
    requires NotesValid(prev) && NotesValid(next) && k in nodes.data && forall x :: x in init ==> x in nodes.data
    requires SteppedEntries(prev, next, nodes.data[k], k, channels, matches)
    requires ExactContents(prev, nodes, init, channels, matches)
    ensures ExactContents(next, nodes, init + [k], channels, matches)
  {
    forall nm, x | nm in channels
      ensures Lookup(next, nm).Get(x) ==
        if x in init + [k] && matches(nodes.data[x], channels[nm].query) then Some(nodes.data[x]) else None
    {
      var q := channels[nm].query;
      var hit := matches(nodes.data[k], q);
      assert x in init + [k] <==> x in init || x == k;
      assert next.Get(nm) == if hit then Some(Lookup(prev, nm).Put(k, nodes.data[k])) else prev.Get(nm);
      assert next.Get(nm).Some? <==> nm in next.data;
      ContentsAt(prev, nodes, init, channels, matches, nm, x);
      EntryStep(Lookup(prev, nm), Lookup(next, nm), k, nodes.data[k], hit, x);
    }
  }

  lemma ContentsAt<N, Q>(notes: Notes<N>, nodes: OMap<string, N>, keys: seq<string>,
                         channels: map<string, Channel<Q>>, matches: (N, Q) -> bool, nm: string, x: string)
    requires NotesValid(notes) && forall k :: k in keys ==> k in nodes.data
    requires ExactContents(notes, nodes, keys, channels, matches) && nm in channels
    ensures Lookup(notes, nm).Get(x) ==
      if x in keys && matches(nodes.data[x], channels[nm].query) then Some(nodes.data[x]) else None
  {
  }

  /** A batch after the entry `k` was added to it, or not. */
  lemma EntryStep<N>(before: OMap<string, N>, after: OMap<string, N>, k: string, node: N, hit: bool, x: string)
    requires before.Valid() && after == if hit then before.Put(k, node) else before
    ensures after.Get(x) == if hit && x == k then Some(node) else before.Get(x)
  {
  }

  lemma {:induction false} NotificationsExact<N, Q>(nodes: OMap<string, N>, keys: seq<string>,
                                                    channels: OMap<string, Channel<Q>>, matches: (N, Q) -> bool)
    requires Distinct(keys) && forall k :: k in keys ==> k in nodes.data
    requires channels.Valid() && NamedBy(channels.data)
    ensures Exact(Notifications(nodes, keys, channels, matches), nodes, keys, channels.data, matches)
    decreases |keys|
  {
    if keys != [] {
      var init := keys[..|keys| - 1];
      var k := keys[|keys| - 1];
      assert keys == init + [k];
      assert forall x :: x in init ==> x in keys;
      assert k !in init by {
        assert forall i :: 0 <= i < |init| ==> init[i] == keys[i];
      }
      NotificationsExact(nodes, init, channels, matches);
      var prev := Notifications(nodes, init, channels, matches);
      var next := Notifications(nodes, keys, channels, matches);
      SteppedByScan(prev, nodes, init, k, channels, matches);
      DomainStep(prev, next, nodes, init, k, channels.data, matches);
      OrderStep(prev, next, nodes, init, k, channels.data, matches);
      ContentsStep(prev, next, nodes, init, k, channels.data, matches);
    }
  }

  lemma DistinctKeyOrder<K(!new), V>(m: OMap<K, V>)
    requires m.Valid()
    ensures Distinct(m.keyOrder) && forall k :: k in m.keyOrder ==> k in m.data
  {
  }

  /** The inner loop's fold, one channel further. */
  lemma ScanOneMore<N, Q>(notes: Notes<N>, key: string, node: N, names: seq<string>, j: nat,
                          channels: map<string, Channel<Q>>, matches: (N, Q) -> bool)
    requires NotesValid(notes) && j < |names| && forall nm :: nm in names ==> nm in channels
    ensures ScanChannels(notes, key, node, names[..j + 1], channels, matches) ==
      Notify(ScanChannels(notes, key, node, names[..j], channels, matches), key, node, channels[names[j]], matches)
  {
    assert names[..j + 1][..j] == names[..j];
  }

  /** The outer loop's fold, one node further. */
  lemma NotifyOneMore<N, Q>(nodes: OMap<string, N>, keys: seq<string>, i: nat,
                            channels: OMap<string, Channel<Q>>, matches: (N, Q) -> bool)
    requires channels.Valid() && i < |keys| && forall k :: k in keys ==> k in nodes.data
    ensures Notifications(nodes, keys[..i + 1], channels, matches) ==
      ScanChannels(Notifications(nodes, keys[..i], channels, matches), keys[i], nodes.data[keys[i]],
                   channels.keyOrder, channels.data, matches)
  {
    assert keys[..i + 1][..i] == keys[..i];
  }

  /** The broadcasts of the second loop, one per notification entry, in entry order. */
  function Deliveries<N>(notes: Notes<N>, groups: map<string, set<ClientId>>): (r: seq<Delivery<N>>)
    requires notes.Valid()
    ensures |r| == notes.Length()
    ensures forall i :: 0 <= i < |r| ==> r[i].group == notes.keyOrder[i]
  {
    seq(|notes.keyOrder|, i requires 0 <= i < |notes.keyOrder| =>
      Delivery(notes.keyOrder[i], Members(groups, notes.keyOrder[i]), notes.data[notes.keyOrder[i]]))
  }

  /**
   * Every channel whose query matched some node of the batch gets exactly one
   * broadcast, to its group's current members, holding exactly its matching
   * nodes; a channel that matched nothing gets none.
   */
  lemma DeliveriesExact<N, Q>(nodes: OMap<string, N>, channels: OMap<string, Channel<Q>>,
                              groups: map<string, set<ClientId>>, matches: (N, Q) -> bool)
    requires nodes.Valid() && channels.Valid() && NamedBy(channels.data)
    ensures var ds := Deliveries(Notifications(nodes, nodes.keyOrder, channels, matches), groups);
      && (forall i, j :: 0 <= i < j < |ds| ==> ds[i].group != ds[j].group)
      && (forall i :: 0 <= i < |ds| ==>
            && ds[i].group in channels.data
            && ds[i].recipients == Members(groups, ds[i].group)
            && ds[i].batch.Length() > 0
            && ds[i].batch.keyOrder == MatchingKeys(nodes.data, nodes.keyOrder, channels.data[ds[i].group].query, matches)
            && forall k :: ds[i].batch.Get(k) ==
                 if k in nodes.data && matches(nodes.data[k], channels.data[ds[i].group].query) then Some(nodes.data[k]) else None)
      && (forall nm :: nm in channels.data && MatchingKeys(nodes.data, nodes.keyOrder, channels.data[nm].query, matches) != [] ==>
            exists i :: 0 <= i < |ds| && ds[i].group == nm)
  {
    var notes := Notifications(nodes, nodes.keyOrder, channels, matches);
    NotificationsExact(nodes, nodes.keyOrder, channels, matches);
    var ds := Deliveries(notes, groups);
    forall i | 0 <= i < |ds|
      ensures && ds[i].group in channels.data
              && ds[i].recipients == Members(groups, ds[i].group)
              && ds[i].batch.Length() > 0
              && ds[i].batch.keyOrder == MatchingKeys(nodes.data, nodes.keyOrder, channels.data[ds[i].group].query, matches)
              && forall k :: ds[i].batch.Get(k) ==
                   if k in nodes.data && matches(nodes.data[k], channels.data[ds[i].group].query) then Some(nodes.data[k]) else None
    {
      DeliveryAt(notes, nodes, channels, groups, matches, i);
    }
    forall nm | nm in channels.data && MatchingKeys(nodes.data, nodes.keyOrder, channels.data[nm].query, matches) != []
      ensures exists i :: 0 <= i < |ds| && ds[i].group == nm
    {
      var i := IndexOf(notes.keyOrder, nm);
      assert ds[i].group == nm;
    }
  }

  /** The `i`-th broadcast of an exact set of notifications. */
  lemma DeliveryAt<N, Q>(notes: Notes<N>, nodes: OMap<string, N>, channels: OMap<string, Channel<Q>>,
                         groups: map<string, set<ClientId>>, matches: (N, Q) -> bool, i: nat)
    requires NotesValid(notes) && nodes.Valid() && channels.Valid()
    requires Exact(notes, nodes, nodes.keyOrder, channels.data, matches) && i < notes.Length()
    ensures var d := Deliveries(notes, groups)[i];
      && d.group in channels.data
      && d.recipients == Members(groups, d.group)
      && d.batch.Length() > 0
      && d.batch.keyOrder == MatchingKeys(nodes.data, nodes.keyOrder, channels.data[d.group].query, matches)
      && forall k :: d.batch.Get(k) ==
           if k in nodes.data && matches(nodes.data[k], channels.data[d.group].query) then Some(nodes.data[k]) else None
  {
    var nm := notes.keyOrder[i];
    assert nm in notes.data;
    assert Lookup(notes, nm) == notes.data[nm];
    forall k ensures notes.data[nm].Get(k) ==
      if k in nodes.data && matches(nodes.data[k], channels.data[nm].query) then Some(nodes.data[k]) else None
    {
      ContentsAt(notes, nodes, nodes.keyOrder, channels.data, matches, nm, k);
      assert k in nodes.keyOrder <==> k in nodes.data;
    }
  }

  // ---------------------------------------------------------------------------
  // The registry
  // ---------------------------------------------------------------------------

  class Registry<N, Q> {
    /** `channels`: channel name to its entry, in order of first `watch`. */
    var channels: OMap<string, Channel<Q>>
    /** The subscriber groups, by group name. */
    var groups: map<string, set<ClientId>>
    /** Every broadcast sent so far, oldest first. */
    var log: seq<Delivery<N>>

    ghost predicate Valid()
      reads this
    {
      channels.Valid() && NamedBy(channels.data) &&
      forall nm :: nm in channels.data ==> channels.data[nm].group == nm
    }

    constructor ()
      ensures Valid() && channels == Empty() && groups == map[] && log == []
    {
      channels := Empty();
      groups := map[];
      log := [];
    }

    /**
     * `watch(name, query)` from `client`: the client joins group `name` and
     * the channel entry `name` is set, replacing an earlier one in place.
     */
    method Watch(client: ClientId, name: string, query: Q)
      requires Valid()
      modifies this
      ensures Valid()
      ensures channels == old(channels).Put(name, Channel(name, name, query))
      ensures groups == old(groups)[name := Members(old(groups), name) + {client}]
      ensures log == old(log)
    {
      groups := groups[name := Members(groups, name) + {client}];
      channels := channels.Put(name, Channel(name, name, query));
    }

    /** `unwatch(name)` from `client`: the client leaves group `name`; the channel entry stays. */
    method Unwatch(client: ClientId, name: string)
      requires Valid()
      modifies this
      ensures Valid()
      ensures channels == old(channels) && log == old(log)
      ensures groups == old(groups)[name := Members(old(groups), name) - {client}]
    {
      groups := groups[name := Members(groups, name) - {client}];
    }

    /** The first two nested loops of `dispatchUpdates`: building `notifications`. */
    method CollectNotifications(nodes: OMap<string, N>, matches: (N, Q) -> bool) returns (notes: Notes<N>)
      requires Valid() && nodes.Valid()
      ensures notes == Notifications(nodes, nodes.keyOrder, channels, matches)
    {
      notes := Empty();
      var i := 0;
      while i < |nodes.keyOrder|
        invariant 0 <= i <= |nodes.keyOrder|
        invariant notes == Notifications(nodes, nodes.keyOrder[..i], channels, matches)
      {
        var key := nodes.keyOrder[i];
        var node := nodes.data[key];
        ghost var outer := notes;
        var j := 0;
        while j < |channels.keyOrder|
          invariant 0 <= j <= |channels.keyOrder|
          invariant NotesValid(notes)
          invariant notes == ScanChannels(outer, key, node, channels.keyOrder[..j], channels.data, matches)
        {
          ghost var before := notes;
          var channel := channels.data[channels.keyOrder[j]];
          if matches(node, channel.query) {
            notes := notes.Put(channel.name, Lookup(notes, channel.name).Put(key, node));
          }
          assert notes == Notify(before, key, node, channel, matches);
          ScanOneMore(outer, key, node, channels.keyOrder, j, channels.data, matches);
          j := j + 1;
        }
        assert channels.keyOrder[..j] == channels.keyOrder;
        NotifyOneMore(nodes, nodes.keyOrder, i, channels, matches);
        i := i + 1;
      }
      assert nodes.keyOrder[..i] == nodes.keyOrder;
    }

    /**
     * `dispatchUpdates(nodes)`: one broadcast per notification entry, in
     * entry order, each to the current members of the channel's group. The
     * channels and groups do not change.
     */
    method DispatchUpdates(nodes: OMap<string, N>, matches: (N, Q) -> bool)
      requires Valid() && nodes.Valid()
      modifies this
      ensures Valid() && channels == old(channels) && groups == old(groups)
      ensures log == old(log) + Deliveries(Notifications(nodes, nodes.keyOrder, channels, matches), groups)
    {
      var notes := CollectNotifications(nodes, matches);
      var i := 0;
      while i < |notes.keyOrder|
        invariant 0 <= i <= |notes.keyOrder|
        invariant channels == old(channels) && groups == old(groups)
        invariant log == old(log) + Deliveries(notes, groups)[..i]
      {
        var name := notes.keyOrder[i];
        log := log + [Delivery(name, Members(groups, name), notes.data[name])];
        assert Deliveries(notes, groups)[..i + 1] == Deliveries(notes, groups)[..i] + [Deliveries(notes, groups)[i]];
        i := i + 1;
      }
      assert Deliveries(notes, groups)[..i] == Deliveries(notes, groups);
    }
  }
}
