/**
 * An insertion-ordered dictionary as a value: a sequence of unique keys
 * (`keyOrder`) beside a key-to-value map (`data`). This is the shape of
 * `Data.SortedHash` and of the plain JavaScript objects server.js uses as
 * dictionaries; every transform here returns a new value and so cannot
 * touch its receiver or its argument.
 */
module OrderedMaps {

  datatype Option<+T> = None | Some(value: T)

  /** No element occurs twice in `s`. */
  ghost predicate Distinct<K>(s: seq<K>) {
    forall i, j :: 0 <= i < j < |s| ==> s[i] != s[j]
  }

  /** The position of the first occurrence of `x` in `s`. */
  function IndexOf<K(==)>(s: seq<K>, x: K): (i: nat)
    requires x in s
    ensures i < |s| && s[i] == x && x !in s[..i]
  {
    if s[0] == x then 0 else 1 + IndexOf(s[1..], x)
  }

  /** Every element of `r` occurs in `s`, and in the same relative order. */
  ghost predicate OrderKept<K>(r: seq<K>, s: seq<K>) {
    (forall x :: x in r ==> x in s) &&
    forall i, j :: 0 <= i < j < |r| && r[i] in s && r[j] in s ==> IndexOf(s, r[i]) < IndexOf(s, r[j])
  }

  /** The elements of `s` satisfying `p`, in their order in `s`. */
  function Filter<K(!new)>(s: seq<K>, p: K -> bool): (r: seq<K>)
    ensures |r| <= |s|
    ensures forall x :: x in r <==> x in s && p(x)
  {
    if s == [] then [] else Filter(s[..|s| - 1], p) + (if p(s[|s| - 1]) then [s[|s| - 1]] else [])
  }

  /** `s` with every occurrence of `k` taken out. */
  function Without<K(==,!new)>(s: seq<K>, k: K): (r: seq<K>)
    ensures forall x :: x in r <==> x in s && x != k
  {
    if s == [] then [] else (if s[0] == k then [] else [s[0]]) + Without(s[1..], k)
  }

  // ---------------------------------------------------------------------------
  // Facts about sequences that the map operations rest on
  // ---------------------------------------------------------------------------

  lemma {:induction false} IndexOfAppend<K>(s: seq<K>, y: K, x: K)
    requires x in s
    ensures x in s + [y] && IndexOf(s + [y], x) == IndexOf(s, x)
  {
    if s[0] != x {
      assert (s + [y])[1..] == s[1..] + [y];
      IndexOfAppend(s[1..], y, x);
    }
  }

  lemma IndexOfDistinct<K>(s: seq<K>, i: nat)
    requires Distinct(s) && i < |s|
    ensures IndexOf(s, s[i]) == i
  {
    var j := IndexOf(s, s[i]);
    assert s[j] == s[i];
  }

  lemma {:induction false} FilterDistinct<K(!new)>(s: seq<K>, p: K -> bool)
    requires Distinct(s)
    ensures Distinct(Filter(s, p))
  {
    if s != [] {
      var s' := s[..|s| - 1];
      assert Distinct(s');
      FilterDistinct(s', p);
      assert s[|s| - 1] !in s';
    }
  }

  lemma {:induction false} FilterOrderKept<K(!new)>(s: seq<K>, p: K -> bool)
    requires Distinct(s)
    ensures OrderKept(Filter(s, p), s)
  {
    if s != [] {
      var s', y := s[..|s| - 1], s[|s| - 1];
      assert s == s' + [y];
      assert Distinct(s');
      FilterOrderKept(s', p);
      var r', r := Filter(s', p), Filter(s, p);
      forall i, j | 0 <= i < j < |r| && r[i] in s && r[j] in s
        ensures IndexOf(s, r[i]) < IndexOf(s, r[j])
      {
        assert r[i] == r'[i];
        IndexOfAppend(s', y, r[i]);
        if j < |r'| {
          assert r[j] == r'[j];
          IndexOfAppend(s', y, r[j]);
        } else {
          assert r[j] == y;
          IndexOfDistinct(s, |s| - 1);
        }
      }
    }
  }

  /** A sequence without repetitions has as many elements as its set. */
  lemma {:induction false} DistinctCardinality<K>(s: seq<K>)
    requires Distinct(s)
    ensures |set x | x in s| == |s|
  {
    if s != [] {
      var t := s[1..];
      assert Distinct(t);
      DistinctCardinality(t);
      assert s[0] !in t;
      assert (set x | x in s) == (set x | x in t) + {s[0]};
    }
  }

  /** A repetition-free key order listing exactly the keys of `data` is as long as `data`. */
  lemma EntryCount<K, V>(s: seq<K>, data: map<K, V>)
    ensures Distinct(s) && (forall k :: k in data <==> k in s) ==> |data| == |s|
  {
    if Distinct(s) && forall k :: k in data <==> k in s {
      DistinctCardinality(s);
      assert data.Keys == set x | x in s;
    }
  }

  lemma DistinctConcat<K>(a: seq<K>, b: seq<K>)
    requires Distinct(a) && Distinct(b) && forall x :: x in b ==> x !in a
    ensures Distinct(a + b)
  {
    var ab := a + b;
    forall i, j | 0 <= i < j < |ab| ensures ab[i] != ab[j] {
      if i < |a| <= j {
        assert ab[j] == b[j - |a|] && ab[j] in b;
      } else if |a| <= i {
        assert ab[i] == b[i - |a|] && ab[j] == b[j - |a|];
      }
    }
  }

  /** A repetition-free sequence whose elements all occur in `t` is no longer than `t`. */
  lemma SubsetLength<K>(s: seq<K>, t: seq<K>)
    requires Distinct(s) && forall x :: x in s ==> x in t
    ensures |s| <= |t|
  {
    DistinctCardinality(s);
    var a, b := set x | x in s, set x | x in t;
    assert b == a + (b - a) && a !! (b - a);
    CardinalityOfSeqSet(t);
  }

  lemma {:induction false} CardinalityOfSeqSet<K>(t: seq<K>)
    ensures |set x | x in t| <= |t|
  {
    if t != [] {
      CardinalityOfSeqSet(t[1..]);
      assert (set x | x in t) == (set x | x in t[1..]) + {t[0]};
    }
  }

  /** Taking out the one occurrence of `k` at position `i` is cutting `i` out. */
  lemma {:induction false} WithoutAt<K(!new)>(s: seq<K>, i: nat, k: K)
    requires i < |s| && s[i] == k && Distinct(s)
    ensures Without(s, k) == s[..i] + s[i + 1..]
  {
    if i == 0 {
      assert Distinct(s[1..]);
      WithoutAbsent(s[1..], k);
    } else {
      assert Distinct(s[1..]);
      WithoutAt(s[1..], i - 1, k);
      assert s[..i] == [s[0]] + s[1..][..i - 1];
      assert s[i + 1..] == s[1..][i..];
    }
  }

  lemma {:induction false} WithoutAbsent<K(!new)>(s: seq<K>, k: K)
    requires k !in s
    ensures Without(s, k) == s
  {
    if s != [] {
      WithoutAbsent(s[1..], k);
    }
  }

  lemma {:induction false} WithoutLength<K(!new)>(s: seq<K>, k: K)
    requires Distinct(s)
    ensures |Without(s, k)| == if k in s then |s| - 1 else |s|
  {
    if k in s {
      var i := IndexOf(s, k);
      WithoutAt(s, i, k);
    } else {
      WithoutAbsent(s, k);
    }
  }

  lemma {:induction false} WithoutOrderKept<K(!new)>(s: seq<K>, k: K)
    requires Distinct(s)
    ensures Distinct(Without(s, k)) && OrderKept(Without(s, k), s)
  {
    if k in s {
      var i := IndexOf(s, k);
      WithoutAt(s, i, k);
      var r := s[..i] + s[i + 1..];
      forall a, b | 0 <= a < b < |r|
        ensures r[a] != r[b] && IndexOf(s, r[a]) < IndexOf(s, r[b])
      {
        var a', b' := if a < i then a else a + 1, if b < i then b else b + 1;
        assert r[a] == s[a'] && r[b] == s[b'] && a' < b';
        IndexOfDistinct(s, a');
        IndexOfDistinct(s, b');
      }
    } else {
      WithoutAbsent(s, k);
      forall a, b | 0 <= a < b < |s|
        ensures IndexOf(s, s[a]) < IndexOf(s, s[b])
      {
        IndexOfDistinct(s, a);
        IndexOfDistinct(s, b);
      }
    }
  }

  // ---------------------------------------------------------------------------
  // Sorting keys by their values with a JavaScript-style comparator
  // ---------------------------------------------------------------------------

  /**
   * A comparator in the JavaScript sense: a negative or zero result lets the
   * first argument stay before the second. It is consistent on a map when any
   * two values of `data` can be ordered and that ordering is transitive,
   * which is what `Array.prototype.sort` asks of its argument.
   */
  ghost predicate ConsistentOn<K, V>(cmp: (V, V) -> int, data: map<K, V>) {
    (forall x, y :: x in data && y in data ==> cmp(data[x], data[y]) <= 0 || cmp(data[y], data[x]) <= 0) &&
    (forall x, y, z ::
       (x in data && y in data && z in data && cmp(data[x], data[y]) <= 0 && cmp(data[y], data[z]) <= 0) ==>
       cmp(data[x], data[z]) <= 0)
  }

  /** The values are ordered by `cmp` pairwise, first to last. */
  ghost predicate SortedBy<V>(vs: seq<V>, cmp: (V, V) -> int) {
    forall i, j :: 0 <= i < j < |vs| ==> cmp(vs[i], vs[j]) <= 0
  }

  /** Insert `k` before the first key whose value it may precede. */
  function InsertKey<K(==,!new), V>(k: K, s: seq<K>, data: map<K, V>, cmp: (V, V) -> int): (r: seq<K>)
    requires k in data && forall x :: x in s ==> x in data
    ensures multiset(r) == multiset(s) + multiset{k}
    ensures forall x :: x in r <==> x == k || x in s
  {
    if s == [] then [k]
    else if cmp(data[k], data[s[0]]) <= 0 then [k] + s
    else
      assert s == [s[0]] + s[1..];
      [s[0]] + InsertKey(k, s[1..], data, cmp)
  }

  /** Insertion sort of `s` by the values the keys have in `data`; stable. */
  function SortKeys<K(==,!new), V>(s: seq<K>, data: map<K, V>, cmp: (V, V) -> int): (r: seq<K>)
    requires forall x :: x in s ==> x in data
    ensures multiset(r) == multiset(s)
    ensures forall x :: x in r <==> x in s
  {
    if s == [] then []
    else
      assert s == [s[0]] + s[1..];
      InsertKey(s[0], SortKeys(s[1..], data, cmp), data, cmp)
  }

  ghost predicate KeysSorted<K, V>(s: seq<K>, data: map<K, V>, cmp: (V, V) -> int)
    requires forall x :: x in s ==> x in data
  {
    forall i, j :: 0 <= i < j < |s| ==> cmp(data[s[i]], data[s[j]]) <= 0
  }

  lemma {:induction false} InsertKeySorted<K(!new), V>(k: K, s: seq<K>, data: map<K, V>, cmp: (V, V) -> int)
    requires k in data && forall x :: x in s ==> x in data
    requires ConsistentOn(cmp, data)
    requires KeysSorted(s, data, cmp)
    ensures KeysSorted(InsertKey(k, s, data, cmp), data, cmp)
  {
    var r := InsertKey(k, s, data, cmp);
    if s == [] {
    } else if cmp(data[k], data[s[0]]) <= 0 {
      assert r == [k] + s;
      FrontSorted(k, s, data, cmp);
    } else {
      var tail := s[1..];
      TailSorted(s, data, cmp);
      InsertKeySorted(k, tail, data, cmp);
      var t := InsertKey(k, tail, data, cmp);
      assert r == [s[0]] + t;
      assert cmp(data[s[0]], data[k]) <= 0;
      assert forall j :: 0 <= j < |t| ==> t[j] in t;
      ConsSorted(s[0], t, data, cmp);
    }
  }

  /** A key at most the head of a sorted key sequence may go in front of it. */
  lemma FrontSorted<K, V>(k: K, s: seq<K>, data: map<K, V>, cmp: (V, V) -> int)
    requires k in data && s != [] && forall x :: x in s ==> x in data
    requires ConsistentOn(cmp, data) && KeysSorted(s, data, cmp) && cmp(data[k], data[s[0]]) <= 0
    ensures KeysSorted([k] + s, data, cmp)
  {
    forall j | 0 <= j < |s| ensures cmp(data[k], data[s[j]]) <= 0 {
      if j > 0 {
        assert cmp(data[s[0]], data[s[j]]) <= 0;
      }
    }
    ConsSorted(k, s, data, cmp);
  }

  /** The tail of a sorted key sequence is sorted, and its head is at most every key of it. */
  lemma TailSorted<K, V>(s: seq<K>, data: map<K, V>, cmp: (V, V) -> int)
    requires s != [] && forall x :: x in s ==> x in data
    requires KeysSorted(s, data, cmp)
    ensures KeysSorted(s[1..], data, cmp)
    ensures forall y :: y in s[1..] ==> cmp(data[s[0]], data[y]) <= 0
  {
    var tail := s[1..];
    forall i, j | 0 <= i < j < |tail| ensures cmp(data[tail[i]], data[tail[j]]) <= 0 {
      assert tail[i] == s[i + 1] && tail[j] == s[j + 1];
    }
    forall y | y in tail ensures cmp(data[s[0]], data[y]) <= 0 {
      var m := IndexOf(tail, y);
      assert s[m + 1] == y;
    }
  }

  lemma ConsSorted<K, V>(x: K, t: seq<K>, data: map<K, V>, cmp: (V, V) -> int)
    requires x in data && forall y :: y in t ==> y in data
    requires KeysSorted(t, data, cmp)
    requires forall j :: 0 <= j < |t| ==> cmp(data[x], data[t[j]]) <= 0
    ensures KeysSorted([x] + t, data, cmp)
  {
    var r := [x] + t;
    forall i, j | 0 <= i < j < |r| ensures cmp(data[r[i]], data[r[j]]) <= 0 {
      if i == 0 {
        assert r[j] == t[j - 1];
      } else {
        assert r[i] == t[i - 1] && r[j] == t[j - 1];
      }
    }
  }

  lemma {:induction false} SortKeysSorted<K(!new), V>(s: seq<K>, data: map<K, V>, cmp: (V, V) -> int)
    requires forall x :: x in s ==> x in data
    ensures forall x :: x in SortKeys(s, data, cmp) ==> x in data
    ensures ConsistentOn(cmp, data) ==> KeysSorted(SortKeys(s, data, cmp), data, cmp)
  {
    var r := SortKeys(s, data, cmp);
    forall x | x in r ensures x in data {
      assert x in multiset(r);
    }
    if s != [] && ConsistentOn(cmp, data) {
      SortKeysSorted(s[1..], data, cmp);
      InsertKeySorted(s[0], SortKeys(s[1..], data, cmp), data, cmp);
    }
  }

  lemma PermutationDistinct<K>(r: seq<K>, s: seq<K>)
    requires multiset(r) == multiset(s) && Distinct(s)
    ensures Distinct(r)
  {
    forall i, j | 0 <= i < j < |r| ensures r[i] != r[j] {
      assert r[i] == r[j] ==> multiset(r)[r[i]] >= 2 by {
        if r[i] == r[j] {
          assert r == r[..i] + [r[i]] + r[i + 1..j] + [r[j]] + r[j + 1..];
        }
      }
      MultiplicityDistinct(s, r[i]);
    }
  }

  lemma {:induction false} MultiplicityDistinct<K>(s: seq<K>, x: K)
    requires Distinct(s)
    ensures multiset(s)[x] <= 1
  {
    if s != [] {
      assert s == [s[0]] + s[1..];
      assert Distinct(s[1..]);
      MultiplicityDistinct(s[1..], x);
      if s[0] == x {
        assert x !in s[1..];
      }
    }
  }

  // ---------------------------------------------------------------------------
  // The ordered map
  // ---------------------------------------------------------------------------

  datatype OMap<K(==,!new), V> = OMap(keyOrder: seq<K>, data: map<K, V>) {

    /** Keys are unique and the key order lists exactly the keys of `data`. */
    ghost predicate Valid() {
      Distinct(keyOrder) && forall k :: k in data <==> k in keyOrder
    }

    /** The `length` of the map: its number of entries. */
    function Length(): nat {
      |keyOrder|
    }

    /** Lookup by key; `None` is JavaScript's `undefined` for a missing key. */
    function Get(k: K): (r: Option<V>)
      ensures r.Some? <==> k in data
      ensures r.Some? ==> r.value == data[k]
    {
      if k in data then Some(data[k]) else None
    }

    /** The key at position `i`, `None` when `i` is out of range. */
    function Key(i: int): (r: Option<K>)
      ensures r.Some? <==> 0 <= i < Length()
    {
      if 0 <= i < |keyOrder| then Some(keyOrder[i]) else None
    }

    /** The value at position `i`, `None` when `i` is out of range. */
    function At(i: int): (r: Option<V>)
      requires Valid()
      ensures r.Some? <==> 0 <= i < Length()
      ensures r.Some? ==> Get(keyOrder[i]) == r
    {
      if 0 <= i < |keyOrder| then Some(data[keyOrder[i]]) else None
    }

    function First(): (r: Option<V>)
      requires Valid()
      ensures r.Some? <==> Length() > 0
    {
      At(0)
    }

    function Last(): (r: Option<V>)
      requires Valid()
      ensures r.Some? <==> Length() > 0
    {
      At(Length() - 1)
    }

    /** The values, in key order. */
    function Values(): (r: seq<V>)
      requires Valid()
      ensures |r| == Length()
      ensures forall i :: 0 <= i < |r| ==> At(i) == Some(r[i])
    {
      seq(|keyOrder|, i requires 0 <= i < |keyOrder| => data[keyOrder[i]])
    }

    /** The arguments `(value, key, index)` that `each` hands its callback, call by call. */
    function Each(): (r: seq<(V, K, nat)>)
      requires Valid()
      ensures |r| == Length()
      ensures forall i :: 0 <= i < |r| ==> Key(i) == Some(r[i].1) && At(i) == Some(r[i].0) && r[i].2 == i
    {
      seq(|keyOrder|, i requires 0 <= i < |keyOrder| => (data[keyOrder[i]], keyOrder[i], i))
    }

    /**
     * Insert or overwrite: a new key goes to the end, an existing key keeps
     * its position and only its value changes.
     */
    function Put(k: K, v: V): (r: OMap<K, V>)
      requires Valid()
      ensures r.Valid()
      ensures r.Get(k) == Some(v)
      ensures forall j :: j != k ==> r.Get(j) == Get(j)
      ensures k in data ==> r.Length() == Length() && forall i :: 0 <= i < Length() ==> r.Key(i) == Key(i)
      ensures k !in data ==> r.Length() == Length() + 1 && r.Key(Length()) == Some(k) &&
                             forall i :: 0 <= i < Length() ==> r.Key(i) == Key(i)
    {
      if k in data then OMap(keyOrder, data[k := v]) else OMap(keyOrder + [k], data[k := v])
    }

    /** `del`: the key leaves both the key order and the map. */
    function Remove(k: K): (r: OMap<K, V>)
      requires Valid()
      ensures r.Valid()
      ensures r.Get(k) == None
      ensures forall j :: j != k ==> r.Get(j) == Get(j)
      ensures r.Length() == if k in data then Length() - 1 else Length()
      ensures OrderKept(r.keyOrder, keyOrder)
    {
      WithoutLength(keyOrder, k);
      WithoutOrderKept(keyOrder, k);
      OMap(Without(keyOrder, k), data - {k})
    }

    /** `map`: same keys in the same order, each value transformed by `f`. */
    function Map<W>(f: V -> W): (r: OMap<K, W>)
      requires Valid()
      ensures r.Valid()
      ensures r.keyOrder == keyOrder
      ensures forall k :: r.Get(k) == if k in data then Some(f(data[k])) else None
    {
      OMap(keyOrder, map k | k in data :: f(data[k]))
    }

    /** `select`: exactly the entries satisfying `p`, in their original order. */
    function Select(p: (V, K) -> bool): (r: OMap<K, V>)
      requires Valid()
      ensures r.Valid()
      ensures forall k :: r.Get(k) == if k in data && p(data[k], k) then Some(data[k]) else None
      ensures OrderKept(r.keyOrder, keyOrder)
    {
      var keep := k => k in data && p(data[k], k);
      var ks := Filter(keyOrder, keep);
      FilterDistinct(keyOrder, keep);
      FilterOrderKept(keyOrder, keep);
      OMap(ks, map k | k in ks :: data[k])
    }

    /** `sort`: the same entries, reordered so that the values follow `cmp`. */
    function Sort(cmp: (V, V) -> int): (r: OMap<K, V>)
      requires Valid()
      ensures r.Valid()
      ensures r.data == data
      ensures multiset(r.keyOrder) == multiset(keyOrder)
      ensures ConsistentOn(cmp, data) ==> SortedBy(r.Values(), cmp)
    {
      var ks := SortKeys(keyOrder, data, cmp);
      PermutationDistinct(ks, keyOrder);
      assert forall x :: x in ks <==> x in keyOrder by {
        forall x ensures x in ks <==> x in keyOrder {
          assert x in ks <==> x in multiset(ks);
          assert x in keyOrder <==> x in multiset(keyOrder);
        }
      }
      var r := OMap(ks, data);
      SortKeysSorted(keyOrder, data, cmp);
      assert ConsistentOn(cmp, data) ==> SortedBy(r.Values(), cmp) by {
        forall i, j | 0 <= i < j < |r.Values()| && ConsistentOn(cmp, data)
          ensures cmp(r.Values()[i], r.Values()[j]) <= 0
        {
          assert r.Values()[i] == data[ks[i]] && r.Values()[j] == data[ks[j]];
        }
      }
      r
    }

    /** `intersect`: the entries whose key `other` also has, values and order from this map. */
    function Intersect<W>(other: OMap<K, W>): (r: OMap<K, V>)
      requires Valid() && other.Valid()
      ensures r.Valid()
      ensures forall k :: r.Get(k) == if k in other.data then Get(k) else None
      ensures OrderKept(r.keyOrder, keyOrder)
      ensures r.Length() <= Length() && r.Length() <= other.Length()
    {
      var shared := k => k in other.data;
      var ks := Filter(keyOrder, shared);
      FilterDistinct(keyOrder, shared);
      FilterOrderKept(keyOrder, shared);
      SubsetLength(ks, other.keyOrder);
      OMap(ks, map k | k in ks :: data[k])
    }

    /**
     * `union`: all entries of this map, followed by the entries of `other`
     * whose key this map lacks, in `other`'s order.
     */
    function Union(other: OMap<K, V>): (r: OMap<K, V>)
      requires Valid() && other.Valid()
      ensures r.Valid()
      ensures forall k :: r.Get(k) == if k in data then Get(k) else other.Get(k)
      ensures r.Length() == Length() + |other.data.Keys - data.Keys|
      ensures r.keyOrder[..Length()] == keyOrder
      ensures OrderKept(r.keyOrder[Length()..], other.keyOrder)
    {
      var missing := k => k !in data;
      var extra := Filter(other.keyOrder, missing);
      FilterDistinct(other.keyOrder, missing);
      FilterOrderKept(other.keyOrder, missing);
      UnionValid(this, other, extra);
      UnionLength(this, other, extra);
      UnionGet(this, other, extra);
      UnionOrder(this, other, extra);
      UnionEntries(this, other, extra)
    }
  }

  /** The entries `union` builds: this map's, then the missing ones of `other`. */
  function UnionEntries<K(==,!new), V>(m: OMap<K, V>, other: OMap<K, V>, extra: seq<K>): OMap<K, V>
    requires forall x :: x in extra ==> x in other.data
  {
    OMap(m.keyOrder + extra, (map k | k in extra :: other.data[k]) + m.data)
  }

  lemma UnionGet<K(!new), V>(m: OMap<K, V>, other: OMap<K, V>, extra: seq<K>)
    requires forall x :: x in extra <==> x in other.data && x !in m.data
    ensures forall k :: UnionEntries(m, other, extra).Get(k) == if k in m.data then m.Get(k) else other.Get(k)
  {
  }

  lemma UnionOrder<K(!new), V>(m: OMap<K, V>, other: OMap<K, V>, extra: seq<K>)
    requires OrderKept(extra, other.keyOrder)
    requires forall x :: x in extra ==> x in other.data
    ensures UnionEntries(m, other, extra).keyOrder[..m.Length()] == m.keyOrder
    ensures OrderKept(UnionEntries(m, other, extra).keyOrder[m.Length()..], other.keyOrder)
  {
    assert UnionEntries(m, other, extra).keyOrder[m.Length()..] == extra;
  }

  lemma UnionValid<K(!new), V>(m: OMap<K, V>, other: OMap<K, V>, extra: seq<K>)
    requires m.Valid() && Distinct(extra)
    requires forall x :: x in extra <==> x in other.data && x !in m.data
    ensures UnionEntries(m, other, extra).Valid()
  {
    DistinctConcat(m.keyOrder, extra);
  }

  lemma UnionLength<K(!new), V>(m: OMap<K, V>, other: OMap<K, V>, extra: seq<K>)
    requires Distinct(extra)
    requires forall x :: x in extra <==> x in other.data && x !in m.data
    ensures UnionEntries(m, other, extra).Length() == m.Length() + |other.data.Keys - m.data.Keys|
  {
    DistinctCardinality(extra);
    assert (set x | x in extra) == other.data.Keys - m.data.Keys;
  }

  function Empty<K(==,!new), V>(): (r: OMap<K, V>)
    ensures r.Valid() && r.Length() == 0
  {
    OMap([], map[])
  }

  /**
   * In a valid map `length` counts the entries, `get` finds exactly the keys
   * of the iteration order, and `key(i)` names a present key that no earlier
   * position names.
   */
  lemma AccessorsAgree<K(!new), V>(m: OMap<K, V>)
    requires m.Valid()
    ensures m.Length() == |m.data|
    ensures forall k :: m.Get(k).Some? <==> k in m.keyOrder
    ensures forall i :: 0 <= i < m.Length() ==>
      m.Key(i).Some? && m.Get(m.Key(i).value).Some? && m.Key(i).value !in m.keyOrder[..i]
  {
    EntryCount(m.keyOrder, m.data);
  }

  /** Successive `Put`s of `(key, value)` pairs, first to last. */
  function PutAll<K(==,!new), V>(m: OMap<K, V>, entries: seq<(K, V)>): (r: OMap<K, V>)
    requires m.Valid()
    ensures r.Valid()
    decreases |entries|
  {
    if entries == [] then m
    else PutAll(m, entries[..|entries| - 1]).Put(entries[|entries| - 1].0, entries[|entries| - 1].1)
  }

  /** The keys of `entries`, pairwise different. */
  ghost predicate DistinctKeys<K, V>(entries: seq<(K, V)>) {
    forall i, j :: 0 <= i < j < |entries| ==> entries[i].0 != entries[j].0
  }

  /**
   * Insertion order: inserting distinct keys into an empty map yields a map
   * whose key, positional and iteration accessors all follow the insertion
   * sequence.
   */
  lemma {:induction false} PutAllInInsertionOrder<K(!new), V>(entries: seq<(K, V)>)
    requires DistinctKeys(entries)
    ensures PutAll(Empty(), entries).Length() == |entries|
    ensures forall i :: 0 <= i < |entries| ==>
      PutAll(Empty(), entries).Key(i) == Some(entries[i].0) &&
      PutAll(Empty(), entries).At(i) == Some(entries[i].1)
  {
    if entries != [] {
      var e', last := entries[..|entries| - 1], entries[|entries| - 1];
      PutAllInInsertionOrder(e');
      var m := PutAll(Empty(), e');
      forall i | 0 <= i < |m.keyOrder| ensures m.keyOrder[i] != last.0 {
        assert m.Key(i) == Some(e'[i].0) && entries[i] == e'[i];
      }
      assert last.0 !in m.keyOrder;
      var r := m.Put(last.0, last.1);
      forall i | 0 <= i < |entries|
        ensures r.Key(i) == Some(entries[i].0) && r.At(i) == Some(entries[i].1)
      {
        if i < |e'| {
          assert m.Key(i) == Some(e'[i].0) && m.At(i) == Some(e'[i].1);
          assert entries[i].0 != last.0;
        }
      }
    }
  }

  /** Insertion order as seen by `values`, `each`, `first` and `last`. */
  lemma IterationInInsertionOrder<K(!new), V>(entries: seq<(K, V)>)
    requires DistinctKeys(entries)
    ensures var m := PutAll(Empty(), entries);
      |m.Values()| == |entries| && |m.Each()| == |entries| &&
      (forall i :: 0 <= i < |entries| ==>
        m.Values()[i] == entries[i].1 && m.Each()[i] == (entries[i].1, entries[i].0, i)) &&
      (entries != [] ==> m.First() == Some(entries[0].1) && m.Last() == Some(entries[|entries| - 1].1))
  {
    PutAllInInsertionOrder(entries);
    var m := PutAll(Empty(), entries);
    forall i | 0 <= i < |entries|
      ensures m.Values()[i] == entries[i].1 && m.Each()[i] == (entries[i].1, entries[i].0, i)
    {
      assert m.Key(i) == Some(entries[i].0) && m.At(i) == Some(entries[i].1);
    }
  }

  /** `del` undoes the `set` of a key the map did not have. */
  lemma PutRemoveInverse<K(!new), V>(m: OMap<K, V>, k: K, v: V)
    requires m.Valid() && k !in m.data
    ensures m.Put(k, v).Remove(k) == m
  {
    var s := m.keyOrder + [k];
    assert Distinct(s) by {
      assert m.Put(k, v).keyOrder == s;
    }
    WithoutAt(s, |m.keyOrder|, k);
    assert s[..|m.keyOrder|] == m.keyOrder && s[|m.keyOrder| + 1..] == [];
    assert m.data[k := v] - {k} == m.data;
  }

  lemma {:induction false} FilterAll<K(!new)>(s: seq<K>, p: K -> bool)
    requires forall x :: x in s ==> p(x)
    ensures Filter(s, p) == s
  {
    if s != [] {
      FilterAll(s[..|s| - 1], p);
      assert s == s[..|s| - 1] + [s[|s| - 1]];
    }
  }

  /** `select` with a predicate every entry satisfies gives back the same map. */
  lemma SelectAll<K(!new), V>(m: OMap<K, V>, p: (V, K) -> bool)
    requires m.Valid() && forall k :: k in m.data ==> p(m.data[k], k)
    ensures m.Select(p) == m
  {
    FilterAll(m.keyOrder, k => k in m.data && p(m.data[k], k));
  }
}
