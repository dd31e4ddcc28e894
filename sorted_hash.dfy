/**
 * `Data.SortedHash`: an ordered map whose keys and values are JavaScript
 * values. `set` and `del` change the object in place; every other
 * operation reads it or works on the value `View()` and returns a new map.
 */
module SortedHashes {
  import opened OrderedMaps

  /**
   * The JavaScript primitive values the hash deals in. `Undefined` is the
   * absence marker: it is never a key. `Null` is an ordinary key, distinct
   * from every string. Numbers are modelled as integers.
   */
  datatype Prim = Undefined | Null | Bool(b: bool) | Num(n: int) | Str(s: string)

  /** A well-formed sorted hash: an ordered map that never holds the undefined key. */
  ghost predicate IsHash<V>(h: OMap<Prim, V>) {
    h.Valid() && Undefined !in h.data
  }

  /** The hash after `set(key, value)`: an undefined key is silently ignored. */
  function Assigned<V>(h: OMap<Prim, V>, key: Prim, value: V): (r: OMap<Prim, V>)
    requires IsHash(h)
    ensures IsHash(r)
  {
    if key == Undefined then h else h.Put(key, value)
  }

  /** The keys `0 .. n-1` that construction from an array uses. */
  function Indices(n: nat): (r: seq<Prim>)
    ensures |r| == n && forall i :: 0 <= i < n ==> r[i] == Num(i)
  {
    if n == 0 then [] else Indices(n - 1) + [Num(n - 1)]
  }

  // ---------------------------------------------------------------------------
  // Properties of `set` the test suite relies on
  // ---------------------------------------------------------------------------

  /**
   * `set` either appends a new key or overwrites an existing one in place;
   * an undefined key leaves the hash exactly as it was.
   */
  lemma SetEffect<V>(h: OMap<Prim, V>, key: Prim, value: V)
    requires IsHash(h)
    ensures key == Undefined ==> Assigned(h, key, value) == h
    ensures key != Undefined && key in h.data ==>
      Assigned(h, key, value).keyOrder == h.keyOrder && Assigned(h, key, value).Get(key) == Some(value)
    ensures key != Undefined && key !in h.data ==>
      Assigned(h, key, value).keyOrder == h.keyOrder + [key] && Assigned(h, key, value).Get(key) == Some(value)
  {
  }

  /** The key order after one `set(key, _)`: a defined key not yet present goes last. */
  function SetOrder(ks: seq<Prim>, key: Prim): seq<Prim> {
    if key == Undefined || key in ks then ks else ks + [key]
  }

  /**
   * The key order after `set`ting the keys `vs` one after the other: the old
   * keys, then every defined key of `vs` that is new, in order of first use.
   */
  function SetAllOrder(ks: seq<Prim>, vs: seq<Prim>): (r: seq<Prim>)
    ensures forall x :: x in r <==> x in ks || (x in vs && x != Undefined)
    ensures |ks| <= |r| && r[..|ks|] == ks
    decreases |vs|
  {
    if vs == [] then ks
    else
      var front := vs[..|vs| - 1];
      assert vs == front + [vs[|vs| - 1]];
      SetOrder(SetAllOrder(ks, front), vs[|vs| - 1])
  }

  /** Setting one more key of `vs` moves the order on by one `SetOrder`. */
  lemma SetAllOrderSnoc(ks: seq<Prim>, vs: seq<Prim>, i: nat)
    requires i < |vs|
    ensures SetAllOrder(ks, vs[..i + 1]) == SetOrder(SetAllOrder(ks, vs[..i]), vs[i])
  {
    assert vs[..i + 1][..i] == vs[..i];
  }

  /** Setting `xs` and then `ys` gives the key order of setting `xs + ys`. */
  lemma {:induction false} SetAllOrderAppend(ks: seq<Prim>, xs: seq<Prim>, ys: seq<Prim>)
    ensures SetAllOrder(ks, xs + ys) == SetAllOrder(SetAllOrder(ks, xs), ys)
    decreases |ys|
  {
    if ys == [] {
      assert xs + ys == xs;
    } else {
      var front := ys[..|ys| - 1];
      assert (xs + ys)[..|xs + ys| - 1] == xs + front;
      SetAllOrderAppend(ks, xs, front);
    }
  }

  /** Each `set` moves the key order on by `SetOrder`. */
  lemma AssignedOrder<V>(h: OMap<Prim, V>, key: Prim, value: V)
    requires IsHash(h)
    ensures Assigned(h, key, value).keyOrder == SetOrder(h.keyOrder, key)
  {
    SetEffect(h, key, value);
  }

  /** Distinct new defined keys are appended in exactly the order they are set. */
  lemma {:induction false} SetAllOrderFresh(ks: seq<Prim>, vs: seq<Prim>)
    requires Distinct(vs) && Undefined !in vs
    requires forall v :: v in vs ==> v !in ks
    ensures SetAllOrder(ks, vs) == ks + vs
    decreases |vs|
  {
    if vs != [] {
      var front := vs[..|vs| - 1];
      assert vs == front + [vs[|vs| - 1]];
      assert Distinct(front);
      SetAllOrderFresh(ks, front);
      assert vs[|vs| - 1] !in front;
    }
  }

  /**
   * Null is a valid key and null and undefined are valid values, while an
   * undefined key is rejected: of four such `set`s on fresh keys, three add
   * an entry.
   */
  lemma FailPrevention<V>(h: OMap<Prim, V>, region: V, none: V, missing: V)
    requires IsHash(h)
    requires Null !in h.data && Str("null_value") !in h.data && Str("undefined_value") !in h.data
    ensures var r := Assigned(Assigned(Assigned(Assigned(h, Null, region), Undefined, region),
                                       Str("null_value"), none), Str("undefined_value"), missing);
      r.Length() == h.Length() + 3 &&
      r.Get(Null) == Some(region) && r.Get(Str("null_value")) == Some(none) &&
      r.Get(Str("undefined_value")) == Some(missing) && r.Get(Undefined) == None
  {
  }

  // ---------------------------------------------------------------------------
  // The descending comparator
  // ---------------------------------------------------------------------------

  /** Strict lexicographic order on strings, character by character. */
  predicate StrLess(a: string, b: string) {
    if a == [] then b != []
    else if b == [] then false
    else if a[0] == b[0] then StrLess(a[1..], b[1..])
    else a[0] < b[0]
  }

  function Rank(p: Prim): nat {
    match p
    case Undefined => 0
    case Null => 1
    case Bool(_) => 2
    case Num(_) => 3
    case Str(_) => 4
  }

  /**
   * The `>` that the descending comparator applies: natural order on
   * numbers, lexicographic order on strings, `false` before `true`; values of
   * different kinds are ordered by kind.
   */
  predicate Greater(a: Prim, b: Prim) {
    if Rank(a) != Rank(b) then Rank(a) > Rank(b)
    else match (a, b)
      case (Bool(x), Bool(y)) => x && !y
      case (Num(x), Num(y)) => x > y
      case (Str(x), Str(y)) => StrLess(y, x)
      case _ => false
  }

  /** `Data.Comparators.DESC`: larger values first. */
  function Descending(a: Prim, b: Prim): (r: int)
    ensures r < 0 <==> Greater(a, b)
    ensures r == 0 <==> a == b
    ensures r > 0 <==> Greater(b, a)
  {
    GreaterIsStrictTotalOrder(a, b, a);
    GreaterIsStrictTotalOrder(b, a, b);
    if a == b then 0 else if Greater(a, b) then -1 else 1
  }

  lemma {:induction false} StrLessIrreflexive(a: string)
    ensures !StrLess(a, a)
  {
    if a != [] {
      StrLessIrreflexive(a[1..]);
    }
  }

  lemma {:induction false} StrLessTotal(a: string, b: string)
    requires a != b
    ensures StrLess(a, b) || StrLess(b, a)
  {
    if a != [] && b != [] && a[0] == b[0] {
      assert a == [a[0]] + a[1..] && b == [b[0]] + b[1..];
      StrLessTotal(a[1..], b[1..]);
    }
  }

  lemma {:induction false} StrLessTransitive(a: string, b: string, c: string)
    requires StrLess(a, b) && StrLess(b, c)
    ensures StrLess(a, c)
  {
    if a != [] && a[0] == b[0] && b[0] == c[0] {
      StrLessTransitive(a[1..], b[1..], c[1..]);
    }
  }

  lemma GreaterIsStrictTotalOrder(a: Prim, b: Prim, c: Prim)
    ensures !Greater(a, a)
    ensures a != b ==> Greater(a, b) || Greater(b, a)
    ensures Greater(a, b) && Greater(b, c) ==> Greater(a, c)
  {
    if a.Str? {
      StrLessIrreflexive(a.s);
      if b.Str? && a != b {
        StrLessTotal(a.s, b.s);
      }
      if b.Str? && c.Str? && Greater(a, b) && Greater(b, c) {
        StrLessTransitive(c.s, b.s, a.s);
      }
    }
  }

  /** The descending comparator is consistent on any hash of primitive values. */
  lemma DescendingConsistent<K>(data: map<K, Prim>)
    ensures ConsistentOn(Descending, data)
  {
    forall x, y | x in data && y in data
      ensures Descending(data[x], data[y]) <= 0 || Descending(data[y], data[x]) <= 0
    {
      GreaterIsStrictTotalOrder(data[x], data[y], data[y]);
    }
    forall x, y, z | x in data && y in data && z in data &&
      Descending(data[x], data[y]) <= 0 && Descending(data[y], data[z]) <= 0
      ensures Descending(data[x], data[z]) <= 0
    {
      GreaterIsStrictTotalOrder(data[x], data[y], data[z]);
    }
  }

  /** Sorting with the descending comparator puts the largest values first. */
  lemma SortDescending<K(!new)>(h: OMap<K, Prim>)
    requires h.Valid()
    ensures h.Sort(Descending).Valid() && h.Sort(Descending).data == h.data
    ensures var vs := h.Sort(Descending).Values();
      |vs| == h.Length() && forall i, j :: 0 <= i < j < |vs| ==> vs[i] == vs[j] || Greater(vs[i], vs[j])
  {
    DescendingConsistent(h.data);
    var vs := h.Sort(Descending).Values();
    assert |vs| == h.Length() by {
      assert |multiset(h.Sort(Descending).keyOrder)| == |multiset(h.keyOrder)|;
    }
    forall i, j | 0 <= i < j < |vs| ensures vs[i] == vs[j] || Greater(vs[i], vs[j]) {
      assert Descending(vs[i], vs[j]) <= 0;
    }
  }

  /** `h` holds exactly the properties of `props` outside `rest`, under string keys. */
  ghost predicate LoadedFrom<V>(h: OMap<Prim, V>, props: map<string, V>, rest: set<string>) {
    && |h.keyOrder| == |props.Keys - rest|
    && (forall s :: h.Get(Str(s)) == if s in props && s !in rest then Some(props[s]) else None)
    && (forall k :: k in h.data ==> k.Str?)
  }

  lemma LoadStep<V>(h: OMap<Prim, V>, props: map<string, V>, rest: set<string>, s: string)
    requires IsHash(h) && rest <= props.Keys && s in rest && LoadedFrom(h, props, rest)
    ensures LoadedFrom(Assigned(h, Str(s), props[s]), props, rest - {s})
  {
    assert Str(s) !in h.data;
    var h2 := h.Put(Str(s), props[s]);
    LoadStepLength(h, props, rest, s);
    forall t ensures h2.Get(Str(t)) == if t in props && t !in rest - {s} then Some(props[t]) else None {
      if t != s {
        assert h2.Get(Str(t)) == h.Get(Str(t));
      }
    }
  }

  lemma LoadStepLength<V>(h: OMap<Prim, V>, props: map<string, V>, rest: set<string>, s: string)
    requires IsHash(h) && rest <= props.Keys && s in rest && |h.keyOrder| == |props.Keys - rest| && Str(s) !in h.data
    ensures |h.Put(Str(s), props[s]).keyOrder| == |props.Keys - (rest - {s})|
  {
    assert props.Keys - (rest - {s}) == (props.Keys - rest) + {s};
    assert s !in props.Keys - rest;
  }

  // ---------------------------------------------------------------------------
  // The mutable object
  // ---------------------------------------------------------------------------

  class SortedHash<V> {
    var keyOrder: seq<Prim>
    var data: map<Prim, V>

    /** The hash as a value, for the read and transform operations. */
    function View(): OMap<Prim, V>
      reads this
    {
      OMap(keyOrder, data)
    }

    ghost predicate Valid()
      reads this
    {
      IsHash(View())
    }

    /** `new Data.SortedHash()`. */
    constructor ()
      ensures Valid() && View() == Empty()
    {
      keyOrder := [];
      data := map[];
    }

    /** `new Data.SortedHash(array)`: the index of each element is its key. */
    constructor FromArray(items: seq<V>)
      ensures Valid()
      ensures keyOrder == Indices(|items|)
      ensures forall i :: 0 <= i < |items| ==> View().Get(Num(i)) == Some(items[i]) && View().At(i) == Some(items[i])
    {
      keyOrder := [];
      data := map[];
      new;
      var i := 0;
      while i < |items|
        invariant 0 <= i <= |items|
        invariant Valid()
        invariant keyOrder == Indices(i)
        invariant forall j :: 0 <= j < i ==> View().Get(Num(j)) == Some(items[j])
      {
        assert Num(i) !in keyOrder;
        Set(Num(i), items[i]);
        assert keyOrder == Indices(i) + [Num(i)];
        i := i + 1;
      }
    }

    /**
     * `new Data.SortedHash(object)`: every property becomes an entry. The order
     * in which a JavaScript object yields its properties is not fixed, so
     * neither is the key order here: only the entries and the length are.
     */
    constructor FromObject(props: map<string, V>)
      ensures Valid()
      ensures View().Length() == |props|
      ensures forall s :: View().Get(Str(s)) == if s in props then Some(props[s]) else None
      ensures forall k :: k in data ==> k.Str?
    {
      keyOrder := [];
      data := map[];
      new;
      var rest := props.Keys;
      while rest != {}
        invariant rest <= props.Keys
        invariant Valid()
        invariant LoadedFrom(View(), props, rest)
        decreases rest
      {
        var s :| s in rest;
        LoadStep(View(), props, rest, s);
        Set(Str(s), props[s]);
        rest := rest - {s};
      }
    }

    /** `set(key, value)`. */
    method Set(key: Prim, value: V)
      requires Valid()
      modifies this
      ensures Valid()
      ensures View() == Assigned(old(View()), key, value)
    {
      if key != Undefined {
        if key !in data {
          keyOrder := keyOrder + [key];
        }
        data := data[key := value];
      }
    }

    /** `del(key)`: find the key's position, cut it out of the order, drop it from the map. */
    method Del(key: Prim)
      requires Valid()
      modifies this
      ensures Valid()
      ensures View() == old(View()).Remove(key)
    {
      ghost var r := View().Remove(key);
      var i := 0;
      while i < |keyOrder| && keyOrder[i] != key
        invariant 0 <= i <= |keyOrder|
        invariant forall j :: 0 <= j < i ==> keyOrder[j] != key
      {
        i := i + 1;
      }
      if i < |keyOrder| {
        WithoutAt(keyOrder, i, key);
        keyOrder := keyOrder[..i] + keyOrder[i + 1..];
      } else {
        WithoutAbsent(keyOrder, key);
      }
      data := data - {key};
      assert View() == r;
    }

    /** `clone()`: a new object with the same entries in the same order. */
    method Clone() returns (c: SortedHash<V>)
      requires Valid()
      ensures fresh(c) && c.Valid() && c.View() == View()
    {
      c := new SortedHash();
      c.keyOrder := keyOrder;
      c.data := data;
    }
  }

  /** Insertion order, and an overwrite that keeps position and length. */
  method InsertionScenario()
  {
    var items := new SortedHash<Prim>();
    items.Set(Str("at"), Str("Austria"));
    items.Set(Str("de"), Str("Germany"));
    assert items.keyOrder == [Str("at"), Str("de")];
    assert items.View().Key(0) == Some(Str("at")) && items.View().Key(1) == Some(Str("de"));
    assert items.View().First() == Some(Str("Austria")) && items.View().Last() == Some(Str("Germany"));

    items.Set(Str("at"), Str("Österreich"));
    assert items.keyOrder == [Str("at"), Str("de")];
    assert items.View().Length() == 2 && items.View().Get(Str("at")) == Some(Str("Österreich"));
  }

  /** Deleting a key shortens both the key order and the map. */
  method DeletionScenario()
  {
    var items := new SortedHash<Prim>();
    items.Set(Str("at"), Str("Austria"));
    items.Set(Str("de"), Str("Germany"));
    items.Set(Str("ch"), Str("Switzerland"));
    assert items.keyOrder == [Str("at"), Str("de"), Str("ch")];
    items.Del(Str("de"));
    assert items.View().Length() == 2 && items.View().Get(Str("de")) == None;
    assert items.View().Get(Str("ch")) == Some(Str("Switzerland"));
  }

  /** Changing a clone leaves the original alone. */
  method CloneScenario()
  {
    var items := new SortedHash<Prim>();
    items.Set(Str("at"), Str("Austria"));
    var copy := items.Clone();
    copy.Set(Str("fr"), Str("France"));
    assert items.View().Length() == 1 && copy.View().Length() == 2;
  }
}
