/**
 * The position-coefficient catalog and the rules every part of the system
 * applies to it: how a position code is resolved to a catalog key ("exact key
 * first, otherwise the first `/`-grouped key whose parts contain the code"),
 * how the entries of a coefficient set are filtered to the stats a player has,
 * and how they are ordered by descending coefficient (a stable sort, as
 * `Array.prototype.sort` is).
 *
 * The catalog is an ordered sequence: its order is the key order of the JSON
 * object it models, which decides "first match wins" and sort ties.
 */
module Coefficients {
  import opened JsText

  datatype CoefficientEntry = CoefficientEntry(key: string, name: string, coefficient: nat)

  /** The coefficient set of one position group, in the catalog's own key order. */
  type CoefficientSet = seq<CoefficientEntry>

  datatype CatalogEntry = CatalogEntry(groupKey: string, coefficients: CoefficientSet)

  type Catalog = seq<CatalogEntry>

  /** `Object.keys(catalog)`. */
  function Keys(catalog: Catalog): (ks: seq<string>)
    ensures |ks| == |catalog|
    ensures forall i :: 0 <= i < |catalog| ==> ks[i] == catalog[i].groupKey
  {
    if catalog == [] then [] else [catalog[0].groupKey] + Keys(catalog[1..])
  }

  /** `catalog[key]`: the coefficient set stored under `key`, if any. */
  function Lookup(catalog: Catalog, key: string): (r: Option<CoefficientSet>)
    ensures r.Some? <==> key in Keys(catalog)
    ensures r.Some? ==> exists i :: 0 <= i < |catalog| && catalog[i] == CatalogEntry(key, r.value)
  {
    if catalog == [] then None
    else if catalog[0].groupKey == key then Some(catalog[0].coefficients)
    else
      var r := Lookup(catalog[1..], key);
      assert r.Some? ==> exists i :: 0 <= i < |catalog| - 1 && catalog[1..][i] == CatalogEntry(key, r.value);
      r
  }

  /** `key.includes('/') && key.split('/').includes(position)`. */
  predicate GroupContains(key: string, position: string) {
    Contains(key, "/") && position in Split(key, "/")
  }

  /** Index of the first key from `from` on that is a group containing `position`. */
  function FirstGroupFrom(keys: seq<string>, position: string, from: nat): (r: Option<nat>)
    requires from <= |keys|
    ensures r.Some? ==> from <= r.value < |keys| && GroupContains(keys[r.value], position)
    ensures r.Some? ==> forall j :: from <= j < r.value ==> !GroupContains(keys[j], position)
    ensures r.None? ==> forall j :: from <= j < |keys| ==> !GroupContains(keys[j], position)
    decreases |keys| - from
  {
    if from == |keys| then None
    else if GroupContains(keys[from], position) then Some(from)
    else FirstGroupFrom(keys, position, from + 1)
  }

  /**
   * The resolution rule: `position` itself when it is one of the keys,
   * otherwise the first grouped key whose `/`-separated parts include it,
   * otherwise nothing.
   */
  function ResolveGroupKey(keys: seq<string>, position: string): (r: Option<string>)
    ensures position in keys ==> r == Some(position)
    ensures position !in keys ==>
              (r.Some? <==> exists i :: 0 <= i < |keys| && GroupContains(keys[i], position))
    ensures position !in keys && r.Some? ==>
              exists i :: 0 <= i < |keys| && keys[i] == r.value && GroupContains(keys[i], position)
                          && forall j :: 0 <= j < i ==> !GroupContains(keys[j], position)
    ensures r.Some? ==> r.value in keys
  {
    if position in keys then Some(position)
    else
      match FirstGroupFrom(keys, position, 0)
      case None => None
      case Some(i) => Some(keys[i])
  }

  /** A key that is not grouped only ever resolves to itself. */
  lemma UngroupedKeyResolvesToItself(keys: seq<string>, key: string, position: string)
    requires key in keys && !Contains(key, "/")
    ensures ResolveGroupKey(keys, position) == Some(key) ==> position == key
  {
  }

  /** The entries of `coefs` whose key is in `present`, in their own order. */
  function PresentEntries(coefs: CoefficientSet, present: set<string>): (r: CoefficientSet)
    ensures |r| <= |coefs|
    ensures forall e :: e in r <==> e in coefs && e.key in present
  {
    if coefs == [] then []
    else
      var rest := PresentEntries(coefs[1..], present);
      if coefs[0].key in present then [coefs[0]] + rest else rest
  }

  predicate SortedByCoefficientDesc(s: CoefficientSet) {
    forall i, j :: 0 <= i < j < |s| ==> s[i].coefficient >= s[j].coefficient
  }

  /** Puts `x` after every element of `s` whose coefficient is at least its own. */
  function InsertByCoefficient(x: CoefficientEntry, s: CoefficientSet): (r: CoefficientSet)
    ensures |r| == |s| + 1
    ensures multiset(r) == multiset(s) + multiset{x}
  {
    if s == [] then [x]
    else if s[0].coefficient >= x.coefficient then
      assert s == [s[0]] + s[1..];
      [s[0]] + InsertByCoefficient(x, s[1..])
    else [x] + s
  }

  lemma {:induction false} InsertKeepsSorted(x: CoefficientEntry, s: CoefficientSet)
    requires SortedByCoefficientDesc(s)
    ensures SortedByCoefficientDesc(InsertByCoefficient(x, s))
    decreases |s|
  {
    if s != [] && s[0].coefficient >= x.coefficient {
      InsertKeepsSorted(x, s[1..]);
      var rest := InsertByCoefficient(x, s[1..]);
      InsertBounded(x, s[1..], s[0].coefficient);
      var r := [s[0]] + rest;
      forall i, j | 0 <= i < j < |r| ensures r[i].coefficient >= r[j].coefficient {
        if i == 0 {
          assert r[j] == rest[j - 1];
        } else {
          assert r[i] == rest[i - 1] && r[j] == rest[j - 1];
        }
      }
    }
  }

  /** Inserting under a bound that `x` and all of `s` respect gives a sequence that respects it. */
  lemma {:induction false} InsertBounded(x: CoefficientEntry, s: CoefficientSet, bound: nat)
    requires x.coefficient <= bound
    requires forall i :: 0 <= i < |s| ==> s[i].coefficient <= bound
    ensures forall i :: 0 <= i < |InsertByCoefficient(x, s)| ==> InsertByCoefficient(x, s)[i].coefficient <= bound
    decreases |s|
  {
    if s != [] && s[0].coefficient >= x.coefficient {
      InsertBounded(x, s[1..], bound);
    }
  }

  /**
   * `s.sort((a, b) => b.coefficient - a.coefficient)`: ECMAScript requires
   * `sort` to be stable, so this is an insertion sort that keeps equal
   * coefficients in their input order.
   */
  function SortByCoefficientDesc(s: CoefficientSet): (r: CoefficientSet)
    ensures |r| == |s|
    ensures multiset(r) == multiset(s)
    ensures SortedByCoefficientDesc(r)
  {
    if s == [] then []
    else
      assert s == s[..|s| - 1] + [s[|s| - 1]];
      var sortedInit := SortByCoefficientDesc(s[..|s| - 1]);
      InsertKeepsSorted(s[|s| - 1], sortedInit);
      InsertByCoefficient(s[|s| - 1], sortedInit)
  }

  /** The entries of `s` whose coefficient is exactly `c`, in order. */
  function WithCoefficient(s: CoefficientSet, c: nat): CoefficientSet {
    if s == [] then []
    else
      var rest := WithCoefficient(s[..|s| - 1], c);
      if s[|s| - 1].coefficient == c then rest + [s[|s| - 1]] else rest
  }

  lemma {:induction false} WithCoefficientHead(e: CoefficientEntry, s: CoefficientSet, c: nat)
    ensures WithCoefficient([e] + s, c) == (if e.coefficient == c then [e] else []) + WithCoefficient(s, c)
    decreases |s|
  {
    if s != [] {
      var t := [e] + s;
      assert t[..|t| - 1] == [e] + s[..|s| - 1];
      WithCoefficientHead(e, s[..|s| - 1], c);
    }
  }

  lemma {:induction false} InsertWithCoefficient(x: CoefficientEntry, s: CoefficientSet, c: nat)
    requires SortedByCoefficientDesc(s)
    ensures WithCoefficient(InsertByCoefficient(x, s), c)
            == WithCoefficient(s, c) + (if x.coefficient == c then [x] else [])
    decreases |s|
  {
    if s == [] {
      assert WithCoefficient([x], c) == WithCoefficient([], c) + (if x.coefficient == c then [x] else []);
    } else if s[0].coefficient >= x.coefficient {
      InsertWithCoefficient(x, s[1..], c);
      WithCoefficientHead(s[0], InsertByCoefficient(x, s[1..]), c);
      WithCoefficientHead(s[0], s[1..], c);
      assert s == [s[0]] + s[1..];
    } else {
      // every element of s has a smaller coefficient than x
      WithCoefficientHead(x, s, c);
      if x.coefficient == c {
        NoneWithCoefficient(s, c);
      }
    }
  }

  lemma {:induction false} NoneWithCoefficient(s: CoefficientSet, c: nat)
    requires forall i :: 0 <= i < |s| ==> s[i].coefficient < c
    ensures WithCoefficient(s, c) == []
  {
    if s != [] {
      NoneWithCoefficient(s[..|s| - 1], c);
    }
  }

  /**
   * Stability: among the entries of any one coefficient value, the sorted
   * sequence keeps the input order.
   */
  lemma {:induction false} SortIsStable(s: CoefficientSet, c: nat)
    ensures WithCoefficient(SortByCoefficientDesc(s), c) == WithCoefficient(s, c)
  {
    if s != [] {
      var init := s[..|s| - 1];
      SortIsStable(init, c);
      InsertWithCoefficient(s[|s| - 1], SortByCoefficientDesc(init), c);
    }
  }

  /** `s.slice(0, n)`: a negative `n` counts from the end. */
  function Slice<T>(s: seq<T>, n: int): (r: seq<T>)
    ensures n >= 0 ==> |r| == if n < |s| then n else |s|
    ensures n < 0 ==> |r| == if -n < |s| then |s| + n else 0
    ensures r == s[..|r|]
  {
    if n >= 0 then (if n < |s| then s[..n] else s)
    else if -n < |s| then s[..|s| + n]
    else []
  }
}
