/** Shared building blocks: optional values, results with an error message,
    and sums over sequences (left folds, in the order the Go loops add). */
module Common {

  datatype Option<+T> = None | Some(value: T)

  /** A Go `(value, error)` pair where the error is a message. */
  datatype Result<+T> = Ok(value: T) | Err(msg: string)

  /** Σ f(x) over `s`, accumulated left to right as `total += f(x)` does. */
  function Sum<T>(s: seq<T>, f: T -> real): real
  {
    if s == [] then 0.0 else Sum(s[..|s| - 1], f) + f(s[|s| - 1])
  }

  function SumInt<T>(s: seq<T>, f: T -> int): int
  {
    if s == [] then 0 else SumInt(s[..|s| - 1], f) + f(s[|s| - 1])
  }

  /** Σ f(x) over the elements of `s` that satisfy `sel` and whose key is `k`. */
  function SumWhere<T, K(==)>(s: seq<T>, f: T -> real, sel: T -> bool, key: T -> K, k: K): real
  {
    if s == [] then 0.0
    else
      var x := s[|s| - 1];
      SumWhere(s[..|s| - 1], f, sel, key, k) + (if sel(x) && key(x) == k then f(x) else 0.0)
  }

  function SumIntWhere<T, K(==)>(s: seq<T>, f: T -> int, sel: T -> bool, key: T -> K, k: K): int
  {
    if s == [] then 0
    else
      var x := s[|s| - 1];
      SumIntWhere(s[..|s| - 1], f, sel, key, k) + (if sel(x) && key(x) == k then f(x) else 0)
  }

  /** The values f(x) of the elements of `s` that satisfy `sel` and whose key is `k`. */
  function SetWhere<T, K(==), V(==)>(s: seq<T>, f: T -> V, sel: T -> bool, key: T -> K, k: K): set<V>
  {
    if s == [] then {}
    else
      var x := s[|s| - 1];
      SetWhere(s[..|s| - 1], f, sel, key, k) + (if sel(x) && key(x) == k then {f(x)} else {})
  }

  /** Σ f(x) over the elements of `s` that satisfy `sel`. */
  function SumSel<T>(s: seq<T>, f: T -> real, sel: T -> bool): real
  {
    if s == [] then 0.0
    else
      var x := s[|s| - 1];
      SumSel(s[..|s| - 1], f, sel) + (if sel(x) then f(x) else 0.0)
  }

  function SumIntSel<T>(s: seq<T>, f: T -> int, sel: T -> bool): int
  {
    if s == [] then 0
    else
      var x := s[|s| - 1];
      SumIntSel(s[..|s| - 1], f, sel) + (if sel(x) then f(x) else 0)
  }

  /** Σ over a sequence of keys of a per-key quantity. */
  function SumKeys<K>(ks: seq<K>, g: K -> real): real
  {
    if ks == [] then 0.0 else SumKeys(ks[..|ks| - 1], g) + g(ks[|ks| - 1])
  }

  function SumIntKeys<K>(ks: seq<K>, g: K -> int): int
  {
    if ks == [] then 0 else SumIntKeys(ks[..|ks| - 1], g) + g(ks[|ks| - 1])
  }

  /** The per-key totals of the selected elements, as a function of the key. */
  function GroupSum<T, K(==)>(s: seq<T>, f: T -> real, sel: T -> bool, key: T -> K): K -> real
  {
    k => SumWhere(s, f, sel, key, k)
  }

  function GroupSumInt<T, K(==)>(s: seq<T>, f: T -> int, sel: T -> bool, key: T -> K): K -> int
  {
    k => SumIntWhere(s, f, sel, key, k)
  }

  predicate Distinct<T(==)>(s: seq<T>)
  {
    forall i, j :: 0 <= i < j < |s| ==> s[i] != s[j]
  }

  lemma {:induction false} SumAppend<T>(s: seq<T>, x: T, f: T -> real)
    ensures Sum(s + [x], f) == Sum(s, f) + f(x)
  {
    assert (s + [x])[..|s + [x]| - 1] == s;
  }

  /** Summing a per-key indicator over distinct keys picks out exactly one term. */
  lemma {:induction false} SumKeysIndicator<K>(ks: seq<K>, g: K -> real, h: K -> real, k: K, c: real)
    requires Distinct(ks)
    requires forall j :: j in ks ==> h(j) == g(j) + (if j == k then c else 0.0)
    ensures SumKeys(ks, h) == SumKeys(ks, g) + (if k in ks then c else 0.0)
  {
    if ks != [] {
      var init := ks[..|ks| - 1];
      assert Distinct(init);
      SumKeysIndicator(init, g, h, k, c);
      assert ks == init + [ks[|ks| - 1]];
      assert k in ks <==> k in init || k == ks[|ks| - 1];
    }
  }

  lemma {:induction false} SumIntKeysIndicator<K>(ks: seq<K>, g: K -> int, h: K -> int, k: K, c: int)
    requires Distinct(ks)
    requires forall j :: j in ks ==> h(j) == g(j) + (if j == k then c else 0)
    ensures SumIntKeys(ks, h) == SumIntKeys(ks, g) + (if k in ks then c else 0)
  {
    if ks != [] {
      var init := ks[..|ks| - 1];
      assert Distinct(init);
      SumIntKeysIndicator(init, g, h, k, c);
      assert ks == init + [ks[|ks| - 1]];
      assert k in ks <==> k in init || k == ks[|ks| - 1];
    }
  }

  lemma {:induction false} SumKeysZero<K>(ks: seq<K>, g: K -> real)
    requires forall j :: j in ks ==> g(j) == 0.0
    ensures SumKeys(ks, g) == 0.0
  {
    if ks != [] {
      SumKeysZero(ks[..|ks| - 1], g);
    }
  }

  lemma {:induction false} SumIntKeysZero<K>(ks: seq<K>, g: K -> int)
    requires forall j :: j in ks ==> g(j) == 0
    ensures SumIntKeys(ks, g) == 0
  {
    if ks != [] {
      SumIntKeysZero(ks[..|ks| - 1], g);
    }
  }

  /** Grouping by key and summing each group gives the overall sum: the per-key
      totals over any duplicate-free list of keys that covers every selected
      element add up to the sum over all selected elements. */
  lemma {:induction false} KeyedSumsAddUp<T, K>(s: seq<T>, f: T -> real, sel: T -> bool, key: T -> K, ks: seq<K>)
    requires Distinct(ks)
    requires forall i :: 0 <= i < |s| && sel(s[i]) ==> key(s[i]) in ks
    ensures SumKeys(ks, GroupSum(s, f, sel, key)) == SumSel(s, f, sel)
  {
    if s == [] {
      SumKeysZero(ks, GroupSum(s, f, sel, key));
    } else {
      var init := s[..|s| - 1];
      var x := s[|s| - 1];
      forall i | 0 <= i < |init| && sel(init[i]) ensures key(init[i]) in ks {
        assert init[i] == s[i];
      }
      KeyedSumsAddUp(init, f, sel, key, ks);
      var g := GroupSum(init, f, sel, key);
      var h := GroupSum(s, f, sel, key);
      if sel(x) {
        assert key(x) in ks by { assert s[|s| - 1] == x; }
        SumKeysIndicator(ks, g, h, key(x), f(x));
      } else {
        SumKeysIndicator(ks, g, h, key(x), 0.0);
      }
    }
  }

  lemma {:induction false} KeyedIntSumsAddUp<T, K>(s: seq<T>, f: T -> int, sel: T -> bool, key: T -> K, ks: seq<K>)
    requires Distinct(ks)
    requires forall i :: 0 <= i < |s| && sel(s[i]) ==> key(s[i]) in ks
    ensures SumIntKeys(ks, GroupSumInt(s, f, sel, key)) == SumIntSel(s, f, sel)
  {
    if s == [] {
      SumIntKeysZero(ks, GroupSumInt(s, f, sel, key));
    } else {
      var init := s[..|s| - 1];
      var x := s[|s| - 1];
      forall i | 0 <= i < |init| && sel(init[i]) ensures key(init[i]) in ks {
        assert init[i] == s[i];
      }
      KeyedIntSumsAddUp(init, f, sel, key, ks);
      var g := GroupSumInt(init, f, sel, key);
      var h := GroupSumInt(s, f, sel, key);
      if sel(x) {
        assert key(x) in ks by { assert s[|s| - 1] == x; }
        SumIntKeysIndicator(ks, g, h, key(x), f(x));
      } else {
        SumIntKeysIndicator(ks, g, h, key(x), 0);
      }
    }
  }

  /** A sum over a list equals the sum over a parallel list of keys when each
      element's term is its key's term. */
  lemma {:induction false} SumOfMapped<T, K>(s: seq<T>, f: T -> real, ks: seq<K>, g: K -> real)
    requires |s| == |ks|
    requires forall i :: 0 <= i < |s| ==> f(s[i]) == g(ks[i])
    ensures Sum(s, f) == SumKeys(ks, g)
  {
    if s != [] {
      SumOfMapped(s[..|s| - 1], f, ks[..|ks| - 1], g);
    }
  }

  lemma {:induction false} SumIntOfMapped<T, K>(s: seq<T>, f: T -> int, ks: seq<K>, g: K -> int)
    requires |s| == |ks|
    requires forall i :: 0 <= i < |s| ==> f(s[i]) == g(ks[i])
    ensures SumInt(s, f) == SumIntKeys(ks, g)
  {
    if s != [] {
      SumIntOfMapped(s[..|s| - 1], f, ks[..|ks| - 1], g);
    }
  }
  /** A Go map read: the entry of `k`, or 0 when `k` is missing. */
  function Get<K>(m: map<K, real>, k: K): real
  {
    if k in m then m[k] else 0.0
  }

  function Min(a: int, b: int): int { if a < b then a else b }

  /** Adding one more element to a prefix adds its term to the keyed sum. */
  lemma SumWhereStep<T, K>(s: seq<T>, i: int, f: T -> real, sel: T -> bool, key: T -> K, k: K)
    requires 0 <= i < |s|
    ensures SumWhere(s[..i + 1], f, sel, key, k)
            == SumWhere(s[..i], f, sel, key, k) + (if sel(s[i]) && key(s[i]) == k then f(s[i]) else 0.0)
  {
    assert s[..i + 1][..i] == s[..i];
  }

  lemma SumStep<T>(s: seq<T>, i: int, f: T -> real)
    requires 0 <= i < |s|
    ensures Sum(s[..i + 1], f) == Sum(s[..i], f) + f(s[i])
  {
    assert s[..i + 1][..i] == s[..i];
  }

  /** Selecting every element sums the whole sequence. */
  lemma {:induction false} SumSelAll<T>(s: seq<T>, f: T -> real, sel: T -> bool)
    requires forall x :: sel(x)
    ensures SumSel(s, f, sel) == Sum(s, f)
  {
    if s != [] {
      SumSelAll(s[..|s| - 1], f, sel);
    }
  }

  /** A constant factor comes out of a sum over keys. */
  lemma {:induction false} SumKeysScale<K>(ks: seq<K>, g: K -> real, h: K -> real, c: real)
    requires forall k :: k in ks ==> g(k) == c * h(k)
    ensures SumKeys(ks, g) == c * SumKeys(ks, h)
  {
    if ks != [] {
      SumKeysScale(ks[..|ks| - 1], g, h, c);
    }
  }

  /** A sum over keys of a sum of two terms is the sum of the two sums. */
  lemma {:induction false} SumKeysAdd<K>(ks: seq<K>, g: K -> real, h1: K -> real, h2: K -> real)
    requires forall k :: k in ks ==> g(k) == h1(k) + h2(k)
    ensures SumKeys(ks, g) == SumKeys(ks, h1) + SumKeys(ks, h2)
  {
    if ks != [] {
      SumKeysAdd(ks[..|ks| - 1], g, h1, h2);
    }
  }

  /** The keys of the elements of `s`. */
  function KeysOf<T, K>(s: seq<T>, key: T -> K): (r: set<K>)
    ensures forall i :: 0 <= i < |s| ==> key(s[i]) in r
  {
    if s == [] then {} else KeysOf(s[..|s| - 1], key) + {key(s[|s| - 1])}
  }

  /** The keys of the elements of `s` that satisfy `sel`. */
  function KeysWhere<T, K>(s: seq<T>, sel: T -> bool, key: T -> K): (r: set<K>)
    ensures forall i :: 0 <= i < |s| && sel(s[i]) ==> key(s[i]) in r
  {
    if s == [] then {}
    else KeysWhere(s[..|s| - 1], sel, key) + (if sel(s[|s| - 1]) then {key(s[|s| - 1])} else {})
  }

  /** The sum of a map's values, independent of the order Go ranges over them. */
  ghost function MapSum<K>(m: map<K, real>): real
    decreases |m|
  {
    if m == map[] then 0.0
    else
      var k :| k in m;
      m[k] + MapSum(m - {k})
  }

  /** Any entry can be taken out first. */
  lemma {:induction false} MapSumRemove<K>(m: map<K, real>, k: K)
    requires k in m
    ensures MapSum(m) == m[k] + MapSum(m - {k})
    decreases |m|
  {
    var j :| j in m && MapSum(m) == m[j] + MapSum(m - {j});
    if j != k {
      MapSumRemove(m - {j}, k);
      MapSumRemove(m - {k}, j);
      assert m - {j} - {k} == m - {k} - {j};
    }
  }

  /** `for _, value := range m { total += value }`. */
  method MapTotal<K>(m: map<K, real>) returns (total: real)
    ensures total == MapSum(m)
  {
    total := 0.0;
    var rest := m;
    while rest != map[]
      invariant total + MapSum(rest) == MapSum(m)
      decreases |rest|
    {
      var k :| k in rest;
      MapSumRemove(rest, k);
      total := total + rest[k];
      rest := rest - {k};
    }
  }
}
