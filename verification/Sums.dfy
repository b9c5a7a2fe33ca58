/** Sums over maps and sequences: the conservation laws of the warehouse are equations between them. */
module Sums {
  /** The sum of f over the values of a map; the order in which keys are taken does not matter (see SumRemove). */
  ghost function Sum<K(!new), V>(m: map<K, V>, f: V -> int): int
    decreases |m|
  {
    if m == map[] then 0
    else
      var k :| k in m;
      assert |m - {k}| < |m|;
      f(m[k]) + Sum(m - {k}, f)
  }

  lemma {:induction false} SumRemove<K(!new), V>(m: map<K, V>, k: K, f: V -> int)
    requires k in m
    ensures Sum(m, f) == f(m[k]) + Sum(m - {k}, f)
    decreases |m|
  {
    var c :| c in m && Sum(m, f) == f(m[c]) + Sum(m - {c}, f);
    if c != k {
      assert |m - {c}| < |m| && |m - {k}| < |m|;
      SumRemove(m - {c}, k, f);
      SumRemove(m - {k}, c, f);
      assert m - {c} - {k} == m - {k} - {c};
    }
  }

  lemma SumUpdate<K(!new), V>(m: map<K, V>, k: K, v: V, f: V -> int)
    ensures Sum(m[k := v], f) == Sum(m, f) + f(v) - (if k in m then f(m[k]) else 0)
  {
    SumRemove(m[k := v], k, f);
    assert m[k := v] - {k} == m - {k};
    if k in m {
      SumRemove(m, k, f);
    } else {
      assert m - {k} == m;
    }
  }

  lemma {:induction false} SumCongruence<K(!new), V, W>(m: map<K, V>, n: map<K, W>, f: V -> int, g: W -> int)
    requires m.Keys == n.Keys
    requires forall k :: k in m ==> f(m[k]) == g(n[k])
    ensures Sum(m, f) == Sum(n, g)
    decreases |m|
  {
    if m != map[] {
      var k :| k in m;
      assert |m - {k}| < |m|;
      SumRemove(m, k, f);
      SumRemove(n, k, g);
      SumCongruence(m - {k}, n - {k}, f, g);
    } else {
      assert n.Keys == {};
      assert n == map[];
    }
  }

  lemma {:induction false} SumZero<K(!new), V>(m: map<K, V>, f: V -> int)
    requires forall k :: k in m ==> f(m[k]) == 0
    ensures Sum(m, f) == 0
    decreases |m|
  {
    if m != map[] {
      var k :| k in m;
      assert |m - {k}| < |m|;
      SumRemove(m, k, f);
      SumZero(m - {k}, f);
    }
  }

  lemma {:induction false} SumOfThree<K(!new), V>(m: map<K, V>, f: V -> int, g: V -> int, h: V -> int, l: V -> int)
    requires forall k :: k in m ==> f(m[k]) == g(m[k]) + h(m[k]) + l(m[k])
    ensures Sum(m, f) == Sum(m, g) + Sum(m, h) + Sum(m, l)
    decreases |m|
  {
    if m != map[] {
      var k :| k in m;
      assert |m - {k}| < |m|;
      SumRemove(m, k, f);
      SumRemove(m, k, g);
      SumRemove(m, k, h);
      SumRemove(m, k, l);
      hide Sum;
      SumOfThree(m - {k}, f, g, h, l);
    }
  }

  lemma {:induction false} SumNonNegative<K(!new), V>(m: map<K, V>, f: V -> int)
    requires forall k :: k in m ==> f(m[k]) >= 0
    ensures Sum(m, f) >= 0
    decreases |m|
  {
    if m != map[] {
      var k :| k in m;
      assert |m - {k}| < |m|;
      SumRemove(m, k, f);
      SumNonNegative(m - {k}, f);
    }
  }

  /** A sum of non-negative terms is at least each of them. */
  lemma SumAtLeast<K(!new), V>(m: map<K, V>, k: K, f: V -> int)
    requires k in m
    requires forall i :: i in m ==> f(m[i]) >= 0
    ensures Sum(m, f) >= f(m[k])
  {
    SumRemove(m, k, f);
    SumNonNegative(m - {k}, f);
  }

  /** The sum of f along a sequence. */
  ghost function Tally<T>(s: seq<T>, f: T -> int): int {
    if s == [] then 0 else Tally(s[..|s| - 1], f) + f(s[|s| - 1])
  }

  lemma TallyAppend<T>(s: seq<T>, e: T, f: T -> int)
    ensures Tally(s + [e], f) == Tally(s, f) + f(e)
  {
    assert (s + [e])[..|s|] == s;
  }

  lemma {:induction false} TallyConcat<T>(s: seq<T>, t: seq<T>, f: T -> int)
    ensures Tally(s + t, f) == Tally(s, f) + Tally(t, f)
    decreases |t|
  {
    if t == [] {
      assert s + t == s;
    } else {
      var front := t[..|t| - 1];
      assert s + t == (s + front) + [t[|t| - 1]];
      TallyAppend(s + front, t[|t| - 1], f);
      TallyConcat(s, front, f);
    }
  }

  lemma {:induction false} TallyZero<T>(s: seq<T>, f: T -> int)
    requires forall i :: 0 <= i < |s| ==> f(s[i]) == 0
    ensures Tally(s, f) == 0
    decreases |s|
  {
    if s != [] {
      TallyZero(s[..|s| - 1], f);
    }
  }

  /** No element occurs twice. */
  predicate Distinct<T(==)>(s: seq<T>) {
    forall i, j :: 0 <= i < j < |s| ==> s[i] != s[j]
  }
}
