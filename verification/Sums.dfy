/**
 Finite sums over tables. A table is a map from row ids to rows, and an SQL
 `SUM(...)` over it is `Sum(table.Keys, f)` for a function `f` of the row id.
 Row ids are natural numbers, so the sum can always take the least id first.
 */
module Sums {

  function Min(a: int, b: int): int {
    if a <= b then a else b
  }

  function Max(a: int, b: int): int {
    if a >= b then a else b
  }

  predicate IsLeast(s: set<nat>, m: nat) {
    m in s && forall k :: k in s ==> m <= k
  }

  lemma {:induction false} LeastExists(s: set<nat>)
    requires s != {}
    ensures exists m :: IsLeast(s, m)
  {
    var x :| x in s;
    var rest := s - {x};
    if rest == {} {
      assert s == {x};
      assert IsLeast(s, x);
    } else {
      LeastExists(rest);
      var y :| IsLeast(rest, y);
      assert s == rest + {x};
      assert IsLeast(s, if x <= y then x else y);
    }
  }

  /** The row id an ascending scan of a non-empty table reads first. */
  function Least(s: set<nat>): (m: nat)
    requires s != {}
    ensures IsLeast(s, m)
  {
    LeastExists(s);
    var m :| m in s && IsLeast(s, m);
    m
  }

  function Sum(s: set<nat>, f: nat -> int): int
    decreases s
  {
    if s == {} then 0 else
      var k := Least(s);
      f(k) + Sum(s - {k}, f)
  }

  /** Any row may be taken out first: the order of a scan does not matter. */
  lemma {:induction false} SumExtract(s: set<nat>, k: nat, f: nat -> int)
    requires k in s
    ensures Sum(s, f) == f(k) + Sum(s - {k}, f)
    decreases s
  {
    var m := Least(s);
    if k != m {
      SumExtract(s - {m}, k, f);
      assert m in s - {k} && Least(s - {k}) in s;
      assert s - {m} - {k} == s - {k} - {m};
    }
  }

  lemma {:induction false} SumCongruent(s: set<nat>, f: nat -> int, g: nat -> int)
    requires forall k :: k in s ==> f(k) == g(k)
    ensures Sum(s, f) == Sum(s, g)
    decreases s
  {
    if s != {} {
      SumCongruent(s - {Least(s)}, f, g);
    }
  }

  /** Changing, inserting or deleting the single row `k` moves the sum by that row alone. */
  lemma SumChange(s: set<nat>, f: nat -> int, s': set<nat>, f': nat -> int, k: nat)
    requires s - {k} == s' - {k}
    requires forall j :: j in s && j != k ==> f(j) == f'(j)
    ensures Sum(s', f') - (if k in s' then f'(k) else 0) == Sum(s, f) - (if k in s then f(k) else 0)
  {
    if k in s { SumExtract(s, k, f); } else { assert s - {k} == s; }
    if k in s' { SumExtract(s', k, f'); } else { assert s' - {k} == s'; }
    SumCongruent(s - {k}, f, f');
  }

  lemma {:induction false} SumMonotone(s: set<nat>, f: nat -> int, g: nat -> int)
    requires forall k :: k in s ==> f(k) <= g(k)
    ensures Sum(s, f) <= Sum(s, g)
    decreases s
  {
    if s != {} {
      SumMonotone(s - {Least(s)}, f, g);
    }
  }

  lemma {:induction false} SumNonNegative(s: set<nat>, f: nat -> int)
    requires forall k :: k in s ==> f(k) >= 0
    ensures Sum(s, f) >= 0
    ensures forall k :: k in s ==> f(k) <= Sum(s, f)
    decreases s
  {
    if s != {} {
      SumNonNegative(s - {Least(s)}, f);
    }
  }

  lemma {:induction false} SumPlus(s: set<nat>, f: nat -> int, g: nat -> int, h: nat -> int)
    requires forall k :: k in s ==> h(k) == f(k) + g(k)
    ensures Sum(s, h) == Sum(s, f) + Sum(s, g)
    decreases s
  {
    if s != {} {
      SumPlus(s - {Least(s)}, f, g, h);
    }
  }

  lemma {:induction false} SumZero(s: set<nat>, f: nat -> int)
    requires forall k :: k in s ==> f(k) == 0
    ensures Sum(s, f) == 0
    decreases s
  {
    if s != {} {
      SumZero(s - {Least(s)}, f);
    }
  }

  /** A sum over part of a table is the sum over all of it when the rest counts 0. */
  lemma {:induction false} SumSubset(s: set<nat>, t: set<nat>, f: nat -> int, g: nat -> int)
    requires t <= s
    requires forall k :: k in t ==> f(k) == g(k)
    requires forall k :: k in s && k !in t ==> g(k) == 0
    ensures Sum(t, f) == Sum(s, g)
    decreases s
  {
    if s != {} {
      var k := Least(s);
      if k in t {
        SumExtract(t, k, f);
        SumSubset(s - {k}, t - {k}, f, g);
      } else {
        SumSubset(s - {k}, t, f, g);
      }
    }
  }

  /** Only one row counts. */
  lemma SumSingle(s: set<nat>, k: nat, f: nat -> int)
    requires k in s && forall j :: j in s && j != k ==> f(j) == 0
    ensures Sum(s, f) == f(k)
  {
    SumExtract(s, k, f);
    SumZero(s - {k}, f);
  }

  lemma SubsetSize<T>(a: set<T>, b: set<T>)
    requires a <= b
    ensures |a| <= |b|
  {
    assert b == a + (b - a);
  }
}
