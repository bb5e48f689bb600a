/** Orderings and sorting. Python compares strings code point by code point
    and tuples component by component; `sorted(...)` of distinct keys and
    `sorted(set(...))` both yield the unique strictly increasing arrangement
    of a set of keys, which `SortDistinct` computes. */
module Ordering {
  import opened Common

  /** Lexicographic string order, as Python's `<` on `str`. */
  predicate StrLt(a: string, b: string)
    decreases |a|
  {
    if |a| == 0 then |b| > 0
    else if |b| == 0 then false
    else if a[0] != b[0] then a[0] < b[0]
    else StrLt(a[1..], b[1..])
  }

  lemma {:induction false} StrLtIrreflexive(a: string)
    ensures !StrLt(a, a)
    decreases |a|
  {
    if |a| > 0 {
      StrLtIrreflexive(a[1..]);
    }
  }

  lemma {:induction false} StrLtTransitive(a: string, b: string, c: string)
    requires StrLt(a, b) && StrLt(b, c)
    ensures StrLt(a, c)
    decreases |a|
  {
    if |a| > 0 && |b| > 0 && |c| > 0 && a[0] == b[0] && b[0] == c[0] {
      StrLtTransitive(a[1..], b[1..], c[1..]);
    }
  }

  lemma {:induction false} StrLtTotal(a: string, b: string)
    requires a != b
    ensures StrLt(a, b) || StrLt(b, a)
    decreases |a|
  {
    if |a| > 0 && |b| > 0 && a[0] == b[0] {
      assert a == [a[0]] + a[1..] && b == [b[0]] + b[1..];
      StrLtTotal(a[1..], b[1..]);
    }
  }

  /** A strict total order: irreflexive, transitive and connected. */
  ghost predicate StrictTotal<T(!new)>(lt: (T, T) -> bool)
  {
    && (forall x :: !lt(x, x))
    && (forall x, y, z :: lt(x, y) && lt(y, z) ==> lt(x, z))
    && (forall x, y :: x != y ==> lt(x, y) || lt(y, x))
  }

  lemma StrLtIsStrictTotal()
    ensures StrictTotal(StrLt)
  {
    forall x: string ensures !StrLt(x, x) {
      StrLtIrreflexive(x);
    }
    forall x: string, y: string, z: string | StrLt(x, y) && StrLt(y, z)
      ensures StrLt(x, z)
    {
      StrLtTransitive(x, y, z);
    }
    forall x: string, y: string | x != y ensures StrLt(x, y) || StrLt(y, x) {
      StrLtTotal(x, y);
    }
  }

  /** Python's `<` on `int`, and its reverse (for `sorted(..., reverse=True)`). */
  predicate IntLt(a: int, b: int) { a < b }

  predicate IntGt(a: int, b: int) { a > b }

  lemma IntOrdersAreStrictTotal()
    ensures StrictTotal(IntLt) && StrictTotal(IntGt)
  {
  }

  /** Tuple comparison: first components decide, ties go to the second. */
  function Lex<A(==), B>(ltA: (A, A) -> bool, ltB: (B, B) -> bool): ((A, B), (A, B)) -> bool
  {
    (x: (A, B), y: (A, B)) => ltA(x.0, y.0) || (x.0 == y.0 && ltB(x.1, y.1))
  }

  lemma LexIsStrictTotal<A(!new), B(!new)>(ltA: (A, A) -> bool, ltB: (B, B) -> bool)
    requires StrictTotal(ltA) && StrictTotal(ltB)
    ensures StrictTotal(Lex(ltA, ltB))
  {
    var lt := Lex(ltA, ltB);
    forall x, y, z | lt(x, y) && lt(y, z) ensures lt(x, z) {
      if ltA(x.0, y.0) && ltA(y.0, z.0) {
        assert ltA(x.0, z.0);
      }
    }
    forall x: (A, B), y: (A, B) | x != y ensures lt(x, y) || lt(y, x) {
      if x.0 == y.0 {
        assert x.1 != y.1;
      }
    }
  }

  /** The orders used by the dashboard's views. */
  lemma ViewOrdersAreStrictTotal()
    ensures StrictTotal(StrLt)
    ensures StrictTotal(Lex(StrLt, StrLt))
    ensures StrictTotal(Lex(StrLt, IntLt))
    ensures StrictTotal(IntGt)
  {
    StrLtIsStrictTotal();
    IntOrdersAreStrictTotal();
    LexIsStrictTotal(StrLt, StrLt);
    LexIsStrictTotal(StrLt, IntLt);
  }

  /** Every earlier element is below every later one (so no duplicates). */
  ghost predicate StrictlySorted<T>(s: seq<T>, lt: (T, T) -> bool)
  {
    forall i, j :: 0 <= i < j < |s| ==> lt(s[i], s[j])
  }

  /** No later element is below an earlier one (duplicates allowed). */
  ghost predicate Sorted<T>(s: seq<T>, lt: (T, T) -> bool)
  {
    forall i, j :: 0 <= i < j < |s| ==> !lt(s[j], s[i])
  }

  /** Inserts `x` into a strictly sorted sequence unless it is already there. */
  function InsertDistinct<T(==,!new)>(x: T, s: seq<T>, lt: (T, T) -> bool): (r: seq<T>)
    requires StrictTotal(lt) && StrictlySorted(s, lt)
    ensures StrictlySorted(r, lt)
    ensures forall y :: y in r <==> y in s || y == x
  {
    if |s| == 0 then [x]
    else if x == s[0] then s
    else if lt(x, s[0]) then [x] + s
    else
      var rest := InsertDistinct(x, s[1..], lt);
      assert forall y :: y in s[1..] ==> lt(s[0], y);
      assert forall y :: y in s <==> y == s[0] || y in s[1..] by {
        assert s == [s[0]] + s[1..];
      }
      [s[0]] + rest
  }

  /** The elements of `s`, each once, in strictly increasing order. */
  function SortDistinct<T(==,!new)>(s: seq<T>, lt: (T, T) -> bool): (r: seq<T>)
    requires StrictTotal(lt)
    ensures StrictlySorted(r, lt)
    ensures forall y :: y in r <==> y in s
    decreases |s|
  {
    if |s| == 0 then []
    else
      assert forall y :: y in s <==> y in s[..|s| - 1] || y == s[|s| - 1] by {
        assert s == s[..|s| - 1] + [s[|s| - 1]];
      }
      InsertDistinct(s[|s| - 1], SortDistinct(s[..|s| - 1], lt), lt)
  }

  /** A strictly sorted sequence is determined by its elements. */
  lemma {:induction false} StrictlySortedUnique<T(!new)>(a: seq<T>, b: seq<T>, lt: (T, T) -> bool)
    requires StrictTotal(lt)
    requires StrictlySorted(a, lt) && StrictlySorted(b, lt)
    requires forall y :: y in a <==> y in b
    ensures a == b
    decreases |a|
  {
    if |a| > 0 {
      assert a[0] in b;
    }
    if |b| > 0 {
      assert b[0] in a;
    }
    if |a| > 0 && |b| > 0 {
      assert a[0] == b[0];
      assert a == [a[0]] + a[1..] && b == [b[0]] + b[1..];
      forall y ensures y in a[1..] <==> y in b[1..] {
        if y in a[1..] {
          assert lt(a[0], y);
          assert y in b;
        }
        if y in b[1..] {
          assert lt(b[0], y);
          assert y in a;
        }
      }
      StrictlySortedUnique(a[1..], b[1..], lt);
    }
  }

  /** Inserts `x` into a sorted sequence before the first element above it. */
  function Insert<T(==,!new)>(x: T, s: seq<T>, lt: (T, T) -> bool): (r: seq<T>)
    requires StrictTotal(lt) && Sorted(s, lt)
    ensures Sorted(r, lt)
    ensures multiset(r) == multiset(s) + multiset{x}
  {
    if |s| == 0 then [x]
    else if lt(x, s[0]) then
      assert forall y :: y in s ==> !lt(y, x);
      [x] + s
    else
      var rest := Insert(x, s[1..], lt);
      assert s == [s[0]] + s[1..];
      assert forall y :: y in s[1..] ==> !lt(y, s[0]);
      assert forall y :: y in rest ==> !lt(y, s[0]) by {
        forall y | y in rest ensures !lt(y, s[0]) {
          assert y in multiset(rest);
          assert y == x || y in multiset(s[1..]);
        }
      }
      [s[0]] + rest
  }

  /** Python's `list.sort()` under a strict total order: the same elements, sorted. */
  function Sort<T(==,!new)>(s: seq<T>, lt: (T, T) -> bool): (r: seq<T>)
    requires StrictTotal(lt)
    ensures Sorted(r, lt)
    ensures multiset(r) == multiset(s)
    decreases |s|
  {
    if |s| == 0 then []
    else
      assert s == s[..|s| - 1] + [s[|s| - 1]];
      Insert(s[|s| - 1], Sort(s[..|s| - 1], lt), lt)
  }
}
