/** The stable sort every component relies on (`sorted` in Python, `Array.prototype.sort` in JavaScript). */
module Sorting {

  /** Strict weak order: what a sort key gives. */
  ghost predicate StrictWeak<T(!new)>(less: (T, T) -> bool)
  {
    && (forall x, y {:trigger less(x, y), less(y, x)} :: less(x, y) ==> !less(y, x))
    && (forall x, y, z {:trigger less(x, y), less(y, z), less(x, z)} ::
          !less(x, y) && !less(y, z) ==> !less(x, z))
  }

  ghost predicate Sorted<T>(s: seq<T>, less: (T, T) -> bool)
  {
    forall i, j :: 0 <= i < j < |s| ==> !less(s[j], s[i])
  }

  /** `x` stood before every element of `s` in the input, so it goes in front of its equals. */
  function Insert<T>(x: T, s: seq<T>, less: (T, T) -> bool): seq<T>
  {
    if s == [] || !less(s[0], x) then [x] + s else [s[0]] + Insert(x, s[1..], less)
  }

  function Sort<T>(s: seq<T>, less: (T, T) -> bool): seq<T>
  {
    if s == [] then [] else Insert(s[0], Sort(s[1..], less), less)
  }

  lemma {:induction false} InsertPermutes<T>(x: T, s: seq<T>, less: (T, T) -> bool)
    ensures multiset(Insert(x, s, less)) == multiset(s) + multiset{x}
  {
    if s != [] && less(s[0], x) {
      InsertPermutes(x, s[1..], less);
      assert s == [s[0]] + s[1..];
    }
  }

  lemma {:induction false} SortPermutes<T>(s: seq<T>, less: (T, T) -> bool)
    ensures multiset(Sort(s, less)) == multiset(s)
  {
    if s != [] {
      SortPermutes(s[1..], less);
      InsertPermutes(s[0], Sort(s[1..], less), less);
      assert s == [s[0]] + s[1..];
    }
  }

  lemma SameMembers<T>(s: seq<T>, t: seq<T>)
    requires multiset(s) == multiset(t)
    ensures |s| == |t|
    ensures forall x :: x in s <==> x in t
  {
    assert |multiset(s)| == |s| && |multiset(t)| == |t|;
    forall x
      ensures x in s <==> x in t
    {
      assert x in s <==> x in multiset(s);
      assert x in t <==> x in multiset(t);
    }
  }

  lemma {:induction false} InsertMembers<T>(x: T, s: seq<T>, less: (T, T) -> bool, y: T)
    ensures y in Insert(x, s, less) <==> y == x || y in s
  {
    InsertPermutes(x, s, less);
    assert y in Insert(x, s, less) <==> y in multiset(Insert(x, s, less));
    assert y in s <==> y in multiset(s);
  }

  lemma {:induction false} InsertSorted<T(!new)>(x: T, s: seq<T>, less: (T, T) -> bool)
    requires StrictWeak(less) && Sorted(s, less)
    ensures Sorted(Insert(x, s, less), less)
  {
    if s == [] || !less(s[0], x) {
      forall j | 0 <= j < |s|
        ensures !less(s[j], x)
      {
        assert j == 0 || !less(s[j], s[0]);
      }
    } else {
      InsertSorted(x, s[1..], less);
      var t := Insert(x, s[1..], less);
      forall j | 0 <= j < |t|
        ensures !less(t[j], s[0])
      {
        InsertMembers(x, s[1..], less, t[j]);
        if t[j] != x {
          var k :| 0 <= k < |s[1..]| && s[1..][k] == t[j];
          assert s[k + 1] == t[j];
        }
      }
    }
  }

  lemma {:induction false} SortSorted<T(!new)>(s: seq<T>, less: (T, T) -> bool)
    requires StrictWeak(less)
    ensures Sorted(Sort(s, less), less)
  {
    if s != [] {
      SortSorted(s[1..], less);
      InsertSorted(s[0], Sort(s[1..], less), less);
    }
  }

  // ---------- Sequences without repetition ----------

  ghost predicate Distinct<T>(s: seq<T>)
  {
    forall i, j :: 0 <= i < j < |s| ==> s[i] != s[j]
  }

  lemma {:induction false} DistinctCount<T>(s: seq<T>, x: T)
    requires Distinct(s)
    ensures multiset(s)[x] <= 1
  {
    if s != [] {
      DistinctCount(s[1..], x);
      assert s == [s[0]] + s[1..];
      assert s[0] !in s[1..];
    }
  }

  lemma {:induction false} DistinctSize<T>(s: seq<T>)
    requires Distinct(s)
    ensures |set x | x in s| == |s|
  {
    if s != [] {
      var n := |s| - 1;
      DistinctSize(s[..n]);
      assert (set x | x in s) == (set x | x in s[..n]) + {s[n]};
    }
  }

  lemma RepeatCount<T>(s: seq<T>, i: nat, j: nat)
    requires i < j < |s| && s[i] == s[j]
    ensures multiset(s)[s[i]] >= 2
  {
    assert s == s[..j] + [s[j]] + s[j + 1..];
    assert s[i] in s[..j];
  }

  lemma DistinctPermutes<T>(s: seq<T>, t: seq<T>)
    requires multiset(s) == multiset(t) && Distinct(s)
    ensures Distinct(t)
  {
    forall i, j | 0 <= i < j < |t|
      ensures t[i] != t[j]
    {
      if t[i] == t[j] { RepeatCount(t, i, j); }
      DistinctCount(s, t[i]);
    }
  }

  lemma DistinctAppend<T>(s: seq<T>, x: T)
    requires Distinct(s) && x !in s
    ensures Distinct(s + [x])
  {
  }

  /** The members of a set, in no particular order: how a directory is listed. */
  method Enumerate<T>(names: set<T>) returns (found: seq<T>)
    ensures Distinct(found)
    ensures forall n :: n in found <==> n in names
  {
    var rest := names;
    found := [];
    while rest != {}
      invariant rest <= names
      invariant forall n :: n in found <==> n in names - rest
      invariant Distinct(found)
      decreases rest
    {
      var n :| n in rest;
      assert n !in found;
      DistinctAppend(found, n);
      found := found + [n];
      rest := rest - {n};
    }
  }

  // ---------- Stability ----------

  function Filter<T>(s: seq<T>, p: T -> bool): seq<T>
  {
    if s == [] then [] else if p(s[0]) then [s[0]] + Filter(s[1..], p) else Filter(s[1..], p)
  }

  lemma {:induction false} FilterMember<T>(s: seq<T>, p: T -> bool, x: T)
    ensures x in Filter(s, p) <==> x in s && p(x)
  {
    if s != [] {
      FilterMember(s[1..], p, x);
      assert x in s <==> x == s[0] || x in s[1..];
    }
  }

  lemma {:induction false} FilterDistinct<T>(s: seq<T>, p: T -> bool)
    requires Distinct(s)
    ensures Distinct(Filter(s, p))
  {
    if s != [] {
      FilterDistinct(s[1..], p);
      FilterMember(s[1..], p, s[0]);
    }
  }

  /** The first element of a filtered sequence, located in the original. */
  lemma {:induction false} FilterHead<T>(s: seq<T>, p: T -> bool) returns (k: nat)
    requires Filter(s, p) != []
    ensures k < |s| && p(s[k]) && Filter(s, p)[0] == s[k]
    ensures forall i :: 0 <= i < k ==> !p(s[i])
  {
    if p(s[0]) {
      k := 0;
    } else {
      k := FilterHead(s[1..], p);
      k := k + 1;
    }
  }

  lemma {:induction false} InsertFilter<T(!new)>(x: T, s: seq<T>, less: (T, T) -> bool, p: T -> bool)
    requires StrictWeak(less) && Sorted(s, less)
    ensures Filter(Insert(x, s, less), p)
         == if p(x) then Insert(x, Filter(s, p), less) else Filter(s, p)
  {
    if s == [] || !less(s[0], x) {
      assert ([x] + s)[1..] == s;
      if Filter(s, p) != [] {
        var k := FilterHead(s, p);
        assert k == 0 || !less(s[k], s[0]);
      }
    } else {
      InsertFilter(x, s[1..], less, p);
      assert Insert(x, s, less)[1..] == Insert(x, s[1..], less);
      if p(s[0]) {
        assert Filter(s, p)[1..] == Filter(s[1..], p);
      }
    }
  }

  /** A stable sort commutes with filtering: elements that tie keep the order they came in. */
  lemma {:induction false} SortFilter<T(!new)>(s: seq<T>, less: (T, T) -> bool, p: T -> bool)
    requires StrictWeak(less)
    ensures Filter(Sort(s, less), p) == Sort(Filter(s, p), less)
  {
    if s != [] {
      SortFilter(s[1..], less, p);
      SortSorted(s[1..], less);
      InsertFilter(s[0], Sort(s[1..], less), less, p);
      if p(s[0]) {
        assert Filter(s, p)[1..] == Filter(s[1..], p);
      }
    }
  }
}
