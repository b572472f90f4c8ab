/** Order-preserving selection from a sequence: the vocabulary in which the list
    manipulations of the process table and of the row list are compared. */
module Seqs {

  /** The elements of `s` that belong to `A`, in the order of `s`. */
  function Sel<T(==, !new)>(s: seq<T>, A: set<T>): (r: seq<T>)
    ensures forall x :: x in r <==> x in s && x in A
    ensures |r| <= |s|
  {
    if s == [] then []
    else if s[0] in A then [s[0]] + Sel(s[1..], A)
    else Sel(s[1..], A)
  }

  function Elems<T>(s: seq<T>): set<T> {
    set x | x in s
  }

  ghost predicate Distinct<T>(s: seq<T>) {
    forall i, j :: 0 <= i < j < |s| ==> s[i] != s[j]
  }

  lemma DistinctCons<T>(x: T, s: seq<T>)
    requires Distinct(s) && x !in s
    ensures Distinct([x] + s)
  {
    var r := [x] + s;
    forall i, j | 0 <= i < j < |r|
      ensures r[i] != r[j]
    {
      assert r[j] == s[j - 1];
    }
  }

  lemma DistinctSplit<T(!new)>(s: seq<T>, t: seq<T>)
    requires Distinct(s + t)
    ensures Distinct(s) && Distinct(t)
    ensures forall x :: x in s ==> x !in t
  {
    var r := s + t;
    assert forall i :: 0 <= i < |s| ==> s[i] == r[i];
    assert forall i :: 0 <= i < |t| ==> t[i] == r[|s| + i];
    forall i, j | 0 <= i < |s| && 0 <= j < |t|
      ensures s[i] != t[j]
    {
      assert r[i] != r[|s| + j];
    }
  }

  lemma DistinctJoin<T(!new)>(s: seq<T>, t: seq<T>)
    requires Distinct(s) && Distinct(t)
    requires forall x :: x in s ==> x !in t
    ensures Distinct(s + t)
  {
    var r := s + t;
    forall i, j | 0 <= i < j < |r|
      ensures r[i] != r[j]
    {
      if i < |s| <= j {
        assert r[i] in s && r[j] in t;
      }
    }
  }

  /** `s` with its first occurrence of `x` taken out: what `list_del` does to a list. */
  function Without<T(==, !new)>(s: seq<T>, x: T): (r: seq<T>)
    ensures x !in s ==> r == s
    ensures forall y :: y != x ==> (y in r <==> y in s)
    ensures forall y :: y in r ==> y in s
    ensures x in s ==> |r| == |s| - 1
  {
    if s == [] then []
    else if s[0] == x then s[1..]
    else [s[0]] + Without(s[1..], x)
  }

  lemma {:induction false} SelAppend<T(!new)>(s: seq<T>, t: seq<T>, A: set<T>)
    ensures Sel(s + t, A) == Sel(s, A) + Sel(t, A)
  {
    if s == [] {
      assert s + t == t;
    } else {
      assert (s + t)[1..] == s[1..] + t;
      SelAppend(s[1..], t, A);
    }
  }

  lemma {:induction false} SelSel<T(!new)>(s: seq<T>, A: set<T>, B: set<T>)
    ensures Sel(Sel(s, A), B) == Sel(s, A * B)
  {
    if s != [] {
      SelSel(s[1..], A, B);
      if s[0] in A {
        assert Sel(s, A)[1..] == Sel(s[1..], A);
      }
    }
  }

  /** Selection depends only on which elements of `s` are selected. */
  lemma {:induction false} SelCongruent<T(!new)>(s: seq<T>, A: set<T>, B: set<T>)
    requires forall x :: x in s ==> (x in A <==> x in B)
    ensures Sel(s, A) == Sel(s, B)
  {
    if s != [] {
      SelCongruent(s[1..], A, B);
    }
  }

  lemma {:induction false} SelAll<T(!new)>(s: seq<T>, A: set<T>)
    requires forall x :: x in s ==> x in A
    ensures Sel(s, A) == s
  {
    if s != [] {
      SelAll(s[1..], A);
    }
  }

  lemma {:induction false} SelNone<T(!new)>(s: seq<T>, A: set<T>)
    requires forall x :: x in s ==> x !in A
    ensures Sel(s, A) == []
  {
    if s != [] {
      SelNone(s[1..], A);
    }
  }

  lemma {:induction false} SelDistinct<T(!new)>(s: seq<T>, A: set<T>)
    requires Distinct(s)
    ensures Distinct(Sel(s, A))
  {
    if s != [] {
      SelDistinct(s[1..], A);
    }
  }

  lemma {:induction false} WithoutDistinct<T(!new)>(s: seq<T>, x: T)
    requires Distinct(s)
    ensures Distinct(Without(s, x)) && x !in Without(s, x)
  {
    if s != [] && s[0] != x {
      var r := Without(s[1..], x);
      WithoutDistinct(s[1..], x);
      assert s[0] !in s[1..];
      assert s[0] !in r;
      DistinctCons(s[0], r);
    } else if s != [] {
      assert s[0] !in s[1..];
    }
  }

  /** On a list without repetitions, unlinking an element is selecting all the others. */
  lemma {:induction false} SelWithout<T(!new)>(s: seq<T>, x: T, A: set<T>)
    requires x !in A
    ensures Sel(Without(s, x), A) == Sel(s, A)
  {
    if s != [] && s[0] != x {
      SelWithout(s[1..], x, A);
    }
  }

  /** Unlinking by position. */
  lemma {:induction false} WithoutAt<T(!new)>(s: seq<T>, i: nat)
    requires Distinct(s) && i < |s|
    ensures Without(s, s[i]) == s[..i] + s[i + 1..]
  {
    if i > 0 {
      WithoutAt(s[1..], i - 1);
      assert s[..i] + s[i + 1..] == [s[0]] + (s[1..][..i - 1] + s[1..][i..]);
    }
  }

  /** Where an element of `A` ends up. */
  lemma {:induction false} SelIndex<T(!new)>(s: seq<T>, A: set<T>, k: nat)
    requires k < |s| && s[k] in A
    ensures |Sel(s[..k], A)| < |Sel(s, A)| && Sel(s, A)[|Sel(s[..k], A)|] == s[k]
  {
    if k > 0 {
      SelIndex(s[1..], A, k - 1);
      assert s[..k] == [s[0]] + s[1..][..k - 1];
    }
  }

  lemma {:induction false} DistinctSize<T(!new)>(s: seq<T>)
    requires Distinct(s)
    ensures |Elems(s)| == |s|
  {
    if s != [] {
      DistinctSize(s[1..]);
      assert Elems(s) == {s[0]} + Elems(s[1..]);
      assert s[0] !in s[1..];
    }
  }

  function Inserted<T>(s: seq<T>, i: nat, e: T): seq<T>
    requires i <= |s|
  {
    s[..i] + [e] + s[i..]
  }

  /** `s` without element `k`. */
  function Dropped<T>(s: seq<T>, k: nat): seq<T>
    requires k < |s|
  {
    s[..k] + s[k + 1..]
  }

  lemma {:induction false} InsertedDistinct<T(!new)>(s: seq<T>, i: nat, e: T)
    requires Distinct(s) && e !in s && i <= |s|
    ensures Distinct(Inserted(s, i, e))
    ensures forall x :: x in Inserted(s, i, e) <==> x in s || x == e
  {
    var r := Inserted(s, i, e);
    forall j, k | 0 <= j < k < |r|
      ensures r[j] != r[k]
    {
      assert r[j] == if j < i then s[j] else if j == i then e else s[j - 1];
      assert r[k] == if k < i then s[k] else if k == i then e else s[k - 1];
    }
    assert s == s[..i] + s[i..];
  }

  lemma DroppedDistinct<T(!new)>(s: seq<T>, k: nat)
    requires Distinct(s) && k < |s|
    ensures Distinct(Dropped(s, k)) && Dropped(s, k) == Without(s, s[k])
    ensures forall x :: x in Dropped(s, k) <==> x in s && x != s[k]
  {
    WithoutAt(s, k);
    WithoutDistinct(s, s[k]);
  }

  /** There is always an address that is not in use. */
  lemma {:induction false} FreeAddress(used: set<nat>) returns (z: nat)
    ensures z !in used && forall x :: x in used ==> x < z
    decreases |used|
  {
    if used == {} {
      z := 0;
    } else {
      var x :| x in used;
      var y := FreeAddress(used - {x});
      z := if y > x then y else x + 1;
      assert forall u :: u in used ==> u == x || u in used - {x};
    }
  }

  function Reversed<T(!new)>(s: seq<T>): (r: seq<T>)
    ensures |r| == |s| && forall x :: x in r <==> x in s
  {
    if s == [] then [] else Reversed(s[1..]) + [s[0]]
  }

  lemma {:induction false} SubsetSize<T>(a: set<T>, b: set<T>)
    requires a <= b
    ensures |a| <= |b|
    decreases |a|
  {
    if a != {} {
      var x :| x in a;
      SubsetSize(a - {x}, b - {x});
    }
  }
}
