/** Searching the tree with '/' (getprocbyname of plist.c, ido_search of wdgts.c): which line ENTER
    jumps to, and that it goes round all matches. */
module Search {
  import opened Seqs
  import opened Groves
  import opened Options

  /** The first line from `l` on that shows a process of `m`, the processes the pattern matches. */
  function FindFrom(ps: seq<Pid>, m: set<Pid>, l: nat): (r: Option<nat>)
    ensures r.Some? ==> l <= r.value < |ps| && ps[r.value] in m && forall k :: l <= k < r.value ==> ps[k] !in m
    ensures r.None? ==> forall k :: l <= k < |ps| ==> ps[k] !in m
    decreases |ps| - l
  {
    if l >= |ps| then None else if ps[l] in m then Some(l) else FindFrom(ps, m, l + 1)
  }

  /** ENTER with the cursor on line `l`: the next match below, or else the first of all, or else stay. */
  function Enter(ps: seq<Pid>, m: set<Pid>, l: nat): nat {
    var below := FindFrom(ps, m, l + 1);
    if below.Some? then below.value
    else
      var first := FindFrom(ps, m, 0);
      if first.Some? then first.value else l
  }

  /** Some line from `l` on matches. */
  ghost predicate Matches(ps: seq<Pid>, m: set<Pid>, l: int) {
    exists k :: 0 <= k < |ps| && l <= k && ps[k] in m
  }

  /** From any line, a match or not, ENTER goes to the first match below it; if there is none, to the first
      of all; and if there is none at all, nowhere. */
  lemma EnterFrom(ps: seq<Pid>, m: set<Pid>, l: nat)
    ensures var r := Enter(ps, m, l);
            && (Matches(ps, m, l + 1) ==> l < r < |ps| && ps[r] in m && forall k :: l < k < r ==> ps[k] !in m)
            && (!Matches(ps, m, l + 1) && Matches(ps, m, 0) ==>
                  r < |ps| && ps[r] in m && forall k :: 0 <= k < r ==> ps[k] !in m)
            && (!Matches(ps, m, 0) ==> r == l)
  {
    var below, first := FindFrom(ps, m, l + 1), FindFrom(ps, m, 0);
    assert below.Some? ==> ps[below.value] in m;
    assert first.Some? ==> ps[first.value] in m;
  }

  function EnterMany(ps: seq<Pid>, m: set<Pid>, l: nat, n: nat): nat
    decreases n
  {
    if n == 0 then l else EnterMany(ps, m, Enter(ps, m, l), n - 1)
  }

  /** The matching lines from `l` on. */
  function Hits(ps: seq<Pid>, m: set<Pid>, l: nat): (h: seq<nat>)
    ensures forall k :: k in h <==> l <= k < |ps| && ps[k] in m
    decreases |ps| - l
  {
    if l >= |ps| then []
    else if ps[l] in m then [l] + Hits(ps, m, l + 1)
    else Hits(ps, m, l + 1)
  }

  ghost predicate Increasing(h: seq<nat>) {
    forall i, j :: 0 <= i < j < |h| ==> h[i] < h[j]
  }

  lemma IncreasingCons(l: nat, t: seq<nat>)
    requires Increasing(t) && forall k :: k in t ==> l < k
    ensures Increasing([l] + t)
  {
    var h := [l] + t;
    forall i, j | 0 <= i < j < |h|
      ensures h[i] < h[j]
    {
      assert h[j] == t[j - 1];
      if i == 0 {
        assert t[j - 1] in t;
      } else {
        assert h[i] == t[i - 1];
      }
    }
  }

  lemma {:induction false} HitsGrow(ps: seq<Pid>, m: set<Pid>, l: nat)
    ensures Increasing(Hits(ps, m, l))
    decreases |ps| - l
  {
    if l < |ps| {
      HitsGrow(ps, m, l + 1);
      if ps[l] in m {
        IncreasingCons(l, Hits(ps, m, l + 1));
      }
    }
  }

  /** From one match ENTER goes to the next, and from the last to the first. */
  lemma EnterAdvances(ps: seq<Pid>, m: set<Pid>, i: nat)
    requires i < |Hits(ps, m, 0)|
    ensures var h := Hits(ps, m, 0);
            Enter(ps, m, h[i]) == if i + 1 < |h| then h[i + 1] else h[0]
  {
    var h := Hits(ps, m, 0);
    HitsGrow(ps, m, 0);
    assert h[i] in h && h[0] in h;
    if i + 1 < |h| {
      assert h[i + 1] in h;
      var r := FindFrom(ps, m, h[i] + 1);
      assert r.Some?;
      assert r.value in h;
      var j :| 0 <= j < |h| && h[j] == r.value;
      assert j == i + 1;
    } else {
      var r := FindFrom(ps, m, h[i] + 1);
      assert forall k :: k in h ==> k <= h[i];
      assert r.None?;
      var f := FindFrom(ps, m, 0);
      assert f.Some?;
      assert f.value in h;
      var j :| 0 <= j < |h| && h[j] == f.value;
      assert j == 0;
    }
  }

  /** Up to k times ENTER from the i-th of k matches is the match i + n, counted round. */
  lemma {:induction false} EnterCycles(ps: seq<Pid>, m: set<Pid>, i: nat, n: nat)
    requires i < |Hits(ps, m, 0)| && n <= |Hits(ps, m, 0)|
    ensures var h := Hits(ps, m, 0);
            EnterMany(ps, m, h[i], n) == if i + n < |h| then h[i + n] else h[i + n - |h|]
    decreases n
  {
    if n > 0 {
      EnterAdvances(ps, m, i);
      EnterCycles(ps, m, if i + 1 < |Hits(ps, m, 0)| then i + 1 else 0, n - 1);
    }
  }

  /** Fewer than `n` times ENTER lead from line `l` to line `t`. */
  ghost predicate Reaches(ps: seq<Pid>, m: set<Pid>, l: nat, t: nat, n: nat) {
    exists k: nat :: k < n && EnterMany(ps, m, l, k) == t
  }

  /** As many times ENTER as there are matches comes back, after each match has been visited, and none
      twice. */
  lemma EnterReturns(ps: seq<Pid>, m: set<Pid>, i: nat)
    requires i < |Hits(ps, m, 0)|
    ensures var h := Hits(ps, m, 0); EnterMany(ps, m, h[i], |h|) == h[i]
    ensures var h := Hits(ps, m, 0); forall t :: t in h ==> Reaches(ps, m, h[i], t, |h|)
    ensures var h := Hits(ps, m, 0);
            forall a: nat, b: nat :: a < b < |h| ==> EnterMany(ps, m, h[i], a) != EnterMany(ps, m, h[i], b)
  {
    var h := Hits(ps, m, 0);
    EnterCycles(ps, m, i, |h|);
    forall t | t in h
      ensures Reaches(ps, m, h[i], t, |h|)
    {
      var j: nat :| j < |h| && h[j] == t;
      var n: nat := if j >= i then j - i else j + |h| - i;
      EnterCycles(ps, m, i, n);
      assert EnterMany(ps, m, h[i], n) == t;
    }
    forall a: nat, b: nat | a < b < |h|
      ensures EnterMany(ps, m, h[i], a) != EnterMany(ps, m, h[i], b)
    {
      HitsGrow(ps, m, 0);
      EnterCycles(ps, m, i, a);
      EnterCycles(ps, m, i, b);
    }
  }
}
