/** What a scan leaves, told from the snapshot alone: in which order the live processes and the children
    of each process are listed, whose rows are left, and which state is recorded for whom. */
module Moves {
  import opened Groves
  import opened Options
  import opened ProcSpec
  import opened Refresh
  import opened Seqs
  import opened Trees

  // ---------- the live list ----------

  /** The pids above 1 of one entry, the parent first. */
  function Pair(i: Info): seq<Pid> {
    (if i.ppid > 1 then [i.ppid] else []) + (if i.pid > 1 && i.pid != i.ppid then [i.pid] else [])
  }

  /** The pids above 1 that a snapshot mentions, by their last mention, the last one first. */
  function MostRecent(snap: seq<Info>): seq<Pid> {
    if snap == [] then []
    else MostRecent(snap[1..]) + Sel(Pair(snap[0]), Elems(Pair(snap[0])) - Mentioned(snap[1..]))
  }

  lemma {:induction false} SelOthers(s: seq<Pid>, x: Pid, A: set<Pid>)
    requires Distinct(s)
    ensures Sel(Without(s, x), A) == Sel(s, A - {x})
  {
    WithoutDistinct(s, x);
    SelCongruent(Without(s, x), A, A - {x});
    SelWithout(s, x, A - {x});
  }

  /** One pid is validated: it comes to the front of the live list, and off the old one. */
  lemma ValidateOrder(t: Table, p: Pid, state: char, A: set<Pid>)
    requires IndexOk(t)
    ensures var u := Validate(t, p, state);
            && Sel(u.live, A) == Sel(if p > 1 then [p] else [], A) + Sel(t.live, A - {p})
            && Sel(u.stale, A) == Sel(t.stale, A - {p})
  {
    var u := Validate(t, p, state);
    if p > 1 {
      assert u.live == [p] + Without(t.live, p);
      SelAppend([p], Without(t.live, p), A);
      SelOthers(t.live, p, A);
      SelOthers(t.stale, p, A);
    } else {
      SelCongruent(t.live, A, A - {p});
      SelCongruent(t.stale, A, A - {p});
    }
  }

  lemma PairOrder(i: Info, A: set<Pid>)
    ensures Sel(if i.ppid > 1 then [i.ppid] else [], A) + Sel(if i.pid > 1 then [i.pid] else [], A - {i.ppid})
            == Sel(Pair(i), A)
  {
    var q := if i.ppid > 1 then [i.ppid] else [];
    var p := if i.pid > 1 && i.pid != i.ppid then [i.pid] else [];
    SelAppend(q, p, A);
    assert forall x: Pid :: [x][1..] == [];
  }

  lemma TouchOrder(t: Table, i: Info, A: set<Pid>)
    requires IndexOk(t)
    ensures var u := Touch(t, i);
            && Sel(u.live, A) == Sel(Pair(i), A) + Sel(t.live, A - {i.pid, i.ppid})
            && Sel(u.stale, A) == Sel(t.stale, A - {i.pid, i.ppid})
  {
    hide Validate, IndexOk, Sel, Pair;
    var v := Validate(t, i.pid, i.state);
    ValidateIndex(t, i.pid, i.state);
    ValidateOrder(v, i.ppid, i.state, A);
    ValidateOrder(t, i.pid, i.state, A - {i.ppid});
    PairOrder(i, A);
    assert A - {i.ppid} - {i.pid} == A - {i.pid, i.ppid};
    AppendTwice(Sel(if i.ppid > 1 then [i.ppid] else [], A), Sel(if i.pid > 1 then [i.pid] else [], A - {i.ppid}),
      Sel(t.live, A - {i.pid, i.ppid}));
  }

  /** After a scan the mentioned are in front, by their last mention, and the others behind them as they
      were; and the old list is what it was without them. */
  lemma {:induction false} ScanOrder(t: Table, g: Grove, snap: seq<Info>)
    requires Ok(t)
    ensures var u := Scan(t, g, snap).0;
            && u.live == MostRecent(snap) + Sel(t.live, Elems(t.live) - Mentioned(snap))
            && u.stale == Sel(t.stale, Elems(t.stale) - Mentioned(snap))
    decreases |snap|
  {
    if snap == [] {
      SelAll(t.live, Elems(t.live) - {});
      SelAll(t.stale, Elems(t.stale) - {});
    } else {
      var i := snap[0];
      var (u, h) := Step(t, g, i);
      StepLinks(t, g, i);
      StepIndex(t, g, i);
      ScanOrder(u, h, snap[1..]);
      hide Ok;
      OrderStep(t, g, i, Mentioned(snap[1..]));
      hide *;
      AppendTwice(MostRecent(snap[1..]), Sel(Pair(i), Elems(Pair(i)) - Mentioned(snap[1..])),
        Sel(t.live, Elems(t.live) - ({i.pid, i.ppid} + Mentioned(snap[1..]))));
      OrderUnfolds(t, g, snap);
    }
  }

  lemma OrderUnfolds(t: Table, g: Grove, snap: seq<Info>)
    requires snap != []
    ensures MostRecent(snap) == MostRecent(snap[1..]) + Sel(Pair(snap[0]), Elems(Pair(snap[0])) - Mentioned(snap[1..]))
    ensures Mentioned(snap) == {snap[0].pid, snap[0].ppid} + Mentioned(snap[1..])
    ensures var (u, h) := Step(t, g, snap[0]); Scan(t, g, snap) == Scan(u, h, snap[1..])
  {
  }

  /** What one entry does to the two lists, as far as the later entries do not mention them. */
  lemma OrderStep(t: Table, g: Grove, i: Info, later: set<Pid>)
    requires Ok(t)
    ensures var u := Step(t, g, i).0;
            && Sel(u.live, Elems(u.live) - later)
               == Sel(Pair(i), Elems(Pair(i)) - later) + Sel(t.live, Elems(t.live) - ({i.pid, i.ppid} + later))
            && Sel(u.stale, Elems(u.stale) - later) == Sel(t.stale, Elems(t.stale) - ({i.pid, i.ppid} + later))
  {
    var u := Step(t, g, i).0;
    assert u.live == Touch(t, i).live && u.stale == Touch(t, i).stale;
    OkIndex(t);
    hide *;
    var all := Elems(u.live) + Elems(u.stale) + Elems(t.live) + Elems(t.stale) + Elems(Pair(i));
    TouchOrder(t, i, all - later);
    SelSame(u.live, all, later);
    SelSame(u.stale, all, later);
    SelSame(Pair(i), all, later);
    SelLess(t.live, all, later, {i.pid, i.ppid});
    SelLess(t.stale, all, later, {i.pid, i.ppid});
  }

  lemma SelSame(s: seq<Pid>, all: set<Pid>, M: set<Pid>)
    requires Elems(s) <= all
    ensures Sel(s, Elems(s) - M) == Sel(s, all - M)
  {
    SelCongruent(s, Elems(s) - M, all - M);
  }

  lemma SelLess(s: seq<Pid>, all: set<Pid>, M: set<Pid>, N: set<Pid>)
    requires Elems(s) <= all
    ensures Sel(s, Elems(s) - (N + M)) == Sel(s, all - M - N)
  {
    SelCongruent(s, Elems(s) - (N + M), all - M - N);
  }

  // ---------- who moves ----------

  /** A process moves if it is listed below another parent than it has, at any time during the scan. */
  ghost predicate Moved(m: map<Pid, Pid>, snap: seq<Info>, p: Pid) {
    exists k :: 0 <= k < |snap| && snap[k].pid == p && !(p in m && m[p] == snap[k].ppid)
  }

  lemma MovedStep(m: map<Pid, Pid>, snap: seq<Info>, p: Pid)
    requires snap != []
    ensures var i := snap[0];
            var now := !(i.pid in m && m[i.pid] == i.ppid);
            && (Moved(m, snap, p) <==> (p == i.pid && now) || Moved(m, snap[1..], p))
            && (p != i.pid || !now ==> (Moved(m, snap, p) <==> Moved(m[i.pid := i.ppid], snap[1..], p)))
  {
    var i, n := snap[0], m[snap[0].pid := snap[0].ppid];
    if Moved(m, snap, p) {
      var k :| 0 <= k < |snap| && snap[k].pid == p && !(p in m && m[p] == snap[k].ppid);
      assert k > 0 ==> snap[1..][k - 1] == snap[k];
    }
    if Moved(m, snap[1..], p) {
      var k :| 0 <= k < |snap[1..]| && snap[1..][k].pid == p && !(p in m && m[p] == snap[1..][k].ppid);
      assert snap[k + 1] == snap[1..][k];
    }
  }

  // ---------- child lists ----------

  /** The children that `q` gets during a scan, the last one first; those who move on are not among them. */
  ghost function Newcomers(m: map<Pid, Pid>, snap: seq<Info>, q: Pid): seq<Pid>
    decreases |snap|
  {
    if snap == [] then []
    else
      var i := snap[0];
      var n := m[i.pid := i.ppid];
      Newcomers(n, snap[1..], q)
      + if i.ppid == q && !(i.pid in m && m[i.pid] == q) && !Moved(n, snap[1..], i.pid) then [i.pid] else []
  }

  ghost function Stay(s: seq<Pid>, m: map<Pid, Pid>, snap: seq<Info>): set<Pid> {
    set p | p in s && !Moved(m, snap, p)
  }

  /** What `change_parent` does to a child list. */
  lemma ChangedList(t: Table, p: Pid, q: Pid, x: Pid)
    requires LinksOk(t.kids, t.parent) && p in t.kids && q in t.kids && x in t.kids
    ensures var kids := ChangeParent(t, p, q).kids;
            x in kids && kids[x] == (if x == q then [p] else []) + Sel(t.kids[x], Elems(t.kids[x]) - {p})
  {
    UnlinkedLinks(t.kids, t.parent, p);
    SelOthers(t.kids[x], p, Elems(t.kids[x]));
    SelAll(Without(t.kids[x], p), Elems(t.kids[x]));
  }

  lemma StepLists(t: Table, g: Grove, i: Info, x: Pid)
    requires Ok(t)
    ensures var u := Step(t, g, i).0;
            var now := !(i.pid in t.parent && t.parent[i.pid] == i.ppid);
            KidsOf(u.kids, x) == if !now then KidsOf(t.kids, x)
                                 else (if x == i.ppid then [i.pid] else [])
                                      + Sel(KidsOf(t.kids, x), Elems(KidsOf(t.kids, x)) - {i.pid})
  {
    var u := Touch(t, i);
    TouchLinks(t, i);
    TouchParents(t, i);
    ValidateKids(t, i.pid, i.state);
    ValidateKids(Validate(t, i.pid, i.state), i.ppid, i.state);
    TouchEmpty(t, i, x);
    if Moves(u, i) {
      if x in u.kids {
        ChangedList(u, i.pid, i.ppid, x);
      } else {
        UnlinkedLinks(u.kids, u.parent, i.pid);
      }
    }
  }

  lemma TouchEmpty(t: Table, i: Info, x: Pid)
    ensures KidsOf(Touch(t, i).kids, x) == KidsOf(t.kids, x)
  {
  }

  /** After a scan every child list begins with those who came, the last one first, and goes on with those
      who stayed, in their old order. */
  lemma {:induction false} ScanChildren(t: Table, g: Grove, snap: seq<Info>, q: Pid)
    requires Ok(t)
    ensures var u := Scan(t, g, snap).0;
            KidsOf(u.kids, q)
            == Newcomers(t.parent, snap, q) + Sel(KidsOf(t.kids, q), Stay(KidsOf(t.kids, q), t.parent, snap))
    decreases |snap|
  {
    if snap == [] {
      SelAll(KidsOf(t.kids, q), Stay(KidsOf(t.kids, q), t.parent, snap));
    } else {
      var (u, h) := Step(t, g, snap[0]);
      StepLinks(t, g, snap[0]);
      StepIndex(t, g, snap[0]);
      ScanChildren(u, h, snap[1..], q);
      hide *;
      ChildrenStep(t, g, snap, q);
      ScanFirst(t, g, snap);
    }
  }

  lemma ScanFirst(t: Table, g: Grove, snap: seq<Info>)
    requires snap != []
    ensures var (u, h) := Step(t, g, snap[0]); Scan(t, g, snap) == Scan(u, h, snap[1..])
  {
  }

  lemma ChildrenStep(t: Table, g: Grove, snap: seq<Info>, q: Pid)
    requires Ok(t) && snap != []
    ensures var u := Step(t, g, snap[0]).0;
            Newcomers(u.parent, snap[1..], q) + Sel(KidsOf(u.kids, q), Stay(KidsOf(u.kids, q), u.parent, snap[1..]))
            == Newcomers(t.parent, snap, q) + Sel(KidsOf(t.kids, q), Stay(KidsOf(t.kids, q), t.parent, snap))
  {
    hide *;
    var i, s := snap[0], KidsOf(t.kids, q);
    StepLists(t, g, i, q);
    StepParent(t, g, i);
    ChildrenUnfold(t, g, snap, q);
    var m := t.parent[i.pid := i.ppid];
    if i.pid in t.parent && t.parent[i.pid] == i.ppid {
      assert m == t.parent;
      StaySame(s, t.parent, snap);
    } else {
      var came := if q == i.ppid then [i.pid] else [];
      StayFewer(came, s, t.parent, snap);
      AppendTwice(Newcomers(m, snap[1..], q),
        if came != [] && !Moved(m, snap[1..], i.pid) then came else [], Sel(s, Stay(s, t.parent, snap)));
    }
  }

  lemma ChildrenUnfold(t: Table, g: Grove, snap: seq<Info>, q: Pid)
    requires snap != []
    ensures var i, n := snap[0], t.parent[snap[0].pid := snap[0].ppid];
            Newcomers(t.parent, snap, q)
            == Newcomers(n, snap[1..], q)
               + if i.ppid == q && !(i.pid in t.parent && t.parent[i.pid] == q) && !Moved(n, snap[1..], i.pid) then [i.pid] else []
  {
  }

  lemma StaySame(s: seq<Pid>, m: map<Pid, Pid>, snap: seq<Info>)
    requires snap != [] && snap[0].pid in m && m[snap[0].pid] == snap[0].ppid
    ensures Stay(s, m, snap) == Stay(s, m, snap[1..])
  {
    forall p | p in s
      ensures Moved(m, snap, p) <==> Moved(m, snap[1..], p)
    {
      MovedStep(m, snap, p);
    }
  }

  lemma StayFewer(came: seq<Pid>, s: seq<Pid>, m: map<Pid, Pid>, snap: seq<Info>)
    requires snap != [] && !(snap[0].pid in m && m[snap[0].pid] == snap[0].ppid)
    requires came == [] || came == [snap[0].pid]
    ensures var p, n := snap[0].pid, m[snap[0].pid := snap[0].ppid];
            var t := came + Sel(s, Elems(s) - {p});
            Sel(t, Stay(t, n, snap[1..]))
            == (if came != [] && !Moved(n, snap[1..], p) then came else []) + Sel(s, Stay(s, m, snap))
  {
    var p, n := snap[0].pid, m[snap[0].pid := snap[0].ppid];
    var r := Sel(s, Elems(s) - {p});
    var t := came + r;
    var A := Stay(t, n, snap[1..]);
    SelAppend(came, r, A);
    SelSel(s, Elems(s) - {p}, A);
    forall x | x in s
      ensures x in (Elems(s) - {p}) * A <==> x in Stay(s, m, snap)
    {
      MovedStep(m, snap, x);
      assert x in r <==> x != p;
      assert x in t <==> x in came || x in r;
    }
    SelCongruent(s, (Elems(s) - {p}) * A, Stay(s, m, snap));
    if came != [] {
      assert p in t;
      assert came[1..] == [];
    }
  }

  // ---------- whose rows are left ----------

  lemma {:induction false} BelowTrans(g: Grove, p: Pid, y: Pid)
    requires Distinct(Flat(g)) && y in Below(g, p)
    ensures Below(g, y) <= Below(g, p)
    decreases g
  {
    if g.Cons? {
      DistinctParts(g);
      if g.pid == p {
        if y != p {
          NotBelow(g.next, y);
          assert Below(g, y) == Below(g.kids, y) + Below(g.next, y);
        }
      } else if y in Below(g.kids, p) {
        BelowTrans(g.kids, p, y);
        NotBelow(g.next, y);
      } else {
        BelowTrans(g.next, p, y);
        NotBelow(g.kids, y);
      }
    }
  }

  lemma {:induction false} BelowKeep(g: Grove, A: set<Pid>, y: Pid)
    requires Hereditary(g, A) && Distinct(Flat(g)) && y in Flat(g) && y in A
    ensures Below(Keep(g, A), y) == Below(g, y) * A
    decreases g, 0
  {
    DistinctParts(g);
    KeepFlat(g.kids, A);
    KeepFlat(g.next, A);
    if g.pid == y {
      assert Nodes(Keep(g.kids, A)) == Nodes(g.kids) * A;
    } else if g.pid in A {
      BelowKeepOr(g.kids, A, y);
      BelowKeepOr(g.next, A, y);
    } else {
      assert y !in Flat(g.kids);
      NotBelow(g.kids, y);
      BelowKeepOr(g.next, A, y);
    }
  }

  lemma {:induction false} BelowKeepOr(g: Grove, A: set<Pid>, y: Pid)
    requires Hereditary(g, A) && Distinct(Flat(g)) && y in A
    ensures Below(Keep(g, A), y) == Below(g, y) * A
    decreases g, 1
  {
    if y in Flat(g) {
      BelowKeep(g, A, y);
    } else {
      KeepWithin(g, A);
      NotBelow(g, y);
      NotBelow(Keep(g, A), y);
    }
  }

  /** Nobody from `x` up to the top of the display moves. */
  ghost predicate Undisturbed(m: map<Pid, Pid>, g: Grove, snap: seq<Info>, x: Pid) {
    forall y :: y in Nodes(g) && x in Below(g, y) ==> !Moved(m, snap, y)
  }

  lemma CutBelow(kids: Kids, g: Grove, p: Pid, y: Pid)
    requires Distinct(Flat(g)) && Fits(kids, Nodes(g), g) && y in Nodes(g) && y !in Below(g, p)
    ensures Below(Cut(g, p), y) == Below(g, y) - Below(g, p)
  {
    var A := Nodes(g) - Below(g, p);
    BelowHereditary(g, p, A);
    BelowKeep(g, A, y);
  }

  lemma CutUndisturbed(kids: Kids, m: map<Pid, Pid>, g: Grove, snap: seq<Info>, x: Pid)
    requires Distinct(Flat(g)) && Fits(kids, Nodes(g), g) && snap != []
    requires !(snap[0].pid in m && m[snap[0].pid] == snap[0].ppid)
    ensures var p, n := snap[0].pid, m[snap[0].pid := snap[0].ppid];
            (x in Nodes(Cut(g, p)) && Undisturbed(n, Cut(g, p), snap[1..], x))
            <==> (x in Nodes(g) && Undisturbed(m, g, snap, x))
  {
    var p, n := snap[0].pid, m[snap[0].pid := snap[0].ppid];
    var h := Cut(g, p);
    CutShows(kids, g, p);
    hide Fits, Moved, Cut, Flat, Nodes;
    MovedStep(m, snap, p);
    if x in Nodes(g) && Undisturbed(m, g, snap, x) {
      NotBelowMoved(g, p, x);
      forall y | y in Nodes(h) && x in Below(h, y)
        ensures !Moved(n, snap[1..], y)
      {
        CutBelow(kids, g, p, y);
        MovedStep(m, snap, y);
        SelfBelow(g, p, y);
      }
    }
    if x in Nodes(h) && Undisturbed(n, h, snap[1..], x) {
      forall y | y in Nodes(g) && x in Below(g, y)
        ensures !Moved(m, snap, y)
      {
        if y in Below(g, p) {
          BelowTrans(g, p, y);
          assert false;
        }
        CutBelow(kids, g, p, y);
        MovedStep(m, snap, y);
        SelfBelow(g, p, y);
      }
    }
  }

  lemma NotBelowMoved(g: Grove, p: Pid, x: Pid)
    ensures x in Below(g, p) ==> p in Nodes(g)
  {
    if p !in Flat(g) {
      NotBelow(g, p);
    }
  }

  lemma SelfBelow(g: Grove, p: Pid, y: Pid)
    requires y in Nodes(g) && y !in Below(g, p)
    ensures y != p
  {
    if y == p {
      BelowSelf(g, p);
    }
  }

  /** mark_del during a scan: exactly those rows are left of whose process, and of whose displayed ancestors,
      none was listed below another parent. */
  lemma {:induction false} ScanKeeps(t: Table, g: Grove, snap: seq<Info>, root: Pid, x: Pid)
    requires Ok(t) && Shows(t.kids, root, g)
    ensures x in Nodes(Scan(t, g, snap).1) <==> x in Nodes(g) && Undisturbed(t.parent, g, snap, x)
    decreases |snap|
  {
    if snap != [] {
      var i := snap[0];
      var (u, h) := Step(t, g, i);
      ScanStep(t, g, snap, root);
      StepParent(t, g, i);
      TouchParents(t, i);
      hide Ok, Touch, Scan, Nodes, Moved;
      ScanKeeps(u, h, snap[1..], root, x);
      if i.pid in t.parent && t.parent[i.pid] == i.ppid {
        assert u.parent == t.parent && h == g;
        forall y
          ensures Moved(t.parent, snap, y) <==> Moved(t.parent, snap[1..], y)
        {
          MovedStep(t.parent, snap, y);
        }
      } else {
        CutUndisturbed(t.kids, t.parent, g, snap, x);
      }
    } else {
      assert forall y :: !Moved(t.parent, snap, y);
    }
  }

  /** And of these the sweep leaves the rows of the survivors. */
  lemma RowsKept(t: Table, g: Grove, snap: seq<Info>, root: Pid, x: Pid)
    requires Ok(t) && t.stale == [] && Shows(t.kids, root, g)
    ensures x in UpdateTree(t, g, snap).1 <==>
              x in Nodes(g) && Alive(snap, x) && Undisturbed(t.parent, g, snap, x)
  {
    RescanOk(t);
    ScanOutcome(t, g, snap);
    ScanKeeps(Rescan(t), g, snap, root, x);
    hide Scan, Survivors, Alive, Ok, Shows, Undisturbed;
  }

  // ---------- states ----------

  predicate Mentions(i: Info, p: Pid) {
    i.pid == p || i.ppid == p
  }

  /** The letter of the first entry that mentions `p`, as a process or as a parent. */
  function FirstLetter(snap: seq<Info>, p: Pid): Option<char> {
    if snap == [] then None else if Mentions(snap[0], p) then Some(snap[0].state) else FirstLetter(snap[1..], p)
  }

  function LastLetter(snap: seq<Info>, p: Pid): Option<char> {
    if snap == [] then None
    else
      var later := LastLetter(snap[1..], p);
      if later.Some? then later else if Mentions(snap[0], p) then Some(snap[0].state) else None
  }

  /** The letter that a process has after a snapshot, if it had `before`. */
  function LetterAfter(before: Option<char>, snap: seq<Info>, p: Pid): Option<char> {
    if p <= 1 then (var l := LastLetter(snap, p); if l.Some? then l else before)
    else if before.Some? then before
    else FirstLetter(snap, p)
  }

  function Letter(t: Table, p: Pid): Option<char> {
    if p in t.state then Some(t.state[p]) else None
  }

  lemma StepLetter(t: Table, g: Grove, i: Info, p: Pid)
    requires Ok(t)
    ensures Letter(Step(t, g, i).0, p) == LetterAfter(Letter(t, p), [i], p)
  {
    assert [i][1..] == [];
    assert LastLetter([i], p) == (if Mentions(i, p) then Some(i.state) else None) == FirstLetter([i], p);
    TouchLetter(t, i, p);
    StepState(t, g, i);
  }

  lemma StepState(t: Table, g: Grove, i: Info)
    ensures Step(t, g, i).0.state == Touch(t, i).state
  {
    hide Touch, Unlinked, KidsOf, Cut;
  }

  lemma ValidateLetter(t: Table, q: Pid, state: char, p: Pid)
    requires IndexOk(t)
    ensures Letter(Validate(t, q, state), p)
            == if p != q || (p > 1 && Letter(t, p).Some?) then Letter(t, p) else Some(state)
  {
  }

  lemma TouchLetter(t: Table, i: Info, p: Pid)
    requires Ok(t)
    ensures Letter(Touch(t, i), p)
            == if !Mentions(i, p) || (p > 1 && Letter(t, p).Some?) then Letter(t, p) else Some(i.state)
  {
    ValidateIndex(t, i.pid, i.state);
    hide IndexOk, Validate, Letter;
    OkIndex(t);
    ValidateLetter(t, i.pid, i.state, p);
    ValidateLetter(Validate(t, i.pid, i.state), i.ppid, i.state, p);
  }

  lemma OkIndex(t: Table)
    requires Ok(t)
    ensures IndexOk(t)
  {
  }

  lemma LetterStep(before: Option<char>, snap: seq<Info>, p: Pid)
    requires snap != []
    ensures LetterAfter(LetterAfter(before, [snap[0]], p), snap[1..], p) == LetterAfter(before, snap, p)
  {
    assert [snap[0]][1..] == [];
    assert LastLetter([snap[0]], p) == (if Mentions(snap[0], p) then Some(snap[0].state) else None)
        == FirstLetter([snap[0]], p);
  }

  lemma {:induction false} ScanLetters(t: Table, g: Grove, snap: seq<Info>, p: Pid)
    requires Ok(t)
    ensures Letter(Scan(t, g, snap).0, p) == LetterAfter(Letter(t, p), snap, p)
    decreases |snap|
  {
    if snap != [] {
      var (u, h) := Step(t, g, snap[0]);
      StepLetter(t, g, snap[0], p);
      StepLinks(t, g, snap[0]);
      StepIndex(t, g, snap[0]);
      ScanLetters(u, h, snap[1..], p);
      LetterStep(Letter(t, p), snap, p);
    }
  }

  lemma {:induction false} SweepLetters(u: Table, p: Pid)
    requires Ok(u)
    ensures Letter(Sweep(u), p) == if p in Survivors(u) then Letter(u, p) else None
    decreases |u.stale|
  {
    if u.stale == [] {
      assert p in u.state <==> p in u.kids;
      assert p in u.kids <==> p in Survivors(u);
    } else {
      BuryOk(u);
      BuryLetter(u, p);
      SweepLetters(Bury(u), p);
      SameSurvivors(u, Bury(u));
    }
  }

  lemma BuryLetter(u: Table, p: Pid)
    requires Ok(u) && u.stale != []
    ensures Letter(Bury(u), p) == if p == u.stale[0] then None else Letter(u, p)
    ensures u.stale[0] !in Survivors(u)
  {
    assert u.stale[0] in u.stale;
    AdoptLinks(u, u.stale[0]);
  }

  /** What is recorded after update_tree. A process above 1 that was known has the letter it had, a new one
      that of the first entry that mentions it; 0 and init have that of the last entry that mentions them,
      if any does. Whoever is not mentioned, and above 1, is not there any more. */
  lemma StatesAfter(t: Table, g: Grove, snap: seq<Info>, p: Pid)
    requires Ok(t) && t.stale == []
    ensures var was, v := Letter(t, p), UpdateTree(t, g, snap).0;
            Letter(v, p) ==
              if p <= 1 then (if LastLetter(snap, p).Some? then LastLetter(snap, p) else was)
              else if p !in Mentioned(snap) then None
              else if was.Some? then was
              else FirstLetter(snap, p)
  {
    RescanOk(t);
    ScanOutcome(t, g, snap);
    ScanLetters(Rescan(t), g, snap, p);
    SweepLetters(Scanned(t, g, snap).0, p);
    hide Scan, Sweep, Survivors, Ok;
  }
}
