/** What proctree.c does to the process table, on pids instead of pointers. `live` is
    main_list, `stale` the list of the previous scan; `parent` lacks the pids whose parent
    pointer is null. Pids 0 and 1 are the two static nodes; the others are the hash index. */
module ProcSpec {
  import opened Seqs
  import opened Groves

  /** One line of /proc/<pid>/stat. */
  datatype Info = Info(pid: Pid, ppid: Pid, state: char)

  datatype Table = Table(
    state: map<Pid, char>,
    parent: map<Pid, Pid>,
    kids: Kids,
    live: seq<Pid>,
    stale: seq<Pid>)

  ghost predicate IndexOk(t: Table) {
    && t.state.Keys == t.kids.Keys
    && Distinct(t.live) && Distinct(t.stale)
    && (forall x :: x in t.live ==> x !in t.stale)
    && (forall x :: x in t.live || x in t.stale ==> x > 1)
    && (forall x: Pid :: x in t.kids <==> x <= 1 || x in t.live || x in t.stale)
  }

  /** Child lists are exactly the inverse of the parent pointers. */
  ghost predicate LinksOk(kids: Kids, parent: map<Pid, Pid>) {
    && 0 in kids && 1 in kids
    && (forall p :: p in parent ==> p in kids && parent[p] in kids)
    && (forall q :: q in kids ==> Distinct(kids[q]))
    && (forall q, p :: q in kids ==> (p in kids[q] <==> p in parent && parent[p] == q))
  }

  ghost predicate Ok(t: Table) {
    IndexOk(t) && LinksOk(t.kids, t.parent)
  }

  /** The state before the first scan. */
  function Empty(): Table {
    Table(map[0 := '\0', 1 := '\0'], map[], map[0 := [], 1 := []], [], [])
  }

  lemma EmptyOk()
    ensures Ok(Empty()) && Empty().kids.Keys == {0, 1}
  {
    var t := Empty();
    assert t.kids.Keys == {0, 1} && t.state.Keys == {0, 1};
    assert forall x :: x in t.kids <==> x == 0 || x == 1;
    assert t.kids[0] == [] && t.kids[1] == [] && t.live == [] && t.stale == [];
  }

  // ---------- validate_proc ----------

  function Validate(t: Table, pid: Pid, state: char): Table {
    if pid <= 1 then
      t.(state := t.state[pid := state])
    else if pid in t.kids then
      t.(live := [pid] + Without(t.live, pid), stale := Without(t.stale, pid))
    else
      t.(state := t.state[pid := state], kids := t.kids[pid := []], live := [pid] + t.live)
  }

  lemma ValidateIndex(t: Table, pid: Pid, state: char)
    requires IndexOk(t)
    ensures IndexOk(Validate(t, pid, state))
  {
    if pid > 1 {
      WithoutDistinct(t.live, pid);
      WithoutDistinct(t.stale, pid);
      DistinctCons(pid, Without(t.live, pid));
    }
  }

  lemma ValidateLinks(t: Table, pid: Pid, state: char)
    requires LinksOk(t.kids, t.parent)
    ensures LinksOk(Validate(t, pid, state).kids, t.parent)
    ensures pid in Validate(t, pid, state).kids
  {
  }

  // ---------- change_parent ----------

  function KidsOf(kids: Kids, q: Pid): seq<Pid> {
    if q in kids then kids[q] else []
  }

  /** The child lists after `p` is taken off its list, if it is on one. */
  function Unlinked(kids: Kids, parent: map<Pid, Pid>, p: Pid): Kids {
    if p in parent then kids[parent[p] := Without(KidsOf(kids, parent[p]), p)] else kids
  }

  function ChangeParent(t: Table, p: Pid, q: Pid): Table {
    var kids := Unlinked(t.kids, t.parent, p);
    t.(kids := kids[q := [p] + KidsOf(kids, q)], parent := t.parent[p := q])
  }

  lemma UnlinkedLinks(kids: Kids, parent: map<Pid, Pid>, p: Pid)
    requires LinksOk(kids, parent)
    ensures LinksOk(Unlinked(kids, parent, p), parent - {p})
    ensures Unlinked(kids, parent, p).Keys == kids.Keys
    ensures forall q :: q in kids ==> Unlinked(kids, parent, p)[q] == Without(kids[q], p)
  {
    if p in parent {
      WithoutDistinct(kids[parent[p]], p);
    }
  }

  lemma LinkedLinks(kids: Kids, parent: map<Pid, Pid>, p: Pid, q: Pid)
    requires LinksOk(kids, parent - {p}) && p in kids && q in kids
    ensures LinksOk(kids[q := [p] + kids[q]], parent[p := q])
  {
    var kids' := kids[q := [p] + kids[q]];
    var parent' := parent[p := q];
    var orphaned := parent - {p};
    DistinctCons(p, kids[q]);
    forall c | c in parent'
      ensures c in kids' && parent'[c] in kids'
    {
      assert c == p || c in orphaned;
    }
    forall x, c | x in kids'
      ensures c in kids'[x] <==> c in parent' && parent'[c] == x
    {
      assert c in kids[x] <==> c in orphaned && orphaned[c] == x;
    }
  }

  lemma ChangeParentLinks(t: Table, p: Pid, q: Pid)
    requires LinksOk(t.kids, t.parent) && p in t.kids && q in t.kids
    ensures LinksOk(ChangeParent(t, p, q).kids, ChangeParent(t, p, q).parent)
    ensures ChangeParent(t, p, q).kids.Keys == t.kids.Keys
  {
    UnlinkedLinks(t.kids, t.parent, p);
    LinkedLinks(Unlinked(t.kids, t.parent, p), t.parent, p, q);
  }

  // ---------- the scan: one /proc entry after another ----------

  /** Both pids of an entry are validated, the process first. */
  function Touch(t: Table, i: Info): Table {
    Validate(Validate(t, i.pid, i.state), i.ppid, i.state)
  }

  lemma TouchLinks(t: Table, i: Info)
    requires LinksOk(t.kids, t.parent)
    ensures LinksOk(Touch(t, i).kids, Touch(t, i).parent)
    ensures i.pid in Touch(t, i).kids && i.ppid in Touch(t, i).kids
  {
    ValidateLinks(t, i.pid, i.state);
    ValidateLinks(Validate(t, i.pid, i.state), i.ppid, i.state);
  }

  predicate Moves(u: Table, i: Info) {
    i.pid !in u.parent || u.parent[i.pid] != i.ppid
  }

  /** One entry. `g` is the displayed tree: when the parent changed, `mark_del` cuts the process
      and what is displayed below it before `change_parent` moves it. */
  function Step(t: Table, g: Grove, i: Info): (Table, Grove) {
    var u := Touch(t, i);
    if Moves(u, i) then (ChangeParent(u, i.pid, i.ppid), Cut(g, i.pid)) else (u, g)
  }

  function Scan(t: Table, g: Grove, snap: seq<Info>): (Table, Grove)
    decreases |snap|
  {
    if snap == [] then (t, g)
    else
      var (u, h) := Step(t, g, snap[0]);
      Scan(u, h, snap[1..])
  }

  lemma StepLinks(t: Table, g: Grove, i: Info)
    requires LinksOk(t.kids, t.parent)
    ensures var u := Step(t, g, i).0; LinksOk(u.kids, u.parent)
  {
    TouchLinks(t, i);
    if Moves(Touch(t, i), i) {
      ChangeParentLinks(Touch(t, i), i.pid, i.ppid);
    }
  }

  lemma StepIndex(t: Table, g: Grove, i: Info)
    requires Ok(t)
    ensures IndexOk(Step(t, g, i).0)
  {
    ValidateIndex(t, i.pid, i.state);
    ValidateIndex(Validate(t, i.pid, i.state), i.ppid, i.state);
    TouchLinks(t, i);
    if Moves(Touch(t, i), i) {
      ChangeParentLinks(Touch(t, i), i.pid, i.ppid);
    }
  }

  lemma {:induction false} ScanOk(t: Table, g: Grove, snap: seq<Info>)
    requires Ok(t)
    ensures Ok(Scan(t, g, snap).0)
    decreases |snap|
  {
    if snap != [] {
      var (u, h) := Step(t, g, snap[0]);
      StepLinks(t, g, snap[0]);
      StepIndex(t, g, snap[0]);
      ScanOk(u, h, snap[1..]);
    }
  }

  /** Who is whose parent according to a snapshot; the last entry for a pid counts. */
  function ParentsIn(snap: seq<Info>): map<Pid, Pid> {
    if snap == [] then map[] else map[snap[0].pid := snap[0].ppid] + ParentsIn(snap[1..])
  }

  /** Every pid a snapshot mentions, as a process or as a parent. */
  function Mentioned(snap: seq<Info>): set<Pid> {
    if snap == [] then {} else {snap[0].pid, snap[0].ppid} + Mentioned(snap[1..])
  }

  lemma UpdateThenMerge(m: map<Pid, Pid>, k: Pid, v: Pid, n: map<Pid, Pid>)
    ensures m[k := v] + n == m + (map[k := v] + n)
  {
    assert (map[k := v] + n).Keys == {k} + n.Keys;
  }

  lemma StepParent(t: Table, g: Grove, i: Info)
    ensures Step(t, g, i).0.parent == t.parent[i.pid := i.ppid]
  {
  }

  lemma TouchParents(t: Table, i: Info)
    ensures Touch(t, i).parent == t.parent
  {
  }

  /** The scan sets exactly the parents the snapshot gives and leaves every other one alone. */
  lemma {:induction false} ScanParents(t: Table, g: Grove, snap: seq<Info>)
    ensures Scan(t, g, snap).0.parent == t.parent + ParentsIn(snap)
    decreases |snap|
  {
    if snap != [] {
      var (u, h) := Step(t, g, snap[0]);
      StepParent(t, g, snap[0]);
      ScanParents(u, h, snap[1..]);
      UpdateThenMerge(t.parent, snap[0].pid, snap[0].ppid, ParentsIn(snap[1..]));
    }
  }

  lemma ValidateLists(t: Table, pid: Pid, state: char)
    requires IndexOk(t)
    ensures Elems(Validate(t, pid, state).live) == Elems(t.live) + if pid > 1 then {pid} else {}
    ensures Elems(Validate(t, pid, state).stale) == Elems(t.stale) - {pid}
  {
    WithoutDistinct(t.stale, pid);
    var u := Validate(t, pid, state);
    assert forall x :: x in u.live <==> x in t.live || (x == pid && pid > 1);
    assert forall x :: x in u.stale <==> x in t.stale && x != pid;
  }

  function AboveInit(s: set<Pid>): set<Pid> {
    set x | x in s && x > 1
  }

  lemma TouchLists(t: Table, i: Info)
    requires IndexOk(t)
    ensures Elems(Touch(t, i).live) == Elems(t.live) + AboveInit({i.pid, i.ppid})
    ensures Elems(Touch(t, i).stale) == Elems(t.stale) - {i.pid, i.ppid}
  {
    var u := Validate(t, i.pid, i.state);
    ValidateLists(t, i.pid, i.state);
    ValidateIndex(t, i.pid, i.state);
    ValidateLists(u, i.ppid, i.state);
    TwoPids(Elems(t.live), Elems(t.stale), i.pid, i.ppid);
  }

  lemma TwoPids(l: set<Pid>, o: set<Pid>, p: Pid, q: Pid)
    ensures l + (if p > 1 then {p} else {}) + (if q > 1 then {q} else {}) == l + AboveInit({p, q})
    ensures o - {p} - {q} == o - {p, q}
  {
  }

  lemma ListedTogether(l: set<Pid>, o: set<Pid>, a: set<Pid>, b: set<Pid>)
    ensures l + AboveInit(a) + AboveInit(b) == l + AboveInit(a + b)
    ensures o - a - b == o - (a + b)
  {
  }

  /** Mentioned pids end up on the live list, whichever list they came from. */
  lemma {:induction false} ScanLists(t: Table, g: Grove, snap: seq<Info>)
    requires Ok(t)
    ensures Elems(Scan(t, g, snap).0.live) == Elems(t.live) + AboveInit(Mentioned(snap))
    ensures Elems(Scan(t, g, snap).0.stale) == Elems(t.stale) - Mentioned(snap)
    decreases |snap|
  {
    if snap != [] {
      hide AboveInit, Elems;
      var (u, h) := Step(t, g, snap[0]);
      TouchLists(t, snap[0]);
      StepLinks(t, g, snap[0]);
      StepIndex(t, g, snap[0]);
      ScanLists(u, h, snap[1..]);
      ListedTogether(Elems(t.live), Elems(t.stale), {snap[0].pid, snap[0].ppid}, Mentioned(snap[1..]));
    }
  }

  // ---------- the display during the scan ----------

  /** `g` is the displayed tree: rooted at `root` (or gone), made of table nodes, and showing
      exactly the displayed part of every child list. */
  ghost predicate Shows(kids: Kids, root: Pid, g: Grove) {
    && Distinct(Flat(g))
    && Nodes(g) <= kids.Keys
    && Fits(kids, Nodes(g), g)
    && (g.Nil? || Tops(g) == [root])
  }

  lemma ValidateKids(t: Table, pid: Pid, state: char)
    ensures forall x :: x in t.kids ==> x in Validate(t, pid, state).kids && Validate(t, pid, state).kids[x] == t.kids[x]
  {
  }

  lemma TouchShows(t: Table, g: Grove, i: Info, root: Pid)
    requires Shows(t.kids, root, g)
    ensures Shows(Touch(t, i).kids, root, g)
  {
    ValidateKids(t, i.pid, i.state);
    ValidateKids(Validate(t, i.pid, i.state), i.ppid, i.state);
    hide Validate;
    FitsCongruent(t.kids, Nodes(g), Touch(t, i).kids, Nodes(g), g);
  }

  lemma CutTops(g: Grove, p: Pid, root: Pid)
    requires g.Nil? || Tops(g) == [root]
    ensures Cut(g, p).Nil? || Tops(Cut(g, p)) == [root]
  {
    KeepTops(g, Nodes(g) - Below(g, p));
    if g.Cons? && Cut(g, p).Cons? {
      assert |Tops(Cut(g, p))| > 0;
    }
  }

  lemma {:induction false} BelowSelf(g: Grove, p: Pid)
    requires p in Flat(g)
    ensures p in Below(g, p)
  {
    if g.pid != p {
      if p in Flat(g.kids) {
        BelowSelf(g.kids, p);
      } else {
        BelowSelf(g.next, p);
      }
    }
  }

  /** Moving a process that is not displayed changes nothing on display. */
  lemma MoveShows(t: Table, g: Grove, p: Pid, q: Pid, root: Pid)
    requires LinksOk(t.kids, t.parent) && Shows(t.kids, root, g)
    requires p !in Flat(g) && q in t.kids
    ensures Shows(ChangeParent(t, p, q).kids, root, g)
  {
    var kids := ChangeParent(t, p, q).kids;
    UnlinkedLinks(t.kids, t.parent, p);
    forall x | x in Flat(g)
      ensures x in t.kids && x in kids && Sel(t.kids[x], Nodes(g)) == Sel(kids[x], Nodes(g))
    {
      SelWithout(t.kids[x], p, Nodes(g));
    }
    FitsCongruent(t.kids, Nodes(g), kids, Nodes(g), g);
  }

  /** Marked rows go, the others keep their order, and what stays shows the new links. */
  lemma StepShows(t: Table, g: Grove, i: Info, root: Pid)
    requires LinksOk(t.kids, t.parent) && Shows(t.kids, root, g)
    ensures var (u, h) := Step(t, g, i); Shows(u.kids, root, h) && Flat(h) == Sel(Flat(g), Nodes(h))
  {
    var u := Touch(t, i);
    TouchShows(t, g, i, root);
    if Moves(u, i) {
      var h := Cut(g, i.pid);
      CutShows(u.kids, g, i.pid);
      CutTops(g, i.pid, root);
      TouchLinks(t, i);
      if i.pid in Flat(g) {
        BelowSelf(g, i.pid);
      }
      MoveShows(u, h, i.pid, i.ppid, root);
    } else {
      SelAll(Flat(g), Nodes(g));
    }
  }

  lemma {:induction false} ScanShows(t: Table, g: Grove, snap: seq<Info>, root: Pid)
    requires LinksOk(t.kids, t.parent) && Shows(t.kids, root, g)
    ensures var (u, h) := Scan(t, g, snap); Shows(u.kids, root, h) && Flat(h) == Sel(Flat(g), Nodes(h))
    decreases |snap|
  {
    if snap == [] {
      SelAll(Flat(g), Nodes(g));
    } else {
      var (u, h) := Step(t, g, snap[0]);
      StepShows(t, g, snap[0], root);
      StepLinks(t, g, snap[0]);
      ScanShows(u, h, snap[1..], root);
      var z := Scan(u, h, snap[1..]).1;
      SelSel(Flat(g), Nodes(h), Nodes(z));
      assert Nodes(h) * Nodes(z) == Nodes(z);
    }
  }

  lemma ScanStep(t: Table, g: Grove, snap: seq<Info>, root: Pid)
    requires Ok(t) && Shows(t.kids, root, g) && snap != []
    ensures var (u, h) := Step(t, g, snap[0]);
            Ok(u) && Shows(u.kids, root, h) && Scan(u, h, snap[1..]) == Scan(t, g, snap)
  {
    StepLinks(t, g, snap[0]);
    StepIndex(t, g, snap[0]);
    StepShows(t, g, snap[0], root);
  }

  // ---------- the sweep: what is left on the old list is dead ----------

  lemma FirstKidLeaves(t: Table, p: Pid)
    requires LinksOk(t.kids, t.parent) && p in t.kids && p != 1 && t.kids[p] != []
    ensures var u := ChangeParent(t, t.kids[p][0], 1);
            LinksOk(u.kids, u.parent) && u.kids.Keys == t.kids.Keys && |u.kids[p]| < |t.kids[p]|
  {
    var c := t.kids[p][0];
    assert c in t.kids[p];
    ChangeParentLinks(t, c, 1);
    UnlinkedLinks(t.kids, t.parent, c);
  }

  /** The children of a dying process go to init, first child first. */
  function Adopt(t: Table, p: Pid): Table
    requires LinksOk(t.kids, t.parent) && p in t.kids && p != 1
    decreases |t.kids[p]|
  {
    if t.kids[p] == [] then t
    else
      FirstKidLeaves(t, p);
      Adopt(ChangeParent(t, t.kids[p][0], 1), p)
  }

  lemma {:induction false} AdoptLinks(t: Table, p: Pid)
    requires LinksOk(t.kids, t.parent) && p in t.kids && p != 1
    ensures var u := Adopt(t, p);
            && LinksOk(u.kids, u.parent) && u.kids.Keys == t.kids.Keys && u.kids[p] == []
            && u.live == t.live && u.stale == t.stale && u.state == t.state
    decreases |t.kids[p]|
  {
    if t.kids[p] != [] {
      FirstKidLeaves(t, p);
      AdoptLinks(ChangeParent(t, t.kids[p][0], 1), p);
    }
  }

  lemma KidMoved(t: Table, p: Pid)
    requires LinksOk(t.kids, t.parent) && p in t.kids && p != 1 && t.kids[p] != []
    ensures var c := t.kids[p][0];
            var u := ChangeParent(t, c, 1);
            && c in t.parent && t.parent[c] == p && u.parent == t.parent[c := 1]
            && u.kids.Keys == t.kids.Keys && u.kids[p] == t.kids[p][1..] && u.kids[1] == [c] + t.kids[1]
            && forall x :: x in t.kids && x != p && x != 1 ==> u.kids[x] == t.kids[x]
  {
    var s := t.kids[p];
    assert s[0] in s;
    assert s == [s[0]] + s[1..];
    DistinctSplit([s[0]], s[1..]);
    assert s[0] in [s[0]];
  }

  /** What of `s`, taken one by one from its start, ends up in front of init's children. */
  function InFrontOf(s: seq<Pid>, A: set<Pid>): seq<Pid> {
    Reversed(Sel(s, A))
  }

  lemma OneInFront(s: seq<Pid>, t: seq<Pid>, A: set<Pid>)
    requires s != []
    ensures InFrontOf(s[1..], A) + Sel([s[0]] + t, A) == InFrontOf(s, A) + Sel(t, A)
  {
    assert ([s[0]] + t)[1..] == t;
    if s[0] in A {
      assert Sel(s, A)[1..] == Sel(s[1..], A);
      assert InFrontOf(s[1..], A) + ([s[0]] + Sel(t, A)) == (InFrontOf(s[1..], A) + [s[0]]) + Sel(t, A);
    }
  }

  lemma NoneInFront(s: seq<Pid>, A: set<Pid>)
    requires s == []
    ensures InFrontOf(s, A) == []
  {
  }

  /** The children of a dying process end up in front of init's, the last one first. */
  lemma {:induction false} AdoptMoves(t: Table, p: Pid, A: set<Pid>)
    requires LinksOk(t.kids, t.parent) && p in t.kids && p != 1
    ensures forall x :: x in t.kids && x != p ==>
              && x in Adopt(t, p).kids
              && Sel(Adopt(t, p).kids[x], A) == (if x == 1 then InFrontOf(t.kids[p], A) else []) + Sel(t.kids[x], A)
    ensures forall c :: c in Adopt(t, p).parent <==> c in t.parent
    ensures forall c :: c in t.parent ==> Adopt(t, p).parent[c] == if t.parent[c] == p then 1 else t.parent[c]
    decreases |t.kids[p]|
  {
    hide InFrontOf, Sel;
    if t.kids[p] == [] {
      NoneInFront(t.kids[p], A);
    } else {
      var u := ChangeParent(t, t.kids[p][0], 1);
      FirstKidLeaves(t, p);
      KidMoved(t, p);
      hide ChangeParent, LinksOk;
      AdoptMoves(u, p, A);
      OneInFront(t.kids[p], t.kids[1], A);
    }
  }

  /** A process loses its children and its place among its siblings, */
  function Detached(t: Table, p: Pid): Table
    requires LinksOk(t.kids, t.parent) && p in t.kids && p != 1
  {
    var u := Adopt(t, p);
    u.(kids := Unlinked(u.kids, u.parent, p))
  }

  /** and its node. */
  function Removed(t: Table, p: Pid): Table {
    t.(state := t.state - {p}, parent := t.parent - {p}, kids := t.kids - {p})
  }

  /** The first process of the old list is taken out. */
  function Bury(t: Table): Table
    requires Ok(t) && t.stale != []
  {
    var p := t.stale[0];
    assert p in t.stale;
    Removed(Detached(t, p), p).(stale := t.stale[1..])
  }

  lemma BuryOk(t: Table)
    requires Ok(t) && t.stale != []
    ensures Ok(Bury(t))
    ensures Bury(t).live == t.live && Bury(t).stale == t.stale[1..]
  {
    var p := t.stale[0];
    var u := Adopt(t, p);
    assert p in t.stale;
    AdoptLinks(t, p);
    UnlinkedLinks(u.kids, u.parent, p);
    RemovedLinks(Unlinked(u.kids, u.parent, p), u.parent - {p}, p);
    RemovedIndex(t, p);
  }

  lemma RemovedLinks(kids: Kids, parent: map<Pid, Pid>, p: Pid)
    requires LinksOk(kids, parent) && p > 1 && p in kids && kids[p] == [] && p !in parent
    ensures LinksOk(kids - {p}, parent)
  {
    forall c | c in parent
      ensures parent[c] != p
    {
      assert c in kids[parent[c]];
    }
  }

  lemma RemovedIndex(t: Table, p: Pid)
    requires IndexOk(t) && t.stale != [] && t.stale[0] == p
    ensures Distinct(t.stale[1..])
    ensures forall x :: x in t.stale <==> x == p || x in t.stale[1..]
    ensures p !in t.stale[1..]
  {
    assert t.stale == [p] + t.stale[1..];
    DistinctSplit([p], t.stale[1..]);
    assert p in [p];
  }

  function Sweep(t: Table): Table
    requires Ok(t)
    decreases |t.stale|
  {
    if t.stale == [] then t
    else
      BuryOk(t);
      Sweep(Bury(t))
  }

  function Survivors(t: Table): set<Pid> {
    Elems(t.live) + {0, 1}
  }

  lemma {:induction false} SweepOk(t: Table)
    requires Ok(t)
    ensures Ok(Sweep(t)) && Sweep(t).stale == [] && Sweep(t).live == t.live
    ensures Sweep(t).kids.Keys == Survivors(t)
    decreases |t.stale|
  {
    if t.stale == [] {
      assert t.kids.Keys == Survivors(t);
    } else {
      BuryOk(t);
      SweepOk(Bury(t));
    }
  }

  /** Of the children of `dead`, those in `A`, as they end up in front of init's. */
  function Adopted(kids: Kids, dead: seq<Pid>, A: set<Pid>): seq<Pid> {
    if dead == [] then [] else Adopted(kids, dead[1..], A) + InFrontOf(KidsOf(kids, dead[0]), A)
  }

  /** Whoever survives has the parent it had, or init if that died. */
  function FinalParents(t: Table): map<Pid, Pid> {
    map c | c in t.parent && c !in t.stale :: if t.parent[c] in t.stale then 1 else t.parent[c]
  }

  lemma {:induction false} AdoptedCongruent(kids: Kids, kids': Kids, dead: seq<Pid>, A: set<Pid>)
    requires forall x :: x in dead ==> x in kids && x in kids' && Sel(kids[x], A) == Sel(kids'[x], A)
    ensures Adopted(kids, dead, A) == Adopted(kids', dead, A)
  {
    if dead != [] {
      assert dead[0] in dead;
      AdoptedCongruent(kids, kids', dead[1..], A);
    }
  }

  lemma {:induction false} NoneAdopted(kids: Kids, dead: seq<Pid>, A: set<Pid>)
    requires forall x, c :: x in dead && c in KidsOf(kids, x) ==> c !in A
    ensures Adopted(kids, dead, A) == []
  {
    if dead != [] {
      assert dead[0] in dead;
      SelNone(KidsOf(kids, dead[0]), A);
      NoneAdopted(kids, dead[1..], A);
    }
  }

  lemma {:induction false} AdoptedWho(kids: Kids, dead: seq<Pid>, A: set<Pid>, c: Pid)
    ensures c in Adopted(kids, dead, A) <==> c in A && exists x :: x in dead && c in KidsOf(kids, x)
  {
    if dead != [] {
      AdoptedWho(kids, dead[1..], A, c);
      assert forall x :: x in dead <==> x == dead[0] || x in dead[1..];
    }
  }

  lemma BuryParts(t: Table)
    requires Ok(t) && t.stale != []
    ensures var p := t.stale[0];
            && LinksOk(t.kids, t.parent) && p in t.kids && p != 1
            && Bury(t).kids == Unlinked(Adopt(t, p).kids, Adopt(t, p).parent, p) - {p}
            && Bury(t).parent == Adopt(t, p).parent - {p}
  {
    assert t.stale[0] in t.stale;
  }

  lemma DeadNotAmong(t: Table, A: set<Pid>)
    requires Ok(t) && t.stale != [] && A <= Survivors(t)
    ensures t.stale[0] !in A
  {
    assert t.stale[0] in t.stale;
  }

  lemma BuryMoves(t: Table, A: set<Pid>)
    requires Ok(t) && t.stale != [] && A <= Survivors(t)
    ensures var p, u := t.stale[0], Bury(t);
            && p in t.kids && p != 1 && p !in A && u.kids.Keys == t.kids.Keys - {p}
            && forall x :: x in u.kids ==>
                  Sel(u.kids[x], A) == (if x == 1 then InFrontOf(t.kids[p], A) else []) + Sel(t.kids[x], A)
  {
    BuryParts(t);
    DeadNotAmong(t, A);
    hide *;
    var p := t.stale[0];
    var v := Adopt(t, p);
    AdoptLinks(t, p);
    var kids := Unlinked(v.kids, v.parent, p);
    UnlinkedSel(v, p, A);
    assert (kids - {p}).Keys == kids.Keys - {p};
    forall x | x in kids - {p}
      ensures Sel((kids - {p})[x], A) == (if x == 1 then InFrontOf(t.kids[p], A) else []) + Sel(t.kids[x], A)
    {
      AdoptMoves(t, p, A);
    }
  }

  lemma UnlinkedSel(v: Table, p: Pid, A: set<Pid>)
    requires LinksOk(v.kids, v.parent) && p !in A
    ensures Unlinked(v.kids, v.parent, p).Keys == v.kids.Keys
    ensures forall x :: x in v.kids ==> Sel(Unlinked(v.kids, v.parent, p)[x], A) == Sel(v.kids[x], A)
  {
    UnlinkedLinks(v.kids, v.parent, p);
    forall x | x in v.kids
      ensures Sel(Unlinked(v.kids, v.parent, p)[x], A) == Sel(v.kids[x], A)
    {
      SelWithout(v.kids[x], p, A);
    }
  }

  lemma BuryParents(t: Table)
    requires Ok(t) && t.stale != []
    ensures var p, u := t.stale[0], Bury(t);
            && (forall c :: c in u.parent <==> c in t.parent && c != p)
            && (forall c :: c in u.parent ==> u.parent[c] == if t.parent[c] == p then 1 else t.parent[c])
  {
    BuryParts(t);
    AdoptMoves(t, t.stale[0], {});
    hide Ok, Bury, Adopt, LinksOk, InFrontOf, Sel, Unlinked;
  }

  lemma FinalParentsKept(t: Table, u: Table, p: Pid)
    requires t.stale != [] && t.stale[0] == p && u.stale == t.stale[1..] && p !in u.stale && 1 !in t.stale
    requires forall c :: c in u.parent <==> c in t.parent && c != p
    requires forall c :: c in u.parent ==> u.parent[c] == if t.parent[c] == p then 1 else t.parent[c]
    ensures FinalParents(u) == FinalParents(t)
  {
    assert forall x :: x in t.stale <==> x == p || x in u.stale;
    assert FinalParents(u).Keys == FinalParents(t).Keys;
  }

  /** The sweep, for any survivors `A`: in all child lists they are in the order they were in, except
      that those whose parents died have come to stand before the children of init. */
  lemma {:induction false} SweepAdopts(t: Table, A: set<Pid>)
    requires Ok(t) && A <= Survivors(t)
    ensures Sweep(t).kids.Keys == Survivors(t)
    ensures Sweep(t).parent == FinalParents(t)
    ensures forall x :: x in Survivors(t) ==>
              && x in t.kids
              && Sel(Sweep(t).kids[x], A) == (if x == 1 then Adopted(t.kids, t.stale, A) else []) + Sel(t.kids[x], A)
    decreases |t.stale|
  {
    SweepOk(t);
    SurvivorsKnown(t);
    if t.stale == [] {
      assert FinalParents(t) == t.parent;
    } else {
      var p, u := t.stale[0], Bury(t);
      BuryOk(t);
      BuryMoves(t, A);
      BuryParents(t);
      RemovedIndex(t, p);
      FinalParentsKept(t, u, p);
      SameSurvivors(t, u);
      SweepAdopts(u, A);
      hide Ok, Sel, Bury, Survivors, InFrontOf, FinalParents;
      AdoptedLater(t, u, A);
      forall x | x in Survivors(t)
        ensures Sel(Sweep(t).kids[x], A) == (if x == 1 then Adopted(t.kids, t.stale, A) else []) + Sel(t.kids[x], A)
      {
        assert x in u.kids;
        if x == 1 {
          AppendTwice(Adopted(u.kids, u.stale, A), InFrontOf(t.kids[p], A), Sel(t.kids[1], A));
        }
      }
    }
  }

  lemma AppendTwice(a: seq<Pid>, b: seq<Pid>, c: seq<Pid>)
    ensures a + (b + c) == (a + b) + c
  {
  }

  lemma SurvivorsKnown(t: Table)
    requires Ok(t)
    ensures forall x :: x in Survivors(t) ==> x in t.kids
    ensures 1 !in t.stale && 1 in Survivors(t)
  {
  }

  lemma SameSurvivors(t: Table, u: Table)
    requires u.live == t.live
    ensures Survivors(u) == Survivors(t)
  {
  }

  lemma AdoptedLater(t: Table, u: Table, A: set<Pid>)
    requires t.stale != [] && u.stale == t.stale[1..] && 1 !in t.stale && t.stale[0] !in u.stale && t.stale[0] in t.kids
    requires u.kids.Keys == t.kids.Keys - {t.stale[0]} && forall x :: x in t.stale ==> x in t.kids
    requires forall x :: x in u.kids && x != 1 ==> Sel(u.kids[x], A) == [] + Sel(t.kids[x], A)
    ensures Adopted(t.kids, t.stale, A) == Adopted(u.kids, u.stale, A) + InFrontOf(t.kids[t.stale[0]], A)
  {
    forall x | x in u.stale
      ensures x in u.kids && x in t.kids && Sel(u.kids[x], A) == Sel(t.kids[x], A)
    {
      assert x in t.stale;
      assert [] + Sel(t.kids[x], A) == Sel(t.kids[x], A);
    }
    AdoptedCongruent(u.kids, t.kids, u.stale, A);
  }
}
