/** One refresh of the process tree: update_tree with mark_del as its callback, then
    delete_tree_lines, then synchronize. The row list is never rebuilt; here is why it does not
    have to be. */
module Refresh {
  import opened Groves
  import opened Options
  import opened ProcSpec
  import opened Rows
  import opened Screen
  import opened Seqs
  import opened Trees

  // ---------- update_tree ----------

  /** main_list becomes the old list. */
  function Rescan(t: Table): Table {
    t.(live := [], stale := t.live)
  }

  function Scanned(t: Table, g: Grove, snap: seq<Info>): (Table, Grove) {
    Scan(Rescan(t), g, snap)
  }

  lemma ScannedOk(t: Table, g: Grove, snap: seq<Info>)
    requires Ok(t) && t.stale == []
    ensures Ok(Scanned(t, g, snap).0)
  {
    ScanOk(Rescan(t), g, snap);
  }

  /** The new table, and which processes still have their row (`priv`). */
  function UpdateTree(t: Table, g: Grove, snap: seq<Info>): (Table, set<Pid>)
    requires Ok(t) && t.stale == []
  {
    ScannedOk(t, g, snap);
    var (u, h) := Scanned(t, g, snap);
    (Sweep(u), Nodes(h) * Survivors(u))
  }

  /** What update_tree returns: the growth of num_proc during the scan, plus the dead. */
  function Changes(t: Table, g: Grove, snap: seq<Info>): int {
    var u := Scanned(t, g, snap).0;
    |u.kids.Keys| - |t.kids.Keys| + |u.stale|
  }

  // ---------- which snapshots ----------

  /** What the kernel sees to: only real pids, and init below 0. */
  ghost predicate Proper(snap: seq<Info>) {
    forall k :: 0 <= k < |snap| ==> snap[k].pid > 0 && (snap[k].pid == 1 ==> snap[k].ppid == 0)
  }

  /** Every parent is listed too, or is 0 or init. */
  ghost predicate Closed(snap: seq<Info>) {
    Proper(snap) && forall k :: 0 <= k < |snap| && snap[k].ppid > 1 ==> snap[k].ppid in ParentsIn(snap)
  }

  ghost predicate Rooted(t: Table) {
    0 !in t.parent && (1 in t.parent ==> t.parent[1] == 0)
  }

  /** Who survives a snapshot: it is enough to be named as a parent. */
  predicate Alive(snap: seq<Info>, p: Pid) {
    p <= 1 || p in Mentioned(snap)
  }

  /** Who is whose parent after update_tree. */
  function NewParents(t: Table, snap: seq<Info>): map<Pid, Pid> {
    var m := t.parent + ParentsIn(snap);
    map c | c in m && Alive(snap, c) :: if Alive(snap, m[c]) then m[c] else 1
  }

  lemma {:induction false} ListedIn(snap: seq<Info>)
    ensures forall k :: 0 <= k < |snap| ==> snap[k].pid in ParentsIn(snap)
    ensures ParentsIn(snap).Keys <= Mentioned(snap)
    ensures forall p :: p in ParentsIn(snap) ==> ParentsIn(snap)[p] in Mentioned(snap)
  {
    if snap != [] {
      ListedIn(snap[1..]);
    }
  }

  lemma {:induction false} SpecialsIn(snap: seq<Info>)
    requires Proper(snap)
    ensures 0 !in ParentsIn(snap)
    ensures 1 in ParentsIn(snap) ==> ParentsIn(snap)[1] == 0
  {
    if snap != [] {
      SpecialsIn(snap[1..]);
    }
  }

  lemma {:induction false} MentionedIn(snap: seq<Info>, listed: set<Pid>)
    requires forall k :: 0 <= k < |snap| ==> snap[k].pid in listed && (snap[k].ppid > 1 ==> snap[k].ppid in listed)
    ensures forall x :: x in Mentioned(snap) ==> x <= 1 || x in listed
  {
    if snap != [] {
      MentionedIn(snap[1..], listed);
    }
  }

  /** The scan: who is live, who is dead, who hangs where. */
  lemma ScanOutcome(t: Table, g: Grove, snap: seq<Info>)
    requires Ok(t) && t.stale == []
    ensures var u := Scanned(t, g, snap).0;
            && Ok(u) && u.parent == t.parent + ParentsIn(snap)
            && (forall p :: p in Survivors(u) <==> Alive(snap, p))
            && (forall p :: p in u.kids ==> (p in u.stale <==> !Alive(snap, p)))
            && (forall p :: p in u.stale <==> p in t.live && p !in Mentioned(snap))
  {
    ScannedOk(t, g, snap);
    ScanParents(Rescan(t), g, snap);
    RescanOk(t);
    ScanLists(Rescan(t), g, snap);
    hide Ok, Scan, AboveInit, Mentioned, Elems, Survivors, Alive;
    WhoLives(t, Scanned(t, g, snap).0, snap);
  }

  lemma RescanOk(t: Table)
    requires Ok(t) && t.stale == []
    ensures Ok(Rescan(t))
  {
  }

  lemma WhoLives(t: Table, u: Table, snap: seq<Info>)
    requires Ok(u)
    requires Elems(u.live) == Elems([]) + AboveInit(Mentioned(snap)) && Elems(u.stale) == Elems(t.live) - Mentioned(snap)
    ensures forall p :: p in Survivors(u) <==> Alive(snap, p)
    ensures forall p :: p in u.kids ==> (p in u.stale <==> !Alive(snap, p))
    ensures forall p :: p in u.stale <==> p in t.live && p !in Mentioned(snap)
  {
    hide Mentioned;
    assert forall p :: p in u.live <==> p in Elems(u.live);
    assert forall p :: p in u.stale <==> p in Elems(u.stale);
    assert forall p :: p in t.live <==> p in Elems(t.live);
  }

  /** update_tree mirrors the snapshot: indexed are 0, init and whoever is mentioned, each below the parent
      it was last listed with, or below init if that one is dead. */
  lemma MirrorsScan(t: Table, g: Grove, snap: seq<Info>)
    requires Ok(t) && t.stale == []
    ensures var v := UpdateTree(t, g, snap).0;
            && Ok(v) && v.stale == []
            && (forall p :: p in v.kids <==> Alive(snap, p))
            && v.parent == NewParents(t, snap)
            && (Rooted(t) && Proper(snap) ==> Rooted(v))
  {
    hide Alive, Ok, Survivors, Sweep, Scanned, Rooted;
    var u := Scanned(t, g, snap).0;
    ScanOutcome(t, g, snap);
    SweepOk(u);
    SweepAdopts(u, {});
    FinalIsNew(t, u, snap);
    NewIsRooted(t, snap, Sweep(u));
  }

  lemma KnownParents(u: Table)
    requires Ok(u)
    ensures forall c :: c in u.parent ==> c in u.kids && u.parent[c] in u.kids
  {
  }

  lemma FinalIsNew(t: Table, u: Table, snap: seq<Info>)
    requires Ok(u) && u.parent == t.parent + ParentsIn(snap)
    requires forall p :: p in u.kids ==> (p in u.stale <==> !Alive(snap, p))
    ensures FinalParents(u) == NewParents(t, snap)
  {
    hide *;
    KnownParents(u);
    FinalEntries(u);
    NewEntries(t, snap, u.parent);
    var f, n := FinalParents(u), NewParents(t, snap);
    forall c
      ensures c in f <==> c in n
      ensures c in f ==> f[c] == n[c]
    {
    }
  }

  lemma NewEntries(t: Table, snap: seq<Info>, m: map<Pid, Pid>)
    requires m == t.parent + ParentsIn(snap)
    ensures var n := NewParents(t, snap);
            && (forall c :: c in n <==> c in m && Alive(snap, c))
            && (forall c :: c in n ==> n[c] == if Alive(snap, m[c]) then m[c] else 1)
  {
    hide Alive, ParentsIn;
  }

  lemma FinalEntries(u: Table)
    ensures var f := FinalParents(u);
            && (forall c :: c in f <==> c in u.parent && c !in u.stale)
            && (forall c :: c in f ==> f[c] == if u.parent[c] in u.stale then 1 else u.parent[c])
  {
  }

  lemma NewIsRooted(t: Table, snap: seq<Info>, v: Table)
    requires v.parent == NewParents(t, snap)
    ensures Rooted(t) && Proper(snap) ==> Rooted(v)
  {
    if Rooted(t) && Proper(snap) {
      SpecialsIn(snap);
    }
  }

  lemma ClosedMentions(snap: seq<Info>)
    requires Closed(snap)
    ensures forall p :: Alive(snap, p) <==> p <= 1 || p in ParentsIn(snap)
    ensures forall p :: p in ParentsIn(snap) ==> Alive(snap, p) && Alive(snap, ParentsIn(snap)[p])
    ensures 0 !in ParentsIn(snap)
    ensures 1 in ParentsIn(snap) ==> ParentsIn(snap)[1] == 0
  {
    ListedIn(snap);
    SpecialsIn(snap);
    MentionedIn(snap, ParentsIn(snap).Keys);
  }

  /** With every parent listed: the indexed processes are exactly the listed ones, each below the parent it
      was listed with. */
  lemma MirrorsSnapshot(t: Table, g: Grove, snap: seq<Info>)
    requires Ok(t) && t.stale == [] && Rooted(t) && Closed(snap)
    ensures var v := UpdateTree(t, g, snap).0;
            && Ok(v) && v.stale == [] && Rooted(v)
            && v.kids.Keys == ParentsIn(snap).Keys + {0, 1}
            && (forall p :: p in ParentsIn(snap) ==> p in v.parent && v.parent[p] == ParentsIn(snap)[p])
            && (forall p :: p in v.parent && p != 1 ==> p in ParentsIn(snap))
  {
    hide UpdateTree, Closed, Alive, Ok;
    MirrorsScan(t, g, snap);
    ClosedMentions(snap);
    ClosedIsProper(snap);
  }

  lemma ClosedIsProper(snap: seq<Info>)
    ensures Closed(snap) ==> Proper(snap)
  {
  }

  // ---------- the new tree ----------

  /** There is a tree of `root`, so that a walk over it ends, exactly if `root` is not its own ancestor;
      cycles elsewhere do no harm. No process occurs twice in it. */
  lemma TreeAfter(t: Table, g: Grove, snap: seq<Info>, root: Pid) returns (G: Grove)
    requires Ok(t) && t.stale == []
    ensures !OwnAncestor(NewParents(t, snap), root) ==>
              TreeOf(UpdateTree(t, g, snap).0.kids, root, G) && Distinct(Flat(G))
    ensures OwnAncestor(NewParents(t, snap), root) ==> forall H :: !TreeOf(UpdateTree(t, g, snap).0.kids, root, H)
  {
    hide UpdateTree, OwnAncestor, TreeOf, NewParents, Alive;
    var v := UpdateTree(t, g, snap).0;
    MirrorsScan(t, g, snap);
    OkLinks(v);
    G := TreeExists(v.kids, v.parent, root);
    if TreeOf(v.kids, root, G) {
      TreeDistinct(v.kids, v.parent, root, G);
    }
    if OwnAncestor(v.parent, root) {
      forall H
        ensures !TreeOf(v.kids, root, H)
      {
        if TreeOf(v.kids, root, H) {
          TreeMeansNoLoop(v.kids, v.parent, root, H);
        }
      }
    }
  }

  lemma OkLinks(t: Table)
    requires Ok(t)
    ensures LinksOk(t.kids, t.parent)
  {
  }

  /** init is displayed at the top or not at all, and 0 never. */
  lemma InitOnTop(t: Table, g: Grove, root: Pid)
    requires LinksOk(t.kids, t.parent) && Rooted(t) && root > 0 && Shows(t.kids, root, g)
    ensures 0 !in Nodes(g) && Distinct(Flat(g)) && Fits(t.kids, Nodes(g), g)
    ensures 1 in Nodes(g) ==> g.Cons? && g.pid == 1 && root == 1
    ensures forall p :: p in Nodes(g) ==> p in t.kids
  {
    if g.Cons? {
      assert Tops(g)[0] == g.pid && |Tops(g)| == 1;
      if 0 in Flat(g) && 0 !in Tops(g) {
        ParentInside(t.kids, t.parent, Nodes(g), g, 0);
      }
      if 1 in Flat(g) && 1 !in Tops(g) {
        ParentInside(t.kids, t.parent, Nodes(g), g, 1);
      }
    }
  }

  // ---------- orphans ----------

  /** Displayed processes that outlive their parent: they are named as a parent, but not listed. The sweep
      hands them to init and leaves their rows where they are. */
  function Orphans(t: Table, g: Grove, snap: seq<Info>, root: Pid): set<Pid> {
    var m := t.parent + ParentsIn(snap);
    set c | c in Nodes(Scanned(t, g, snap).1) && c != root && Alive(snap, c) && c in m && !Alive(snap, m[c])
  }

  lemma OrphanIs(t: Table, g: Grove, snap: seq<Info>, root: Pid, c: Pid)
    requires Rooted(t) && Proper(snap) && c in Orphans(t, g, snap, root)
    ensures c in Mentioned(snap) && c !in ParentsIn(snap) && c in t.parent && t.parent[c] !in Mentioned(snap)
  {
    hide Scanned, ParentsIn, Mentioned;
    ListedIn(snap);
    SpecialsIn(snap);
  }

  /** In a closed snapshot nobody survives below a dead process. */
  lemma ScanSupports(t: Table, g: Grove, snap: seq<Info>)
    requires Ok(t) && t.stale == [] && Rooted(t) && Closed(snap)
    ensures var u := Scanned(t, g, snap).0;
            forall c :: c in u.parent && u.parent[c] in u.stale ==> c in u.stale
    ensures forall root :: Orphans(t, g, snap, root) == {}
  {
    hide Scanned, Alive, Ok, Rooted, Closed;
    ScanOutcome(t, g, snap);
    NobodyOutlives(t, snap);
    KnownParents(Scanned(t, g, snap).0);
  }

  lemma NobodyOutlives(t: Table, snap: seq<Info>)
    requires Ok(t) && t.stale == [] && Rooted(t) && Closed(snap)
    ensures var m := t.parent + ParentsIn(snap);
            forall c :: c in m && !Alive(snap, m[c]) ==> !Alive(snap, c)
  {
    ClosedMentions(snap);
    hide Alive, Closed;
    var m := t.parent + ParentsIn(snap);
    forall c | c in m && Alive(snap, c)
      ensures Alive(snap, m[c])
    {
      if c !in ParentsIn(snap) {
        RootsLive(t, snap, c);
      }
    }
  }

  lemma RootsLive(t: Table, snap: seq<Info>, c: Pid)
    requires Rooted(t) && c in t.parent && c <= 1
    ensures Alive(snap, t.parent[c])
  {
  }

  // ---------- what mark_del leaves on display ----------

  lemma {:induction false} NothingAlive(kids: Kids, parent: map<Pid, Pid>, S: set<Pid>, A: set<Pid>, g: Grove)
    requires LinksOk(kids, parent) && Fits(kids, S, g)
    requires forall c :: c in Flat(g) && c in parent && parent[c] !in A ==> c !in A
    requires forall x :: x in Tops(g) ==> x !in A
    ensures forall x :: x in Flat(g) ==> x !in A
    decreases g
  {
    if g.Cons? {
      TopsOf(kids, S, g);
      forall c | c in Tops(g.kids)
        ensures c !in A
      {
        assert c in parent && parent[c] == g.pid;
      }
      hide LinksOk, Fits, Flat, Tops;
      NothingAlive(kids, parent, S, A, g.kids);
      NothingAlive(kids, parent, S, A, g.next);
    }
  }

  lemma {:induction false} AliveHereditary(kids: Kids, parent: map<Pid, Pid>, S: set<Pid>, A: set<Pid>, g: Grove)
    requires LinksOk(kids, parent) && Fits(kids, S, g)
    requires g.Cons?
    requires forall c :: c in Flat(g.kids) || c in Flat(g.next) ==> (c in parent && parent[c] !in A ==> c !in A)
    ensures Hereditary(g, A)
    decreases g
  {
    hide LinksOk, Fits, Flat, Tops;
    TopsOf(kids, S, g);
    if g.pid !in A {
      TopsAreKids(kids, parent, S, g);
      NothingAlive(kids, parent, S, A, g.kids);
    }
    if g.kids.Cons? {
      TopsOf(kids, S, g.kids);
      AliveHereditary(kids, parent, S, A, g.kids);
    }
    if g.next.Cons? {
      TopsOf(kids, S, g.next);
      AliveHereditary(kids, parent, S, A, g.next);
    }
  }

  lemma TopsAreKids(kids: Kids, parent: map<Pid, Pid>, S: set<Pid>, g: Grove)
    requires LinksOk(kids, parent) && Fits(kids, S, g) && g.Cons?
    ensures forall c :: c in Tops(g.kids) ==> c in parent && parent[c] == g.pid && c in Flat(g.kids)
  {
  }

  /** Below a dead displayed process everyone is dead, if nobody is orphaned. */
  lemma DisplayHereditary(t: Table, g: Grove, snap: seq<Info>, root: Pid)
    requires Ok(t) && t.stale == [] && Shows(t.kids, root, g) && Orphans(t, g, snap, root) == {}
    ensures var (u, h) := Scanned(t, g, snap); Hereditary(h, Survivors(u))
  {
    var (u, h) := Scanned(t, g, snap);
    ScanOutcome(t, g, snap);
    ScanShows(Rescan(t), g, snap, root);
    if h.Cons? {
      hide Scanned, Survivors, Alive;
      assert |Tops(h)| == 1 + |Tops(h.next)| && Tops(h)[0] == h.pid;
      DistinctParts(h);
      forall c | c in Flat(h.kids) && c in u.parent && u.parent[c] !in Survivors(u)
        ensures c !in Survivors(u)
      {
        assert c in Nodes(h) && c != root;
        assert c !in Orphans(t, g, snap, root);
      }
      AliveHereditary(u.kids, u.parent, Nodes(h), Survivors(u), h);
    }
  }

  /** Lists that show the same of the displayed processes fit the same display. */
  lemma SurvivorsFit(kids: Kids, after: Kids, k: Grove)
    requires Fits(kids, Nodes(k), k)
    requires forall x :: x in Nodes(k) ==> x in kids && x in after && Sel(after[x], Nodes(k)) == Sel(kids[x], Nodes(k))
    ensures Fits(after, Nodes(k), k)
  {
    assert forall x :: x in Flat(k) ==> x in Nodes(k);
    FitsCongruent(kids, Nodes(k), after, Nodes(k), k);
  }

  lemma SweptLinks(u: Table, k: Grove)
    requires Ok(u) && Nodes(k) <= Survivors(u) && Fits(u.kids, Nodes(k), k)
    requires 1 in Nodes(k) ==> Adopted(u.kids, u.stale, Nodes(k)) == []
    ensures Fits(Sweep(u).kids, Nodes(k), k) && Nodes(k) <= Sweep(u).kids.Keys
  {
    hide Sweep, Survivors, Ok, Fits, Adopted;
    SweepAdopts(u, Nodes(k));
    SweepOk(u);
    forall x | x in Nodes(k)
      ensures x in u.kids && x in Sweep(u).kids && Sel(Sweep(u).kids[x], Nodes(k)) == Sel(u.kids[x], Nodes(k))
    {
      assert [] + Sel(u.kids[x], Nodes(k)) == Sel(u.kids[x], Nodes(k));
    }
    SurvivorsFit(u.kids, Sweep(u).kids, k);
  }

  /** Without orphans init adopts nobody who is displayed. */
  lemma NobodyAdopted(t: Table, g: Grove, snap: seq<Info>, root: Pid, S: set<Pid>)
    requires Ok(t) && t.stale == [] && Rooted(t) && Proper(snap) && Orphans(t, g, snap, root) == {} && root == 1
    requires var (u, h) := Scanned(t, g, snap); S <= Survivors(u) && S <= Nodes(h)
    ensures var u := Scanned(t, g, snap).0; Adopted(u.kids, u.stale, S) == []
  {
    var (u, h) := Scanned(t, g, snap);
    ScanOutcome(t, g, snap);
    hide Scanned, Survivors;
    forall x, c | x in u.stale && c in KidsOf(u.kids, x)
      ensures c !in S
    {
      assert c in u.parent && u.parent[c] == x && x in u.kids;
      if c == 1 {
        SpecialsIn(snap);
      }
      assert c !in Orphans(t, g, snap, root);
    }
    NoneAdopted(u.kids, u.stale, S);
  }

  /** The displayed tree after update_tree. */
  function Left(t: Table, g: Grove, snap: seq<Info>): Grove {
    var (u, h) := Scanned(t, g, snap);
    Keep(h, Survivors(u))
  }

  lemma LeftParts(t: Table, g: Grove, snap: seq<Info>, root: Pid)
    requires Ok(t) && t.stale == [] && Shows(t.kids, root, g) && Orphans(t, g, snap, root) == {}
    ensures var (u, h) := Scanned(t, g, snap);
            var k := Left(t, g, snap);
            && Flat(k) == Sel(Flat(h), Survivors(u)) && Distinct(Flat(k))
            && Nodes(k) == Nodes(h) * Survivors(u)
            && Fits(u.kids, Nodes(k), k)
            && (k.Nil? || Tops(k) == [root])
  {
    var (u, h) := Scanned(t, g, snap);
    var k := Left(t, g, snap);
    var A := Survivors(u);
    DisplayHereditary(t, g, snap, root);
    ScanShows(Rescan(t), g, snap, root);
    hide Scanned, Survivors;
    KeepFlat(h, A);
    SelDistinct(Flat(h), A);
    KeepFits(u.kids, Nodes(h), h, A);
    KeepTops(h, A);
    assert Nodes(k) == Nodes(h) * A;
    if h.Cons? && k.Cons? {
      assert |Tops(k)| > 0;
    }
  }

  lemma InitOnTopScanned(t: Table, g: Grove, snap: seq<Info>, root: Pid)
    requires Ok(t) && t.stale == [] && Rooted(t) && Proper(snap) && root > 0 && Shows(t.kids, root, g)
    ensures var (u, h) := Scanned(t, g, snap);
            && Ok(u) && Rooted(u) && Shows(u.kids, root, h)
            && (1 in Nodes(h) ==> h.Cons? && h.pid == 1 && root == 1)
  {
    var (u, h) := Scanned(t, g, snap);
    ScanOutcome(t, g, snap);
    ScanShows(Rescan(t), g, snap, root);
    SpecialsIn(snap);
    OkLinks(u);
    InitOnTop(u, h, root);
  }

  /** As long as no displayed process is orphaned: the rows that are left show exactly the displayed part of
      the final child lists, in their old order. */
  lemma UpdateShows(t: Table, g: Grove, snap: seq<Info>, root: Pid)
    requires Ok(t) && t.stale == [] && Rooted(t) && Proper(snap) && root > 0 && Shows(t.kids, root, g)
    requires Orphans(t, g, snap, root) == {}
    ensures var (v, shown) := UpdateTree(t, g, snap);
            && Shows(v.kids, root, Left(t, g, snap))
            && Nodes(Left(t, g, snap)) == shown
            && Flat(Left(t, g, snap)) == Sel(Flat(g), shown)
  {
    var (u, h) := Scanned(t, g, snap);
    var k := Left(t, g, snap);
    LeftParts(t, g, snap, root);
    InitOnTopScanned(t, g, snap, root);
    if 1 in Nodes(k) {
      NobodyAdopted(t, g, snap, root, Nodes(k));
    }
    hide Scanned, Left, Orphans, Fits;
    SweptLinks(u, k);
    KeptRows(t, g, snap, root);
  }

  /** The rows that are left, seen from before and from after the scan. */
  lemma KeptRows(t: Table, g: Grove, snap: seq<Info>, root: Pid)
    requires Ok(t) && t.stale == [] && Shows(t.kids, root, g)
    ensures var (u, h) := Scanned(t, g, snap);
            var shown := UpdateTree(t, g, snap).1;
            Sel(Flat(h), Survivors(u)) == Sel(Flat(g), shown) && shown <= Nodes(g)
  {
    var (u, h) := Scanned(t, g, snap);
    ScanShows(Rescan(t), g, snap, root);
    SelSel(Flat(g), Nodes(h), Survivors(u));
    assert forall x :: x in Nodes(h) ==> x in Flat(g);
  }

  // ---------- where the adopted go ----------

  /** The surviving subtrees of the processes `cs`, side by side. */
  function Arrange(h: Grove, A: set<Pid>, cs: seq<Pid>): Grove
    decreases |cs|
  {
    if cs == [] then Nil else Cons(cs[0], Keep(Under(h, cs[0]), A), Arrange(h, A, cs[1..]))
  }

  /** What is left of the display of init's tree, as the new child lists have it: first the adopted, the last
      one adopted in front, then the children that init had. */
  function Rearranged(t: Table, g: Grove, snap: seq<Info>): Grove {
    var (u, h) := Scanned(t, g, snap);
    var A := Survivors(u);
    if h.Nil? then Nil
    else Cons(h.pid, Append(Arrange(h, A, Adopted(u.kids, u.stale, Nodes(h) * A)), Keep(h.kids, A)), Nil)
  }

  /** When the rows that are left are in the order of the new tree of the same root. In the tree of a user
      nobody may be orphaned; in that of init the orphans must already stand where they are put: all of
      this is known before the first row is touched. */
  ghost predicate InOrder(t: Table, g: Grove, snap: seq<Info>, root: Pid) {
    var (u, h) := Scanned(t, g, snap);
    if root == 1 then Flat(Rearranged(t, g, snap)) == Sel(Flat(h), Survivors(u))
    else Orphans(t, g, snap, root) == {}
  }

  lemma NoOrphansInOrder(t: Table, g: Grove, snap: seq<Info>, root: Pid)
    requires Ok(t) && t.stale == [] && Rooted(t) && Proper(snap) && root > 0 && Shows(t.kids, root, g)
    requires Orphans(t, g, snap, root) == {}
    ensures InOrder(t, g, snap, root)
  {
    if root == 1 {
      var (u, h) := Scanned(t, g, snap);
      var A := Survivors(u);
      LeftParts(t, g, snap, root);
      InitOnTopScanned(t, g, snap, root);
      NobodyAdopted(t, g, snap, root, Nodes(h) * A);
      SurvivorsKnown(u);
      hide Ok, Scanned, Survivors, Adopted, Orphans, Flat, Distinct, Fits;
      NothingRearranged(h, A, root);
    }
  }

  lemma NothingRearranged(h: Grove, A: set<Pid>, root: Pid)
    requires h.Nil? || Tops(h) == [root]
    requires root in A
    ensures h.Cons? ==> Keep(h, A) == Cons(h.pid, Append(Arrange(h, A, []), Keep(h.kids, A)), Nil)
    ensures h.Nil? ==> Keep(h, A) == Nil
  {
    if h.Cons? {
      assert |Tops(h)| == 1 + |Tops(h.next)| && Tops(h)[0] == h.pid;
    }
  }

  lemma KeepRootInside(h: Grove, c: Pid)
    requires h.Cons? && h.next.Nil? && Distinct(Flat(h)) && c in Flat(h) && c != h.pid
    ensures forall x :: x in Flat(Under(h, c)) ==> x in Flat(h.kids) && x != h.pid
  {
    DistinctParts(h);
    TopsInside(map[], h.kids, c);
  }

  /** A surviving piece of the display, all of it below init, is in the new child lists what it was. */
  lemma PieceFits(u: Table, h: Grove, piece: Grove)
    requires Ok(u) && Fits(u.kids, Nodes(h), piece) && forall x :: x in Flat(piece) ==> x != 1
    ensures var A := Survivors(u);
            var shown := Nodes(h) * A;
            Fits(Sweep(u).kids, shown, Keep(piece, A)) && Tops(Keep(piece, A)) == Sel(Tops(piece), A)
  {
    var A := Survivors(u);
    var shown := Nodes(h) * A;
    KeepFits(u.kids, Nodes(h), piece, A);
    KeepTops(piece, A);
    KeepWithin(piece, A);
    SweepAdopts(u, shown);
    hide Sweep, Survivors, Keep, Adopted, Ok;
    forall x | x in Flat(Keep(piece, A))
      ensures x in u.kids && x in Sweep(u).kids && Sel(u.kids[x], shown) == Sel(Sweep(u).kids[x], shown)
    {
      assert [] + Sel(u.kids[x], shown) == Sel(u.kids[x], shown);
    }
    FitsCongruent(u.kids, shown, Sweep(u).kids, shown, Keep(piece, A));
  }

  lemma {:induction false} ArrangeFits(u: Table, h: Grove, cs: seq<Pid>)
    requires Ok(u) && Fits(u.kids, Nodes(h), h) && h.Cons? && h.next.Nil? && h.pid == 1 && Distinct(Flat(h))
    requires forall c :: c in cs ==> c in Nodes(h) && c in Survivors(u) && c != 1
    ensures var A := Survivors(u);
            Fits(Sweep(u).kids, Nodes(h) * A, Arrange(h, A, cs)) && Tops(Arrange(h, A, cs)) == cs
    decreases |cs|
  {
    hide Ok, Sweep, Fits, Nodes, Survivors, Arrange, Distinct, Flat;
    var A := Survivors(u);
    if cs == [] {
      NothingArranged(Sweep(u).kids, Nodes(h) * A, h, A);
    } else {
      ArrangeFits(u, h, cs[1..]);
      OneArranged(u, h, cs[0]);
      MoreArranged(Sweep(u).kids, Nodes(h) * A, h, A, cs);
    }
  }

  lemma NothingArranged(kids: Kids, S: set<Pid>, h: Grove, A: set<Pid>)
    ensures Fits(kids, S, Arrange(h, A, [])) && Tops(Arrange(h, A, [])) == []
  {
  }

  lemma MoreArranged(kids: Kids, S: set<Pid>, h: Grove, A: set<Pid>, cs: seq<Pid>)
    requires cs != [] && cs[0] in kids
    requires var piece := Keep(Under(h, cs[0]), A); Fits(kids, S, piece) && Tops(piece) == Sel(kids[cs[0]], S)
    requires var rest := Arrange(h, A, cs[1..]); Fits(kids, S, rest) && Tops(rest) == cs[1..]
    ensures Fits(kids, S, Arrange(h, A, cs)) && Tops(Arrange(h, A, cs)) == cs
  {
    assert cs == [cs[0]] + cs[1..];
  }

  lemma OneArranged(u: Table, h: Grove, c: Pid)
    requires Ok(u) && Fits(u.kids, Nodes(h), h) && h.Cons? && h.next.Nil? && h.pid == 1 && Distinct(Flat(h))
    requires c in Nodes(h) && c in Survivors(u) && c != 1
    ensures var A := Survivors(u);
            var piece, after := Keep(Under(h, c), A), Sweep(u).kids;
            && c in after && Fits(after, Nodes(h) * A, piece) && Tops(piece) == Sel(after[c], Nodes(h) * A)
  {
    var A := Survivors(u);
    hide Survivors, Sweep, Ok, Keep;
    KeepRootInside(h, c);
    UnderHere(u.kids, Nodes(h), h, c);
    PieceFits(u, h, Under(h, c));
    SelSel(u.kids[c], Nodes(h), A);
    SweepAdopts(u, Nodes(h) * A);
    SweepOk(u);
    assert [] + Sel(u.kids[c], Nodes(h) * A) == Sel(u.kids[c], Nodes(h) * A);
  }

  lemma AdoptedShown(u: Table, S: set<Pid>)
    requires Ok(u) && Rooted(u)
    ensures forall c :: c in Adopted(u.kids, u.stale, S) ==> c in S && c != 1
  {
    forall c | c in Adopted(u.kids, u.stale, S)
      ensures c in S && c != 1
    {
      AdoptedWho(u.kids, u.stale, S, c);
      var x :| x in u.stale && c in KidsOf(u.kids, x);
      DeadParent(u, x, c);
    }
  }

  lemma DeadParent(u: Table, x: Pid, c: Pid)
    requires Ok(u) && Rooted(u) && x in u.stale && c in KidsOf(u.kids, x)
    ensures c in u.parent && u.parent[c] == x && c != 1
  {
    assert x in u.kids && x > 1;
  }

  /** The new child lists show the survivors of the display as `Rearranged` has them. */
  lemma RearrangedFits(t: Table, g: Grove, snap: seq<Info>)
    requires Ok(t) && t.stale == [] && Rooted(t) && Proper(snap) && Shows(t.kids, 1, g)
    requires Scanned(t, g, snap).1.Cons?
    ensures var (v, shown) := UpdateTree(t, g, snap);
            Fits(v.kids, shown, Rearranged(t, g, snap)) && Tops(Rearranged(t, g, snap)) == [1]
  {
    var (u, h) := Scanned(t, g, snap);
    InitOnTopScanned(t, g, snap, 1);
    var A, after := Survivors(u), Sweep(u).kids;
    var shown := Nodes(h) * A;
    var cs := Adopted(u.kids, u.stale, shown);
    assert |Tops(h)| == 1 + |Tops(h.next)| && Tops(h)[0] == h.pid;
    AdoptedShown(u, shown);
    DistinctParts(h);
    hide Scanned, Survivors, Sweep, Ok, Adopted, Distinct, Keep;
    ArrangeFits(u, h, cs);
    PieceFits(u, h, h.kids);
    AppendParts(after, shown, Arrange(h, A, cs), Keep(h.kids, A));
    SelSel(u.kids[1], Nodes(h), A);
    SweepAdopts(u, shown);
    SurvivorsKnown(u);
    SweepOk(u);
  }

  lemma ShownParentsAfter(t: Table, g: Grove, snap: seq<Info>)
    requires Ok(t) && t.stale == [] && Rooted(t) && Proper(snap) && Shows(t.kids, 1, g)
    requires Scanned(t, g, snap).1.Cons?
    ensures var (v, shown) := UpdateTree(t, g, snap); 1 in shown && ParentClosed(v.kids, shown, 1)
  {
    var (u, h) := Scanned(t, g, snap);
    InitOnTopScanned(t, g, snap, 1);
    assert Tops(h)[0] == h.pid && Tops(h) == [1];
    SurvivorsKnown(u);
    SweepAdopts(u, {});
    SweepOk(u);
    var v, shown := Sweep(u), Nodes(h) * Survivors(u);
    hide Scanned, Sweep;
    forall p, c | p in v.kids && c in v.kids[p] && c in shown && p !in shown
      ensures c == 1
    {
      assert c in v.parent && v.parent[c] == p;
      assert c in u.parent && p == if u.parent[c] in u.stale then 1 else u.parent[c];
      KnownParents(u);
      if c != 1 {
        ParentInside(u.kids, u.parent, Nodes(h), h, c);
      }
    }
  }

  /** Init's new tree meets the survivors of the display in the order of `Rearranged`. */
  lemma WalkRestricted(t: Table, g: Grove, snap: seq<Info>, G: Grove)
    requires Ok(t) && t.stale == [] && Rooted(t) && Proper(snap) && Shows(t.kids, 1, g)
    requires Scanned(t, g, snap).1.Cons? && TreeOf(UpdateTree(t, g, snap).0.kids, 1, G)
    ensures Sel(Flat(G), UpdateTree(t, g, snap).1) == Flat(Rearranged(t, g, snap))
  {
    var (v, shown) := UpdateTree(t, g, snap);
    RearrangedFits(t, g, snap);
    ShownParentsAfter(t, g, snap);
    MirrorsScan(t, g, snap);
    ShownAreKnown(t, g, snap);
    hide UpdateTree, Rearranged, Scanned, Alive, Ok;
    OkLinks(v);
    TreeDistinct(v.kids, v.parent, 1, G);
    WalkKeeps(v.kids, shown, G, Rearranged(t, g, snap));
  }

  lemma ShownAreKnown(t: Table, g: Grove, snap: seq<Info>)
    requires Ok(t) && t.stale == []
    ensures var (v, shown) := UpdateTree(t, g, snap); shown <= v.kids.Keys && 1 in v.kids
  {
    var u := Scanned(t, g, snap).0;
    ScannedOk(t, g, snap);
    SweepOk(u);
    SurvivorsKnown(u);
  }

  lemma WalkKeeps(kids: Kids, S: set<Pid>, G: Grove, k: Grove)
    requires TreeOf(kids, 1, G) && 1 in kids && Distinct(Flat(G)) && S <= kids.Keys
    requires 1 in S && ParentClosed(kids, S, 1) && Fits(kids, S, k) && Tops(k) == [1]
    ensures Sel(Flat(G), S) == Flat(k)
  {
    assert |Tops(G)| == 1 + |Tops(G.next)| && Tops(G)[0] == G.pid;
    DistinctParts(G);
    ShownHereditary(kids, S, 1, G.kids);
    KeepFlat(G, S);
    KeepFits(kids, kids.Keys, G, S);
    KeepTops(G, S);
    assert kids.Keys * S == S;
    FitsUnique(kids, S, Keep(G, S), k);
  }

  // ---------- the main theorems ----------

  lemma OrphansLeave(t: Table, g: Grove, snap: seq<Info>, root: Pid, c: Pid)
    requires Rooted(t) && Proper(snap) && c in Orphans(t, g, snap, root) && root > 1
    ensures !IsBelow(NewParents(t, snap), c, root)
  {
    var parent := NewParents(t, snap);
    SpecialsIn(snap);
    assert c in parent && parent[c] == 1 && 0 !in parent && (1 in parent ==> parent[1] == 0);
    hide NewParents, Orphans, Alive;
    forall n: nat
      ensures Above(parent, c, n) != Some(root)
    {
      assert n > 0 ==> Above(parent, c, n) == Above(parent, 1, n - 1);
      assert n > 1 && 1 in parent ==> Above(parent, 1, n - 1) == Above(parent, 0, n - 2);
    }
  }

  lemma OrphansShown(t: Table, g: Grove, snap: seq<Info>, root: Pid)
    requires Ok(t) && t.stale == []
    ensures Orphans(t, g, snap, root) <= UpdateTree(t, g, snap).1
  {
    ScanOutcome(t, g, snap);
  }

  /** Preorder stability, with its exact condition: no edit of update_tree reorders the rows that survive it,
      except that orphans are moved. */
  lemma PreorderStability(t: Table, g: Grove, snap: seq<Info>, root: Pid, G: Grove)
    requires Ok(t) && t.stale == [] && Rooted(t) && Proper(snap) && root > 0 && Shows(t.kids, root, g)
    requires TreeOf(UpdateTree(t, g, snap).0.kids, root, G)
    ensures var shown := UpdateTree(t, g, snap).1;
            Sel(Flat(G), shown) == Sel(Flat(g), shown) <==> InOrder(t, g, snap, root)
  {
    KeptRows(t, g, snap, root);
    if root == 1 {
      if Scanned(t, g, snap).1.Cons? {
        WalkRestricted(t, g, snap, G);
      } else {
        assert UpdateTree(t, g, snap).1 == {};
        SelNone(Flat(G), {});
        SelNone(Flat(g), {});
      }
    } else {
      PreorderOfUser(t, g, snap, root, G);
    }
  }

  lemma PreorderOfUser(t: Table, g: Grove, snap: seq<Info>, root: Pid, G: Grove)
    requires Ok(t) && t.stale == [] && Rooted(t) && Proper(snap) && root > 1 && Shows(t.kids, root, g)
    requires TreeOf(UpdateTree(t, g, snap).0.kids, root, G)
    ensures var shown := UpdateTree(t, g, snap).1;
            Sel(Flat(G), shown) == Sel(Flat(g), shown) <==> Orphans(t, g, snap, root) == {}
  {
    var (v, shown) := UpdateTree(t, g, snap);
    KeptRows(t, g, snap, root);
    MirrorsScan(t, g, snap);
    hide UpdateTree, Alive, Orphans, Scanned, NewParents;
    OkLinks(v);
    TreeDistinct(v.kids, v.parent, root, G);
    if Orphans(t, g, snap, root) == {} {
      var k := Left(t, g, snap);
      UpdateShows(t, g, snap, root);
      SurvivingRoot(v.kids, root, k);
      ShownParents(v.kids, v.parent, root, k);
      WholeTop(v.kids, root, k, G);
      ShownInOrder(v.kids, root, k, G);
    } else {
      var c :| c in Orphans(t, g, snap, root);
      OrphansShown(t, g, snap, root);
      OrphansLeave(t, g, snap, root, c);
      InTree(v.kids, v.parent, root, G, c);
      assert c in Sel(Flat(g), shown);
    }
  }

  lemma WholeTop(kids: Kids, root: Pid, k: Grove, G: Grove)
    requires Shows(kids, root, k) && TreeOf(kids, root, G)
    ensures k.Cons? ==> root in Flat(G)
    ensures forall x :: x in Tops(G) ==> x == root
  {
    if k.Cons? {
      assert root in Tops(k);
    }
  }

  lemma SurvivingRoot(kids: Kids, root: Pid, k: Grove)
    requires Shows(kids, root, k)
    ensures k.Cons? ==> root in kids && root in Flat(k)
  {
    if k.Cons? {
      assert root in Tops(k);
    }
  }

  /** ptree_periodic, given the preorder `walk` that tree_start and tree_next will produce. */
  function Periodic(t: Table, g: Grove, rows: seq<Row>, v: View, snap: seq<Info>, walk: seq<Pid>): (seq<Row>, View)
    requires Ok(t) && t.stale == []
  {
    var shown := UpdateTree(t, g, snap).1;
    var (kept, v') := DeleteLines(rows, shown, v);
    Synchronize(walk, kept, shown, 0, v')
  }

  /** Whatever the new tree is: the rows become its preorder, numbered from 0, exactly if it meets the
      surviving rows in their order. */
  lemma RefreshRight(t: Table, g: Grove, rows: seq<Row>, v: View, snap: seq<Info>, root: Pid, root': Pid, G: Grove)
    requires Ok(t) && t.stale == []
    requires Shows(t.kids, root, g) && Pids(rows) == Flat(g) && NumberedFrom(rows, 0)
    requires TreeOf(UpdateTree(t, g, snap).0.kids, root', G)
    ensures var (_, shown) := UpdateTree(t, g, snap);
            var (r, _) := Periodic(t, g, rows, v, snap, Flat(G));
            && (Pids(r) == Flat(G) <==> Sel(Flat(G), shown) == Sel(Flat(g), shown))
            && (Pids(r) == Flat(G) ==> NumberedFrom(r, 0))
  {
    hide Shows, Synchronize, DeleteLines, UpdateTree;
    var (u, shown) := UpdateTree(t, g, snap);
    var (kept, v') := DeleteLines(rows, shown, v);
    KeptRows(t, g, snap, root);
    MirrorsScan(t, g, snap);
    OkLinks(u);
    TreeDistinct(u.kids, u.parent, root', G);
    DeleteExact(rows, shown, v, 0);
    if Sel(Flat(G), shown) == Sel(Flat(g), shown) {
      SyncCompletes(Flat(G), kept, shown, 0, v');
    } else if Pids(Synchronize(Flat(G), kept, shown, 0, v').0) == Flat(G) {
      assert forall x :: x in shown ==> x in Flat(g);
      SyncNeeds(Flat(G), kept, shown, 0, v');
    }
  }

  /** With the root unchanged the rows are the preorder of its new tree exactly if they are in order (see
      there); they are gone if the root is. The new tree is displayed, ready for the next refresh. */
  lemma RefreshKeepsRoot(t: Table, g: Grove, rows: seq<Row>, v: View, snap: seq<Info>, root: Pid, G: Grove)
    requires Ok(t) && t.stale == [] && Rooted(t) && Proper(snap) && root > 0
    requires Shows(t.kids, root, g) && Pids(rows) == Flat(g) && NumberedFrom(rows, 0)
    requires TreeOf(UpdateTree(t, g, snap).0.kids, root, G)
    ensures var (r, _) := Periodic(t, g, rows, v, snap, Flat(G));
            && (Pids(r) == Flat(G) <==> InOrder(t, g, snap, root))
            && (Pids(r) == Flat(G) ==> NumberedFrom(r, 0))
            && (Closed(snap) ==> InOrder(t, g, snap, root))
            && (!Alive(snap, root) && Pids(r) == Flat(G) ==> r == [])
            && Shows(UpdateTree(t, g, snap).0.kids, root, G)
  {
    hide Shows, UpdateTree, Periodic, Orphans, InOrder;
    var u := UpdateTree(t, g, snap).0;
    MirrorsScan(t, g, snap);
    OkLinks(u);
    TreeDistinct(u.kids, u.parent, root, G);
    RefreshRight(t, g, rows, v, snap, root, root, G);
    PreorderStability(t, g, snap, root, G);
    WholeTreeShows(u.kids, root, G);
    if Closed(snap) {
      ScanSupports(t, g, snap);
      NoOrphansInOrder(t, g, snap, root);
    }
    if !Alive(snap, root) {
      assert |Tops(G)| == 0;
    }
  }

  /** What is on display is in the order of the whole tree, if the old root is in it. */
  lemma KeptInOrder(kids: Kids, parent: map<Pid, Pid>, root: Pid, k: Grove, root': Pid, G: Grove)
    requires LinksOk(kids, parent) && Shows(kids, root, k)
    requires TreeOf(kids, root', G) && Distinct(Flat(G)) && (k.Nil? || root in Flat(G))
    ensures Sel(Flat(G), Nodes(k)) == Flat(k)
  {
    SurvivingRoot(kids, root, k);
    forall x | x in Tops(G) && x in Nodes(k)
      ensures x == root
    {
      NotMutuallyBelow(kids, parent, k, root, G, root');
    }
    ShownParents(kids, parent, root, k);
    ShownInOrder(kids, root, k, G);
  }

  /** The merge is a rebuild. On display is `k`, a tree of `root` as far as the child lists show it; the
      walk is the whole tree `G` of `root'`. The rows become that walk exactly when nothing is on display
      or the old root is in the new tree. */
  lemma MergeIsRebuild(kids: Kids, parent: map<Pid, Pid>, root: Pid, k: Grove, root': Pid, G: Grove,
      rows: seq<Row>, v: View)
    requires LinksOk(kids, parent) && Shows(kids, root, k) && Pids(rows) == Flat(k)
    requires TreeOf(kids, root', G)
    ensures Pids(Synchronize(Flat(G), rows, Nodes(k), 0, v).0) == Flat(G) <==> k.Nil? || root in Flat(G)
  {
    var shown := Nodes(k);
    SurvivingRoot(kids, root, k);
    TreeDistinct(kids, parent, root', G);
    if k.Nil? || root in Flat(G) {
      KeptInOrder(kids, parent, root, k, root', G);
      SyncCompletes(Flat(G), rows, shown, 0, v);
    } else {
      assert root in Flat(k) && root !in Sel(Flat(G), shown);
      if Pids(Synchronize(Flat(G), rows, shown, 0, v).0) == Flat(G) {
        SyncNeeds(Flat(G), rows, shown, 0, v);
        assert false;
      }
    }
  }

  /** The row of `root` is there after update_tree. */
  predicate KeepsRow(t: Table, g: Grove, snap: seq<Info>, root: Pid) {
    root in Nodes(Scanned(t, g, snap).1) && Alive(snap, root)
  }

  lemma RootLeft(t: Table, g: Grove, snap: seq<Info>, root: Pid, kids: Kids)
    requires Ok(t) && t.stale == [] && UpdateTree(t, g, snap).1 == Nodes(Left(t, g, snap))
    requires Shows(kids, root, Left(t, g, snap))
    ensures Left(t, g, snap).Cons? <==> KeepsRow(t, g, snap, root)
  {
    ScanOutcome(t, g, snap);
    SurvivingRoot(kids, root, Left(t, g, snap));
    hide Scanned, Survivors, Left;
    assert KeepsRow(t, g, snap, root) <==> root in Nodes(Left(t, g, snap));
  }

  lemma {:induction false} UpKnown(kids: Kids, parent: map<Pid, Pid>, p: Pid, q: Pid, n: nat)
    requires LinksOk(kids, parent) && p in kids && Above(parent, p, n) == Some(q)
    ensures q in kids
    decreases n
  {
    if n > 0 {
      UpKnown(kids, parent, parent[p], q, n - 1);
    }
  }

  /** The incremental refresh is a rebuild. The rows showed the tree of `root`, and nobody displayed is
      orphaned; the walk is that of `root'` (another one only when 't' turns a user's tree into the tree of
      init). The rows become the new preorder, numbered from 0, exactly if the old root lost its row or its
      ancestors lead to the new root. */
  lemma RefreshIsRebuild(t: Table, g: Grove, rows: seq<Row>, v: View, snap: seq<Info>, root: Pid, root': Pid, G: Grove)
    requires Ok(t) && t.stale == [] && Rooted(t) && Proper(snap) && root > 0
    requires Shows(t.kids, root, g) && Pids(rows) == Flat(g) && NumberedFrom(rows, 0)
    requires Orphans(t, g, snap, root) == {}
    requires TreeOf(UpdateTree(t, g, snap).0.kids, root', G)
    ensures var (r, _) := Periodic(t, g, rows, v, snap, Flat(G));
            && (Pids(r) == Flat(G) <==> (KeepsRow(t, g, snap, root) ==> IsBelow(NewParents(t, snap), root, root')))
            && (Pids(r) == Flat(G) ==> NumberedFrom(r, 0))
  {
    hide Shows, Synchronize, DeleteLines, UpdateTree, Left, Orphans, NewParents, Alive, KeepsRow, Ok, TreeOf;
    var (u, shown) := UpdateTree(t, g, snap);
    var k := Left(t, g, snap);
    var (kept, v') := DeleteLines(rows, shown, v);
    MirrorsScan(t, g, snap);
    OkLinks(u);
    UpdateShows(t, g, snap, root);
    RootLeft(t, g, snap, root, u.kids);
    DeleteExact(rows, shown, v, 0);
    MergeIsRebuild(u.kids, u.parent, root, k, root', G, kept, v');
    RefreshRight(t, g, rows, v, snap, root, root', G);
    InTree(u.kids, u.parent, root', G, root);
    SurvivingRoot(u.kids, root, k);
    if k.Cons? && IsBelow(u.parent, root, root') {
      var n: nat :| Above(u.parent, root, n) == Some(root');
      UpKnown(u.kids, u.parent, root, root', n);
    }
  }

  /** When the display of `root` may be turned into that of `root'`. */
  ghost predicate Followed(t: Table, g: Grove, snap: seq<Info>, root: Pid, root': Pid) {
    if root' == root then InOrder(t, g, snap, root)
    else
      && Orphans(t, g, snap, root) == {}
      && (KeepsRow(t, g, snap, root) ==> IsBelow(NewParents(t, snap), root, root'))
  }

  lemma ClosedFollowsItself(t: Table, g: Grove, snap: seq<Info>, root: Pid)
    requires Ok(t) && t.stale == [] && Rooted(t) && Closed(snap) && root > 0 && Shows(t.kids, root, g)
    ensures Followed(t, g, snap, root, root)
  {
    hide Closed, Shows, Orphans, InOrder;
    ClosedIsProper(snap);
    ScanSupports(t, g, snap);
    NoOrphansInOrder(t, g, snap, root);
  }

  lemma NothingFollows(t: Table, snap: seq<Info>, root: Pid, root': Pid)
    requires Ok(t) && t.stale == [] && Rooted(t) && Proper(snap) && root > 0
    ensures Followed(t, Nil, snap, root, root')
  {
    NilStaysNil(Rescan(t), snap);
    assert Orphans(t, Nil, snap, root) == {};
    assert Shows(t.kids, root, Nil);
    NoOrphansInOrder(t, Nil, snap, root);
  }

  lemma {:induction false} NilStaysNil(t: Table, snap: seq<Info>)
    ensures Scan(t, Nil, snap).1 == Nil
    decreases |snap|
  {
    if snap != [] {
      NilStaysNil(Step(t, Nil, snap[0]).0, snap[1..]);
    }
  }

  lemma RefreshFollows(t: Table, g: Grove, rows: seq<Row>, v: View, snap: seq<Info>, root: Pid, root': Pid, G: Grove)
    requires Ok(t) && t.stale == [] && Rooted(t) && Proper(snap) && root > 0
    requires Shows(t.kids, root, g) && Pids(rows) == Flat(g) && NumberedFrom(rows, 0)
    requires TreeOf(UpdateTree(t, g, snap).0.kids, root', G)
    ensures var (r, _) := Periodic(t, g, rows, v, snap, Flat(G));
            && (Followed(t, g, snap, root, root') ==> Pids(r) == Flat(G) && NumberedFrom(r, 0))
            && (root' == root || Orphans(t, g, snap, root) == {} ==>
                  (Pids(r) == Flat(G) <==> Followed(t, g, snap, root, root')))
  {
    hide Ok, Rooted, Proper, Shows, Periodic, UpdateTree, InOrder, Orphans, KeepsRow, NewParents, TreeOf;
    if root' == root {
      RefreshKeepsRoot(t, g, rows, v, snap, root, G);
    } else if Orphans(t, g, snap, root) == {} {
      RefreshIsRebuild(t, g, rows, v, snap, root, root', G);
    }
  }

  /** The cursor follows its process. It is on row `i`, which is not marked; `lost` rows above it go.
      Afterwards it is on the row of the same process, and the screen scrolled with it unless it hit the
      top; except that, when 't' puts init above a row at the very top of the screen, it stays there. With
      the root unchanged it always follows. */
  lemma CursorFollows(t: Table, g: Grove, rows: seq<Row>, v: View, snap: seq<Info>, root: Pid, root': Pid, G: Grove, i: nat)
    requires Ok(t) && t.stale == [] && Rooted(t) && Proper(snap) && root > 0
    requires Shows(t.kids, root, g) && Pids(rows) == Flat(g) && NumberedFrom(rows, 0)
    requires TreeOf(UpdateTree(t, g, snap).0.kids, root', G) && Followed(t, g, snap, root, root')
    requires i < |rows| && v.crsr == i && rows[i].pid in UpdateTree(t, g, snap).1
    ensures var (_, shown) := UpdateTree(t, g, snap);
            var (r, w) := Periodic(t, g, rows, v, snap, Flat(G));
            var lost := i - |Sel(Pids(rows)[..i], shown)|;
            && 0 <= w.crsr < |r|
            && (r[w.crsr].pid == rows[i].pid <==> !(lost == i && v.vy <= i && root' !in shown))
            && (root' == root ==> r[w.crsr].pid == rows[i].pid)
            && (lost <= v.vy ==> w.crsr - w.vy == v.crsr - v.vy)
            && (lost > v.vy ==> w.crsr - w.vy == v.crsr - lost)
  {
    hide Ok, Rooted, Proper, Shows, UpdateTree, Followed, DeleteLines, Synchronize;
    var (u, shown) := UpdateTree(t, g, snap);
    MirrorsScan(t, g, snap);
    OkLinks(u);
    TreeDistinct(u.kids, u.parent, root', G);
    RefreshFollows(t, g, rows, v, snap, root, root', G);
    RefreshRight(t, g, rows, v, snap, root, root', G);
    CursorStays(rows, shown, v, Flat(G), i);
    assert Flat(G)[0] == Tops(G)[0];
    if root' == root {
      FirstKept(t, g, snap, root);
    }
  }

  /** If a row is left, so is that of the root, provided that the rows are in order. */
  lemma FirstKept(t: Table, g: Grove, snap: seq<Info>, root: Pid)
    requires Ok(t) && t.stale == [] && Rooted(t) && Proper(snap) && root > 0 && Shows(t.kids, root, g)
    requires Followed(t, g, snap, root, root) && UpdateTree(t, g, snap).1 != {}
    ensures root in UpdateTree(t, g, snap).1
  {
    if root == 1 {
      ShownParentsAfter(t, g, snap);
    } else {
      UpdateShows(t, g, snap, root);
      SurvivingRoot(UpdateTree(t, g, snap).0.kids, root, Left(t, g, snap));
    }
  }

  // ---------- counters ----------

  /** update_tree returns how many pids appeared plus how many disappeared. */
  lemma ChangesCounted(t: Table, g: Grove, snap: seq<Info>)
    requires Ok(t) && t.stale == []
    ensures var v := UpdateTree(t, g, snap).0;
            Changes(t, g, snap) == |Elems(v.live) - Elems(t.live)| + |Elems(t.live) - Elems(v.live)|
  {
    var u := Scanned(t, g, snap).0;
    ScannedOk(t, g, snap);
    ScannedDead(t, g, snap);
    SweepOk(u);
    DistinctSize(u.stale);
    IndexedPids(t);
    IndexedPids(u);
    CountChanges(t.kids.Keys, Elems(t.live), u.kids.Keys, Elems(u.live), Elems(u.stale));
  }

  lemma ScannedDead(t: Table, g: Grove, snap: seq<Info>)
    requires Ok(t) && t.stale == []
    ensures Ok(Scanned(t, g, snap).0)
    ensures Elems(Scanned(t, g, snap).0.stale) == Elems(t.live) - Elems(Scanned(t, g, snap).0.live)
  {
    ScannedOk(t, g, snap);
    ScanLists(Rescan(t), g, snap);
    IndexedPids(t);
    DeadNotLive(Elems(t.live), Mentioned(snap));
  }

  lemma IndexedPids(t: Table)
    requires Ok(t)
    ensures forall x: Pid :: x in t.kids.Keys <==> x <= 1 || x in Elems(t.live) || x in Elems(t.stale)
    ensures forall x :: x in Elems(t.live) ==> x > 1
  {
  }

  lemma DeadNotLive(was: set<Pid>, mentioned: set<Pid>)
    requires forall x :: x in was ==> x > 1
    ensures was - mentioned == was - AboveInit(mentioned)
  {
  }

  lemma CountChanges(keys: set<Pid>, was: set<Pid>, keys': set<Pid>, now: set<Pid>, dead: set<Pid>)
    requires dead == was - now
    requires forall x: Pid :: x in keys <==> x <= 1 || x in was
    requires forall x: Pid :: x in keys' <==> x <= 1 || x in now || x in dead
    requires forall x :: x in was || x in now ==> x > 1
    ensures |keys'| - |keys| + |dead| == |now - was| + |was - now|
  {
    assert keys' == keys + (now - was);
    assert keys !! now - was;
  }
}
