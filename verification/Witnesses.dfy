/** Inputs for which the display does go wrong: a process that is named as a parent but not listed itself
    outlives its own parent; 't' over the tree of a process that is not below init; and, for the counters,
    init that is displayed before it is listed. */
module Witnesses {
  import opened Groves
  import opened Options
  import opened ProcSpec
  import opened Pstat
  import opened Refresh
  import opened Rows
  import opened Screen
  import opened Seqs
  import opened Trees

  /** A displayed process that is listed below its old parent is not moved; and moving the others does not
      touch the display. */
  lemma {:induction false} NothingMoves(t: Table, g: Grove, snap: seq<Info>)
    requires forall k :: 0 <= k < |snap| && snap[k].pid in Nodes(g) ==>
               snap[k].pid in t.parent && t.parent[snap[k].pid] == snap[k].ppid
    ensures Scan(t, g, snap).1 == g
    decreases |snap|
  {
    if snap != [] {
      var i := snap[0];
      OneStays(t, g, i);
      var u := Step(t, g, i).0;
      forall k | 0 <= k < |snap[1..]| && snap[1..][k].pid in Nodes(g)
        ensures snap[1..][k].pid in u.parent && u.parent[snap[1..][k].pid] == snap[1..][k].ppid
      {
        assert snap[1..][k] == snap[k + 1];
      }
      hide Step, Nodes;
      NothingMoves(u, g, snap[1..]);
    }
  }

  lemma OneStays(t: Table, g: Grove, i: Info)
    requires i.pid in Nodes(g) ==> i.pid in t.parent && t.parent[i.pid] == i.ppid
    ensures Step(t, g, i).1 == g && Step(t, g, i).0.parent == t.parent[i.pid := i.ppid]
  {
    StepParent(t, g, i);
    TouchParents(t, i);
    hide Touch, Cut, Unlinked, KidsOf;
    if i.pid !in Nodes(g) {
      CutNothing(g, i.pid);
    }
  }

  // ---------- init adopts a displayed process ----------

  lemma SplitIndex(a: seq<Pid>, b: seq<Pid>, c: seq<Pid>, s: seq<Pid>, i: nat, j: nat)
    requires s == a + b + c && Distinct(s) && i < j < |s| && s[j] in b
    ensures s[i] !in c
  {
    var m: nat :| m < |b| && b[m] == s[j];
    assert s[|a| + m] == s[j];
    assert forall n :: 0 <= n < |c| ==> c[n] == s[|a| + |b| + n];
  }

  lemma SelOrder(s: seq<Pid>, A: set<Pid>, i: nat, j: nat) returns (m: nat, n: nat)
    requires i < j < |s| && s[i] in A && s[j] in A
    ensures m < n < |Sel(s, A)| && Sel(s, A)[m] == s[i] && Sel(s, A)[n] == s[j]
  {
    SelIndex(s, A, i);
    SelIndex(s, A, j);
    m, n := |Sel(s[..i], A)|, |Sel(s[..j], A)|;
    assert s[..j] == s[..i] + s[i..j];
    SelAppend(s[..i], s[i..j], A);
    assert s[i..j][0] == s[i];
  }

  lemma {:induction false} Arranged(h: Grove, A: set<Pid>, cs: seq<Pid>, c: Pid)
    requires c in cs
    ensures c in Flat(Arrange(h, A, cs))
    decreases |cs|
  {
    if c != cs[0] {
      Arranged(h, A, cs[1..], c);
    }
  }

  /** In the display of init an orphan goes wrong if there is a surviving child of init above it. */
  lemma OrphanBehind(t: Table, g: Grove, snap: seq<Info>, c: Pid, x: Pid, i: nat, j: nat)
    requires Ok(t) && t.stale == [] && Rooted(t) && Proper(snap) && Shows(t.kids, 1, g)
    requires c in Orphans(t, g, snap, 1)
    requires var h := Scanned(t, g, snap).1; i < j < |Flat(h)| && Flat(h)[i] == x && Flat(h)[j] == c
    requires var m := t.parent + ParentsIn(snap); x in m && m[x] == 1 && x > 1 && Alive(snap, x)
    ensures !InOrder(t, g, snap, 1)
  {
    var (u, h) := Scanned(t, g, snap);
    var A := Survivors(u);
    ScanOutcome(t, g, snap);
    InitOnTopScanned(t, g, snap, 1);
    Adoption(t, g, snap, c);
    ChildOfInit(u, h, x);
    hide Ok, Scanned, Survivors, Adopted, Orphans, Alive, Shows, Arrange, Keep, Flat, Tops, Distinct;
    WrongPlace(h, A, Adopted(u.kids, u.stale, Nodes(h) * A), c, x, i, j);
    if h.Cons? {
      RearrangedFlat(h, A, Adopted(u.kids, u.stale, Nodes(h) * A));
    }
  }

  lemma RearrangedFlat(h: Grove, A: set<Pid>, cs: seq<Pid>)
    requires h.Cons?
    ensures Flat(Cons(h.pid, Append(Arrange(h, A, cs), Keep(h.kids, A)), Nil))
            == [h.pid] + Flat(Arrange(h, A, cs)) + Flat(Keep(h.kids, A))
  {
    AppendParts(map[], {}, Arrange(h, A, cs), Keep(h.kids, A));
  }

  /** `c` is arranged in front of the old child `x` of the top, but stands behind it. */
  lemma WrongPlace(h: Grove, A: set<Pid>, cs: seq<Pid>, c: Pid, x: Pid, i: nat, j: nat)
    requires h.Cons? && Distinct(Flat(h)) && i < j < |Flat(h)| && Flat(h)[i] == x && Flat(h)[j] == c
    requires c in cs && c in A && x in A && x in Tops(h.kids)
    ensures [h.pid] + Flat(Arrange(h, A, cs)) + Flat(Keep(h.kids, A)) != Sel(Flat(h), A)
  {
    Arranged(h, A, cs, c);
    KeepTops(h.kids, A);
    assert x in Tops(Keep(h.kids, A));
    hide Arrange, Keep, Flat, Tops, Distinct;
    SelDistinct(Flat(h), A);
    var s := Sel(Flat(h), A);
    var m, n := SelOrder(Flat(h), A, i, j);
    if s == [h.pid] + Flat(Arrange(h, A, cs)) + Flat(Keep(h.kids, A)) {
      SplitIndex([h.pid], Flat(Arrange(h, A, cs)), Flat(Keep(h.kids, A)), s, m, n);
      assert false;
    }
  }

  lemma Adoption(t: Table, g: Grove, snap: seq<Info>, c: Pid)
    requires Ok(t) && t.stale == [] && c in Orphans(t, g, snap, 1)
    ensures var (u, h) := Scanned(t, g, snap);
            c in Survivors(u) && c in Adopted(u.kids, u.stale, Nodes(h) * Survivors(u))
  {
    var (u, h) := Scanned(t, g, snap);
    ScanOutcome(t, g, snap);
    KnownParents(u);
    OkLinks(u);
    hide Scanned, Survivors, Ok, Alive;
    var p := u.parent[c];
    assert p in u.stale && c in KidsOf(u.kids, p);
    AdoptedWho(u.kids, u.stale, Nodes(h) * Survivors(u), c);
  }

  lemma ChildOfInit(u: Table, h: Grove, x: Pid)
    requires Ok(u) && Shows(u.kids, 1, h) && h.Cons? && x in Flat(h) && x > 1
    requires x in u.parent && u.parent[x] == 1
    ensures h.pid == 1 && x in Tops(h.kids) && Distinct(Flat(h))
  {
    assert |Tops(h)| == 1 + |Tops(h.next)| && Tops(h)[0] == h.pid;
    assert x in u.kids[1] && x in Nodes(h);
  }

  /** init with the children 7 and 5, and 6 below 5. */
  function Before(): Table {
    Table(
      map[0 := 'S', 1 := 'S', 5 := 'S', 6 := 'S', 7 := 'S'],
      map[1 := 0, 5 := 1, 6 := 5, 7 := 1],
      map[0 := [1], 1 := [7, 5], 5 := [6], 6 := [], 7 := []],
      [7, 5, 6],
      [])
  }

  /** 5 is gone, and 6 is seen only as the parent of 8. */
  function Snapshot(): seq<Info> {
    [Info(1, 0, 'S'), Info(7, 1, 'S'), Info(8, 6, 'S')]
  }

  lemma BeforeOk()
    ensures Ok(Before()) && Rooted(Before()) && Before().stale == []
  {
    var t := Before();
    BeforeIndex(t.state, t.kids, t.live, t.stale);
    BeforeLinks(t.kids, t.parent);
    hide LinksOk;
  }

  lemma BeforeIndex(state: map<Pid, char>, kids: Kids, live: seq<Pid>, stale: seq<Pid>)
    requires state == Before().state && kids == Before().kids && live == [7, 5, 6] && stale == []
    ensures state.Keys == kids.Keys && Distinct(live) && Distinct(stale)
    ensures forall x :: x in live || x in stale ==> x > 1
    ensures forall x: Pid :: x in kids <==> x <= 1 || x in live || x in stale
  {
    assert state.Keys == {0, 1, 5, 6, 7};
    assert kids.Keys == {0, 1, 5, 6, 7};
    assert forall x: Pid :: x in kids.Keys <==> x == 0 || x == 1 || x == 5 || x == 6 || x == 7;
  }

  lemma BeforeLinks(kids: Kids, parent: map<Pid, Pid>)
    requires kids == Before().kids && parent == Before().parent
    ensures LinksOk(kids, parent)
  {
  }

  lemma OneMoreEntry(i: Info, rest: seq<Info>)
    ensures ParentsIn([i] + rest) == map[i.pid := i.ppid] + ParentsIn(rest)
    ensures Mentioned([i] + rest) == {i.pid, i.ppid} + Mentioned(rest)
  {
    assert ([i] + rest)[1..] == rest;
  }

  /** What three entries say. */
  lemma ThreeEntries(i: Info, j: Info, k: Info)
    ensures ParentsIn([i, j, k]) == map[i.pid := i.ppid] + (map[j.pid := j.ppid] + map[k.pid := k.ppid])
    ensures Mentioned([i, j, k]) == {i.pid, i.ppid, j.pid, j.ppid, k.pid, k.ppid}
  {
    OneMoreEntry(k, []);
    OneMoreEntry(j, [k]);
    OneMoreEntry(i, [j, k]);
    assert [k] + [] == [k] && [j] + [k] == [j, k] && [i] + [j, k] == [i, j, k];
    assert map[k.pid := k.ppid] + map[] == map[k.pid := k.ppid];
  }

  lemma SnapshotSays()
    ensures ParentsIn(Snapshot()) == map[1 := 0, 7 := 1, 8 := 6] && Mentioned(Snapshot()) == {0, 1, 6, 7, 8}
    ensures Proper(Snapshot())
  {
    ThreeEntries(Info(1, 0, 'S'), Info(7, 1, 'S'), Info(8, 6, 'S'));
  }

  function InitsTree(): Grove {
    Cons(1, Cons(7, Nil, Cons(5, UsersTree().kids, Nil)), Nil)
  }

  function UsersTree(): Grove {
    Cons(5, Cons(6, Nil, Nil), Nil)
  }

  lemma FitsOne(kids: Kids, S: set<Pid>, p: Pid, below: Grove, next: Grove)
    requires p in kids && (forall x :: x in kids[p] ==> x in S) && Tops(below) == kids[p]
    requires Fits(kids, S, below) && Fits(kids, S, next)
    ensures Fits(kids, S, Cons(p, below, next))
  {
    SelAll(kids[p], S);
  }

  lemma UserFits(kids: Kids, S: set<Pid>, next: Grove)
    requires kids == Before().kids && 6 in S && Fits(kids, S, next)
    ensures Fits(kids, S, Cons(5, UsersTree().kids, next))
  {
    hide Sel;
    FitsOne(kids, S, 6, Nil, Nil);
    FitsOne(kids, S, 5, UsersTree().kids, next);
  }

  lemma Preorders()
    ensures Flat(InitsTree()) == [1, 7, 5, 6] && Flat(UsersTree()) == [5, 6]
  {
    var g, f := InitsTree(), UsersTree();
    assert Flat(f.kids) == [6] && Flat(f) == [5, 6];
    assert Flat(g.kids.next) == [5, 6] && Flat(g.kids) == [7, 5, 6];
  }

  lemma BeforeShows()
    ensures Flat(InitsTree()) == [1, 7, 5, 6] && Shows(Before().kids, 1, InitsTree())
    ensures Flat(UsersTree()) == [5, 6] && Shows(Before().kids, 5, UsersTree())
  {
    hide Flat, Sel, Fits;
    Preorders();
    var kids, g, f := Before().kids, InitsTree(), UsersTree();
    assert kids.Keys == {0, 1, 5, 6, 7};
    NilFits(kids, Nodes(f));
    NilFits(kids, Nodes(g));
    UserFits(kids, Nodes(f), Nil);
    UserFits(kids, Nodes(g), Nil);
    FitsOne(kids, Nodes(g), 7, Nil, g.kids.next);
    FitsOne(kids, Nodes(g), 1, g.kids, Nil);
  }

  lemma NilFits(kids: Kids, S: set<Pid>)
    ensures Fits(kids, S, Nil)
  {
  }

  lemma NobodyMoved()
    ensures Scanned(Before(), InitsTree(), Snapshot()).1 == InitsTree()
    ensures Scanned(Before(), UsersTree(), Snapshot()).1 == UsersTree()
  {
    BeforeShows();
    hide Shows, Flat;
    NothingMoves(Rescan(Before()), InitsTree(), Snapshot());
    NothingMoves(Rescan(Before()), UsersTree(), Snapshot());
  }

  lemma SixIsOrphaned()
    ensures 6 in Orphans(Before(), InitsTree(), Snapshot(), 1)
    ensures 6 in Orphans(Before(), UsersTree(), Snapshot(), 5)
  {
    NobodyMoved();
    SnapshotSays();
    BeforeShows();
    hide Shows, Flat, Scanned, ParentsIn, Mentioned;
    assert (Before().parent + ParentsIn(Snapshot()))[6] == 5;
  }

  lemma SevenStays()
    ensures var m := Before().parent + ParentsIn(Snapshot()); 7 in m && m[7] == 1 && Alive(Snapshot(), 7)
    ensures Flat(InitsTree()) == [1, 7, 5, 6]
  {
    SnapshotSays();
    BeforeShows();
  }

  /** The tree of init comes out in the wrong order: 6 is adopted in front of 7, but its row stays behind. */
  lemma Misordered(rows: seq<Row>, v: View) returns (G: Grove)
    requires Pids(rows) == Flat(InitsTree()) && NumberedFrom(rows, 0)
    ensures Ok(Before()) && Before().stale == [] && Rooted(Before()) && Proper(Snapshot()) && Shows(Before().kids, 1, InitsTree())
    ensures TreeOf(UpdateTree(Before(), InitsTree(), Snapshot()).0.kids, 1, G)
    ensures Pids(Periodic(Before(), InitsTree(), rows, v, Snapshot(), Flat(G)).0) != Flat(G)
  {
    hide *;
    BeforeOk();
    BeforeShows();
    SixIsOrphaned();
    NobodyMoved();
    SnapshotSays();
    SevenStays();
    NoLoops();
    G := TreeAfter(Before(), InitsTree(), Snapshot(), 1);
    OrphanBehind(Before(), InitsTree(), Snapshot(), 6, 7, 1, 3);
    RefreshKeepsRoot(Before(), InitsTree(), rows, v, Snapshot(), 1, G);
  }

  /** The tree of the user process 5 should be gone with it; the row of 6 stays. */
  lemma LeftBehind(rows: seq<Row>, v: View) returns (G: Grove)
    requires Pids(rows) == Flat(UsersTree()) && NumberedFrom(rows, 0)
    ensures Ok(Before()) && Before().stale == [] && Rooted(Before()) && Proper(Snapshot()) && Shows(Before().kids, 5, UsersTree())
    ensures TreeOf(UpdateTree(Before(), UsersTree(), Snapshot()).0.kids, 5, G)
    ensures Pids(Periodic(Before(), UsersTree(), rows, v, Snapshot(), Flat(G)).0) != Flat(G)
  {
    hide *;
    BeforeOk();
    BeforeShows();
    SixIsOrphaned();
    SnapshotSays();
    NotInOrder();
    NoLoops();
    G := TreeAfter(Before(), UsersTree(), Snapshot(), 5);
    RefreshKeepsRoot(Before(), UsersTree(), rows, v, Snapshot(), 5, G);
  }

  lemma NotInOrder()
    requires 6 in Orphans(Before(), UsersTree(), Snapshot(), 5)
    ensures !InOrder(Before(), UsersTree(), Snapshot(), 5)
  {
    hide Orphans;
  }

  lemma NotAbove(n: map<Pid, Pid>)
    requires 0 !in n
    ensures !IsBelow(n, 0, 1)
  {
  }

  lemma NoLoops()
    ensures !OwnAncestor(NewParents(Before(), Snapshot()), 1) && !OwnAncestor(NewParents(Before(), Snapshot()), 5)
  {
    SnapshotSays();
    hide ParentsIn, Mentioned;
    var n := NewParents(Before(), Snapshot());
    NotAbove(n);
    assert n[1] == 0 && 5 !in n;
  }

  // ---------- 't' over the tree of a process that is not below init ----------

  /** A process 5 below 2, which hangs below 0 like init. */
  function Apart(): Table {
    Table(
      map[0 := 'S', 1 := 'S', 2 := 'S', 5 := 'S'],
      map[1 := 0, 2 := 0, 5 := 2],
      map[0 := [2, 1], 1 := [], 2 := [5], 5 := []],
      [5, 2],
      [])
  }

  function SameAgain(): seq<Info> {
    [Info(1, 0, 'S'), Info(2, 0, 'S'), Info(5, 2, 'S')]
  }

  function OneRow(): Grove {
    Cons(5, Nil, Nil)
  }

  lemma ApartIndex(state: map<Pid, char>, kids: Kids, live: seq<Pid>, stale: seq<Pid>)
    requires state == Apart().state && kids == Apart().kids && live == [5, 2] && stale == []
    ensures state.Keys == kids.Keys && Distinct(live) && Distinct(stale)
    ensures forall x :: x in live || x in stale ==> x > 1
    ensures forall x: Pid :: x in kids <==> x <= 1 || x in live || x in stale
  {
    assert state.Keys == {0, 1, 2, 5};
    assert kids.Keys == {0, 1, 2, 5};
    assert forall x: Pid :: x in kids.Keys <==> x == 0 || x == 1 || x == 2 || x == 5;
  }

  lemma ApartLinks(kids: Kids, parent: map<Pid, Pid>)
    requires kids == Apart().kids && parent == Apart().parent
    ensures LinksOk(kids, parent)
  {
  }

  lemma ApartOk()
    ensures Ok(Apart()) && Rooted(Apart()) && Apart().stale == [] && Shows(Apart().kids, 5, OneRow())
  {
    var t := Apart();
    ApartIndex(t.state, t.kids, t.live, t.stale);
    ApartLinks(t.kids, t.parent);
    hide LinksOk;
    assert Flat(OneRow()) == [5] && t.kids.Keys == {0, 1, 2, 5};
  }

  lemma SameAgainSays()
    ensures ParentsIn(SameAgain()) == Apart().parent && Mentioned(SameAgain()) == {0, 1, 2, 5} && Closed(SameAgain())
  {
    ThreeEntries(Info(1, 0, 'S'), Info(2, 0, 'S'), Info(5, 2, 'S'));
  }

  /** Nothing has happened since the last refresh, but 't' was pressed: the row of 5 is not taken away, and
      the walk over the tree of init does not pass it. */
  lemma NotBelowInit(rows: seq<Row>, v: View) returns (G: Grove)
    requires Pids(rows) == Flat(OneRow()) && NumberedFrom(rows, 0)
    ensures Ok(Apart()) && Apart().stale == [] && Rooted(Apart()) && Closed(SameAgain()) && Shows(Apart().kids, 5, OneRow())
    ensures TreeOf(UpdateTree(Apart(), OneRow(), SameAgain()).0.kids, 1, G)
    ensures Pids(Periodic(Apart(), OneRow(), rows, v, SameAgain(), Flat(G)).0) != Flat(G)
  {
    hide *;
    ApartOk();
    SameAgainSays();
    FiveStays();
    FiveIsApart();
    ClosedIsProper(SameAgain());
    ScanSupports(Apart(), OneRow(), SameAgain());
    G := TreeAfter(Apart(), OneRow(), SameAgain(), 1);
    RefreshIsRebuild(Apart(), OneRow(), rows, v, SameAgain(), 5, 1, G);
  }

  lemma FiveStays()
    ensures KeepsRow(Apart(), OneRow(), SameAgain(), 5)
  {
    SameAgainSays();
    hide Scan, ParentsIn, Mentioned, Closed;
    NothingMoves(Rescan(Apart()), OneRow(), SameAgain());
  }

  lemma ApartParents()
    ensures NewParents(Apart(), SameAgain()) == map[1 := 0, 2 := 0, 5 := 2]
  {
    SameAgainSays();
    hide ParentsIn, Mentioned, Closed;
    assert Apart().parent + ParentsIn(SameAgain()) == Apart().parent;
  }

  lemma FiveIsApart()
    ensures !IsBelow(NewParents(Apart(), SameAgain()), 5, 1) && !OwnAncestor(NewParents(Apart(), SameAgain()), 1)
  {
    ApartParents();
    hide NewParents;
    var n := NewParents(Apart(), SameAgain());
    NotAbove(n);
    forall k: nat
      ensures Above(n, 5, k) != Some(1)
    {
      assert k > 0 ==> Above(n, 5, k) == Above(n, 2, k - 1);
      assert k > 1 ==> Above(n, 2, k - 1) == Above(n, 0, k - 2);
    }
  }

  // ---------- init is counted twice ----------

  /** init is known as the parent of 5, but has not been listed so far. */
  function Unlisted(): Table {
    Table(map[0 := 'S', 1 := 'S', 5 := 'S'], map[5 := 1], map[0 := [], 1 := [5], 5 := []], [5], [])
  }

  function Two(): Grove {
    Cons(1, Cons(5, Nil, Nil), Nil)
  }

  /** Now it is, and it is running. */
  function Listed(): seq<Info> {
    [Info(1, 0, 'R'), Info(5, 1, 'S'), Info(5, 1, 'S')]
  }

  lemma UnlistedIndex(state: map<Pid, char>, kids: Kids, live: seq<Pid>, stale: seq<Pid>)
    requires state == Unlisted().state && kids == Unlisted().kids && live == [5] && stale == []
    ensures state.Keys == kids.Keys && Distinct(live) && Distinct(stale)
    ensures forall x: Pid :: x in kids <==> x <= 1 || x in live || x in stale
  {
    assert state.Keys == {0, 1, 5};
    assert kids.Keys == {0, 1, 5};
    assert forall x: Pid :: x in kids.Keys <==> x == 0 || x == 1 || x == 5;
  }

  lemma UnlistedLinks(kids: Kids, parent: map<Pid, Pid>)
    requires kids == Unlisted().kids && parent == Unlisted().parent
    ensures LinksOk(kids, parent)
  {
  }

  lemma UnlistedOk()
    ensures Ok(Unlisted()) && Rooted(Unlisted()) && Unlisted().stale == []
    ensures Flat(Two()) == [1, 5] && Shows(Unlisted().kids, 1, Two())
  {
    var t := Unlisted();
    UnlistedIndex(t.state, t.kids, t.live, t.stale);
    UnlistedLinks(t.kids, t.parent);
    hide LinksOk;
    assert Flat(Two().kids) == [5] && Flat(Two()) == [1, 5];
    assert t.kids.Keys == {0, 1, 5};
    hide Flat, Sel, Fits;
    NilFits(t.kids, Nodes(Two()));
    FitsOne(t.kids, Nodes(Two()), 5, Nil, Nil);
    FitsOne(t.kids, Nodes(Two()), 1, Two().kids, Nil);
  }

  lemma ListedSays()
    ensures 1 in ParentsIn(Listed()) && InitState(Listed()) == 'R' && Proper(Listed())
  {
    ThreeEntries(Info(1, 0, 'R'), Info(5, 1, 'S'), Info(5, 1, 'S'));
  }

  /** The row of init was counted as asleep, is uncounted as running, and made anew: from now on there is one
      running process less than displayed, and one more asleep. */
  lemma Miscounted(c: Counts, S': set<Pid>)
    requires Ok(Unlisted()) && Unlisted().stale == [] && Counted(c, Nodes(Two()), Unlisted().state, 'S')
    requires UpdateTree(Unlisted(), Two(), Listed()).1 <= S'
    ensures Rooted(Unlisted()) && Proper(Listed()) && Shows(Unlisted().kids, 1, Two())
    ensures var t, g, snap := Unlisted(), Two(), Listed();
            var state := UpdateTree(t, g, snap).0.state[1 := SeenAfter(t, g, snap, 'S')];
            Recount(c, t, g, snap, S') == Plus(Tally(S', state), Counts(1, -1, 0, 0))
  {
    UnlistedOk();
    ListedSays();
    hide Ok, Rooted, Proper, UpdateTree, Tally, Counted, Recount, SeenAfter, ParentsIn, Shows, InitState;
    RecountIs(c, Unlisted(), Two(), Listed(), 1, 'S', S');
    assert Recounted(Unlisted(), Two(), Listed());
  }
}
