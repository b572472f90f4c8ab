/** Whole runs of the tree panel: timer ticks, 'r', 't' and ENTER in any order. The methods of Plist take
    exactly these steps; here is what holds between any two of them. */
module Session {
  import opened Groves
  import opened Moves
  import opened Options
  import opened Panels
  import opened ProcSpec
  import opened Pstat
  import opened Refresh
  import opened Rows
  import opened Screen
  import opened Seqs
  import opened Trees

  /** The process table, the tree that is displayed, its rows, the cursor, the counters (and in which state
      init was counted), and which panel is on. */
  datatype State =
    State(t: Table, g: Grove, rows: seq<Row>, v: View, stat: Counts, seen: char, users: bool, p: Panel)

  /** 'r' and the timer are ticks; `snap` is what /proc shows at the time. */
  datatype Input = Tick(snap: seq<Info>) | Switch(e: Event, snap: seq<Info>)

  /** The invariant. */
  ghost predicate Consistent(s: State) {
    && Ok(s.t) && s.t.stale == [] && Rooted(s.t)
    && s.p.root > 0 && s.users != s.p.hidden
    && (!s.p.hidden && s.p.last == Some(KeyT) ==> s.p.root == INIT_PID)
    && Pids(s.rows) == Flat(s.g) && NumberedFrom(s.rows, 0)
    && Shows(s.t.kids, s.p.root, s.g)
    && (if s.p.hidden then s.g.Nil? else TreeOf(s.t.kids, s.p.root, s.g))
  }

  /** Whose tree is walked. */
  function Walked(p: Panel, i: Input): Option<Pid> {
    match i
    case Tick(_) => if p.hidden then None else Some(p.root)
    case Switch(e, _) =>
      if p.hidden then Some(SwitchTree(p, e).root)
      else if e.key == KeyEnter || p.last == Some(KeyT) then None
      else Some(INIT_PID)
  }

  /** What is asked of an input: real pids, and a walk that ends. */
  ghost predicate Readable(s: State, i: Input) {
    && Proper(i.snap)
    && (i.Switch? && i.e.user.Some? ==> i.e.user.value > 0)
    && (Walked(s.p, i).Some? ==> !OwnAncestor(NewParents(s.t, i.snap), Walked(s.p, i).value))
  }

  /** The rows that are left can be taken over by the tree that is walked. */
  ghost predicate Follows(s: State, i: Input) {
    Walked(s.p, i).Some? ==> Followed(s.t, s.g, i.snap, s.p.root, Walked(s.p, i).value)
  }

  /** ptree_periodic for the tree of `root`. */
  ghost predicate Refreshes(s: State, root: Pid, snap: seq<Info>, n: State) {
    && Ok(s.t) && s.t.stale == []
    && n.t == UpdateTree(s.t, s.g, snap).0
    && TreeOf(n.t.kids, root, n.g)
    && (n.rows, n.v) == Periodic(s.t, s.g, s.rows, s.v, snap, Flat(n.g))
    && n.stat == Recount(s.stat, s.t, s.g, snap, UpdateTree(s.t, s.g, snap).1 + Nodes(n.g))
    && n.seen == SeenAfter(s.t, s.g, snap, s.seen)
  }

  ghost predicate Step(s: State, i: Input, n: State) {
    && n.p == (match i case Tick(_) => s.p case Switch(e, _) => SwitchTree(s.p, e))
    && n.users == (match i case Tick(_) => s.users case Switch(e, _) => SwitchUsers(s.users, e))
    && match Walked(s.p, i)
       case Some(root) =>
         if s.p.hidden then exists v :: n.v == View(0, 0) && Refreshes(s, root, i.snap, n.(v := v))
         else Refreshes(s, root, i.snap, n)
       case None =>
         if i.Switch? && i.e.key == KeyEnter then
           n == s.(g := Nil, rows := [], stat := NONE, users := n.users, p := n.p)
         else n == s.(users := n.users, p := n.p)
  }

  lemma NothingShows(kids: Kids, root: Pid)
    ensures Shows(kids, root, Nil) && Pids([]) == Flat(Nil) && NumberedFrom([], 0)
  {
  }

  /** A refresh, its cursor aside. */
  lemma RefreshKeeps(s: State, root: Pid, snap: seq<Info>, n: State)
    requires Ok(s.t) && s.t.stale == [] && Rooted(s.t) && s.p.root > 0 && Proper(snap)
    requires Shows(s.t.kids, s.p.root, s.g) && Pids(s.rows) == Flat(s.g) && NumberedFrom(s.rows, 0)
    requires Refreshes(s, root, snap, n)
    ensures Ok(n.t) && n.t.stale == [] && Rooted(n.t) && TreeOf(n.t.kids, root, n.g) && Shows(n.t.kids, root, n.g)
    ensures Followed(s.t, s.g, snap, s.p.root, root) ==> Pids(n.rows) == Flat(n.g) && NumberedFrom(n.rows, 0)
    ensures root == s.p.root || Orphans(s.t, s.g, snap, s.p.root) == {} ==>
              (Pids(n.rows) == Flat(n.g) <==> Followed(s.t, s.g, snap, s.p.root, root))
  {
    hide Shows, Ok, Periodic, UpdateTree, TreeOf, Followed, Rooted, Proper, Recount, SeenAfter;
    MirrorsScan(s.t, s.g, snap);
    OkLinks(n.t);
    TreeDistinct(n.t.kids, n.t.parent, root, n.g);
    WholeTreeShows(n.t.kids, root, n.g);
    RefreshFollows(s.t, s.g, s.rows, s.v, snap, s.p.root, root, n.g);
  }

  lemma RefreshTaken(s: State, i: Input, n: State) returns (m: State)
    requires Step(s, i, n) && Walked(s.p, i).Some?
    ensures Refreshes(s, Walked(s.p, i).value, i.snap, m) && m == n.(v := m.v)
  {
    if s.p.hidden {
      var v :| n.v == View(0, 0) && Refreshes(s, Walked(s.p, i).value, i.snap, n.(v := v));
      m := n.(v := v);
    } else {
      m := n;
    }
  }

  /** One event keeps the invariant if the rows can be taken over; and only then, unless a displayed orphan
      is caught between two roots. */
  lemma StepKeeps(s: State, i: Input, n: State)
    requires Consistent(s) && Readable(s, i) && Step(s, i, n)
    ensures Follows(s, i) ==> Consistent(n)
    ensures Walked(s.p, i) == Some(s.p.root) || Orphans(s.t, s.g, i.snap, s.p.root) == {} ==>
              (Consistent(n) <==> Follows(s, i))
  {
    hide Shows, Ok, TreeOf, Followed, Refreshes, NumberedFrom, Proper, Orphans, Rooted, NewParents;
    if i.Switch? {
      SwitchCases(s.p, i.e);
    }
    if Walked(s.p, i).Some? {
      var root := Walked(s.p, i).value;
      var m := RefreshTaken(s, i, n);
      RefreshKeeps(s, root, i.snap, m);
    } else {
      NothingShows(n.t.kids, n.p.root);
    }
  }

  /** Whatever leaves the tree visible has just read the snapshot: the table is what the snapshot says, and
      the tree is that of the user's process or of init, as the key says. Only a second 't' does nothing. */
  lemma EventReads(s: State, i: Input, n: State)
    requires Consistent(s) && Step(s, i, n) && !n.p.hidden
    requires !(i.Switch? && !s.p.hidden && s.p.last == Some(KeyT))
    ensures n.t.parent == NewParents(s.t, i.snap) && forall p :: p in n.t.kids <==> Alive(i.snap, p)
    ensures var root := if i.Tick? then s.p.root
                        else if i.e.key == KeyEnter && i.e.user.Some? then i.e.user.value else 1;
            n.p.root == root && TreeOf(n.t.kids, root, n.g)
    ensures i.Switch? && s.p.hidden ==> n.v == View(0, 0)
  {
    hide Shows, Ok, TreeOf, Refreshes, NumberedFrom, Rooted, UpdateTree, NewParents, Alive;
    if i.Switch? {
      SwitchCases(s.p, i.e);
    }
    var m := RefreshTaken(s, i, n);
    RefreshedCounts(s, Walked(s.p, i).value, i.snap, m);
    RefreshedTree(s, Walked(s.p, i).value, i.snap, m);
    MirrorsScan(s.t, s.g, i.snap);
  }

  lemma RefreshedTree(s: State, root: Pid, snap: seq<Info>, n: State)
    requires Refreshes(s, root, snap, n)
    ensures TreeOf(n.t.kids, root, n.g)
  {
  }

  // ---------- runs ----------

  ghost predicate IsRun(ss: seq<State>, es: seq<Input>) {
    && |ss| == |es| + 1
    && forall k :: 0 <= k < |es| ==>
         Readable(ss[k], es[k]) && Follows(ss[k], es[k]) && Step(ss[k], es[k], ss[k + 1])
  }

  /** When the program starts. */
  predicate Initial(s: State) {
    s.t == Empty() && s.g == Nil && s.rows == [] && s.stat == NONE && (s.users, s.p) == Start()
  }

  lemma InitiallyConsistent(s: State)
    requires Initial(s)
    ensures Consistent(s)
  {
    EmptyOk();
    NothingShows(s.t.kids, s.p.root);
  }

  /** At every moment of every run exactly one panel is visible; a hidden tree has no rows; and the rows of
      a visible one are the preorder of the process at its root, numbered from 0, although no refresh
      ever built them anew. */
  lemma {:induction false} AlwaysConsistent(ss: seq<State>, es: seq<Input>, k: nat)
    requires IsRun(ss, es) && Initial(ss[0]) && k < |ss|
    ensures Consistent(ss[k])
  {
    if k == 0 {
      InitiallyConsistent(ss[0]);
    } else {
      AlwaysConsistent(ss, es, k - 1);
      StepKeeps(ss[k - 1], es[k - 1], ss[k]);
    }
  }

  /** Everyday inputs: every parent is listed, and a tree that 't' turns into that of init is below init. */
  lemma EverydayFollows(s: State, i: Input)
    requires Consistent(s) && Readable(s, i) && Closed(i.snap)
    requires Walked(s.p, i).Some? && !s.p.hidden ==> IsBelow(NewParents(s.t, i.snap), s.p.root, Walked(s.p, i).value)
    ensures Follows(s, i)
  {
    hide Shows, Ok, TreeOf, NumberedFrom, Proper, Orphans, Rooted, NewParents, Closed, IsBelow, KeepsRow, InOrder;
    if Walked(s.p, i).Some? {
      if s.p.hidden {
        NothingFollows(s.t, i.snap, s.p.root, Walked(s.p, i).value);
      } else {
        ClosedFollowsItself(s.t, s.g, i.snap, s.p.root);
        ScanSupports(s.t, s.g, i.snap);
      }
    }
  }

  /** No run is stuck: whatever comes next, if it is readable, there is a next state. */
  lemma AlwaysGoesOn(s: State, i: Input) returns (n: State)
    requires Consistent(s) && Readable(s, i)
    ensures Step(s, i, n)
  {
    var p := match i case Tick(_) => s.p case Switch(e, _) => SwitchTree(s.p, e);
    var users := match i case Tick(_) => s.users case Switch(e, _) => SwitchUsers(s.users, e);
    match Walked(s.p, i)
    case Some(root) =>
      var m := RefreshExists(s, root, i.snap);
      n := m.(users := users, p := p);
      if s.p.hidden {
        assert Refreshes(s, root, i.snap, n.(v := View(0, 0)).(v := m.v));
        n := n.(v := View(0, 0));
      }
    case None =>
      n := s.(users := users, p := p);
      if i.Switch? && i.e.key == KeyEnter {
        n := n.(g := Nil, rows := [], stat := NONE);
      }
  }

  lemma RefreshExists(s: State, root: Pid, snap: seq<Info>) returns (n: State)
    requires Ok(s.t) && s.t.stale == [] && !OwnAncestor(NewParents(s.t, snap), root)
    ensures Refreshes(s, root, snap, n)
  {
    hide Ok, OwnAncestor, NewParents, UpdateTree, TreeOf, Recount, SeenAfter;
    var G := TreeAfter(s.t, s.g, snap, root);
    var (r, v) := Periodic(s.t, s.g, s.rows, s.v, snap, Flat(G));
    n := s.(t := UpdateTree(s.t, s.g, snap).0, g := G, rows := r, v := v,
            stat := Recount(s.stat, s.t, s.g, snap, UpdateTree(s.t, s.g, snap).1 + Nodes(G)),
            seen := SeenAfter(s.t, s.g, snap, s.seen));
  }

  // ---------- the counters ----------

  predicate CountsOk(s: State) {
    Counted(s.stat, Nodes(s.g), s.t.state, s.seen)
  }

  /** All rows that are left belong to the new tree. */
  lemma AllTakenOver(s: State, root: Pid, snap: seq<Info>, n: State)
    requires Ok(s.t) && s.t.stale == [] && Shows(s.t.kids, s.p.root, s.g)
    requires Pids(s.rows) == Flat(s.g) && NumberedFrom(s.rows, 0)
    requires Refreshes(s, root, snap, n) && Pids(n.rows) == Flat(n.g)
    ensures UpdateTree(s.t, s.g, snap).1 + Nodes(n.g) == Nodes(n.g)
  {
    var shown := UpdateTree(s.t, s.g, snap).1;
    RefreshRight(s.t, s.g, s.rows, s.v, snap, s.p.root, root, n.g);
    KeptRows(s.t, s.g, snap, s.p.root);
    forall x | x in shown
      ensures x in Nodes(n.g)
    {
      assert x in Sel(Flat(s.g), shown);
    }
  }

  lemma NothingCounted(state: map<Pid, char>, seen: char)
    ensures Counted(NONE, {}, state, seen)
  {
  }

  /** One event keeps the counters right, exactly if it does not uncount init in another state than it was
      counted in; which can only be when init is listed for the first time while it is displayed. */
  lemma StepCounts(s: State, i: Input, n: State)
    requires Consistent(s) && CountsOk(s) && Readable(s, i) && Follows(s, i) && Step(s, i, n)
    ensures CountsOk(n) <==>
              (Walked(s.p, i).Some? && Recounted(s.t, s.g, i.snap) ==> One(InitState(i.snap)) == One(s.seen))
  {
    hide Shows, Ok, TreeOf, Followed, Refreshes, NumberedFrom, Proper, Rooted, NewParents, Counted, Recounted, One, InitState, Nodes, UpdateTree;
    if Walked(s.p, i).Some? {
      var root := Walked(s.p, i).value;
      var m := RefreshTaken(s, i, n);
      RefreshKeeps(s, root, i.snap, m);
      AllTakenOver(s, root, i.snap, m);
      CountsRight(s.stat, s.t, s.g, i.snap, s.p.root, s.seen, UpdateTree(s.t, s.g, i.snap).1 + Nodes(m.g));
      RefreshedCounts(s, root, i.snap, m);
    } else {
      NothingCounted(n.t.state, n.seen);
      NoNodes();
    }
  }

  lemma RefreshedCounts(s: State, root: Pid, snap: seq<Info>, n: State)
    requires Refreshes(s, root, snap, n)
    ensures Ok(s.t) && s.t.stale == []
    ensures n.stat == Recount(s.stat, s.t, s.g, snap, UpdateTree(s.t, s.g, snap).1 + Nodes(n.g))
    ensures n.t == UpdateTree(s.t, s.g, snap).0 && n.seen == SeenAfter(s.t, s.g, snap, s.seen)
  {
  }

  lemma NoNodes()
    ensures Nodes(Nil) == {}
  {
  }

  /** init is displayed only after it has been listed. */
  predicate InitListed(s: State) {
    1 in Nodes(s.g) ==> 1 in s.t.parent
  }

  lemma StepLists(s: State, i: Input, n: State)
    requires Consistent(s) && InitListed(s) && 1 in ParentsIn(i.snap) && Step(s, i, n)
    ensures InitListed(n) && !Recounted(s.t, s.g, i.snap)
  {
    hide Shows, Ok, TreeOf, Refreshes, NumberedFrom, Rooted, Nodes, UpdateTree, ParentsIn;
    NoNodes();
    ListedForGood(s.t, s.g, i.snap);
    if Walked(s.p, i).Some? {
      var m := RefreshTaken(s, i, n);
      RefreshedCounts(s, Walked(s.p, i).value, i.snap, m);
    }
  }

  /** In every run in which the snapshots list init, at every moment: each displayed process is counted once,
      in the state it has, but init in the state it had when its row was made; no counter is negative. */
  lemma {:induction false} AlwaysCounted(ss: seq<State>, es: seq<Input>, k: nat)
    requires IsRun(ss, es) && Initial(ss[0]) && k < |ss|
    requires forall j :: 0 <= j < |es| ==> 1 in ParentsIn(es[j].snap)
    ensures CountsOk(ss[k]) && InitListed(ss[k])
    ensures var c := ss[k].stat;
            c.sl >= 0 && c.rn >= 0 && c.zm >= 0 && c.st >= 0 && c.sl + c.rn + c.zm + c.st <= |ss[k].rows|
    decreases k
  {
    hide Step, Follows, Readable, Consistent, Recounted, CountsOk;
    if k == 0 {
      CountsStart(ss[0]);
    } else {
      AlwaysCounted(ss, es, k - 1);
      AlwaysConsistent(ss, es, k - 1);
      StepLists(ss[k - 1], es[k - 1], ss[k]);
      StepCounts(ss[k - 1], es[k - 1], ss[k]);
    }
    AlwaysConsistent(ss, es, k);
    NoMoreThanRows(ss[k]);
  }

  lemma CountsStart(s: State)
    requires Initial(s)
    ensures CountsOk(s) && InitListed(s)
  {
    NoNodes();
    NothingCounted(s.t.state, s.seen);
  }

  lemma NoMoreThanRows(s: State)
    requires CountsOk(s) && Consistent(s)
    ensures s.stat.sl >= 0 && s.stat.rn >= 0 && s.stat.zm >= 0 && s.stat.st >= 0
    ensures s.stat.sl + s.stat.rn + s.stat.zm + s.stat.st <= |s.rows|
  {
    Sensible(s.stat, Nodes(s.g), s.t.state, s.seen);
    DistinctSize(Flat(s.g));
  }

  // ---------- what the counters say ----------

  /** The snapshots that have been read up to moment `k`. */
  ghost function Reads(ss: seq<State>, es: seq<Input>, k: nat): seq<seq<Info>>
    requires k <= |es| < |ss|
  {
    if k == 0 then []
    else Reads(ss, es, k - 1) + if Walked(ss[k - 1].p, es[k - 1]).Some? then [es[k - 1].snap] else []
  }

  /** The letter under which a process is known after these snapshots, if it is known: a process above 1
      that of the first entry that mentioned it since it was last missing; 0 and init that of the last. */
  function Recorded(snaps: seq<seq<Info>>, p: Pid): Option<char> {
    if snaps == [] then (if p <= 1 then Some('\0') else None)
    else
      var snap, before := snaps[|snaps| - 1], Recorded(snaps[..|snaps| - 1], p);
      if p <= 1 then (if LastLetter(snap, p).Some? then LastLetter(snap, p) else before)
      else if p !in Mentioned(snap) then None
      else if before.Some? then before
      else FirstLetter(snap, p)
  }

  lemma RecordedMore(snaps: seq<seq<Info>>, snap: seq<Info>, p: Pid)
    ensures Recorded(snaps + [snap], p) ==
              if p <= 1 then (if LastLetter(snap, p).Some? then LastLetter(snap, p) else Recorded(snaps, p))
              else if p !in Mentioned(snap) then None
              else if Recorded(snaps, p).Some? then Recorded(snaps, p)
              else FirstLetter(snap, p)
  {
    assert (snaps + [snap])[..|snaps|] == snaps;
  }

  /** In every run the state of every process is the letter the snapshots say. */
  lemma {:induction false} AlwaysRecorded(ss: seq<State>, es: seq<Input>, k: nat, p: Pid)
    requires IsRun(ss, es) && Initial(ss[0]) && k < |ss|
    ensures Letter(ss[k].t, p) == Recorded(Reads(ss, es, k), p)
    decreases k
  {
    RunLength(ss, es);
    if k == 0 {
      StartLetters(ss[0], p);
      NothingRead(ss, es);
    } else {
      hide *;
      AlwaysRecorded(ss, es, k - 1, p);
      AlwaysConsistent(ss, es, k - 1);
      RunStep(ss, es, k - 1);
      StepRecords(ss[k - 1], es[k - 1], ss[k], p);
      ReadsMore(ss, es, k);
      RecordedMore(Reads(ss, es, k - 1), es[k - 1].snap, p);
    }
  }

  lemma RunLength(ss: seq<State>, es: seq<Input>)
    requires IsRun(ss, es)
    ensures |ss| == |es| + 1
  {
  }

  lemma NothingRead(ss: seq<State>, es: seq<Input>)
    requires |es| < |ss|
    ensures Reads(ss, es, 0) == []
  {
  }

  lemma StartLetters(s: State, p: Pid)
    requires Initial(s)
    ensures Letter(s.t, p) == Recorded([], p)
  {
  }

  lemma RunStep(ss: seq<State>, es: seq<Input>, k: nat)
    requires IsRun(ss, es) && k < |es|
    ensures |ss| == |es| + 1 && Readable(ss[k], es[k]) && Follows(ss[k], es[k]) && Step(ss[k], es[k], ss[k + 1])
  {
  }

  lemma ReadsMore(ss: seq<State>, es: seq<Input>, k: nat)
    requires 0 < k <= |es| < |ss|
    ensures Reads(ss, es, k)
            == if Walked(ss[k - 1].p, es[k - 1]).Some? then Reads(ss, es, k - 1) + [es[k - 1].snap] else Reads(ss, es, k - 1)
  {
  }

  lemma StepRecords(s: State, i: Input, n: State, p: Pid)
    requires Consistent(s) && Step(s, i, n)
    ensures Letter(n.t, p) ==
              if Walked(s.p, i).None? then Letter(s.t, p)
              else if p <= 1 then (if LastLetter(i.snap, p).Some? then LastLetter(i.snap, p) else Letter(s.t, p))
              else if p !in Mentioned(i.snap) then None
              else if Letter(s.t, p).Some? then Letter(s.t, p)
              else FirstLetter(i.snap, p)
  {
    hide Shows, Ok, TreeOf, Refreshes, NumberedFrom, Rooted, UpdateTree, Mentioned, FirstLetter, LastLetter, Letter;
    if Walked(s.p, i).Some? {
      var m := RefreshTaken(s, i, n);
      RefreshedCounts(s, Walked(s.p, i).value, i.snap, m);
      StatesAfter(s.t, s.g, i.snap, p);
    }
  }

  /** The letter that a displayed process is counted under. */
  ghost function CountedUnder(ss: seq<State>, es: seq<Input>, k: nat, p: Pid): Option<char>
    requires k <= |es| < |ss|
  {
    if p == 1 then Some(ss[k].seen) else Recorded(Reads(ss, es, k), p)
  }

  /** In every run whose snapshots list init, the status line is right: as many running processes as are
      displayed with the letter R, and so on for S, Z and D. */
  lemma CountersSay(ss: seq<State>, es: seq<Input>, k: nat)
    requires IsRun(ss, es) && Initial(ss[0]) && k < |ss|
    requires forall j :: 0 <= j < |es| ==> 1 in ParentsIn(es[j].snap)
    ensures var s := ss[k];
            && s.stat.sl == |set p | p in Nodes(s.g) && CountedUnder(ss, es, k, p) == Some('S')|
            && s.stat.rn == |set p | p in Nodes(s.g) && CountedUnder(ss, es, k, p) == Some('R')|
            && s.stat.zm == |set p | p in Nodes(s.g) && CountedUnder(ss, es, k, p) == Some('Z')|
            && s.stat.st == |set p | p in Nodes(s.g) && CountedUnder(ss, es, k, p) == Some('D')|
  {
    AlwaysCounted(ss, es, k);
    var s := ss[k];
    forall p | p in Nodes(s.g)
      ensures p in s.t.state
      ensures p != 1 ==> Some(s.t.state[p]) == Recorded(Reads(ss, es, k), p)
    {
      AlwaysRecorded(ss, es, k, p);
      AlwaysConsistent(ss, es, k);
      ShownIsKnown(s, p);
    }
    hide IsRun, Recorded, Reads, Nodes, ParentsIn;
    SameLetters(ss, es, k, 'S');
    SameLetters(ss, es, k, 'R');
    SameLetters(ss, es, k, 'Z');
    SameLetters(ss, es, k, 'D');
  }

  lemma ShownIsKnown(s: State, p: Pid)
    requires Consistent(s) && p in Nodes(s.g)
    ensures p in s.t.state && Letter(s.t, p) == Some(s.t.state[p])
  {
  }

  lemma SameLetters(ss: seq<State>, es: seq<Input>, k: nat, c: char)
    requires k <= |es| < |ss| && c != '\0'
    requires forall p :: p in Nodes(ss[k].g) ==>
               p in ss[k].t.state && (p != 1 ==> Some(ss[k].t.state[p]) == Recorded(Reads(ss, es, k), p))
    ensures In(Nodes(ss[k].g), ss[k].t.state[1 := ss[k].seen], c)
            == set p | p in Nodes(ss[k].g) && CountedUnder(ss, es, k, p) == Some(c)
  {
    hide Nodes, Recorded, Reads;
  }
}
