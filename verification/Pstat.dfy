/** The counters of pstat: how many of the displayed processes are asleep, running and so on. A row is
    counted in the state its process has when it is made, and uncounted in the state its process has
    when it goes. Nobody tells pstat when the state of a displayed process changes in between. */
module Pstat {
  import opened Groves
  import opened ProcSpec
  import opened Refresh
  import opened Seqs
  import opened Trees

  datatype Counts = Counts(sl: int, rn: int, zm: int, st: int)

  const NONE := Counts(0, 0, 0, 0)

  function Plus(a: Counts, b: Counts): Counts {
    Counts(a.sl + b.sl, a.rn + b.rn, a.zm + b.zm, a.st + b.st)
  }

  function Minus(a: Counts, b: Counts): Counts {
    Counts(a.sl - b.sl, a.rn - b.rn, a.zm - b.zm, a.st - b.st)
  }

  lemma PlusPlus(a: Counts, b: Counts, c: Counts)
    ensures Plus(Plus(a, b), c) == Plus(a, Plus(b, c)) && Plus(a, NONE) == a
  {
  }

  lemma BackAgain(a: Counts, b: Counts)
    ensures Minus(Plus(a, b), b) == a
  {
  }

  /** The switch of pstat_update: other letters are not counted. */
  function One(state: char): Counts {
    match state
    case 'S' => Counts(1, 0, 0, 0)
    case 'R' => Counts(0, 1, 0, 0)
    case 'Z' => Counts(0, 0, 1, 0)
    case 'D' => Counts(0, 0, 0, 1)
    case _ => NONE
  }

  function StateOf(state: map<Pid, char>, p: Pid): char {
    if p in state then state[p] else '\0'
  }

  function In(S: set<Pid>, state: map<Pid, char>, c: char): set<Pid> {
    set p | p in S && StateOf(state, p) == c
  }

  /** How many of the processes `S` are in each state. */
  function Tally(S: set<Pid>, state: map<Pid, char>): Counts {
    Counts(|In(S, state, 'S')|, |In(S, state, 'R')|, |In(S, state, 'Z')|, |In(S, state, 'D')|)
  }

  lemma InOneMore(S: set<Pid>, state: map<Pid, char>, p: Pid, c: char)
    requires p !in S
    ensures |In(S + {p}, state, c)| == |In(S, state, c)| + if StateOf(state, p) == c then 1 else 0
  {
    assert In(S + {p}, state, c) == if StateOf(state, p) == c then In(S, state, c) + {p} else In(S, state, c);
  }

  lemma OneMore(S: set<Pid>, state: map<Pid, char>, p: Pid)
    requires p !in S
    ensures Tally(S + {p}, state) == Plus(Tally(S, state), One(StateOf(state, p)))
  {
    InOneMore(S, state, p, 'S');
    InOneMore(S, state, p, 'R');
    InOneMore(S, state, p, 'Z');
    InOneMore(S, state, p, 'D');
  }

  lemma OneLess(S: set<Pid>, state: map<Pid, char>, p: Pid)
    requires p in S
    ensures Tally(S - {p}, state) == Minus(Tally(S, state), One(StateOf(state, p)))
  {
    hide *;
    OneMore(S - {p}, state, p);
    assert S - {p} + {p} == S;
    BackAgain(Tally(S - {p}, state), One(StateOf(state, p)));
  }

  lemma SameStates(S: set<Pid>, state: map<Pid, char>, state': map<Pid, char>)
    requires forall p :: p in S ==> StateOf(state, p) == StateOf(state', p)
    ensures Tally(S, state) == Tally(S, state')
  {
    assert In(S, state, 'S') == In(S, state', 'S') && In(S, state, 'R') == In(S, state', 'R');
    assert In(S, state, 'Z') == In(S, state', 'Z') && In(S, state, 'D') == In(S, state', 'D');
  }

  /** If only init changed its state, only init is counted differently. */
  lemma OnlyInit(S: set<Pid>, state: map<Pid, char>, state': map<Pid, char>)
    requires forall p :: p in S && p != 1 ==> StateOf(state, p) == StateOf(state', p)
    ensures Minus(Tally(S, state), Tally(S, state'))
            == if 1 in S then Minus(One(StateOf(state, 1)), One(StateOf(state', 1))) else NONE
  {
    SameStates(S - {1}, state, state');
    if 1 in S {
      OneLess(S, state, 1);
      OneLess(S, state', 1);
    } else {
      assert S - {1} == S;
    }
  }

  // ---------- the scan ----------

  /** By how much the counters of the displayed tree `g` go wrong when an entry changes states. */
  function StepDrift(t: Table, g: Grove, i: Info): Counts {
    Minus(Tally(Nodes(g), t.state), Tally(Nodes(g), Touch(t, i).state))
  }

  function ScanDrift(t: Table, g: Grove, snap: seq<Info>): Counts
    decreases |snap|
  {
    if snap == [] then NONE
    else
      var (u, h) := Step(t, g, snap[0]);
      Plus(StepDrift(t, g, snap[0]), ScanDrift(u, h, snap[1..]))
  }

  /** mark_del takes away the root only when called on it. */
  lemma RootStays(kids: Kids, g: Grove, p: Pid)
    requires g.Cons? && Distinct(Flat(g)) && Fits(kids, Nodes(g), g)
    ensures g.pid in Nodes(Cut(g, p)) <==> g.pid != p
  {
    CutShows(kids, g, p);
    DistinctParts(g);
    if g.pid == p {
      BelowSelf(g, p);
    } else {
      assert Below(g, p) <= Nodes(g.kids) + Nodes(g.next);
    }
  }

  lemma TouchedStates(t: Table, i: Info)
    requires IndexOk(t)
    ensures forall p :: p in t.state && p > 1 ==> StateOf(t.state, p) == StateOf(Touch(t, i).state, p)
    ensures i.pid == 1 && i.ppid == 0 ==> StateOf(Touch(t, i).state, 1) == i.state
  {
  }

  lemma StepCases(t: Table, g: Grove, i: Info)
    ensures var (u, h) := Step(t, g, i);
            && u.state == Touch(t, i).state && u.parent == t.parent[i.pid := i.ppid]
            && h == if i.pid in t.parent && t.parent[i.pid] == i.ppid then g else Cut(g, i.pid)
  {
    StepParent(t, g, i);
    TouchParents(t, i);
    hide Touch, Unlinked, KidsOf, Cut;
  }

  lemma RootedStep(t: Table, u: Table, i: Info)
    requires Rooted(t) && u.parent == t.parent[i.pid := i.ppid] && i.pid > 0 && (i.pid == 1 ==> i.ppid == 0)
    ensures Rooted(u) && (1 in t.parent ==> t.parent[1] == 0)
  {
  }

  /** What one entry does to init. */
  lemma StepInit(t: Table, g: Grove, i: Info, root: Pid)
    requires Ok(t) && Rooted(t) && root > 0 && Shows(t.kids, root, g)
    requires i.pid > 0 && (i.pid == 1 ==> i.ppid == 0)
    ensures var (u, h) := Step(t, g, i);
            && Rooted(u) && u.parent == t.parent[i.pid := i.ppid] && u.state == Touch(t, i).state
            && (1 in Nodes(h) <==> 1 in Nodes(g) && (i.pid == 1 ==> 1 in t.parent))
            && (i.pid == 1 ==> StateOf(u.state, 1) == i.state)
  {
    hide *;
    StatesKnown(t);
    TouchedStates(t, i);
    StepCases(t, g, i);
    RootedStep(t, Step(t, g, i).0, i);
    InitShown(t, g, i.pid, root);
  }

  lemma StatesKnown(t: Table)
    requires Ok(t)
    ensures IndexOk(t)
  {
  }

  lemma InitShown(t: Table, g: Grove, p: Pid, root: Pid)
    requires Ok(t) && Rooted(t) && root > 0 && Shows(t.kids, root, g)
    ensures 1 in Nodes(Cut(g, p)) <==> 1 in Nodes(g) && p != 1
  {
    hide Shows, Cut, Flat, Below, Keep, Fits, Tops, Distinct, IndexOk, LinksOk;
    InitOnTop(t, g, root);
    if 1 in Nodes(g) {
      RootStays(t.kids, g, p);
    } else {
      CutShows(t.kids, g, p);
    }
  }

  lemma StepDriftIs(t: Table, g: Grove, i: Info, root: Pid)
    requires Ok(t) && Rooted(t) && root > 0 && Shows(t.kids, root, g)
    ensures StepDrift(t, g, i)
            == if 1 in Nodes(g) then Minus(One(StateOf(t.state, 1)), One(StateOf(Touch(t, i).state, 1))) else NONE
  {
    hide Shows, Flat, Fits, Tops, Distinct, Tally, One, LinksOk, Touch;
    InitOnTop(t, g, root);
    TouchedStates(t, i);
    OnlyInit(Nodes(g), t.state, Touch(t, i).state);
  }

  /** The state of the first entry for init. */
  function InitState(snap: seq<Info>): char {
    if snap == [] then '\0' else if snap[0].pid == 1 then snap[0].state else InitState(snap[1..])
  }

  /** init is displayed although no snapshot has listed it so far, and now it is listed: it gets its
      first parent, and so loses its row. */
  predicate Recounted(t: Table, g: Grove, snap: seq<Info>) {
    1 in Nodes(g) && 1 !in t.parent && 1 in ParentsIn(snap)
  }

  lemma Chained(a: Counts, b: Counts, c: Counts)
    ensures Plus(Minus(a, b), Minus(b, c)) == Minus(a, c)
    ensures Plus(a, NONE) == a && Plus(NONE, a) == a
    ensures Minus(a, a) == NONE
  {
  }

  lemma RecountedFirst(t: Table, g: Grove, snap: seq<Info>, root: Pid)
    requires Ok(t) && Rooted(t) && root > 0 && Shows(t.kids, root, g) && Proper(snap) && snap != []
    ensures var i, (u, h) := snap[0], Step(t, g, snap[0]);
            var now := 1 in Nodes(g) && i.pid == 1 && 1 !in t.parent;
            && Rooted(u) && Proper(snap[1..])
            && (1 in Nodes(h) <==> 1 in Nodes(g) && !now)
            && (Recounted(t, g, snap) <==> now || Recounted(u, h, snap[1..]))
            && (Recounted(u, h, snap[1..]) ==> InitState(snap) == InitState(snap[1..]))
            && (now ==> InitState(snap) == StateOf(u.state, 1))
  {
    hide Shows, Ok, Nodes, Step, StateOf;
    StepInit(t, g, snap[0], root);
  }

  lemma ScanUnfolds(t: Table, g: Grove, snap: seq<Info>)
    ensures snap == [] ==> Scan(t, g, snap) == (t, g) && ScanDrift(t, g, snap) == NONE && !Recounted(t, g, snap)
    ensures snap != [] ==>
              var (u, h) := Step(t, g, snap[0]);
              && u.state == Touch(t, snap[0]).state
              && Scan(t, g, snap) == Scan(u, h, snap[1..])
              && ScanDrift(t, g, snap) == Plus(StepDrift(t, g, snap[0]), ScanDrift(u, h, snap[1..]))
  {
  }

  lemma InitHidden(t: Table, g: Grove, snap: seq<Info>)
    ensures Recounted(t, g, snap) ==> 1 in Nodes(g)
  {
  }

  /** Only init's changes of state make the counters wrong: up to the end of the scan if it keeps its row,
      up to its first entry if that takes its row away. */
  lemma {:induction false} ScanDriftIs(t: Table, g: Grove, snap: seq<Info>, root: Pid)
    requires Ok(t) && Rooted(t) && root > 0 && Shows(t.kids, root, g) && Proper(snap)
    ensures var (u, h) := Scan(t, g, snap);
            && (1 in Nodes(h) <==> 1 in Nodes(g) && !Recounted(t, g, snap))
            && ScanDrift(t, g, snap) ==
               if 1 !in Nodes(g) then NONE
               else Minus(One(StateOf(t.state, 1)),
                          One(if Recounted(t, g, snap) then InitState(snap) else StateOf(u.state, 1)))
    decreases |snap|
  {
    hide *;
    ScanUnfolds(t, g, snap);
    InitHidden(t, g, snap);
    if snap == [] {
      Chained(One(StateOf(t.state, 1)), NONE, NONE);
    } else {
      var (u, h) := Step(t, g, snap[0]);
      StepDriftIs(t, g, snap[0], root);
      RecountedFirst(t, g, snap, root);
      ScanStep(t, g, snap, root);
      InitHidden(u, h, snap[1..]);
      ScanDriftIs(u, h, snap[1..], root);
      Chained(One(StateOf(t.state, 1)), One(StateOf(u.state, 1)),
        One(if Recounted(u, h, snap[1..]) then InitState(snap[1..]) else StateOf(Scan(t, g, snap).0.state, 1)));
      Chained(ScanDrift(t, g, snap), NONE, NONE);
      Chained(StepDrift(t, g, snap[0]), NONE, NONE);
    }
  }

  // ---------- a whole refresh ----------

  /** What the counters are after a refresh that leaves the rows of `S'`: the rows that went are uncounted,
      the new ones counted, and what the scan made wrong stays wrong. */
  function Recount(c: Counts, t: Table, g: Grove, snap: seq<Info>, S': set<Pid>): Counts
    requires Ok(t) && t.stale == []
  {
    Plus(Plus(Minus(c, Tally(Nodes(g), t.state)), ScanDrift(Rescan(t), g, snap)),
      Tally(S', UpdateTree(t, g, snap).0.state))
  }

  /** The state that init's row was counted in, after a refresh: it may have a new row. */
  function SeenAfter(t: Table, g: Grove, snap: seq<Info>, seen: char): char
    requires Ok(t) && t.stale == []
  {
    if 1 in UpdateTree(t, g, snap).1 then seen else StateOf(UpdateTree(t, g, snap).0.state, 1)
  }

  /** The processes `S` are counted, each in the state it has, but init in the state it had when its row was
      made. */
  predicate Counted(c: Counts, S: set<Pid>, state: map<Pid, char>, seen: char) {
    c == Tally(S, state[1 := seen])
  }

  lemma {:induction false} SweepStates(u: Table)
    requires Ok(u)
    ensures forall p :: p in Survivors(u) ==> StateOf(Sweep(u).state, p) == StateOf(u.state, p)
    decreases |u.stale|
  {
    if u.stale != [] {
      BuryOk(u);
      BuryStates(u);
      SweepStates(Bury(u));
      SameSurvivors(u, Bury(u));
    }
  }

  lemma BuryStates(u: Table)
    requires Ok(u) && u.stale != []
    ensures forall p :: p in Survivors(u) ==> StateOf(Bury(u).state, p) == StateOf(u.state, p)
  {
    var p := u.stale[0];
    assert p in u.stale;
    AdoptLinks(u, p);
  }

  /** What counting init in another state than it has comes to. */
  lemma CountedAs(S: set<Pid>, state: map<Pid, char>, seen: char)
    ensures Tally(S, state[1 := seen])
            == Plus(Tally(S, state), if 1 in S then Minus(One(seen), One(StateOf(state, 1))) else NONE)
  {
    OnlyInit(S, state[1 := seen], state);
    assert StateOf(state[1 := seen], 1) == seen;
    Taken(Tally(S, state[1 := seen]), Tally(S, state));
  }

  lemma Taken(a: Counts, b: Counts)
    ensures a == Plus(b, Minus(a, b))
  {
  }

  lemma InitAfter(t: Table, g: Grove, snap: seq<Info>, root: Pid)
    requires Ok(t) && t.stale == [] && Rooted(t) && root > 0 && Shows(t.kids, root, g) && Proper(snap)
    ensures var (u, h) := Scanned(t, g, snap);
            var (v, shown) := UpdateTree(t, g, snap);
            && StateOf(v.state, 1) == StateOf(u.state, 1)
            && (1 in shown <==> 1 in Nodes(h)) && (1 in Nodes(h) ==> 1 in Nodes(g))
  {
    var (u, h) := Scanned(t, g, snap);
    ScannedOk(t, g, snap);
    SweepStates(u);
    SurvivorsKnown(u);
    ScanShows(Rescan(t), g, snap, root);
    hide Scanned, Survivors, Sweep, StateOf;
    assert 1 in Nodes(h) ==> 1 in Flat(g);
  }

  /** After a refresh the counters are again what they should be, except that a row of init that is made anew
      leaves the difference between the state it was counted in and the state it was uncounted in. */
  lemma RecountIs(c: Counts, t: Table, g: Grove, snap: seq<Info>, root: Pid, seen: char, S': set<Pid>)
    requires Ok(t) && t.stale == [] && Rooted(t) && root > 0 && Shows(t.kids, root, g) && Proper(snap)
    requires Counted(c, Nodes(g), t.state, seen) && UpdateTree(t, g, snap).1 <= S'
    ensures Recount(c, t, g, snap, S')
            == Plus(Tally(S', UpdateTree(t, g, snap).0.state[1 := SeenAfter(t, g, snap, seen)]),
                    if Recounted(t, g, snap) then Minus(One(seen), One(InitState(snap))) else NONE)
  {
    hide *;
    var v, w := UpdateTree(t, g, snap).0, SeenAfter(t, g, snap, seen);
    CountedParts(c, Nodes(g), t.state, seen);
    CountedAs(Nodes(g), t.state, seen);
    CountedAs(S', v.state, w);
    InitRecounted(t, g, snap, root, seen);
    RecountParts(c, t, g, snap, S');
    Balance(c, Tally(Nodes(g), t.state), ScanDrift(Rescan(t), g, snap), Tally(S', v.state),
      1 in Nodes(g), Recounted(t, g, snap), 1 in S',
      One(seen), One(StateOf(t.state, 1)), One(InitState(snap)), One(StateOf(v.state, 1)), One(w));
  }

  lemma RecountParts(c: Counts, t: Table, g: Grove, snap: seq<Info>, S': set<Pid>)
    requires Ok(t) && t.stale == []
    ensures Recount(c, t, g, snap, S')
            == Plus(Plus(Minus(c, Tally(Nodes(g), t.state)), ScanDrift(Rescan(t), g, snap)),
                    Tally(S', UpdateTree(t, g, snap).0.state))
  {
  }

  /** What a refresh does to init. */
  lemma InitRecounted(t: Table, g: Grove, snap: seq<Info>, root: Pid, seen: char)
    requires Ok(t) && t.stale == [] && Rooted(t) && root > 0 && Shows(t.kids, root, g) && Proper(snap)
    ensures var (v, shown) := UpdateTree(t, g, snap);
            && (Recounted(t, g, snap) ==> 1 in Nodes(g))
            && (1 in shown <==> 1 in Nodes(g) && !Recounted(t, g, snap))
            && SeenAfter(t, g, snap, seen) == (if 1 in shown then seen else StateOf(v.state, 1))
            && ScanDrift(Rescan(t), g, snap) ==
               if 1 !in Nodes(g) then NONE
               else Minus(One(StateOf(t.state, 1)),
                          One(if Recounted(t, g, snap) then InitState(snap) else StateOf(v.state, 1)))
  {
    RescanOk(t);
    ScanDriftIs(Rescan(t), g, snap, root);
    InitAfter(t, g, snap, root);
    InitHidden(t, g, snap);
    hide Ok, Shows, Scan, UpdateTree, Tally, One, StateOf, InitState, Nodes, ScanDrift;
    assert Recounted(Rescan(t), g, snap) == Recounted(t, g, snap);
  }

  lemma Balance(c: Counts, a: Counts, d: Counts, b: Counts, was: bool, anew: bool, now: bool,
      seen: Counts, before: Counts, first: Counts, after: Counts, seen': Counts)
    requires c == Plus(a, if was then Minus(seen, before) else NONE)
    requires d == if was then Minus(before, if anew then first else after) else NONE
    requires (anew ==> was) && (was && !anew ==> now) && seen' == if was && !anew then seen else after
    ensures Plus(Plus(Minus(c, a), d), b)
            == Plus(Plus(b, if now then Minus(seen', after) else NONE), if anew then Minus(seen, first) else NONE)
  {
  }

  /** So the counters are right exactly if init now not counted twice in different states. */
  lemma CountsRight(c: Counts, t: Table, g: Grove, snap: seq<Info>, root: Pid, seen: char, S': set<Pid>)
    requires Ok(t) && t.stale == [] && Rooted(t) && root > 0 && Shows(t.kids, root, g) && Proper(snap)
    requires Counted(c, Nodes(g), t.state, seen) && UpdateTree(t, g, snap).1 <= S'
    ensures Counted(Recount(c, t, g, snap, S'), S', UpdateTree(t, g, snap).0.state, SeenAfter(t, g, snap, seen))
            <==> (Recounted(t, g, snap) ==> One(InitState(snap)) == One(seen))
  {
    hide *;
    RecountIs(c, t, g, snap, root, seen, S');
    Balanced(Tally(S', UpdateTree(t, g, snap).0.state[1 := SeenAfter(t, g, snap, seen)]), One(seen), One(InitState(snap)));
    CountedParts(Recount(c, t, g, snap, S'), S', UpdateTree(t, g, snap).0.state, SeenAfter(t, g, snap, seen));
  }

  lemma CountedParts(c: Counts, S: set<Pid>, state: map<Pid, char>, seen: char)
    ensures Counted(c, S, state, seen) <==> c == Tally(S, state[1 := seen])
  {
  }

  lemma Balanced(a: Counts, b: Counts, c: Counts)
    ensures Plus(a, Minus(b, c)) == a <==> b == c
    ensures Plus(a, NONE) == a
  {
  }

  /** Once init has been listed it keeps its parent, and is never counted anew while it is displayed. */
  lemma ListedForGood(t: Table, g: Grove, snap: seq<Info>)
    requires Ok(t) && t.stale == [] && Rooted(t)
    ensures 1 in t.parent ==> !Recounted(t, g, snap)
    ensures 1 in t.parent || 1 in ParentsIn(snap) ==> 1 in UpdateTree(t, g, snap).0.parent
  {
    MirrorsScan(t, g, snap);
  }

  lemma InApart(S: set<Pid>, state: map<Pid, char>, c: char, d: char)
    requires c != d
    ensures In(S, state, c) !! In(S, state, d) && In(S, state, c) <= S
  {
  }

  lemma FourParts(a: set<Pid>, b: set<Pid>, c: set<Pid>, d: set<Pid>)
    requires a !! b && a !! c && a !! d && b !! c && b !! d && c !! d
    ensures |a + b + c + d| == |a| + |b| + |c| + |d|
  {
    assert |a + b| == |a| + |b|;
    assert |a + b + c| == |a + b| + |c|;
  }

  /** No counter is negative, and together they are no more than the rows. */
  lemma Sensible(c: Counts, S: set<Pid>, state: map<Pid, char>, seen: char)
    requires Counted(c, S, state, seen)
    ensures c.sl >= 0 && c.rn >= 0 && c.zm >= 0 && c.st >= 0 && c.sl + c.rn + c.zm + c.st <= |S|
  {
    hide In;
    var s := state[1 := seen];
    var l, r, z, d := In(S, s, 'S'), In(S, s, 'R'), In(S, s, 'Z'), In(S, s, 'D');
    InApart(S, s, 'S', 'R');
    InApart(S, s, 'S', 'Z');
    InApart(S, s, 'S', 'D');
    InApart(S, s, 'R', 'Z');
    InApart(S, s, 'R', 'D');
    InApart(S, s, 'Z', 'D');
    InApart(S, s, 'D', 'S');
    FourParts(l, r, z, d);
    SubsetSize(l + r + z + d, S);
  }
}
