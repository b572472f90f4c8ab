/** plist.c: the displayed rows, one linked list that is never rebuilt, and their cross-links with
    the process nodes (priv and proc). A row is addressed by a number. */
module Plist {
  import opened Groves
  import opened Intrusive
  import opened Options
  import opened Panels
  import opened ProcSpec
  import opened ProcTable
  import opened Pstat
  import opened Refresh
  import opened RowLinks
  import opened Rows
  import opened Screen
  import opened Search
  import opened Seqs
  import opened Trees
  import Session

  class Plist {
    const table: ProcTable
    const rows: Lists<(), RowId>         // the head is `begin`
    var line: map<RowId, int>
    var proc: map<RowId, Pid>            // absent: null, the row is marked
    var nr: int                          // pstat.nr
    var stat: Counts                     // the counters of pstat by state
    var hidden: bool                     // WIN_HIDDEN
    var treeRoot: Pid                    // tree_root
    var pkey: Option<Toggle>             // the last key handled by pswitch
    ghost var tree: Grove                // what is displayed
    ghost var who: seq<Pid>              // which process each row was made for
    ghost var seen: char                 // the state that init's row was counted in

    ghost function RowSeq(): seq<RowId>
      reads rows
    {
      if () in rows.seqs then rows.seqs[()] else []
    }

    ghost predicate Coupled()
      reads `who, `proc, rows, table`priv
    {
      Coupling(who, RowSeq(), proc, table.priv)
    }

    /** The memory of the rows is none of the table's. */
    ghost predicate Separate()
    {
      var r: object := rows;
      r != table && r != table.mlist && r != table.broth && r != table.hash
    }

    constructor (table: ProcTable)
      requires table.Valid() && !table.Scanning() && table.Tab() == Empty() && table.priv == map[]
      ensures this.table == table && fresh(rows) && Good() && hidden && treeRoot == INIT_PID && pkey == None
      ensures stat == NONE && tree == Nil
    {
      hide ProcTable.Valid, ProcTable.Tab, Good, Empty, AllThreaded, Apart;
      this.table := table;
      rows := new Lists({()});
      line, proc, nr, stat, who, seen := map[], map[], 0, NONE, [], '\0';
      hidden, treeRoot, pkey, tree := true, INIT_PID, None, Nil;
      new;
      Initially();
    }

    lemma Initially()
      requires Separate() && table.Valid() && !table.Scanning() && table.Tab() == Empty() && table.priv == map[]
      requires rows.Valid() && rows.seqs.Keys == {()} && rows.seqs[()] == [] && proc == map[] && who == []
      requires hidden && treeRoot == INIT_PID && tree == Nil && nr == 0
      ensures Good()
    {
      hide *;
      StartsEmpty();
      NothingDisplayed(treeRoot);
      EmptyRooted();
      GoodParts();
    }

    lemma StartsEmpty()
      requires rows.Valid() && rows.seqs.Keys == {()} && rows.seqs[()] == [] && who == [] && table.priv == map[]
      ensures Listed() && RowSeq() == []
    {
    }

    lemma RowOf(p: Pid) returns (i: nat)
      requires Coupled() && p in table.priv
      ensures i < |who| == |RowSeq()| && who[i] == p && RowSeq()[i] == table.priv[p]
      ensures table.priv[p] in proc && proc[table.priv[p]] == p
    {
      i :| 0 <= i < |who| && who[i] == p;
    }

    lemma RowProc(i: nat)
      requires Coupled() && i < |who| && who[i] in table.priv
      ensures |who| == |RowSeq()| && RowSeq()[i] in proc && proc[RowSeq()[i]] == who[i]
    {
    }

    /** By how much the counters differ from the states that the displayed processes have now. */
    ghost function Off(): Counts
      reads `stat, table`priv, table`state
    {
      Minus(stat, Tally(table.priv.Keys, table.state))
    }

    // ---------- mark_del ----------

    /** The process loses its row, the row its process. */
    method Mark(r: RowId, q: Pid, ghost i: nat)
      requires Coupled() && q in table.priv && i < |who| && who[i] == q && RowSeq()[i] == r
      modifies `proc, `nr, `stat, table`priv
      ensures Coupled() && nr == old(nr) - 1 && Off() == old(Off())
      ensures table.priv.Keys == old(table.priv.Keys) - {q}
    {
      OneLess(table.priv.Keys, table.state, q);
      hide Tally, One;
      nr := nr - 1;
      stat := Minus(stat, One(StateOf(table.state, q)));
      table.priv := table.priv - {q};
      proc := proc - {r};
    }

    /** mark_del. `k` is what is displayed below the process of row `r`; exactly this process and
        `k` lose their rows. The links may contain cycles elsewhere: the recursion follows `k`. */
    method MarkDel(r: RowId, ghost i: nat, ghost k: Grove)
      requires Coupled() && table.broth.Valid()
      requires i < |who| && RowSeq()[i] == r && who[i] in table.priv && who[i] in table.broth.seqs
      requires Tops(k) == Sel(table.broth.seqs[who[i]], table.priv.Keys)
      requires Fits(table.broth.seqs, table.priv.Keys, k) && Distinct(Flat(k)) && who[i] !in Flat(k)
      modifies `proc, `nr, `stat, table`priv
      ensures Coupled() && nr == old(nr) - 1 - |Flat(k)| && Off() == old(Off())
      ensures table.priv.Keys == old(table.priv.Keys) - ({who[i]} + Nodes(k))
      decreases k, 1
    {
      hide Marking, Coupled, Fits, Apart, Distinct, Off;
      RowProc(i);
      var q := proc[r];
      var c := Deref(table.broth.ptr, Head(q));
      ghost var kids, s, S := table.broth.seqs, table.broth.seqs[q], table.priv.Keys;
      ghost var j, rest, n, D := 0, s, k, {};
      FirstOf(table.broth.ptr, table.broth.ppv, kids, q);
      MarkingStarts(kids, s, S, k);
      while c.Some?
        invariant 0 <= j <= |s| && c == At(s, j) && rest == s[j..]
        invariant Marking(kids, rest, S, k, n, D) && table.priv.Keys == S - D
        invariant Coupled() && nr == old(nr) - |Flat(k)| + |Flat(n)| && Off() == old(Off())
        decreases |s| - j
      {
        n, D := MarkIfShown(c.value, rest, S, k, n, D);
        NextOf(table.broth.ptr, table.broth.ppv, kids, q, j);
        c, j, rest := Deref(table.broth.ptr, Nx(c.value)), j + 1, rest[1..];
      }
      MarkingDone(kids, rest, S, k, n, D, q);
      Mark(r, q, i);
    }

    /** `if(q->priv) mark_del(q->priv)` for the first of the children that are left. */
    method MarkIfShown(c: Pid, ghost rest: seq<Pid>, ghost S: set<Pid>, ghost k: Grove, ghost n: Grove, ghost D: set<Pid>)
      returns (ghost n': Grove, ghost D': set<Pid>)
      requires Coupled() && table.broth.Valid()
      requires Marking(table.broth.seqs, rest, S, k, n, D) && table.priv.Keys == S - D
      requires rest != [] && rest[0] == c
      modifies `proc, `nr, `stat, table`priv
      ensures Coupled() && nr == old(nr) - |Flat(n)| + |Flat(n')| && Off() == old(Off())
      ensures Marking(table.broth.seqs, rest[1..], S, k, n', D') && table.priv.Keys == S - D'
      decreases k, 0
    {
      n', D' := n, D;
      if c in table.priv {
        MarkingShown(table.broth.seqs, rest, S, k, n, D);
        ghost var i := RowOf(c);
        n', D' := n.next, D + ({n.pid} + Nodes(n.kids));
        MarkDel(table.priv[c], i, n.kids);
      } else {
        MarkingHidden(table.broth.seqs, rest, S, k, n, D);
      }
    }

    // ---------- update_tree: the scan ----------

    /** `if(p->priv) del(p->priv)` for a process of the displayed tree `g`. */
    method DelIfShown(p: Pid, ghost g: Grove)
      requires Coupled() && table.Rep()
      requires table.priv.Keys == Nodes(g) && Distinct(Flat(g)) && Fits(table.broth.seqs, Nodes(g), g)
      modifies `proc, `nr, `stat, table`priv
      ensures Coupled() && table.priv.Keys == Nodes(Cut(g, p)) && nr - |Flat(Cut(g, p))| == old(nr) - |Flat(g)|
      ensures Off() == old(Off())
    {
      if p in table.priv {
        UnderFits(table.broth.seqs, Nodes(g), g, p);
        CutShows(table.broth.seqs, g, p);
        CutCount(table.broth.seqs, Nodes(g), g, p);
        ghost var i := RowOf(p);
        MarkDel(table.priv[p], i, Under(g, p));
      } else {
        CutNothing(g, p);
      }
    }

    /** The rows that have a process are those of the tree `g`, and pstat.nr is their number. */
    ghost predicate Showing(g: Grove)
      reads `who, `proc, `nr, rows, table`priv
    {
      Coupled() && table.priv.Keys == Nodes(g) && nr == |Flat(g)|
    }

    lemma ShowingParts(g: Grove)
      ensures Showing(g) <==> Coupled() && table.priv.Keys == Nodes(g) && nr == |Flat(g)|
    {
    }

    method Validate(i: Info, ghost g: Grove)
      requires Separate() && table.Rep() && Showing(g)
      requires Ok(table.Tab()) && forall p :: p in Nodes(g) ==> p in table.broth.seqs
      modifies table, table.mlist, table.broth, table.hash
      ensures table.Rep() && table.Tab() == Touch(old(table.Tab()), i) && Showing(g)
      ensures Off() == Plus(old(Off()), StepDrift(old(table.Tab()), g, i))
      ensures table.Scanning() == old(table.Scanning())
    {
      table.ValidateEntry(i);
      Drifted(stat, Tally(Nodes(g), old(table.state)), Tally(Nodes(g), table.state));
    }

    /** `if(p->parent != q) ...` */
    method Move(i: Info, ghost g: Grove)
      requires Separate() && table.Rep() && Showing(g)
      requires Distinct(Flat(g)) && Fits(table.broth.seqs, Nodes(g), g)
      requires table.Placed(i.pid) && i.ppid in table.broth.seqs
      modifies `proc, `nr, `stat, table, table.broth
      ensures table.Rep() && table.Tab() == ProcSpec.ChangeParent(old(table.Tab()), i.pid, i.ppid)
      ensures Showing(Cut(g, i.pid)) && table.Scanning() == old(table.Scanning()) && Off() == old(Off())
    {
      hide Coupled, ProcTable.Rep, Distinct, Fits, Off;
      DelIfShown(i.pid, g);
      table.ChangeParent(i.pid, i.ppid, table.Stale());
    }

    /** One line of /proc: the loop body of update_tree. */
    method ScanOne(i: Info, ghost root: Pid, ghost g: Grove)
      requires Separate() && table.Rep() && Showing(g)
      requires Ok(table.Tab()) && Shows(table.broth.seqs, root, g)
      modifies `proc, `nr, `stat, table, table.mlist, table.broth, table.hash
      ensures table.Rep() && Showing(Step(old(table.Tab()), g, i).1)
      ensures table.Tab() == Step(old(table.Tab()), g, i).0
      ensures Off() == Plus(old(Off()), StepDrift(old(table.Tab()), g, i))
      ensures table.Scanning() == old(table.Scanning())
    {
      ScanOneFacts(table.Tab(), g, i, root);
      Validate(i, g);
      hide Ok, Shows, Off, StepDrift;
      if !(i.pid in table.parent && table.parent[i.pid] == i.ppid) {
        Move(i, g);
      }
    }

    method ScanAll(snap: seq<Info>, ghost root: Pid, ghost g: Grove) returns (ghost h: Grove)
      requires Separate() && table.Rep() && Showing(g)
      requires Ok(table.Tab()) && Shows(table.broth.seqs, root, g)
      modifies `proc, `nr, `stat, table, table.mlist, table.broth, table.hash
      ensures table.Rep() && Showing(h)
      ensures (table.Tab(), h) == Scan(old(table.Tab()), g, snap)
      ensures Off() == Plus(old(Off()), ScanDrift(old(table.Tab()), g, snap))
      ensures table.Scanning() == old(table.Scanning())
    {
      hide Ok, Shows, Step, Scan, Coupled, Indexes, Off, StepDrift, ScanDrift, Plus;
      h := g;
      assert snap[0..] == snap;
      for k := 0 to |snap|
        invariant table.Rep() && Showing(h) && Ok(table.Tab()) && Shows(table.broth.seqs, root, h)
        invariant Scan(table.Tab(), h, snap[k..]) == Scan(old(table.Tab()), g, snap)
        invariant Plus(Off(), ScanDrift(table.Tab(), h, snap[k..])) == Plus(old(Off()), ScanDrift(old(table.Tab()), g, snap))
        invariant table.Scanning() == old(table.Scanning())
      {
        ScanStep(table.Tab(), h, snap[k..], root);
        ScanUnfolds(table.Tab(), h, snap[k..]);
        PlusPlus(Off(), StepDrift(table.Tab(), h, snap[k]), ScanDrift(Step(table.Tab(), h, snap[k]).0, Step(table.Tab(), h, snap[k]).1, snap[k..][1..]));
        ghost var h' := Step(table.Tab(), h, snap[k]).1;
        ScanOne(snap[k], root, h);
        h := h';
        assert snap[k..][1..] == snap[k + 1..];
      }
      ScanUnfolds(table.Tab(), h, snap[|snap|..]);
      PlusPlus(Off(), NONE, NONE);
    }

    // ---------- update_tree: the sweep ----------

    /** A dying process loses its children and its place among its siblings. */
    method Detach(x: Pid, ghost st: seq<Pid>)
      requires Separate() && table.Rep() && Coupled()
      requires LinksOk(table.broth.seqs, table.parent) && x in table.broth.seqs && x != 1
      modifies table`parent, table.broth
      ensures table.Rep() && Coupled() && table.priv == old(table.priv) && Off() == old(Off())
      ensures table.TabAt(st) == Detached(old(table.TabAt(st)), x) && unchanged(table.mlist)
      ensures x in table.broth.seqs && table.broth.seqs[x] == []
      ensures forall k :: k in table.broth.seqs ==> x !in table.broth.seqs[k]
    {
      hide Coupled, ProcTable.Rep, ProcTable.TabAt, LinksOk;
      table.Detach(x, st);
    }

    /** `if(p->priv) del(p->priv)` for a process without children. */
    method DelAlone(x: Pid)
      requires Coupled() && table.Rep() && x in table.broth.seqs && table.broth.seqs[x] == []
      modifies `proc, `nr, `stat, table`priv
      ensures Coupled() && table.priv.Keys == old(table.priv.Keys) - {x}
      ensures nr == old(nr) - (if x in old(table.priv) then 1 else 0) && Off() == old(Off())
    {
      if x in table.priv {
        ghost var i := RowOf(x);
        MarkDel(table.priv[x], i, Nil);
      }
    }

    method Remove(x: Pid, ghost st: seq<Pid>)
      requires Separate() && table.Rep() && Coupled()
      requires x > 1 && x in table.broth.seqs && forall k :: k in table.broth.seqs ==> x !in table.broth.seqs[k]
      requires x !in table.priv
      modifies table, table.broth, table.hash
      ensures table.Rep() && Coupled() && table.priv == old(table.priv) && Off() == old(Off())
      ensures table.TabAt(st) == Removed(old(table.TabAt(st)), x) && unchanged(table.mlist)
    {
      hide Coupled, ProcTable.Rep, ProcTable.TabAt, Tally;
      SameStates(table.priv.Keys, table.state, table.state - {x});
      table.RemoveProc(x, st);
    }

    /** One process of the old list: the loop body of the sweep. */
    method BuryOne(x: Pid, ghost st: seq<Pid>)
      requires Separate() && table.Rep() && Coupled() && Ok(table.TabAt(st))
      requires st != [] && st[0] == x
      modifies `proc, `nr, `stat, table, table.broth, table.hash
      ensures table.Rep() && Coupled() && table.TabAt(st[1..]) == Bury(old(table.TabAt(st)))
      ensures table.priv.Keys == old(table.priv.Keys) - {x}
      ensures nr == old(nr) - (if x in old(table.priv) then 1 else 0) && Off() == old(Off())
      ensures unchanged(table.mlist)
    {
      hide Ok, Coupled, ProcTable.Rep, Off;
      BuryFacts(table.TabAt(st), x);
      Detach(x, st);
      DelAlone(x);
      Remove(x, st);
      table.TabShift(st, st[1..]);
    }

    /** `S` is the old list, `n` of its processes are done. */
    method SweepOne(x: Pid, ghost S: seq<Pid>, ghost n: nat)
      requires Separate() && table.Rep() && Coupled()
      requires n < |S| && S[n] == x && Ok(table.TabAt(S[n..])) && nr == |table.priv.Keys|
      modifies `proc, `nr, `stat, table, table.broth, table.hash
      ensures table.Rep() && Coupled() && nr == |table.priv.Keys|
      ensures Ok(table.TabAt(S[n + 1..])) && Sweep(table.TabAt(S[n + 1..])) == Sweep(old(table.TabAt(S[n..])))
      ensures table.priv.Keys == old(table.priv.Keys) - {x}
      ensures unchanged(table.mlist) && Off() == old(Off())
    {
      SweepStep(table.TabAt(S[n..]), S, n);
      SizeWithout(table.priv.Keys, x);
      hide Ok, Sweep, Bury, Off;
      BuryOne(x, S[n..]);
    }

    /** for(p = old_list; p; p=q) ...: what is left on the old list is dead. */
    method SweepAll() returns (n: nat)
      requires Separate() && table.Rep() && Coupled() && Ok(table.Tab()) && table.Scanning()
      requires nr == |table.priv.Keys|
      modifies `proc, `nr, `stat, table, table.broth, table.hash
      ensures table.Rep() && Coupled() && nr == |table.priv.Keys|
      ensures table.TabAt([]) == Sweep(old(table.Tab()))
      ensures table.priv.Keys == old(table.priv.Keys) - Elems(old(table.Stale())) && n == |old(table.Stale())|
      ensures unchanged(table.mlist) && Off() == old(Off())
    {
      hide Off, Ok, Elems, Coupled, Sweep, Separate, ProcTable.Rep, ProcTable.Memory, AllThreaded, Apart;
      ghost var S, shown := table.Stale(), table.priv.Keys;
      table.MlistReady();
      FirstOf(table.mlist.ptr, table.mlist.ppv, table.mlist.seqs, OldList);
      var p := Deref(table.mlist.ptr, Head(OldList));
      n := 0;
      assert S[0..] == S;
      DeadFirst(S, shown);
      while p.Some?
        invariant n <= |S| && p == At(S, n) && unchanged(table.mlist)
        invariant table.Rep() && Coupled() && nr == |table.priv.Keys|
        invariant Ok(table.TabAt(S[n..])) && Sweep(table.TabAt(S[n..])) == Sweep(old(table.Tab()))
        invariant table.priv.Keys == shown - Elems(S[..n]) && Off() == old(Off())
        decreases |S| - n
      {
        DeadStep(S, n, shown);
        NextOf(table.mlist.ptr, table.mlist.ppv, table.mlist.seqs, OldList, n);
        var q := Deref(table.mlist.ptr, Nx(p.value));
        SweepOne(p.value, S, n);
        p, n := q, n + 1;
      }
      assert S[n..] == [] && S[..n] == S;
      SweepNone(table.TabAt([]));
    }

    /** change_head(main_list, old_list, mlist); main_list = 0; */
    method StartScan(ghost g: Grove)
      requires Separate() && table.Rep() && Showing(g) && !table.Scanning()
      modifies table.mlist
      ensures table.Rep() && Showing(g) && table.Scanning()
      ensures table.Tab() == Rescan(old(table.Tab())) && table.broth.seqs == old(table.broth.seqs)
    {
      table.mlist.Rehead(MainList, OldList);
      table.MlistChanged();
    }

    /** The old list was a local variable. */
    method EndScan()
      requires Separate() && table.Rep() && Coupled() && table.Scanning()
      modifies table.mlist
      ensures table.Rep() && Coupled() && !table.Scanning() && table.Tab() == old(table.TabAt([]))
    {
      table.mlist.Free(OldList);
      table.MlistChanged();
    }

    /** The first half of update_tree: /proc is read. */
    method ScanPhase(snap: seq<Info>, ghost root: Pid, ghost g: Grove) returns (n: int, ghost h: Grove)
      requires Separate() && table.Rep() && !table.Scanning() && Showing(g)
      requires Ok(Rescan(table.Tab())) && Shows(table.broth.seqs, root, g)
      modifies `proc, `nr, `stat, table, table.mlist, table.broth, table.hash
      ensures table.Rep() && table.Scanning() && Showing(h)
      ensures (table.Tab(), h) == Scanned(old(table.Tab()), g, snap)
      ensures n == |table.Tab().kids.Keys| - |old(table.Tab()).kids.Keys|
      ensures Off() == Plus(old(Off()), ScanDrift(Rescan(old(table.Tab())), g, snap))
    {
      hide Ok, Shows, Scan, Off, ScanDrift;
      n := table.numProc;
      StartScan(g);
      h := ScanAll(snap, root, g);
      n := table.numProc - n;
    }

    /** The second half: who has not been seen is buried. */
    method SweepPhase(ghost u: Table) returns (dead: nat)
      requires Separate() && table.Rep() && Coupled() && table.Scanning()
      requires u == table.Tab() && Ok(u) && nr == |table.priv.Keys|
      modifies `proc, `nr, `stat, table, table.mlist, table.broth, table.hash
      ensures table.Rep() && !table.Scanning() && Coupled() && nr == |table.priv.Keys|
      ensures table.Tab() == Sweep(u) && dead == |u.stale|
      ensures table.priv.Keys == old(table.priv.Keys) - Elems(u.stale) && Off() == old(Off())
    {
      hide Ok, Sweep, Elems, Off;
      dead := SweepAll();
      EndScan();
    }

    /** update_tree(mark_del). `g` is the displayed tree. */
    method UpdateTree(snap: seq<Info>, ghost root: Pid, ghost g: Grove) returns (n: int)
      requires Separate() && table.Valid() && !table.Scanning()
      requires Showing(g) && Shows(table.broth.seqs, root, g)
      modifies `proc, `nr, `stat, table, table.mlist, table.broth, table.hash
      ensures table.Valid() && !table.Scanning() && Coupled() && nr == |table.priv.Keys|
      ensures (table.Tab(), table.priv.Keys) == Refresh.UpdateTree(old(table.Tab()), g, snap)
      ensures n == Changes(old(table.Tab()), g, snap)
      ensures Off() == Plus(old(Off()), ScanDrift(Rescan(old(table.Tab())), g, snap))
    {
      ghost var t := table.Tab();
      table.ValidParts();
      UpdateFacts(t, g, snap, root);
      hide *;
      ghost var h;
      n, h := ScanPhase(snap, root, g);
      ShowingParts(h);
      var dead := SweepPhase(table.Tab());
      table.ValidParts();
      n := n + dead;
    }

    // ---------- the rows, one by one ----------

    /** Every row on the list has a line. */
    ghost predicate Lined()
      reads `line, rows
    {
      forall r :: r in RowSeq() ==> r in line
    }

    ghost function RowVals(): seq<Row>
      reads `who, `line, rows
    {
      Vals(who, RowSeq(), line)
    }

    ghost predicate Linked()
      reads `who, `proc, rows, table`priv
    {
      rows.Valid() && rows.seqs.Keys == {()} && Coupled()
    }

    /** The rows are in memory as they should be. */
    ghost predicate Listed()
      reads `who, `line, `proc, rows, table`priv
    {
      Linked() && Lined()
    }

    lemma RowsApart()
      requires Listed()
      ensures Distinct(RowSeq()) && Linked() && Lined()
    {
    }

    lemma RowsCoupled(k: nat)
      requires Listed() && k < |RowSeq()|
      ensures Linked() && Coupled() && |who| == |RowSeq()| == |RowVals()|
      ensures RowVals()[k].pid == who[k] && RowVals()[k].line == LineAt(RowSeq(), line, k)
      ensures RowVals()[k].pid in table.priv <==> RowSeq()[k] in proc
    {
    }

    lemma LineOf(r: RowId)
      requires Listed() && r in RowSeq()
      ensures r in line
    {
    }

    lemma RowsCounted()
      requires Listed()
      ensures Linked() && |who| == |RowSeq()| == |RowVals()| && Pids(RowVals()) == who
    {
    }

    /** p->next */
    method NextRow(r: RowId, ghost k: nat) returns (q: Option<RowId>)
      requires Linked() && k < |RowSeq()| && RowSeq()[k] == r
      ensures q == At(RowSeq(), k + 1) && Nx(r) == SlotAt(RowSeq(), k + 1, ())
    {
      NextOf(rows.ptr, rows.ppv, rows.seqs, (), k);
      q := Deref(rows.ptr, Nx(r));
    }

    method FirstRow() returns (q: Option<RowId>)
      requires Linked()
      ensures q == At(RowSeq(), 0)
    {
      FirstOf(rows.ptr, rows.ppv, rows.seqs, ());
      q := Deref(rows.ptr, Head(()));
    }

    /** while(u) u->line--, from row `k` on. */
    method MoveUp(from: RowId, ghost k: nat)
      requires Listed() && k < |RowSeq()| && RowSeq()[k] == from
      modifies `line
      ensures Listed() && MovedUp(RowSeq(), old(line), line, k, |RowSeq()|)
    {
      ghost var j, rs := k, RowSeq();
      hide Linked, Listed, Lined, Coupled, MovedUp, Distinct;
      RowsApart();
      MoveUpStarts(rs, line, k);
      var u := Some(from);
      while u.Some?
        invariant k <= j <= |rs| && u == At(rs, j)
        invariant MovedUp(rs, old(line), line, k, j)
        decreases |rs| - j
      {
        MoveUpStep(rs, old(line), line, k, j);
        var next := NextRow(u.value, j);
        line := line[u.value := line[u.value] - 1];
        u, j := next, j + 1;
      }
      StillListed(old(line), k, j);
    }

    lemma StillListed(was: map<RowId, int>, k: nat, j: nat)
      requires Linked() && MovedUp(RowSeq(), was, line, k, j)
      ensures Listed()
    {
    }

    /** `if(p->proc) p->proc->priv = 0` and free(p). */
    method FreeRow(r: RowId, ghost k: nat)
      requires Coupled() && k < |RowSeq()| && RowSeq()[k] == r
      modifies `line, `proc, `who, table`priv
      ensures Coupling(who, Dropped(RowSeq(), k), proc, table.priv) && who == Dropped(old(who), k)
      ensures table.priv == old(table.priv) - {old(who)[k]} && line == old(line) - {r}
    {
      RowRemoved(who, RowSeq(), proc, table.priv, k);
      hide Coupling;
      who := Dropped(who, k);
      if r in proc {
        table.priv := table.priv - {proc[r]};
      }
      proc, line := proc - {r}, line - {r};
    }

    lemma DelFacts(k: nat)
      requires Listed() && k < |RowSeq()|
      ensures rows.Valid() && () in rows.seqs && Coupled() && rows.seqs[()] == RowSeq()
      ensures var r := RowSeq()[k];
              && r in RowSeq() && Without(RowSeq(), r) == Dropped(RowSeq(), k)
              && r !in Dropped(RowSeq(), k)
              && (forall x :: x in Dropped(RowSeq(), k) ==> x in line - {r})
    {
      DroppedDistinct(RowSeq(), k);
    }

    lemma ListedFrom(rs: seq<RowId>)
      requires rows.Valid() && rows.seqs.Keys == {()} && rows.seqs[()] == rs
      requires (forall r :: r in rs ==> r in line) && Coupling(who, rs, proc, table.priv)
      ensures Listed() && RowSeq() == rs
    {
    }

    /** proc_del: off the list, off its process, and the memory given back. */
    method ProcDel(r: RowId, ghost k: nat)
      requires Listed() && k < |RowSeq()| && RowSeq()[k] == r
      modifies `line, `proc, `who, rows, table`priv
      ensures Listed() && RowSeq() == Dropped(old(RowSeq()), k) && who == Dropped(old(who), k)
      ensures table.priv == old(table.priv) - {old(who)[k]} && line == old(line) - {r}
    {
      hide Coupling, AllThreaded, Apart, Coupled, Lined, Dropped;
      DelFacts(k);
      ghost var rs := Dropped(RowSeq(), k);
      FreeRow(r, k);
      rows.Del(r, ());
      rows.Clear(r);
      ListedFrom(rs);
    }

    // ---------- delete_tree_lines ----------

    method DeleteTreeLines(w: Widget)
      requires Listed()
      modifies `line, `proc, `who, rows, table`priv, w`vy, w`crsr
      ensures Listed() && table.priv == old(table.priv) && forall p :: p in who ==> p in table.priv
      ensures Off() == old(Off())
      ensures (RowVals(), w.At()) == DeleteLines(old(RowVals()), table.priv.Keys, old(w.At()))
    {
      hide Deleting, Listed, Linked, Lined, Coupled, Distinct;
      ghost var k, S, was, v := 0, table.priv.Keys, RowVals(), w.At();
      DeletingStarts(was, v, S);
      RowsCounted();
      var p := FirstRow();
      while p.Some?
        invariant Listed() && k <= |RowSeq()| && p == At(RowSeq(), k)
        invariant table.priv == old(table.priv) && Deleting(was, v, S, RowVals(), k, w.At())
        decreases |RowSeq()| - k
      {
        RowsCoupled(k);
        if p.value in proc {
          DeletingKeeps(was, v, S, RowVals(), k, w.At());
          p := NextRow(p.value, k);
          k := k + 1;
        } else {
          DeletingDrops(was, v, S, RowVals(), k, w.At());
          p := DeleteLine(w, p.value, k);
        }
      }
      RowsCounted();
      DeletingDone(was, v, S, RowVals(), k, w.At());
    }

    method DeleteLine(w: Widget, p: RowId, ghost k: nat) returns (q: Option<RowId>)
      requires Listed() && k < |RowSeq()| && RowSeq()[k] == p && p !in proc
      modifies `line, `proc, `who, rows, table`priv, w`vy, w`crsr
      ensures Listed() && table.priv == old(table.priv)
      ensures RowVals() == old(RowVals())[..k] + Renumbered(old(RowVals())[k + 1..])
      ensures w.At() == LineDeleted(old(w.At()), old(RowVals())[k].line)
      ensures k <= |RowSeq()| < old(|RowSeq()|) && q == At(RowSeq(), k)
    {
      hide Listed, Linked, Coupled, Lined, Distinct, MovedUp;
      RowsCoupled(k);
      RowsApart();
      assert p in line by {
        LineOf(p);
      }
      w.Deleted(line[p]);
      MoveUp(p, k);
      ValsRemoved(who, RowSeq(), old(line), line, k);
      q := NextRow(p, k);
      ProcDel(p, k);
    }

    // ---------- synchronize ----------

    /** No row is marked. */
    ghost predicate Unmarked()
      reads `who, table`priv
    {
      forall p :: p in who ==> p in table.priv
    }

    lemma ValsStay(r: RowId, k: nat, l: int)
      requires Listed() && Unmarked() && k < |RowSeq()| && RowSeq()[k] == r
      ensures var now, next := RowVals(), Vals(who, RowSeq(), line[r := l]);
              k < |next| && next[..k + 1] == now[..k] + [now[k].(line := l)] && next[k + 1..] == now[k + 1..]
      ensures r in proc && proc[r] in table.priv && table.priv[proc[r] := r] == table.priv
      ensures Linked() && forall x :: x in RowSeq() ==> x in line
    {
      assert who[k] in table.priv;
      ValsRenumbered(who, RowSeq(), line, k, l);
    }

    lemma ListedWith(rs: seq<RowId>)
      requires Linked() && rs == RowSeq() && forall r :: r in rs ==> r in line
      ensures Listed()
    {
    }

    /** The row under *current is taken over by the process that is displayed next. */
    method TakeRow(r: RowId, l: nat, ghost k: nat) returns (q: Option<RowId>)
      requires Listed() && Unmarked() && k < |RowSeq()| && RowSeq()[k] == r
      modifies `line, table`priv
      ensures Listed() && table.priv == old(table.priv) && Off() == old(Off())
      ensures k < |RowVals()| && RowVals()[..k + 1] == old(RowVals())[..k] + [old(RowVals())[k].(line := l)]
      ensures RowVals()[k + 1..] == old(RowVals())[k + 1..]
      ensures Nx(r) == SlotAt(RowSeq(), k + 1, ())
    {
      hide Listed, Linked, Coupled, Unmarked;
      ValsStay(r, k, l);
      line := line[r := l];
      table.priv := table.priv[proc[r] := r];
      ListedWith(RowSeq());
      q := NextRow(r, k);
    }

    /** malloc and memset: an address that is not in use. */
    method AllocRow() returns (z: RowId)
      requires Listed()
      modifies `line, `proc, rows
      ensures Listed() && z !in RowSeq() && RowSeq() == old(RowSeq()) && RowVals() == old(RowVals())
    {
      ghost var free := FreeAddress(line.Keys);
      assert free !in line;
      z :| z !in line;
      ZeroRow(z);
    }

    lemma Absent(z: RowId)
      requires Listed() && z !in line
      ensures rows.Valid() && z !in RowSeq() && (forall k :: k in rows.seqs ==> z !in rows.seqs[k])
      ensures rows.seqs.Keys == {()} && rows.seqs[()] == RowSeq()
      ensures (forall r :: r in RowSeq() ==> r in line - {z})
      ensures Coupling(who, RowSeq(), proc - {z}, table.priv)
      ensures Vals(who, RowSeq(), line - {z}) == RowVals()
    {
      assert line - {z} == line;
    }

    method ZeroRow(z: RowId)
      requires Listed() && z !in line
      modifies `line, `proc, rows
      ensures Listed() && z !in RowSeq() && RowSeq() == old(RowSeq()) && RowVals() == old(RowVals())
    {
      hide Listed, Linked, Lined, Coupled, Coupling, AllThreaded, Apart;
      Absent(z);
      ghost var rs := RowSeq();
      line, proc := line - {z}, proc - {z};
      rows.Clear(z);
      ListedFrom(rs);
    }

    lemma InsertFacts(k: nat, p: Pid, z: RowId, l: int)
      requires Listed() && k <= |RowSeq()| && p !in who && z !in RowSeq()
      ensures rows.Valid() && () in rows.seqs && rows.seqs.Keys == {()} && rows.seqs[()] == RowSeq() && |who| == |RowSeq()|
      ensures forall x :: x in rows.seqs ==> z !in rows.seqs[x]
      ensures Coupling(Inserted(who, k, p), Inserted(RowSeq(), k, z), proc[z := p], table.priv[p := z])
      ensures p !in table.priv && forall r :: r in Inserted(RowSeq(), k, z) ==> r in line[z := l]
      ensures var now, next := RowVals(), Vals(Inserted(who, k, p), Inserted(RowSeq(), k, z), line[z := l]);
              k < |next| && next[..k + 1] == now[..k] + [Row(p, l)] && next[k + 1..] == now[k..]
    {
      RowInserted(who, RowSeq(), proc, table.priv, k, p, z);
      ValsInserted(who, RowSeq(), line, k, p, z, l);
      InsertedDistinct(RowSeq(), k, z);
    }

    /** A row for process `p`, in front of *current. */
    method InsertRow(current: Slot<(), RowId>, z: RowId, p: Pid, l: nat, ghost k: nat)
      requires Listed() && k <= |RowSeq()| && current == SlotAt(RowSeq(), k, ())
      requires p !in who && z !in RowSeq()
      modifies `line, `proc, `nr, `stat, `who, rows, table`priv
      ensures Listed() && table.priv == old(table.priv)[p := z] && nr == old(nr) + 1 && Off() == old(Off())
      ensures k <= |old(who)| && who == Inserted(old(who), k, p)
      ensures k < |RowVals()| && RowVals()[..k + 1] == old(RowVals())[..k] + [Row(p, l)]
      ensures RowVals()[k + 1..] == old(RowVals())[k..]
      ensures |RowSeq()| == old(|RowSeq()|) + 1 && Nx(z) == SlotAt(RowSeq(), k + 1, ())
    {
      hide Listed, Linked, Lined, Coupled, Coupling, AllThreaded, Apart, Tally, One;
      InsertFacts(k, p, z, l);
      OneMore(table.priv.Keys, table.state, p);
      ghost var rs := Inserted(RowSeq(), k, z);
      who := Inserted(who, k, p);
      line := line[z := l];
      table.priv := table.priv[p := z];
      proc := proc[z := p];
      nr := nr + 1;
      stat := Plus(stat, One(StateOf(table.state, p)));
      assert table.priv.Keys == old(table.priv.Keys) + {p};
      rows.Add(current, z, (), k);
      ListedFrom(rs);
    }

    /** A process that is not displayed gets a row. */
    method AddRow(w: Widget, current: Slot<(), RowId>, p: Pid, l: nat, ghost k: nat) returns (next: Slot<(), RowId>)
      requires Listed() && Unmarked() && k <= |RowSeq()| && current == SlotAt(RowSeq(), k, ())
      requires p !in table.priv
      modifies `line, `proc, `nr, `stat, `who, rows, table`priv, w`vy, w`crsr
      ensures Listed() && Unmarked() && nr == old(nr) + 1 && Off() == old(Off())
      ensures table.priv.Keys == old(table.priv.Keys) + {p}
      ensures k < |RowVals()| && RowVals()[..k + 1] == old(RowVals())[..k] + [Row(p, l)]
      ensures RowVals()[k + 1..] == old(RowVals())[k..] && w.At() == LineInserted(old(w.At()), l)
      ensures |RowSeq()| == old(|RowSeq()|) + 1 && next == SlotAt(RowSeq(), k + 1, ())
    {
      hide Listed, Off;
      NotShown(p);
      var z := AllocRow();
      w.Inserted(l);
      InsertRow(current, z, p, l, k);
      InsertedIn(old(who), k, p);
      next := Nx(z);
    }

    lemma NotShown(p: Pid)
      requires Listed() && Unmarked() && p !in table.priv
      ensures p !in who
    {
    }

    lemma TableApart()
      requires Separate()
      ensures var r: object := rows; r != table && r != table.mlist && r != table.broth && r != table.hash
    {
    }

    lemma MergeReady(walk: seq<Pid>)
      requires Listed() && Unmarked() && Distinct(walk)
      ensures |Sel(walk, table.priv.Keys)| <= |RowVals()|
      ensures SlotAt(RowSeq(), 0, ()) == Head(())
    {
      EnoughRows(who, walk, table.priv.Keys);
    }

    /** *current */
    method Current(current: Slot<(), RowId>, ghost k: nat) returns (r: Option<RowId>)
      requires Linked() && k <= |RowSeq()| && current == SlotAt(RowSeq(), k, ())
      ensures r == At(RowSeq(), k)
    {
      assert Threaded(rows.ptr, rows.ppv, rows.seqs[()], ());
      r := Deref(rows.ptr, current);
    }

    /** One turn of the merge. */
    method MergeOne(w: Widget, current: Slot<(), RowId>, p: Pid, l: nat, ghost walk: seq<Pid>, ghost S: set<Pid>,
        ghost was: seq<Row>, ghost v: View)
      returns (next: Slot<(), RowId>)
      requires Listed() && Unmarked() && l < |walk| && walk[l] == p && l <= |RowSeq()|
      requires current == SlotAt(RowSeq(), l, ()) && Merging(walk, S, was, v, RowVals(), l, w.At())
      requires p in table.priv <==> p in S
      modifies `line, `proc, `nr, `stat, `who, rows, table`priv, w`vy, w`crsr
      ensures Listed() && Unmarked() && l + 1 <= |RowSeq()|
      ensures next == SlotAt(RowSeq(), l + 1, ()) && Merging(walk, S, was, v, RowVals(), l + 1, w.At())
      ensures table.priv.Keys == old(table.priv.Keys) + {p}
      ensures nr - |table.priv.Keys| == old(nr) - |old(table.priv.Keys)| && Off() == old(Off())
    {
      hide Listed, Unmarked, Merging, Linked, Off;
      RowsCounted();
      ghost var now, view := RowVals(), w.At();
      var r := Current(current, l);
      if r.Some? && p in table.priv {
        assert table.priv.Keys + {p} == table.priv.Keys;
        var q := TakeRow(r.value, l, l);
        next := Nx(r.value);
        MergingTakes(walk, S, was, v, now, l, view, RowVals());
      } else {
        if p in S {
          MergingHasRow(walk, S, was, v, now, l, view);
          assert false;
        }
        next := AddRow(w, current, p, l, l);
        MergingAdds(walk, S, was, v, now, l, view, RowVals());
      }
      RowsCounted();
    }

    /** synchronize after `l` processes: `S` and `was` are the displayed processes and the rows from
        before, `v` the cursor. */
    ghost predicate Midway(w: Widget, current: Slot<(), RowId>, root: Pid, G: Grove, S: set<Pid>, was: seq<Row>, v: View, l: nat)
      reads this, rows, table, table.mlist, table.broth, table.hash, w
    {
      && l <= |Flat(G)| && l <= |RowSeq()|
      && table.Walking(root, G, l)
      && Listed() && Unmarked() && nr == |table.priv.Keys|
      && current == SlotAt(RowSeq(), l, ()) && Merging(Flat(G), S, was, v, RowVals(), l, w.At())
      && table.priv.Keys == S + Elems(Flat(G)[..l])
    }

    /** One process of the walk. */
    method SyncOne(w: Widget, current: Slot<(), RowId>, p: Pid, l: nat, ghost root: Pid, ghost G: Grove, ghost S: set<Pid>,
        ghost was: seq<Row>, ghost v: View)
      returns (next: Slot<(), RowId>, q: Option<Pid>)
      requires Separate() && Midway(w, current, root, G, S, was, v, l) && Distinct(Flat(G))
      requires l < |Flat(G)| && p == Flat(G)[l]
      modifies `line, `proc, `nr, `stat, `who, rows, table`priv, table`proc, w`vy, w`crsr
      ensures Midway(w, next, root, G, S, was, v, l + 1) && q == At(Flat(G), l + 1) && Off() == old(Off())
    {
      hide Off, Listed, Unmarked, Merging, ProcTable.Walking, Distinct, Elems, Separate, Flat;
      TableApart();
      VisitedOne(Flat(G), S, l);
      next := MergeOne(w, current, p, l, Flat(G), S, was, v);
      q := table.TreeNext(root, G, l);
    }

    lemma MidwayStarts(w: Widget, root: Pid, G: Grove)
      requires Listed() && Unmarked() && nr == |table.priv.Keys| && table.Walking(root, G, 0) && Distinct(Flat(G))
      ensures Midway(w, Head(()), root, G, table.priv.Keys, RowVals(), w.At(), 0)
    {
      hide Listed, Unmarked, Merging, ProcTable.Walking, Distinct;
      MergeReady(Flat(G));
      MergingStarts(Flat(G), table.priv.Keys, RowVals(), w.At());
      NoneVisited(Flat(G), table.priv.Keys);
    }

    lemma MidwayDone(w: Widget, current: Slot<(), RowId>, root: Pid, G: Grove, S: set<Pid>, was: seq<Row>, v: View)
      requires Midway(w, current, root, G, S, was, v, |Flat(G)|)
      ensures Listed() && Unmarked() && nr == |table.priv.Keys| && table.priv.Keys == S + Nodes(G)
      ensures (RowVals(), w.At()) == Rows.Synchronize(Flat(G), was, S, 0, v)
    {
      hide Listed, Unmarked, Merging, ProcTable.Walking, Rows.Synchronize;
      AllVisited(Flat(G), S);
      MergingDone(Flat(G), S, was, v, RowVals(), |Flat(G)|, w.At());
    }

    /** synchronize: `G` is the tree of `root`. */
    method Synchronize(w: Widget, root: Pid, ghost G: Grove)
      requires Separate() && table.Rep() && root > 0 && table.HasTree(root, G)
      requires Listed() && Unmarked() && nr == |table.priv.Keys|
      modifies `line, `proc, `nr, `stat, `who, rows, table`priv, table`proc, table`root, w`vy, w`crsr
      ensures Listed() && Unmarked() && nr == |table.priv.Keys| && Off() == old(Off())
      ensures table.priv.Keys == old(table.priv.Keys) + Nodes(G)
      ensures (RowVals(), w.At()) == Rows.Synchronize(Flat(G), old(RowVals()), old(table.priv.Keys), 0, old(w.At()))
    {
      hide *;
      table.TreeDistinct(root, G);
      TableApart();
      ghost var S, was, v := table.priv.Keys, RowVals(), w.At();
      var l, current := 0, Head(());
      var p := table.TreeStart(root, G);
      MidwayStarts(w, root, G);
      while p.Some?
        invariant l <= |Flat(G)| && p == At(Flat(G), l) && Midway(w, current, root, G, S, was, v, l) && Off() == old(Off())
        decreases |Flat(G)| - l
      {
        InWalk(Flat(G), l);
        current, p := SyncOne(w, current, p.value, l, root, G, S, was, v);
        l := l + 1;
      }
      InWalk(Flat(G), l);
      MidwayDone(w, current, root, G, S, was, v);
    }

    // ---------- ptree_periodic ----------

    /** The rows are the tree `g` of `root`, numbered from 0; with `g` empty, nothing is displayed. */
    ghost predicate Displays(root: Pid, g: Grove)
      reads `who, `line, `proc, `nr, rows, table`priv, table.broth
    {
      && Listed() && Showing(g) && Shows(table.broth.seqs, root, g)
      && Pids(RowVals()) == Flat(g) && NumberedFrom(RowVals(), 0)
    }

    lemma DisplayParts(root: Pid, g: Grove)
      requires Displays(root, g)
      ensures Listed() && Showing(g) && Coupled() && Shows(table.broth.seqs, root, g)
      ensures Pids(RowVals()) == Flat(g) && NumberedFrom(RowVals(), 0)
      ensures table.priv.Keys == Nodes(g)
    {
    }

    twostate lemma Relisted()
      requires old(Listed()) && Coupled() && unchanged(rows) && line == old(line)
      ensures Listed()
    {
    }

    lemma KeptUnmarked()
      ensures Unmarked() <==> forall p :: p in who ==> p in table.priv
    {
    }

    /** What the counters are when they are off by as much as before and by what the scan made wrong. */
    lemma OffIs(c: Counts, t: Table, g: Grove, snap: seq<Info>)
      requires Ok(t) && t.stale == [] && table.Tab() == Refresh.UpdateTree(t, g, snap).0
      requires Off() == Plus(Minus(c, Tally(Nodes(g), t.state)), ScanDrift(Rescan(t), g, snap))
      ensures stat == Recount(c, t, g, snap, table.priv.Keys)
    {
      hide Tally, ScanDrift, Refresh.UpdateTree;
    }

    lemma OffWas(g: Grove)
      requires table.priv.Keys == Nodes(g)
      ensures Off() == Minus(stat, Tally(Nodes(g), table.Tab().state))
    {
    }

    /** update_tree, delete_tree_lines and synchronize one after another: what the display becomes is
        what Refresh.Periodic says, `G` being the new tree of `root2`. */
    method Refreshed(w: Widget, snap: seq<Info>, root2: Pid, ghost root: Pid, ghost g: Grove) returns (ghost G: Grove)
      requires Separate() && table.Valid() && !table.Scanning()
      requires !OwnAncestor(NewParents(table.Tab(), snap), root2) && Displays(root, g) && root2 > 0
      modifies `line, `proc, `nr, `stat, `who, rows, table, table.mlist, table.broth, table.hash, w`vy, w`crsr
      ensures table.Valid() && !table.Scanning() && Listed() && Unmarked() && nr == |table.priv.Keys|
      ensures table.Tab() == Refresh.UpdateTree(old(table.Tab()), g, snap).0
      ensures TreeOf(table.Tab().kids, root2, G) && Distinct(Flat(G))
      ensures table.priv.Keys == Refresh.UpdateTree(old(table.Tab()), g, snap).1 + Nodes(G)
      ensures (RowVals(), w.At()) == Refresh.Periodic(old(table.Tab()), g, old(RowVals()), old(w.At()), snap, Flat(G))
      ensures Off() == Plus(old(Off()), ScanDrift(Rescan(old(table.Tab())), g, snap))
    {
      hide *;
      ghost var t := table.Tab();
      DisplayParts(root, g);
      table.ValidParts();
      TableApart();
      G := TreeAfter(t, g, snap, root2);
      PeriodicParts(t, g, RowVals(), w.At(), snap, Flat(G));
      var n := UpdateTree(snap, root, g);
      Relisted();
      table.ValidParts();
      table.TreeHere(root2, G);
      DeleteTreeLines(w);
      KeptUnmarked();
      Synchronize(w, root2, G);
    }

    /** The rows of the tree `G` are on the list, none of them marked. */
    lemma DisplaysTree(root: Pid, G: Grove)
      requires Listed() && Unmarked() && nr == |table.priv.Keys|
      requires TreeOf(table.broth.seqs, root, G) && Distinct(Flat(G))
      requires Pids(RowVals()) == Flat(G) && NumberedFrom(RowVals(), 0)
      ensures Displays(root, G)
    {
      assert Pids(RowVals()) == who;
      assert forall p :: p in table.priv.Keys <==> p in Nodes(G);
      DistinctSize(Flat(G));
      WholeTreeShows(table.broth.seqs, root, G);
    }

    /** ptree_periodic, for any snapshot whose new tree can be walked: the display of the tree of `root` is
        turned into that of `root2` as Refresh says, and it is right whenever `Followed` says so. */
    method Periodic(w: Widget, snap: seq<Info>, root2: Pid, ghost root: Pid, ghost g: Grove) returns (ghost G: Grove)
      requires Separate() && table.Valid() && !table.Scanning() && Rooted(table.Tab()) && root > 0
      requires Proper(snap) && !OwnAncestor(NewParents(table.Tab(), snap), root2) && Displays(root, g) && root2 > 0
      modifies `line, `proc, `nr, `stat, `who, `seen, rows, table, table.mlist, table.broth, table.hash, w`vy, w`crsr
      ensures table.Valid() && !table.Scanning() && Rooted(table.Tab())
      ensures table.Tab() == Refresh.UpdateTree(old(table.Tab()), g, snap).0
      ensures TreeOf(table.Tab().kids, root2, G) && Distinct(Flat(G))
      ensures (RowVals(), w.At()) == Refresh.Periodic(old(table.Tab()), g, old(RowVals()), old(w.At()), snap, Flat(G))
      ensures stat == Recount(old(stat), old(table.Tab()), g, snap, Refresh.UpdateTree(old(table.Tab()), g, snap).1 + Nodes(G))
      ensures seen == SeenAfter(old(table.Tab()), g, snap, old(seen))
      ensures Followed(old(table.Tab()), g, snap, root, root2) ==> Displays(root2, G)
    {
      hide *;
      ghost var t, rs, v := table.Tab(), RowVals(), w.At();
      DisplayParts(root, g);
      table.ValidParts();
      table.TabParts();
      MirrorsScan(t, g, snap);
      OffWas(g);
      G := Refreshed(w, snap, root2, root, g);
      OffIs(old(stat), t, g, snap);
      seen := SeenAfter(t, g, snap, seen);
      table.TabParts();
      if Followed(t, g, snap, root, root2) {
        RefreshFollows(t, g, rs, v, snap, root, root2, G);
        DisplaysTree(root2, G);
      }
    }

    // ---------- hiding and showing ----------

    /** Between two events: a hidden tree has no rows, no process has a priv and nothing is counted;
        otherwise the rows are the tree of tree_root. */
    ghost predicate Good()
      reads `hidden, `treeRoot, `tree, `who, `line, `proc, `nr, rows, table, table.mlist, table.broth, table.hash
    {
      && Separate() && table.Valid() && !table.Scanning() && Rooted(table.Tab())
      && Displays(treeRoot, tree) && treeRoot > 0
      && (if hidden then tree.Nil? else TreeOf(table.broth.seqs, treeRoot, tree))
    }

    lemma GoodParts()
      ensures Good() <==>
                && Separate() && table.Valid() && !table.Scanning() && Rooted(table.Tab())
                && Displays(treeRoot, tree) && treeRoot > 0
                && (if hidden then tree.Nil? else TreeOf(table.broth.seqs, treeRoot, tree))
    {
    }

    lemma NothingDisplayed(r: Pid)
      ensures Displays(r, Nil) <==> Listed() && RowSeq() == [] && table.priv == map[] && nr == 0
    {
      assert table.priv.Keys == {} <==> table.priv == map[];
      assert Pids(RowVals()) == [] <==> |who| == 0;
    }

    lemma NoRows()
      requires Listed() && RowSeq() == []
      ensures RowVals() == []
    {
    }

    /** clear_list */
    method ClearList()
      requires Listed()
      modifies `line, `proc, `who, rows, table`priv
      ensures Listed() && RowSeq() == [] && table.priv == map[]
    {
      var p := FirstRow();
      while p.Some?
        invariant Listed() && p == At(RowSeq(), 0)
        decreases |RowSeq()|
      {
        var q := NextRow(p.value, 0);
        ProcDel(p.value, 0);
        p := q;
      }
    }

    /** All that a session is about: the table, the display, the cursor, the counters and the panels. */
    ghost function Now(w: Widget, users: bool): Session.State
      reads `hidden, `treeRoot, `pkey, `tree, `who, `line, `stat, `seen, rows, table, table.mlist, table.broth, w
    {
      Session.State(table.Tab(), tree, RowVals(), w.At(), stat, seen, users, Panel(hidden, pkey, treeRoot))
    }

    lemma NowIs(w: Widget, users: bool)
      ensures Now(w, users) ==
              Session.State(table.Tab(), tree, RowVals(), w.At(), stat, seen, users, Panel(hidden, pkey, treeRoot))
    {
    }

    /** A good display is a consistent state of a session. */
    lemma GoodIsConsistent(w: Widget, users: bool)
      requires Good() && users != hidden && (!hidden && pkey == Some(KeyT) ==> treeRoot == INIT_PID)
      ensures Session.Consistent(Now(w, users))
    {
      hide *;
      GoodParts();
      NowIs(w, users);
      DisplayParts(treeRoot, tree);
      table.ValidParts();
      table.TabParts();
      ConsistentParts(Now(w, users));
    }

    /** ptree_hide */
    method Hide()
      requires Good() && !hidden
      modifies `line, `proc, `who, `nr, `stat, `hidden, `tree, rows, table`priv
      ensures Good() && hidden && RowVals() == [] && table.priv == map[] && nr == 0 && stat == NONE
      ensures tree == Nil && table.Tab() == old(table.Tab())
    {
      hide *;
      GoodParts();
      DisplayParts(treeRoot, tree);
      TableApart();
      ClearList();
      NoRows();
      nr, stat, hidden, tree := 0, NONE, true, Nil;
      NothingDisplayed(treeRoot);
      GoodParts();
    }

    /** ptree_unhide, for the tree of `r`. */
    method Unhide(w: Widget, snap: seq<Info>, r: Pid, ghost users: bool) returns (ghost v: View)
      requires Good() && hidden && Proper(snap) && r > 0 && !OwnAncestor(NewParents(table.Tab(), snap), r)
      modifies this, rows, table, table.mlist, table.broth, table.hash, w`vy, w`crsr
      ensures Good() && !hidden && treeRoot == r && pkey == old(pkey)
      ensures w.At() == View(0, 0) && Session.Refreshes(old(Now(w, users)), r, snap, Now(w, users).(v := v))
    {
      hide *;
      GoodParts();
      NowIs(w, users);
      NothingDisplayed(treeRoot);
      NothingDisplayed(r);
      table.ValidParts();
      ghost var t := table.Tab();
      NothingFollows(t, snap, r, r);
      treeRoot := r;
      tree := Periodic(w, snap, r, r, Nil);
      v := w.At();
      hidden := false;
      table.TabParts();
      GoodParts();
      w.ToTop();
      NowIs(w, users);
      RefreshesParts(old(Now(w, users)), r, snap, Now(w, users).(v := v));
    }

    /** A visible tree is refreshed, as that of `r`. */
    method Redisplay(w: Widget, snap: seq<Info>, r: Pid, ghost users: bool)
      requires Good() && !hidden && Proper(snap) && r > 0 && !OwnAncestor(NewParents(table.Tab(), snap), r)
      modifies this, rows, table, table.mlist, table.broth, table.hash, w`vy, w`crsr
      ensures !hidden && treeRoot == r && pkey == old(pkey)
      ensures Session.Refreshes(old(Now(w, users)), r, snap, Now(w, users))
      ensures Followed(old(table.Tab()), old(tree), snap, old(treeRoot), r) ==> Good()
    {
      hide *;
      GoodParts();
      NowIs(w, users);
      table.ValidParts();
      ghost var root := treeRoot;
      treeRoot := r;
      tree := Periodic(w, snap, r, root, tree);
      table.TabParts();
      GoodParts();
      NowIs(w, users);
      RefreshesParts(old(Now(w, users)), r, snap, Now(w, users));
    }

    /** The timer, or 'r': one step of a session. `users` says whether the user list is hidden. */
    method Tick(w: Widget, snap: seq<Info>, ghost users: bool)
      requires Good() && Session.Readable(Now(w, users), Session.Tick(snap))
      modifies this, rows, table, table.mlist, table.broth, table.hash, w`vy, w`crsr
      ensures Session.Step(old(Now(w, users)), Session.Tick(snap), Now(w, users))
      ensures old(Session.Follows(Now(w, users), Session.Tick(snap))) ==> Good()
    {
      hide *;
      NowIs(w, users);
      ghost var s := Now(w, users);
      TickParts(s, snap);
      if !hidden {
        GoodParts();
        Redisplay(w, snap, treeRoot, users);
        NowIs(w, users);
      }
      TickTaken(s, snap, Now(w, users));
    }

    /** pswitch: one step of a session too. */
    method Switch(w: Widget, k: Toggle, user: Option<Pid>, snap: seq<Info>, ghost users: bool)
      requires Good() && Session.Readable(Now(w, users), Session.Switch(Event(k, user), snap))
      modifies this, rows, table, table.mlist, table.broth, table.hash, w`vy, w`crsr
      ensures Session.Step(old(Now(w, users)), Session.Switch(Event(k, user), snap),
                           Now(w, SwitchUsers(users, Event(k, user))))
      ensures old(Session.Follows(Now(w, users), Session.Switch(Event(k, user), snap))) ==> Good()
    {
      hide *;
      InitPositive();
      NowIs(w, users);
      ghost var s, e := Now(w, users), Event(k, user);
      ghost var v := w.At();
      SwitchParts(s, e, snap);
      SwitchCases(s.p, e);
      GoodParts();
      if !hidden {
        if pkey == Some(k) || k == KeyEnter {
          if k != KeyT {
            Hide();
          }
        } else {
          Redisplay(w, snap, INIT_PID, users);
        }
      } else {
        var r := if k == KeyEnter && user.Some? then user.value else INIT_PID;
        v := Unhide(w, snap, r, users);
      }
      NowIs(w, users);
      ghost var m := Now(w, users);
      GoodParts();
      pkey := Some(k);
      GoodParts();
      NowIs(w, SwitchUsers(users, e));
      SwitchTaken(s, e, snap, m, v, Now(w, SwitchUsers(users, e)));
    }

    // ---------- searching ----------

    lemma RowHere(k: nat)
      requires Listed() && Unmarked() && NumberedFrom(RowVals(), 0) && k < |RowSeq()|
      ensures var r := RowSeq()[k];
              r in proc && proc[r] == who[k] && r in line && line[r] == k && |who| == |RowSeq()| && Pids(RowVals()) == who
    {
      assert who[k] in table.priv;
      assert RowVals()[k].line == k;
    }

    /** getprocbyname: `m` are the processes the pattern matches; `t` says where to look: 0 below the
        cursor, 1 from the cursor on, 2 from the first line on. */
    method GetProcByName(w: Widget, t: int, m: set<Pid>) returns (r: int)
      requires Listed() && Unmarked() && NumberedFrom(RowVals(), 0) && w.y < w.ysize && w.crsr >= 0
      modifies w`vy, w`crsr
      ensures var from := if t == 0 then old(w.crsr) + 1 else if t == 1 then old(w.crsr) else 0;
              var f := FindFrom(Pids(RowVals()), m, from);
              && r == (if f.Some? then 1 else 2)
              && w.At() == if f.Some? then Jump(old(w.At()), w.Extent(), f.value) else old(w.At())
    {
      hide Listed, Linked, Coupled, Unmarked, NumberedFrom;
      var l := w.crsr;
      ghost var from := if t == 0 then l + 1 else if t == 1 then l else 0;
      ghost var k, ps := 0, Pids(RowVals());
      RowsCounted();
      FirstFrom(ps, m, from);
      var p := FirstRow();
      while p.Some?
        invariant k <= |ps| == |RowSeq()| && p == At(RowSeq(), k)
        invariant from <= k ==> FindFrom(ps, m, from) == FindFrom(ps, m, k)
        invariant w.At() == old(w.At())
        decreases |ps| - k
      {
        RowHere(k);
        FirstFrom(ps, m, k);
        var n := line[p.value];
        if !(p.value !in proc || (t == 0 && n <= l) || (t == 1 && n < l)) {
          if proc[p.value] in m {
            w.CrsrJmp(n);
            return 1;
          }
        }
        p := NextRow(p.value, k);
        k := k + 1;
      }
      FirstFrom(ps, m, k);
      return 2;
    }

    /** ENTER in the search line: below the cursor, and if there is nothing, from the top. */
    method DoSearch(w: Widget, m: set<Pid>)
      requires Listed() && Unmarked() && NumberedFrom(RowVals(), 0) && w.y < w.ysize && w.crsr >= 0
      modifies w`vy, w`crsr
      ensures w.crsr == Search.Enter(Pids(RowVals()), m, old(w.crsr))
    {
      var r := GetProcByName(w, 0, m);
      if r == 2 {
        r := GetProcByName(w, 2, m);
      }
    }
  }

  lemma ConsistentParts(s: Session.State)
    requires Ok(s.t) && s.t.stale == [] && Rooted(s.t)
    requires s.p.root > 0 && s.users != s.p.hidden
    requires !s.p.hidden && s.p.last == Some(KeyT) ==> s.p.root == INIT_PID
    requires Pids(s.rows) == Flat(s.g) && NumberedFrom(s.rows, 0) && Shows(s.t.kids, s.p.root, s.g)
    requires if s.p.hidden then s.g.Nil? else TreeOf(s.t.kids, s.p.root, s.g)
    ensures Session.Consistent(s)
  {
  }

  lemma RefreshesParts(s: Session.State, root: Pid, snap: seq<Info>, n: Session.State)
    requires Ok(s.t) && s.t.stale == []
    requires n.t == Refresh.UpdateTree(s.t, s.g, snap).0 && TreeOf(n.t.kids, root, n.g)
    requires (n.rows, n.v) == Refresh.Periodic(s.t, s.g, s.rows, s.v, snap, Flat(n.g))
    requires n.stat == Recount(s.stat, s.t, s.g, snap, Refresh.UpdateTree(s.t, s.g, snap).1 + Nodes(n.g))
    requires n.seen == SeenAfter(s.t, s.g, snap, s.seen)
    ensures Session.Refreshes(s, root, snap, n)
  {
  }

  lemma TickParts(s: Session.State, snap: seq<Info>)
    requires Session.Readable(s, Session.Tick(snap))
    ensures Proper(snap) && (!s.p.hidden ==> !OwnAncestor(NewParents(s.t, snap), s.p.root))
    ensures Session.Follows(s, Session.Tick(snap)) && !s.p.hidden ==> Followed(s.t, s.g, snap, s.p.root, s.p.root)
  {
  }

  lemma TickTaken(s: Session.State, snap: seq<Info>, n: Session.State)
    requires if s.p.hidden then n == s else Session.Refreshes(s, s.p.root, snap, n) && n.p == s.p && n.users == s.users
    ensures Session.Step(s, Session.Tick(snap), n)
  {
    hide Session.Refreshes;
  }

  lemma SwitchParts(s: Session.State, e: Event, snap: seq<Info>)
    requires Session.Readable(s, Session.Switch(e, snap))
    ensures Proper(snap) && (e.user.Some? ==> e.user.value > 0)
    ensures s.p.hidden ==> !OwnAncestor(NewParents(s.t, snap), SwitchTree(s.p, e).root)
    ensures !s.p.hidden && e.key == KeyT && s.p.last != Some(KeyT) ==>
              && !OwnAncestor(NewParents(s.t, snap), INIT_PID)
              && (Session.Follows(s, Session.Switch(e, snap)) ==> Followed(s.t, s.g, snap, s.p.root, INIT_PID))
  {
  }

  /** `m` is the state before the key is remembered. */
  lemma SwitchTaken(s: Session.State, e: Event, snap: seq<Info>, m: Session.State, v: View, n: Session.State)
    requires n == m.(users := SwitchUsers(s.users, e), p := SwitchTree(s.p, e))
    requires if s.p.hidden then m.v == View(0, 0) && Session.Refreshes(s, SwitchTree(s.p, e).root, snap, m.(v := v))
             else if e.key == KeyEnter then m == s.(g := Nil, rows := [], stat := NONE, p := m.p)
             else if s.p.last == Some(KeyT) then m == s
             else Session.Refreshes(s, INIT_PID, snap, m)
    ensures Session.Step(s, Session.Switch(e, snap), n)
  {
    if s.p.hidden {
      OtherPanel(s, SwitchTree(s.p, e).root, snap, m.(v := v), n.users, n.p);
      assert m.(v := v).(users := n.users, p := n.p) == n.(v := v);
    } else if e.key == KeyT && s.p.last != Some(KeyT) {
      OtherPanel(s, INIT_PID, snap, m, n.users, n.p);
    }
  }

  lemma OtherPanel(s: Session.State, root: Pid, snap: seq<Info>, n: Session.State, users: bool, p: Panel)
    requires Session.Refreshes(s, root, snap, n)
    ensures Session.Refreshes(s, root, snap, n.(users := users, p := p))
  {
  }

  lemma Drifted(c: Counts, before: Counts, after: Counts)
    ensures Minus(c, after) == Plus(Minus(c, before), Minus(before, after))
  {
  }

  lemma FirstFrom(ps: seq<Pid>, m: set<Pid>, l: nat)
    ensures FindFrom(ps, m, l) ==
            if l >= |ps| then None else if ps[l] in m then Some(l) else FindFrom(ps, m, l + 1)
  {
  }

  lemma EmptyRooted()
    ensures Rooted(Empty()) && INIT_PID == 1 && Nil.Nil?
  {
  }

  lemma InitPositive()
    ensures INIT_PID == 1
  {
  }

  lemma InWalk(walk: seq<Pid>, l: nat)
    requires l <= |walk|
    ensures At(walk, l).Some? <==> l < |walk|
    ensures l < |walk| ==> At(walk, l) == Some(walk[l])
  {
  }

  lemma InsertedIn(s: seq<Pid>, k: nat, p: Pid)
    requires k <= |s|
    ensures forall x :: x in Inserted(s, k, p) <==> x in s || x == p
  {
    assert s == s[..k] + s[k..];
  }

  lemma PeriodicParts(t: Table, g: Grove, rows: seq<Row>, v: View, snap: seq<Info>, walk: seq<Pid>)
    requires Ok(t) && t.stale == []
    ensures var shown := Refresh.UpdateTree(t, g, snap).1;
            var (kept, v') := DeleteLines(rows, shown, v);
            Refresh.Periodic(t, g, rows, v, snap, walk) == Rows.Synchronize(walk, kept, shown, 0, v')
  {
  }

  lemma UpdateFacts(t: Table, g: Grove, snap: seq<Info>, root: Pid)
    requires Ok(t) && t.stale == [] && Shows(t.kids, root, g)
    ensures Ok(Rescan(t))
    ensures var (u, h) := Scan(Rescan(t), g, snap);
            && Ok(u) && |Flat(h)| == |Nodes(h)| && Ok(Sweep(u))
            && Scanned(t, g, snap) == (u, h)
            && Refresh.UpdateTree(t, g, snap) == (Sweep(u), Nodes(h) - Elems(u.stale))
            && Changes(t, g, snap) == |u.kids.Keys| - |t.kids.Keys| + |u.stale|
  {
    var (u, h) := Scan(Rescan(t), g, snap);
    ScannedOk(t, g, snap);
    ScanShows(Rescan(t), g, snap, root);
    SweepOk(u);
    DistinctSize(Flat(h));
    ShownSurvivors(u, Nodes(h));
  }

  lemma ShownSurvivors(u: Table, S: set<Pid>)
    requires Ok(u) && S <= u.kids.Keys
    ensures S * Survivors(u) == S - Elems(u.stale)
  {
    forall x | x in S
      ensures x in Survivors(u) <==> x !in Elems(u.stale)
    {
      assert x in u.kids;
    }
  }

  lemma BuryFacts(t: Table, x: Pid)
    requires Ok(t) && t.stale != [] && t.stale[0] == x
    ensures LinksOk(t.kids, t.parent) && x in t.kids && x > 1
  {
    assert x in t.stale;
  }

  lemma SweepStep(t: Table, S: seq<Pid>, n: nat)
    requires Ok(t) && n < |S| && t.stale == S[n..]
    ensures S[n..] != [] && S[n..][0] == S[n] && S[n..][1..] == S[n + 1..]
    ensures Ok(Bury(t)) && Sweep(Bury(t)) == Sweep(t)
  {
    BuryOk(t);
  }

  lemma SweepNone(t: Table)
    ensures Ok(t) && t.stale == [] ==> Sweep(t) == t
  {
  }

  lemma DeadFirst(S: seq<Pid>, shown: set<Pid>)
    ensures shown - Elems(S[..0]) == shown
  {
  }

  lemma DeadStep(S: seq<Pid>, n: nat, shown: set<Pid>)
    requires n < |S|
    ensures shown - Elems(S[..n]) - {S[n]} == shown - Elems(S[..n + 1])
  {
    assert S[..n + 1] == S[..n] + [S[n]];
  }

  lemma SizeWithout(A: set<Pid>, x: Pid)
    ensures |A - {x}| == |A| - if x in A then 1 else 0
  {
    if x !in A {
      assert A - {x} == A;
    }
  }

  lemma ScanOneFacts(t: Table, g: Grove, i: Info, root: Pid)
    requires Ok(t) && Shows(t.kids, root, g)
    ensures forall p :: p in Nodes(g) ==> p in t.kids
    ensures var u := Touch(t, i);
            && Distinct(Flat(g)) && Fits(u.kids, Nodes(g), g)
            && i.ppid in u.kids
            && (if i.pid in u.parent then u.parent[i.pid] in u.kids && i.pid in u.kids[u.parent[i.pid]]
                else forall k :: k in u.kids ==> i.pid !in u.kids[k])
  {
    TouchShows(t, g, i, root);
    TouchLinks(t, i);
  }

  /** mark_del has dealt with `D`, and with the siblings before `s`; of `k` the grove `n` is left. */
  ghost predicate Marking(kids: Kids, s: seq<Pid>, S: set<Pid>, k: Grove, n: Grove, D: set<Pid>) {
    && Tops(n) == Sel(s, S)
    && Distinct(Flat(n))
    && Fits(kids, S - D, n)
    && Nodes(k) == D + Nodes(n) && D !! Nodes(n)
    && (n == k || n < k)
  }

  lemma MarkingStarts(kids: Kids, s: seq<Pid>, S: set<Pid>, k: Grove)
    requires Tops(k) == Sel(s, S) && Fits(kids, S, k) && Distinct(Flat(k))
    ensures s[0..] == s && Marking(kids, s[0..], S, k, k, {})
  {
    assert S - {} == S;
  }

  lemma MarkingFirst(kids: Kids, s: seq<Pid>, S: set<Pid>, k: Grove, n: Grove, D: set<Pid>)
    requires Marking(kids, s, S, k, n, D) && s != [] && s[0] in S - D
    ensures n.Cons? && n.pid == s[0] && n.kids < k && n.next < k && n.pid in kids
    ensures Tops(n.kids) == Sel(kids[n.pid], S - D) && Fits(kids, S - D, n.kids) && Fits(kids, S - D, n.next)
    ensures Tops(n.next) == Sel(s[1..], S)
  {
    assert Tops(n)[0] == s[0] && Tops(n)[1..] == Sel(s[1..], S);
    assert Tops(n)[1..] == Tops(n.next);
  }

  lemma NodesApart(n: Grove)
    requires n.Cons? && Distinct(Flat(n))
    ensures var E := {n.pid} + Nodes(n.kids);
            && Nodes(n) == E + Nodes(n.next) && E !! Nodes(n.next)
            && |Flat(n)| == 1 + |Flat(n.kids)| + |Flat(n.next)|
  {
    DistinctParts(n);
  }

  lemma MarkingShown(kids: Kids, s: seq<Pid>, S: set<Pid>, k: Grove, n: Grove, D: set<Pid>)
    requires Marking(kids, s, S, k, n, D) && s != [] && s[0] in S - D
    ensures n.Cons? && n.pid == s[0] && n.kids < k && n.pid in kids
    ensures Tops(n.kids) == Sel(kids[n.pid], S - D) && Fits(kids, S - D, n.kids)
    ensures Distinct(Flat(n.kids)) && n.pid !in Flat(n.kids)
    ensures |Flat(n)| == 1 + |Flat(n.kids)| + |Flat(n.next)|
    ensures Marking(kids, s[1..], S, k, n.next, D + ({n.pid} + Nodes(n.kids)))
    ensures S - D - ({n.pid} + Nodes(n.kids)) == S - (D + ({n.pid} + Nodes(n.kids)))
  {
    MarkingFirst(kids, s, S, k, n, D);
    var E := {n.pid} + Nodes(n.kids);
    DistinctParts(n);
    NodesApart(n);
    hide Fits, Sel, Tops, Distinct, Nodes, Flat;
    assert S - D - E == S - (D + E);
    FitsShrunk(kids, S - D, S - D - E, n.next);
  }

  lemma MarkingHidden(kids: Kids, s: seq<Pid>, S: set<Pid>, k: Grove, n: Grove, D: set<Pid>)
    requires Marking(kids, s, S, k, n, D) && s != [] && s[0] !in S - D
    ensures Marking(kids, s[1..], S, k, n, D)
  {
    if s[0] in S {
      assert false;
    }
  }

  lemma MarkingDone(kids: Kids, s: seq<Pid>, S: set<Pid>, k: Grove, n: Grove, D: set<Pid>, q: Pid)
    requires Marking(kids, s, S, k, n, D) && s == []
    ensures n == Nil && D == Nodes(k) && S - D - {q} == S - ({q} + Nodes(k))
  {
  }

  /** Removing rows outside `g` does not change what the child lists show of `g`. */
  lemma {:induction false} FitsShrunk(kids: Kids, S: set<Pid>, S': set<Pid>, g: Grove)
    requires Fits(kids, S, g) && S' <= S && Nodes(g) * S <= S'
    ensures Fits(kids, S', g)
    decreases g
  {
    if g.Cons? {
      assert forall x :: x in Flat(g.kids) || x in Flat(g.next) ==> x in Nodes(g);
      assert forall x :: x in kids[g.pid] && x in S ==> x in Tops(g.kids);
      SelCongruent(kids[g.pid], S, S');
      FitsShrunk(kids, S, S', g.kids);
      FitsShrunk(kids, S, S', g.next);
    }
  }
}
