/** The displayed rows (struct process of plist.c) and what they do to the cursor: deleting marked
    rows, merging the rest with a fresh preorder walk. Rows are values here: the pid of the
    process they show and their line. */
module Rows {
  import opened Seqs
  import opened Groves
  import opened Screen

  /** Addresses of displayed rows (struct process). */
  type RowId = nat

  datatype Row = Row(pid: Pid, line: int)

  function Pids(rows: seq<Row>): (s: seq<Pid>)
    ensures |s| == |rows|
    ensures forall i :: 0 <= i < |rows| ==> s[i] == rows[i].pid
  {
    seq(|rows|, i requires 0 <= i < |rows| => rows[i].pid)
  }

  ghost predicate NumberedFrom(rows: seq<Row>, l: int) {
    forall i :: 0 <= i < |rows| ==> rows[i].line == l + i
  }

  function Renumbered(rows: seq<Row>): (r: seq<Row>)
    ensures |r| == |rows|
    ensures forall i :: 0 <= i < |rows| ==> r[i] == Row(rows[i].pid, rows[i].line - 1)
  {
    seq(|rows|, i requires 0 <= i < |rows| => Row(rows[i].pid, rows[i].line - 1))
  }

  /** delete_tree_lines: every row not in `shown` is reported to the widget with its current line
      and taken out, and all later rows move up. */
  function DeleteLines(rows: seq<Row>, shown: set<Pid>, v: View): (seq<Row>, View)
    decreases |rows|
  {
    if rows == [] then ([], v)
    else if rows[0].pid in shown then
      var (rest, v') := DeleteLines(rows[1..], shown, v);
      ([rows[0]] + rest, v')
    else
      DeleteLines(Renumbered(rows[1..]), shown, LineDeleted(v, rows[0].line))
  }

  /** synchronize: `walk` is what tree_next still has to visit, `rows` the list from *current on.
      A displayed process takes over the row under *current, whichever that is. */
  function Synchronize(walk: seq<Pid>, rows: seq<Row>, shown: set<Pid>, l: nat, v: View): (seq<Row>, View)
    decreases |walk|
  {
    if walk == [] then (rows, v)
    else if rows != [] && walk[0] in shown then
      var (rest, v') := Synchronize(walk[1..], rows[1..], shown, l + 1, v);
      ([rows[0].(line := l)] + rest, v')
    else
      var (rest, v') := Synchronize(walk[1..], rows, shown, l + 1, LineInserted(v, l));
      ([Row(walk[0], l)] + rest, v')
  }

  // ---------- what is left on the screen ----------

  lemma {:induction false} DeleteExact(rows: seq<Row>, shown: set<Pid>, v: View, l: int)
    requires NumberedFrom(rows, l)
    ensures Pids(DeleteLines(rows, shown, v).0) == Sel(Pids(rows), shown)
    ensures NumberedFrom(DeleteLines(rows, shown, v).0, l)
    decreases |rows|
  {
    if rows != [] {
      assert Pids(rows)[1..] == Pids(rows[1..]) == Pids(Renumbered(rows[1..]));
      if rows[0].pid in shown {
        DeleteExact(rows[1..], shown, v, l + 1);
      } else {
        DeleteExact(Renumbered(rows[1..]), shown, LineDeleted(v, rows[0].line), l);
      }
    }
  }

  lemma ConsPids(rows: seq<Row>)
    requires rows != []
    ensures Pids(rows) == [rows[0].pid] + Pids(rows[1..])
  {
  }

  /** If the remaining rows are the displayed part of the walk, the list becomes the walk, with
      consecutive line numbers. */
  lemma {:induction false} SyncCompletes(walk: seq<Pid>, rows: seq<Row>, shown: set<Pid>, l: nat, v: View)
    requires Pids(rows) == Sel(walk, shown)
    ensures Pids(Synchronize(walk, rows, shown, l, v).0) == walk
    ensures NumberedFrom(Synchronize(walk, rows, shown, l, v).0, l)
    decreases |walk|
  {
    if walk == [] {
      assert |rows| == 0;
    } else {
      ConsPids(Synchronize(walk, rows, shown, l, v).0);
      if walk[0] in shown {
        ConsPids(rows);
        SyncCompletes(walk[1..], rows[1..], shown, l + 1, v);
      } else {
        SyncCompletes(walk[1..], rows, shown, l + 1, LineInserted(v, l));
      }
    }
  }

  /** And only then: a row that is not the one the walk is at is silently taken for it. */
  lemma {:induction false} SyncNeeds(walk: seq<Pid>, rows: seq<Row>, shown: set<Pid>, l: nat, v: View)
    requires Distinct(walk)
    requires forall x :: x in walk ==> (x in shown <==> x in Pids(rows))
    requires Pids(Synchronize(walk, rows, shown, l, v).0) == walk
    ensures Pids(rows) == Sel(walk, shown)
    decreases |walk|
  {
    var r := Synchronize(walk, rows, shown, l, v).0;
    if walk == [] {
      assert |rows| == 0;
    } else {
      ConsPids(r);
      assert walk[0] !in walk[1..];
      assert walk[1..] == Pids(r[1..]) by { assert walk == [walk[0]] + walk[1..]; }
      if walk[0] in shown {
        ConsPids(rows);
        assert Pids(r)[0] == rows[0].pid;
        SyncNeeds(walk[1..], rows[1..], shown, l + 1, v);
      } else {
        SyncNeeds(walk[1..], rows, shown, l + 1, LineInserted(v, l));
      }
    }
  }

  // ---------- the cursor follows its process ----------

  lemma {:induction false} DeleteBelowCursor(rows: seq<Row>, shown: set<Pid>, v: View, l: int)
    requires NumberedFrom(rows, l) && l >= v.crsr
    ensures DeleteLines(rows, shown, v).1 == v
    decreases |rows|
  {
    if rows != [] {
      if rows[0].pid in shown {
        DeleteBelowCursor(rows[1..], shown, v, l + 1);
      } else {
        DeleteBelowCursor(Renumbered(rows[1..]), shown, v, l);
      }
    }
  }

  /** The cursor is on row `i`, which stays: it ends up on that row's new line, and the screen has
      scrolled back by as many lines as went above it, or to the top. */
  lemma {:induction false} DeleteFollows(rows: seq<Row>, shown: set<Pid>, v: View, l: int, i: nat)
    requires NumberedFrom(rows, l)
    requires i < |rows| && rows[i].pid in shown && v.crsr == l + i
    ensures var j := |Sel(Pids(rows)[..i], shown)|;
            var (r, w) := DeleteLines(rows, shown, v);
            && j < |r| && r[j].pid == rows[i].pid
            && w.crsr == l + j
            && w.vy == if v.vy >= i - j then v.vy - (i - j) else 0
    decreases |rows|
  {
    var ps := Pids(rows);
    if i == 0 {
      DeleteBelowCursor(rows[1..], shown, v, l + 1);
    } else {
      assert ps[..i] == [ps[0]] + ps[1..][..i - 1];
      assert ps[1..] == Pids(rows[1..]) == Pids(Renumbered(rows[1..]));
      if rows[0].pid in shown {
        DeleteFollows(rows[1..], shown, v, l + 1, i - 1);
      } else {
        DeleteFollows(Renumbered(rows[1..]), shown, LineDeleted(v, l), l, i - 1);
      }
    }
  }

  lemma {:induction false} SyncBelowCursor(walk: seq<Pid>, rows: seq<Row>, shown: set<Pid>, l: nat, v: View)
    requires l > v.crsr
    ensures Synchronize(walk, rows, shown, l, v).1 == v
    decreases |walk|
  {
    if walk != [] {
      if rows != [] && walk[0] in shown {
        SyncBelowCursor(walk[1..], rows[1..], shown, l + 1, v);
      } else {
        SyncBelowCursor(walk[1..], rows, shown, l + 1, v);
      }
    }
  }

  lemma SyncStep(walk: seq<Pid>, rows: seq<Row>, shown: set<Pid>, l: nat, v: View)
    requires walk != []
    ensures Synchronize(walk, rows, shown, l, v).1 ==
            if rows != [] && walk[0] in shown then Synchronize(walk[1..], rows[1..], shown, l + 1, v).1
            else Synchronize(walk[1..], rows, shown, l + 1, LineInserted(v, l)).1
  {
  }

  /** How many of the first `k` are displayed. */
  lemma SelStep(walk: seq<Pid>, shown: set<Pid>, k: nat)
    requires 0 < k <= |walk|
    ensures |Sel(walk[..k], shown)| == |Sel(walk[1..][..k - 1], shown)| + if walk[0] in shown then 1 else 0
    ensures Sel(walk, shown) == (if walk[0] in shown then [walk[0]] else []) + Sel(walk[1..], shown)
  {
    assert walk[..k][0] == walk[0] && walk[..k][1..] == walk[1..][..k - 1];
  }

  /** At the very top the cursor does not move, whatever is inserted. */
  lemma {:induction false} SyncAtTop(walk: seq<Pid>, rows: seq<Row>, shown: set<Pid>, l: nat, v: View)
    requires v == View(0, 0)
    ensures Synchronize(walk, rows, shown, l, v).1 == v
    decreases |walk|
  {
    if walk != [] {
      if rows != [] && walk[0] in shown {
        SyncAtTop(walk[1..], rows[1..], shown, l + 1, v);
      } else {
        SyncAtTop(walk[1..], rows, shown, l + 1, v);
      }
    }
  }

  /** The cursor is on the row of the process that comes `k`-th in the walk; `i` of the processes
      before it are displayed. It stays with the process, and the screen scrolls along; only at the
      very top it stays where it is. */
  lemma {:induction false} SyncFollows(walk: seq<Pid>, rows: seq<Row>, shown: set<Pid>, l: nat, v: View, k: nat)
    requires Pids(rows) == Sel(walk, shown)
    requires k < |walk| && walk[k] in shown
    requires v.crsr == l + |Sel(walk[..k], shown)|
    ensures var w := Synchronize(walk, rows, shown, l, v).1;
            w == if v == View(0, 0) then v else View(v.vy + (k - |Sel(walk[..k], shown)|), l + k)
    decreases |walk|
  {
    hide Synchronize, Sel, Pids;
    if v == View(0, 0) {
      SyncAtTop(walk, rows, shown, l, v);
    } else {
      SyncStep(walk, rows, shown, l, v);
      RowsStep(walk, rows, shown, k);
      if k == 0 {
        SyncBelowCursor(walk[1..], rows[1..], shown, l + 1, v);
      } else if walk[0] in shown {
        SyncFollows(walk[1..], rows[1..], shown, l + 1, v, k - 1);
      } else {
        SyncFollows(walk[1..], rows, shown, l + 1, LineInserted(v, l), k - 1);
      }
    }
  }

  /** One process further in the walk. */
  lemma RowsStep(walk: seq<Pid>, rows: seq<Row>, shown: set<Pid>, k: nat)
    requires Pids(rows) == Sel(walk, shown) && k < |walk|
    ensures walk[0] in shown ==> rows != [] && Pids(rows[1..]) == Sel(walk[1..], shown)
    ensures walk[0] !in shown ==> Pids(rows) == Sel(walk[1..], shown)
    ensures |Sel(walk[..k], shown)| ==
            if k == 0 then 0 else |Sel(walk[1..][..k - 1], shown)| + if walk[0] in shown then 1 else 0
  {
    if k > 0 {
      SelStep(walk, shown, k);
    }
    if walk[0] in shown {
      assert |Sel(walk, shown)| > 0;
      ConsPids(rows);
    }
  }

  /** Deleting and merging together. The cursor is on row `i`, which stays; `lost` rows above it go. It
      stays with the process of its row, and the screen with it unless it hits the top, exactly if that
      row does not come to lie at the very top of the screen and then gets a new one above it. */
  lemma CursorStays(rows: seq<Row>, shown: set<Pid>, v: View, walk: seq<Pid>, i: nat)
    requires NumberedFrom(rows, 0) && Distinct(walk)
    requires Sel(Pids(rows), shown) == Sel(walk, shown)
    requires i < |rows| && v.crsr == i && rows[i].pid in shown
    ensures var (kept, v') := DeleteLines(rows, shown, v);
            var w := Synchronize(walk, kept, shown, 0, v').1;
            var lost := i - |Sel(Pids(rows)[..i], shown)|;
            && walk != [] && 0 <= w.crsr < |walk|
            && (walk[w.crsr] == rows[i].pid <==> !(lost == i && v.vy <= i && walk[0] !in shown))
            && (lost <= v.vy ==> w.crsr - w.vy == v.crsr - v.vy)
            && (lost > v.vy ==> w.crsr - w.vy == v.crsr - lost)
  {
    hide DeleteLines, Synchronize;
    var (kept, v') := DeleteLines(rows, shown, v);
    var j := |Sel(Pids(rows)[..i], shown)|;
    DeleteExact(rows, shown, v, 0);
    DeleteFollows(rows, shown, v, 0, i);
    assert Pids(kept)[j] == rows[i].pid;
    var k :| 0 <= k < |walk| && walk[k] == rows[i].pid;
    SelIndex(walk, shown, k);
    SelDistinct(walk, shown);
    assert Sel(walk, shown)[j] == Sel(walk, shown)[|Sel(walk[..k], shown)|];
    SyncFollows(walk, kept, shown, 0, v', k);
    if j == 0 {
      FirstSelected(walk, shown, k);
    }
  }

  /** Nothing displayed before place `k`: that is the first place exactly if the first is displayed. */
  lemma FirstSelected(walk: seq<Pid>, shown: set<Pid>, k: nat)
    requires k < |walk| && walk[k] in shown && |Sel(walk[..k], shown)| == 0
    ensures k == 0 <==> walk[0] in shown
  {
    assert k > 0 ==> walk[..k][0] == walk[0];
  }
}
