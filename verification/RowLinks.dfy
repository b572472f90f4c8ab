/** The cross-links between displayed rows and processes (priv in proc_t, proc in struct process), as
    values: what deleting and inserting one row does to them. */
module RowLinks {
  import opened Seqs
  import opened Groves
  import opened Screen
  import opened Rows

  /** priv and proc are inverse to each other, and a row whose process lost it is marked. `who` is
      the process each row was made for. */
  ghost predicate Coupling(who: seq<Pid>, rows: seq<RowId>, proc: map<RowId, Pid>, priv: map<Pid, RowId>) {
    && |who| == |rows| && Distinct(who) && Distinct(rows)
    && (forall p :: p in priv ==> p in who)
    && (forall i :: 0 <= i < |who| && who[i] in priv ==>
          priv[who[i]] == rows[i] && rows[i] in proc && proc[rows[i]] == who[i])
    && (forall i :: 0 <= i < |who| && who[i] !in priv ==> rows[i] !in proc)
  }

  function LineAt(rows: seq<RowId>, line: map<RowId, int>, i: int): int {
    if 0 <= i < |rows| && rows[i] in line then line[rows[i]] else 0
  }

  /** The rows as values. */
  function Vals(who: seq<Pid>, rows: seq<RowId>, line: map<RowId, int>): (r: seq<Row>)
    ensures |r| == |who|
    ensures forall i :: 0 <= i < |who| ==> r[i] == Row(who[i], LineAt(rows, line, i))
  {
    seq(|who|, i requires 0 <= i < |who| => Row(who[i], LineAt(rows, line, i)))
  }

  /** Rows `lo` to `hi` are one line further up than they were. */
  ghost predicate MovedUp(rows: seq<RowId>, was: map<RowId, int>, line: map<RowId, int>, lo: nat, hi: nat) {
    && (forall r :: r in rows ==> r in line)
    && (forall i :: 0 <= i < |rows| ==>
          LineAt(rows, line, i) == LineAt(rows, was, i) - if lo <= i < hi then 1 else 0)
  }

  lemma MoveUpStarts(rows: seq<RowId>, line: map<RowId, int>, k: nat)
    requires forall r :: r in rows ==> r in line
    ensures MovedUp(rows, line, line, k, k)
  {
  }

  lemma MoveUpStep(rows: seq<RowId>, was: map<RowId, int>, line: map<RowId, int>, lo: nat, hi: nat)
    requires MovedUp(rows, was, line, lo, hi) && Distinct(rows) && lo <= hi < |rows|
    ensures rows[hi] in line && MovedUp(rows, was, line[rows[hi] := line[rows[hi]] - 1], lo, hi + 1)
  {
    var after := line[rows[hi] := line[rows[hi]] - 1];
    forall i | 0 <= i < |rows|
      ensures LineAt(rows, after, i) == LineAt(rows, line, i) - if i == hi then 1 else 0
    {
    }
  }

  // ---------- one row goes ----------

  lemma RowRemoved(who: seq<Pid>, rows: seq<RowId>, proc: map<RowId, Pid>, priv: map<Pid, RowId>, k: nat)
    requires Coupling(who, rows, proc, priv) && k < |who|
    ensures Coupling(Dropped(who, k), Dropped(rows, k), proc - {rows[k]}, priv - {who[k]})
    ensures (if rows[k] in proc then priv - {proc[rows[k]]} else priv) == priv - {who[k]}
  {
    assert rows[k] !in proc ==> priv - {who[k]} == priv;
    var who', rows' := Dropped(who, k), Dropped(rows, k);
    DroppedDistinct(who, k);
    DroppedDistinct(rows, k);
    forall i | 0 <= i < |who'|
      ensures var j := if i < k then i else i + 1;
              who'[i] == who[j] && who'[i] != who[k] && rows'[i] == rows[j] && rows'[i] != rows[k]
    {
    }
  }

  lemma ValsRemoved(who: seq<Pid>, rows: seq<RowId>, line: map<RowId, int>, line': map<RowId, int>, k: nat)
    requires |who| == |rows| && k < |rows| && Distinct(rows)
    requires MovedUp(rows, line, line', k, |rows|)
    ensures Vals(Dropped(who, k), Dropped(rows, k), line' - {rows[k]})
            == Vals(who, rows, line)[..k] + Renumbered(Vals(who, rows, line)[k + 1..])
  {
    var line'' := line' - {rows[k]};
    var rows' := Dropped(rows, k);
    forall i | 0 <= i < |rows'|
      ensures LineAt(rows', line'', i) == LineAt(rows, line', if i < k then i else i + 1)
    {
      assert rows'[i] == rows[if i < k then i else i + 1] && rows'[i] != rows[k];
    }
  }

  // ---------- delete_tree_lines, `k` rows into the list ----------

  /** What has been done to `was` and what is still to do to `now` make up the whole deletion. */
  ghost predicate Deleting(was: seq<Row>, v: View, shown: set<Pid>, now: seq<Row>, k: nat, w: View) {
    && k <= |now|
    && (forall i :: 0 <= i < k ==> now[i].pid in shown)
    && var (r, u) := DeleteLines(now[k..], shown, w);
      DeleteLines(was, shown, v) == (now[..k] + r, u)
  }

  lemma DeletingStarts(was: seq<Row>, v: View, shown: set<Pid>)
    ensures Deleting(was, v, shown, was, 0, v)
  {
    var (r, u) := DeleteLines(was, shown, v);
    assert was[0..] == was && was[..0] + r == r;
  }

  lemma DeletingKeeps(was: seq<Row>, v: View, shown: set<Pid>, now: seq<Row>, k: nat, w: View)
    requires Deleting(was, v, shown, now, k, w) && k < |now| && now[k].pid in shown
    ensures Deleting(was, v, shown, now, k + 1, w)
  {
    assert now[k..][1..] == now[k + 1..] && now[k..][0] == now[k];
    var (r, u) := DeleteLines(now[k + 1..], shown, w);
    assert DeleteLines(now[k..], shown, w) == ([now[k]] + r, u);
    assert now[..k] + ([now[k]] + r) == now[..k + 1] + r;
  }

  lemma DeletingDrops(was: seq<Row>, v: View, shown: set<Pid>, now: seq<Row>, k: nat, w: View)
    requires Deleting(was, v, shown, now, k, w) && k < |now| && now[k].pid !in shown
    ensures Deleting(was, v, shown, now[..k] + Renumbered(now[k + 1..]), k, LineDeleted(w, now[k].line))
  {
    assert now[k..][1..] == now[k + 1..] && now[k..][0] == now[k];
    var after := now[..k] + Renumbered(now[k + 1..]);
    assert after[k..] == Renumbered(now[k + 1..]) && after[..k] == now[..k];
  }

  lemma DeletingDone(was: seq<Row>, v: View, shown: set<Pid>, now: seq<Row>, k: nat, w: View)
    requires Deleting(was, v, shown, now, k, w) && k == |now|
    ensures (now, w) == DeleteLines(was, shown, v) && forall i :: 0 <= i < |now| ==> now[i].pid in shown
  {
    assert now[k..] == [];
    assert now[..k] + [] == now;
  }

  // ---------- one row comes ----------

  lemma RowInserted(who: seq<Pid>, rows: seq<RowId>, proc: map<RowId, Pid>, priv: map<Pid, RowId>, k: nat, p: Pid, z: RowId)
    requires Coupling(who, rows, proc, priv) && k <= |who|
    requires p !in who && z !in rows
    ensures Coupling(Inserted(who, k, p), Inserted(rows, k, z), proc[z := p], priv[p := z])
  {
    var who', rows' := Inserted(who, k, p), Inserted(rows, k, z);
    InsertedDistinct(who, k, p);
    InsertedDistinct(rows, k, z);
    assert who'[k] == p && rows'[k] == z;
    forall i | 0 <= i < |who'| && i != k
      ensures var j := if i < k then i else i - 1;
              who'[i] == who[j] && who'[i] != p && rows'[i] == rows[j] && rows'[i] != z
    {
    }
  }

  lemma ValsInserted(who: seq<Pid>, rows: seq<RowId>, line: map<RowId, int>, k: nat, p: Pid, z: RowId, l: int)
    requires |who| == |rows| && k <= |rows| && z !in rows
    ensures var r, r' := Vals(who, rows, line), Vals(Inserted(who, k, p), Inserted(rows, k, z), line[z := l]);
            r'[..k + 1] == r[..k] + [Row(p, l)] && r'[k + 1..] == r[k..]
  {
    var rows', line' := Inserted(rows, k, z), line[z := l];
    forall i | 0 <= i < |rows'| && i != k
      ensures LineAt(rows', line', i) == LineAt(rows, line, if i < k then i else i - 1)
    {
      assert rows'[i] == rows[if i < k then i else i - 1];
    }
  }

  lemma ValsRenumbered(who: seq<Pid>, rows: seq<RowId>, line: map<RowId, int>, k: nat, l: int)
    requires |who| == |rows| && k < |rows| && Distinct(rows)
    ensures var r, r' := Vals(who, rows, line), Vals(who, rows, line[rows[k] := l]);
            r'[..k + 1] == r[..k] + [r[k].(line := l)] && r'[k + 1..] == r[k + 1..]
  {
  }

  // ---------- synchronize, `k` processes into the walk ----------

  /** What has been merged and what is still to be merged make up the whole merge; and there are
      enough rows left for the displayed processes still to come. */
  ghost predicate Merging(walk: seq<Pid>, shown: set<Pid>, was: seq<Row>, v: View, now: seq<Row>, k: nat, w: View) {
    && k <= |walk| && k <= |now| && |Sel(walk[k..], shown)| <= |now| - k
    && var (r, u) := Synchronize(walk[k..], now[k..], shown, k, w);
      Synchronize(walk, was, shown, 0, v) == (now[..k] + r, u)
  }

  lemma MergingStarts(walk: seq<Pid>, shown: set<Pid>, was: seq<Row>, v: View)
    requires |Sel(walk, shown)| <= |was|
    ensures Merging(walk, shown, was, v, was, 0, v)
  {
    var (r, u) := Synchronize(walk, was, shown, 0, v);
    assert walk[0..] == walk && was[0..] == was && was[..0] + r == r;
  }

  lemma MergingTakes(walk: seq<Pid>, shown: set<Pid>, was: seq<Row>, v: View, now: seq<Row>, k: nat, w: View, next: seq<Row>)
    requires Merging(walk, shown, was, v, now, k, w) && k < |walk| && k < |now| && walk[k] in shown
    requires k < |next| && next[..k + 1] == now[..k] + [now[k].(line := k)] && next[k + 1..] == now[k + 1..]
    ensures Merging(walk, shown, was, v, next, k + 1, w)
  {
    assert walk[k..][1..] == walk[k + 1..] && walk[k..][0] == walk[k];
    assert now[k..][1..] == now[k + 1..] && now[k..][0] == now[k];
    var (r, u) := Synchronize(walk[k + 1..], now[k + 1..], shown, k + 1, w);
    assert Synchronize(walk[k..], now[k..], shown, k, w) == ([now[k].(line := k)] + r, u);
    assert now[..k] + ([now[k].(line := k)] + r) == next[..k + 1] + r;
  }

  lemma MergingAdds(walk: seq<Pid>, shown: set<Pid>, was: seq<Row>, v: View, now: seq<Row>, k: nat, w: View, next: seq<Row>)
    requires Merging(walk, shown, was, v, now, k, w) && k < |walk| && walk[k] !in shown
    requires k < |next| && next[..k + 1] == now[..k] + [Row(walk[k], k)] && next[k + 1..] == now[k..]
    ensures Merging(walk, shown, was, v, next, k + 1, LineInserted(w, k))
  {
    assert walk[k..][1..] == walk[k + 1..] && walk[k..][0] == walk[k];
    var (r, u) := Synchronize(walk[k + 1..], now[k..], shown, k + 1, LineInserted(w, k));
    assert Synchronize(walk[k..], now[k..], shown, k, w) == ([Row(walk[k], k)] + r, u);
    assert now[..k] + ([Row(walk[k], k)] + r) == next[..k + 1] + r;
    assert |next| == |next[k + 1..]| + k + 1;
  }

  /** A displayed process finds a row under *current. */
  lemma MergingHasRow(walk: seq<Pid>, shown: set<Pid>, was: seq<Row>, v: View, now: seq<Row>, k: nat, w: View)
    requires Merging(walk, shown, was, v, now, k, w) && k < |walk| && walk[k] in shown
    ensures k < |now|
  {
  }

  lemma MergingDone(walk: seq<Pid>, shown: set<Pid>, was: seq<Row>, v: View, now: seq<Row>, k: nat, w: View)
    requires Merging(walk, shown, was, v, now, k, w) && k == |walk|
    ensures (now, w) == Synchronize(walk, was, shown, 0, v)
  {
    assert walk[k..] == [];
    assert now[..k] + now[k..] == now;
  }

  /** No more displayed processes in the walk than rows. */
  lemma EnoughRows(who: seq<Pid>, walk: seq<Pid>, shown: set<Pid>)
    requires Distinct(who) && Distinct(walk) && forall p :: p in shown ==> p in who
    ensures |Sel(walk, shown)| <= |who|
  {
    SelDistinct(walk, shown);
    DistinctSize(Sel(walk, shown));
    DistinctSize(who);
    SubsetSize(Elems(Sel(walk, shown)), Elems(who));
  }

  lemma NoneVisited(walk: seq<Pid>, shown: set<Pid>)
    ensures shown + Elems(walk[..0]) == shown
  {
  }

  lemma AllVisited(walk: seq<Pid>, shown: set<Pid>)
    ensures shown + Elems(walk[..|walk|]) == shown + Elems(walk)
  {
    assert walk[..|walk|] == walk;
  }

  /** Who has been visited so far. */
  lemma VisitedOne(walk: seq<Pid>, shown: set<Pid>, k: nat)
    requires Distinct(walk) && k < |walk|
    ensures walk[k] in shown + Elems(walk[..k]) <==> walk[k] in shown
    ensures shown + Elems(walk[..k + 1]) == (shown + Elems(walk[..k])) + {walk[k]}
  {
    assert walk[..k + 1] == walk[..k] + [walk[k]];
  }
}
