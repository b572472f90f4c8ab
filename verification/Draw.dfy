/** The tree drawing (tree_string of proctree.c): what the characters in front of a process say about
    the tree, and that they say all about it. */
module Draw {
  import opened Seqs
  import opened Groves
  import opened ProcSpec
  import opened Trees
  import opened Walk

  const TREE_DEPTH := 32
  const TREE_STRING_SZ := 66

  /** For `p` and each of its ancestors, from the top of `g` down: does a sibling follow? */
  function Path(g: Grove, p: Pid): (f: seq<bool>)
    ensures p in Flat(g) ==> |f| == Depth(g, p) + 1
  {
    if g.Nil? then []
    else if g.pid == p then [g.next.Cons?]
    else if p in Flat(g.kids) then [g.next.Cons?] + Path(g.kids, p)
    else Path(g.next, p)
  }

  /** The columns in front of a process, one per ancestor. */
  function Columns(f: seq<bool>): (s: string)
    ensures |s| == 2 * |f|
  {
    if f == [] then "" else Columns(f[..|f| - 1]) + [' ', if f[|f| - 1] then '|' else ' ']
  }

  /** The whole drawing; below 32 levels it is cut off. */
  function Text(f: seq<bool>): (s: string)
    ensures |s| == 1 + 2 * (if |f| <= TREE_DEPTH then |f| else TREE_DEPTH)
  {
    if f == [] then "-"
    else if |f| <= TREE_DEPTH then
      Columns(f[..|f| - 1]) + [' ', if f[|f| - 1] then '|' else '`', '-']
    else Columns(f[..TREE_DEPTH]) + "."
  }

  function Bar(f: seq<bool>, i: nat): char
    requires 0 < i <= |f|
  {
    if f[i - 1] then '|' else if i == |f| <= TREE_DEPTH then '`' else ' '
  }

  lemma BarIs(f: seq<bool>, i: nat)
    requires 0 < i <= |f|
    ensures Bar(f, i) == if f[i - 1] then '|' else if i == |f| <= TREE_DEPTH then '`' else ' '
  {
  }

  lemma {:induction false} ColumnsAt(f: seq<bool>, i: nat)
    requires 0 < i <= |f|
    ensures Columns(f)[2 * i - 2] == ' ' && Columns(f)[2 * i - 1] == if f[i - 1] then '|' else ' '
  {
    if i < |f| {
      ColumnsAt(f[..|f| - 1], i);
    }
  }

  /** The two characters of level `i`. */
  lemma TextAt(f: seq<bool>, i: nat)
    requires 0 < i <= |f| && i <= TREE_DEPTH
    ensures Text(f)[2 * i - 2] == ' ' && Text(f)[2 * i - 1] == Bar(f, i)
  {
    if |f| > TREE_DEPTH {
      ColumnsAt(f[..TREE_DEPTH], i);
    } else if i < |f| {
      ColumnsAt(f[..|f| - 1], i);
    }
  }

  lemma TextEnd(f: seq<bool>)
    ensures Text(f)[|Text(f)| - 1] == if |f| <= TREE_DEPTH then '-' else '.'
  {
  }

  // ---------- the links give the path ----------

  lemma {:induction false} TopsPath(g: Grove, j: nat)
    requires Distinct(Flat(g)) && j < |Tops(g)|
    ensures Path(g, Tops(g)[j]) == [j + 1 < |Tops(g)|]
    decreases g
  {
    DistinctParts(g);
    FirstVisited(g.next);
    if j > 0 {
      assert Tops(g)[j] == Tops(g.next)[j - 1];
      TopsPath(g.next, j - 1);
    }
  }

  lemma PathCases(g: Grove, p: Pid)
    requires g.Cons? && Distinct(Flat(g)) && p in Flat(g)
    ensures p in Flat(g.kids) ==> Path(g, p) == [g.next.Cons?] + Path(g.kids, p)
    ensures p in Flat(g.next) ==> Path(g, p) == Path(g.next, p)
    ensures p == g.pid || p in Flat(g.kids) || p in Flat(g.next)
  {
    DistinctParts(g);
  }

  /** One step up by the links. `j` is the place of `p` among its siblings. */
  lemma {:induction false} PathUp(kids: Kids, parent: map<Pid, Pid>, g: Grove, p: Pid, j: nat)
    requires LinksOk(kids, parent) && Fits(kids, kids.Keys, g) && Distinct(Flat(g)) && g.Cons?
    requires p in Flat(g) && p !in Tops(g)
    requires p in parent && j < |KidsOf(kids, parent[p])| && KidsOf(kids, parent[p])[j] == p
    ensures Path(g, p) == Path(g, parent[p]) + [j + 1 < |KidsOf(kids, parent[p])|]
    decreases g
  {
    hide *;
    DistinctParts(g);
    TopsOf(kids, kids.Keys, g);
    PathCases(g, p);
    if p in Tops(g.kids) {
      PathUpTop(kids, parent, g, p, j);
    } else {
      var h := if p in Flat(g.kids) then g.kids else g.next;
      ParentInside(kids, parent, kids.Keys, h, p);
      PathCases(g, parent[p]);
      SomeNode(h, p);
      PathUp(kids, parent, h, p, j);
    }
  }

  lemma SomeNode(g: Grove, p: Pid)
    requires p in Flat(g)
    ensures g.Cons?
  {
  }

  lemma PathUpTop(kids: Kids, parent: map<Pid, Pid>, g: Grove, p: Pid, j: nat)
    requires LinksOk(kids, parent) && Fits(kids, kids.Keys, g) && g.Cons? && Distinct(Flat(g.kids))
    requires p in Tops(g.kids) && p != g.pid
    requires p in parent && j < |KidsOf(kids, parent[p])| && KidsOf(kids, parent[p])[j] == p
    ensures Path(g, p) == Path(g, parent[p]) + [j + 1 < |KidsOf(kids, parent[p])|]
  {
    ChildrenOf(kids, parent, g);
    assert p in kids[g.pid];
    assert parent[p] == g.pid;
    TopsPath(g.kids, j);
  }

  // ---------- what the drawing means ----------

  /** The depths of the rows. */
  function Depths(g: Grove, d: nat): (s: seq<nat>)
    ensures |s| == |Flat(g)| && forall x :: x in s ==> d <= x
  {
    if g.Nil? then [] else [d] + Depths(g.kids, d + 1) + Depths(g.next, d)
  }

  /** Among the rows to come there is one of depth `j` before any of smaller depth. */
  predicate Continues(s: seq<nat>, j: nat)
    decreases |s|
  {
    s != [] && s[0] >= j && (s[0] == j || Continues(s[1..], j))
  }

  ghost predicate Deeper(s: seq<nat>, j: nat) {
    forall i :: 0 <= i < |s| ==> j < s[i]
  }

  lemma {:induction false} ContinuesAfter(s: seq<nat>, t: seq<nat>, j: nat)
    requires Deeper(s, j)
    ensures Continues(s + t, j) == Continues(t, j)
    decreases |s|
  {
    if s == [] {
      assert s + t == t;
    } else {
      assert (s + t)[0] == s[0] && (s + t)[1..] == s[1..] + t;
      ContinuesAfter(s[1..], t, j);
    }
  }

  /** The rows after row `k`, which is the first of `[d] + a` or among `a`, or among `b`. */
  lemma RowsAfter(d: nat, a: seq<nat>, b: seq<nat>, rest: seq<nat>, k: nat)
    requires k <= |a| + |b|
    ensures var all := [d] + a + b + rest;
            && (k <= |a| ==> all[k + 1..] == a[k..] + (b + rest))
            && (0 < k <= |a| ==> all[k + 1..] == (a + (b + rest))[k..])
            && (k > |a| ==> all[k + 1..] == (b + rest)[k - |a|..])
  {
  }

  lemma KidsBelow(g: Grove, d: nat, k: nat)
    requires k <= |Depths(g, d + 1)|
    ensures Deeper(Depths(g, d + 1)[k..], d)
  {
    var a := Depths(g, d + 1);
    forall i | 0 <= i < |a[k..]|
      ensures d < a[k..][i]
    {
      assert a[k..][i] in a;
    }
  }

  lemma DepthsParts(g: Grove, d: nat)
    requires g.Cons?
    ensures var a, b := Depths(g.kids, d + 1), Depths(g.next, d);
            && Depths(g, d) == [d] + a + b
            && |a| == |Flat(g.kids)| && |b| == |Flat(g.next)| && |Flat(g)| == 1 + |a| + |b|
  {
  }

  /** The column of level `j` of a row is drawn exactly if a later row is at depth `j` before any row is
      higher up. `rest` are the rows after those of `g`. */
  lemma {:induction false} ColumnMeans(g: Grove, d: nat, rest: seq<nat>, k: nat, j: nat)
    requires Distinct(Flat(g)) && k < |Flat(g)| && (rest == [] || rest[0] < d)
    requires d <= j < d + |Path(g, Flat(g)[k])|
    ensures k < |Depths(g, d)| && Path(g, Flat(g)[k])[j - d] == Continues((Depths(g, d) + rest)[k + 1..], j)
    decreases g
  {
    hide Path, Flat, Depths, Continues, Distinct;
    SomeRow(g, k);
    var a, b := Depths(g.kids, d + 1), Depths(g.next, d);
    DistinctParts(g);
    DepthsParts(g, d);
    NextDepth(g, d, rest);
    RowsAfter(d, a, b, rest, k);
    RowAmong(g, k);
    if k > |a| {
      ColumnMeans(g.next, d, rest, k - 1 - |a|, j);
    } else if j > d {
      ColumnMeans(g.kids, d + 1, b + rest, k - 1, j);
    } else {
      KidsBelow(g.kids, d, k);
      ContinuesAfter(a[k..], b + rest, d);
    }
  }

  /** The bar of level `j` in a drawing, if there is one. */
  function Column(text: string, j: nat): char
    requires 0 < j && 2 * j <= |text|
  {
    text[2 * j - 1]
  }

  /** The drawing of row `k`, whose first `skip` levels are not drawn: the bar of each level says whether a
      later row is at that level before any row is higher up; the row's own level has a corner if not, and
      the drawing ends in a dash, or in a dot if it is cut off. */
  ghost predicate ColumnsShow(text: string, G: Grove, k: nat, skip: nat)
    requires k < |Flat(G)|
  {
    var own := |Path(G, Flat(G)[k])| - skip;
    && (forall j: nat :: 0 < j <= 32 && j <= own ==>
          && 2 * j <= |text|
          && Column(text, j) ==
             if Continues(Depths(G, 0)[k + 1..], skip + j - 1) then '|'
             else if j == own then '`' else ' ')
    && |text| > 0 && text[|text| - 1] == if own <= 32 then '-' else '.'
  }

  lemma DrawnColumn(G: Grove, k: nat, skip: nat, j: nat)
    requires Distinct(Flat(G)) && k < |Flat(G)| && 0 < skip && 0 < j <= TREE_DEPTH
    requires skip + j <= |Path(G, Flat(G)[k])|
    ensures var own := |Path(G, Flat(G)[k])| - skip;
            var text := Text(Path(G, Flat(G)[k])[skip..]);
            && 2 * j <= |text|
            && Column(text, j) ==
               if Continues(Depths(G, 0)[k + 1..], skip + j - 1) then '|' else if j == own then '`' else ' '
  {
    hide Text, Path, Flat, Depths, Continues, Distinct;
    var path := Path(G, Flat(G)[k]);
    TextAt(path[skip..], j);
    ColumnMeans(G, 0, [], k, skip + j - 1);
    assert Depths(G, 0) + [] == Depths(G, 0);
  }

  lemma DrawnColumns(G: Grove, k: nat, skip: nat)
    requires Distinct(Flat(G)) && k < |Flat(G)| && 0 < skip <= |Path(G, Flat(G)[k])|
    ensures ColumnsShow(Text(Path(G, Flat(G)[k])[skip..]), G, k, skip)
  {
    hide Text, Path, Flat, Depths, Continues, Distinct, Column;
    TextEnd(Path(G, Flat(G)[k])[skip..]);
    forall j: nat | 0 < j <= TREE_DEPTH && skip + j <= |Path(G, Flat(G)[k])|
      ensures var own := |Path(G, Flat(G)[k])| - skip;
              var text := Text(Path(G, Flat(G)[k])[skip..]);
              && 2 * j <= |text|
              && Column(text, j) ==
                 if Continues(Depths(G, 0)[k + 1..], skip + j - 1) then '|' else if j == own then '`' else ' '
    {
      DrawnColumn(G, k, skip, j);
    }
  }

  lemma SomeRow(g: Grove, k: nat)
    requires k < |Flat(g)|
    ensures g.Cons?
  {
  }

  lemma RowAmong(g: Grove, k: nat)
    requires g.Cons? && Distinct(Flat(g)) && k < |Flat(g)|
    ensures var p, n := Flat(g)[k], |Flat(g.kids)|;
            && (k == 0 ==> Path(g, p) == [g.next.Cons?])
            && (0 < k <= n ==> p == Flat(g.kids)[k - 1] && Path(g, p) == [g.next.Cons?] + Path(g.kids, p))
            && (k > n ==> k - 1 - n < |Flat(g.next)| && p == Flat(g.next)[k - 1 - n] && Path(g, p) == Path(g.next, p))
  {
    DistinctParts(g);
    var p, n := Flat(g)[k], |Flat(g.kids)|;
    if 0 < k <= n {
      assert p == Flat(g.kids)[k - 1];
      assert p in Flat(g.kids);
    } else if k > n {
      assert p == Flat(g.next)[k - 1 - n];
      assert p in Flat(g.next);
    }
  }

  lemma NextDepth(g: Grove, d: nat, rest: seq<nat>)
    requires g.Cons? && (rest == [] || rest[0] < d)
    ensures var t := Depths(g.next, d) + rest; (t == [] || t[0] < d + 1) && Continues(t, d) == g.next.Cons?
  {
  }

  // ---------- the drawing says it all ----------

  lemma DeeperAt(x: seq<nat>, d: nat, i: nat)
    requires Deeper(x, d)
    ensures i < |x| ==> d < x[i]
  {
  }

  lemma SameSpot(a: seq<nat>, b: seq<nat>, x: seq<nat>, y: seq<nat>)
    requires a + b == x + y && |a| < |x|
    ensures b != [] && b[0] == x[|a|]
  {
    assert |a + b| == |x + y|;
    assert (a + b)[|a|] == (x + y)[|a|];
  }

  lemma PrefixLength(a: seq<nat>, b: seq<nat>, x: seq<nat>, y: seq<nat>, d: nat)
    requires a + b == x + y && Deeper(x, d) && (b == [] || b[0] == d)
    ensures |x| <= |a|
  {
    hide Deeper;
    DeeperAt(x, d, |a|);
    if |a| < |x| {
      SameSpot(a, b, x, y);
    }
  }

  lemma SameParts(d: nat, a: seq<nat>, b: seq<nat>, x: seq<nat>, y: seq<nat>)
    requires [d] + a + b == [d] + x + y
    ensures a + b == x + y
    ensures |a| == |x| ==> a == x && b == y
  {
    assert ([d] + a + b)[1..] == a + b && ([d] + x + y)[1..] == x + y;
    if |a| == |x| {
      assert a == (a + b)[..|a|] && x == (x + y)[..|x|] && b == (a + b)[|a|..] && y == (x + y)[|x|..];
    }
  }

  lemma DepthsSplit(g: Grove, h: Grove, d: nat)
    requires g.Cons? && h.Cons? && Depths(g, d) == Depths(h, d)
    ensures Depths(g.kids, d + 1) == Depths(h.kids, d + 1) && Depths(g.next, d) == Depths(h.next, d)
  {
    var a, b := Depths(g.kids, d + 1), Depths(g.next, d);
    var x, y := Depths(h.kids, d + 1), Depths(h.next, d);
    DepthsParts(g, d);
    DepthsParts(h, d);
    NextDepth(g, d, []);
    KidsBelow(g.kids, d, 0);
    KidsBelow(h.kids, d, 0);
    assert a[0..] == a && x[0..] == x;
    assert b != [] ==> b[0] == d;
    assert y != [] ==> y[0] == d;
    hide Depths, Deeper;
    SameParts(d, a, b, x, y);
    PrefixLength(a, b, x, y, d);
    PrefixLength(x, y, a, b, d);
  }

  /** The pids and the depths of the rows determine the tree. */
  lemma {:induction false} DepthsDetermine(g: Grove, h: Grove, d: nat)
    requires Flat(g) == Flat(h) && Depths(g, d) == Depths(h, d)
    ensures g == h
    decreases g
  {
    if g.Cons? {
      assert |Flat(h)| > 0;
      DepthsSplit(g, h, d);
      var s, t := Flat(g), Flat(h);
      assert s[0] == g.pid && t[0] == h.pid;
      var n := |Flat(g.kids)|;
      assert n == |Flat(h.kids)|;
      assert s[1..n + 1] == Flat(g.kids) && t[1..n + 1] == Flat(h.kids);
      assert s[n + 1..] == Flat(g.next) && t[n + 1..] == Flat(h.next);
      DepthsDetermine(g.kids, h.kids, d + 1);
      DepthsDetermine(g.next, h.next, d);
    } else {
      assert |Flat(h)| == 0;
    }
  }

  lemma {:induction false} RowDepth(g: Grove, d: nat, k: nat)
    requires Distinct(Flat(g)) && k < |Flat(g)|
    ensures Depths(g, d)[k] == d + Depth(g, Flat(g)[k])
    decreases g
  {
    var a := Flat(g.kids);
    DistinctParts(g);
    if 0 < k <= |a| {
      assert Flat(g)[k] == a[k - 1];
      RowDepth(g.kids, d + 1, k - 1);
    } else if k > |a| {
      assert Flat(g)[k] == Flat(g.next)[k - 1 - |a|];
      RowDepth(g.next, d, k - 1 - |a|);
    }
  }

  /** Two trees of at most 32 levels below the root that are drawn alike, with the same pids, are the
      same tree. */
  lemma DrawingDetermines(g: Grove, h: Grove)
    requires Flat(g) == Flat(h) && Distinct(Flat(g))
    requires forall p :: p in Flat(g) ==> Depth(g, p) <= TREE_DEPTH && Depth(h, p) <= TREE_DEPTH
    requires forall p :: p in Flat(g) ==> |Text(Path(g, p)[1..])| == |Text(Path(h, p)[1..])|
    ensures g == h
  {
    forall k | 0 <= k < |Flat(g)|
      ensures Depths(g, 0)[k] == Depths(h, 0)[k]
    {
      SameRowDepth(g, h, k);
    }
    DepthsDetermine(g, h, 0);
  }

  lemma SameRowDepth(g: Grove, h: Grove, k: nat)
    requires Flat(g) == Flat(h) && Distinct(Flat(g)) && k < |Flat(g)|
    requires var p := Flat(g)[k];
             && Depth(g, p) <= TREE_DEPTH && Depth(h, p) <= TREE_DEPTH
             && |Text(Path(g, p)[1..])| == |Text(Path(h, p)[1..])|
    ensures Depths(g, 0)[k] == Depths(h, 0)[k]
  {
    hide Text, Path, Depth, Depths, Flat;
    var p := Flat(g)[k];
    RowDepth(g, 0, k);
    RowDepth(h, 0, k);
    assert |Path(g, p)[1..]| == Depth(g, p) && |Path(h, p)[1..]| == Depth(h, p);
  }
}
