/** The tree that the links of a table describe: it exists exactly if its root is not its own ancestor,
    it holds everyone whose ancestors lead to the root, and its preorder names no process twice. */
module Trees {
  import opened Groves
  import opened Options
  import opened ProcSpec
  import opened Seqs

  // ---------- ancestors ----------

  /** `n` steps up by the parent pointers. */
  function Above(parent: map<Pid, Pid>, p: Pid, n: nat): Option<Pid>
    decreases n
  {
    if n == 0 then Some(p) else if p in parent then Above(parent, parent[p], n - 1) else None
  }

  /** The parent pointers lead from `p` to `q`. */
  ghost predicate IsBelow(parent: map<Pid, Pid>, p: Pid, q: Pid) {
    exists n: nat :: Above(parent, p, n) == Some(q)
  }

  ghost predicate OwnAncestor(parent: map<Pid, Pid>, p: Pid) {
    p in parent && IsBelow(parent, parent[p], p)
  }

  // ---------- heights ----------

  /** A height for some processes and for all below them, growing towards the parent: no cycles there. */
  ghost predicate Graded(kids: Kids, h: map<Pid, nat>) {
    && h.Keys <= kids.Keys
    && forall p, c :: p in h && c in kids[p] ==> c in h && h[c] < h[p]
  }

  function Height(h: map<Pid, nat>, p: Pid): nat {
    if p in h then h[p] else 0
  }

  /** `g` is the whole tree below `root`; no tree if there is no such process. */
  ghost predicate TreeOf(kids: Kids, root: Pid, g: Grove) {
    && Fits(kids, kids.Keys, g)
    && Tops(g) == if root in kids then [root] else []
  }

  lemma KidsOfNode(kids: Kids, parent: map<Pid, Pid>, h: map<Pid, nat>, p: Pid)
    requires LinksOk(kids, parent) && Graded(kids, h) && p in h
    ensures p in kids && Sel(kids[p], kids.Keys) == kids[p] && Distinct(kids[p])
    ensures forall c :: c in kids[p] ==> c in kids && c in parent && parent[c] == p && c in h && h[c] < h[p]
  {
    forall c | c in kids[p]
      ensures c in kids && c in parent && parent[c] == p
    {
      assert c in parent && parent[c] == p;
    }
    SelAll(kids[p], kids.Keys);
  }

  /** The grove of the siblings `s`, all lower than `n`. */
  ghost function Build(kids: Kids, parent: map<Pid, Pid>, h: map<Pid, nat>, s: seq<Pid>, n: nat): (g: Grove)
    requires LinksOk(kids, parent) && Graded(kids, h)
    requires forall c :: c in s ==> c in h && h[c] < n
    ensures Fits(kids, kids.Keys, g) && Tops(g) == s
    decreases n, |s|
  {
    if s == [] then Nil
    else
      var p := s[0];
      KidsOfNode(kids, parent, h, p);
      Cons(p, Build(kids, parent, h, kids[p], h[p]), Build(kids, parent, h, s[1..], n))
  }

  /** Whoever is not at the top of a grove has its parent in it. */
  lemma {:induction false} ParentInside(kids: Kids, parent: map<Pid, Pid>, S: set<Pid>, g: Grove, x: Pid)
    requires LinksOk(kids, parent) && Fits(kids, S, g)
    requires x in Flat(g) && x !in Tops(g)
    ensures x in parent && parent[x] in Flat(g)
    decreases g
  {
    if x in Flat(g.kids) {
      if x in Tops(g.kids) {
        assert x in kids[g.pid];
      } else {
        ParentInside(kids, parent, S, g.kids, x);
      }
    } else {
      ParentInside(kids, parent, S, g.next, x);
    }
  }

  /** A displayed process comes after its displayed parent: the row that mark_del calls itself on is
      further down the list. */
  lemma {:induction false} ParentsFirst(kids: Kids, parent: map<Pid, Pid>, S: set<Pid>, g: Grove, i: nat, j: nat)
    requires LinksOk(kids, parent) && Fits(kids, S, g) && Distinct(Flat(g))
    requires i < |Flat(g)| && j < |Flat(g)| && Flat(g)[j] !in Tops(g)
    requires Flat(g)[j] in parent && parent[Flat(g)[j]] == Flat(g)[i]
    ensures i < j
    decreases g
  {
    hide Flat, LinksOk, Distinct, Tops;
    FlatAt(g, i);
    FlatAt(g, j);
    var n, c := |Flat(g.kids)|, Flat(g)[j];
    ParentPlace(kids, parent, S, g, c);
    if c in Flat(g.kids) {
      if i > 0 {
        ParentsFirst(kids, parent, S, g.kids, i - 1, j - 1);
      }
    } else {
      ParentsFirst(kids, parent, S, g.next, i - 1 - n, j - 1 - n);
    }
  }

  /** Where the `k`-th process of a preorder comes from. */
  lemma FlatAt(g: Grove, k: nat)
    requires Distinct(Flat(g)) && k < |Flat(g)|
    ensures g.Cons? && Flat(g)[k] in Flat(g) && Distinct(Flat(g.kids)) && Distinct(Flat(g.next))
    ensures var x, n := Flat(g)[k], |Flat(g.kids)|;
            && (k == 0 <==> x == g.pid) && (x == g.pid ==> x in Tops(g))
            && (0 < k <= n <==> x in Flat(g.kids)) && (0 < k <= n ==> x == Flat(g.kids)[k - 1])
            && (k > n <==> x in Flat(g.next)) && (k > n ==> k - 1 - n < |Flat(g.next)| && x == Flat(g.next)[k - 1 - n])
  {
    DistinctParts(g);
    var n := |Flat(g.kids)|;
    if 0 < k <= n {
      assert Flat(g)[k] == Flat(g.kids)[k - 1];
    } else if k > n {
      assert Flat(g)[k] == Flat(g.next)[k - 1 - n];
    }
  }

  lemma ParentPlace(kids: Kids, parent: map<Pid, Pid>, S: set<Pid>, g: Grove, c: Pid)
    requires LinksOk(kids, parent) && Fits(kids, S, g) && g.Cons? && Distinct(Flat(g))
    requires c in Flat(g) && c !in Tops(g) && c in parent
    ensures c in Flat(g.kids) ==> parent[c] == g.pid || (parent[c] in Flat(g.kids) && c !in Tops(g.kids))
    ensures c !in Flat(g.kids) ==> c in Flat(g.next) && c !in Tops(g.next) && parent[c] in Flat(g.next)
  {
    DistinctParts(g);
    if c in Flat(g.kids) {
      if c in Tops(g.kids) {
        assert c in kids[g.pid];
      } else {
        ParentInside(kids, parent, S, g.kids, c);
      }
    } else {
      ParentInside(kids, parent, S, g.next, c);
    }
  }

  lemma TopsOf(kids: Kids, S: set<Pid>, g: Grove)
    requires Fits(kids, S, g) && g.Cons?
    ensures Fits(kids, S, g.kids) && Fits(kids, S, g.next) && g.pid in kids
    ensures g.pid in Tops(g)
    ensures forall x :: x in Tops(g.kids) ==> x in kids[g.pid]
    ensures forall x :: x in Tops(g.next) ==> x in Tops(g)
    ensures forall x :: x in Flat(g) <==> x == g.pid || x in Flat(g.kids) || x in Flat(g.next)
  {
  }

  /** Descendants are lower. */
  lemma {:induction false} LowerInside(kids: Kids, h: map<Pid, nat>, S: set<Pid>, g: Grove, n: nat)
    requires Graded(kids, h) && Fits(kids, S, g)
    requires forall x :: x in Tops(g) ==> x in h && h[x] < n
    ensures forall x :: x in Flat(g) ==> x in h && h[x] < n
    decreases g
  {
    if g.Cons? {
      TopsOf(kids, S, g);
      hide Fits, Tops, Flat;
      LowerInside(kids, h, S, g.kids, h[g.pid]);
      LowerInside(kids, h, S, g.next, n);
    }
  }

  lemma BelowIsLower(kids: Kids, h: map<Pid, nat>, S: set<Pid>, g: Grove)
    requires Graded(kids, h) && Fits(kids, S, g) && g.Cons? && g.pid in h
    ensures forall x :: x in Flat(g.kids) ==> x in h && h[x] < h[g.pid]
  {
    assert forall x :: x in Tops(g.kids) ==> x in kids[g.pid];
    LowerInside(kids, h, S, g.kids, h[g.pid]);
  }

  /** The siblings `Tops(g)`, all children of `q`: nobody occurs both below the first one and
      among or below the others. */
  lemma {:induction false} SiblingsApart(kids: Kids, parent: map<Pid, Pid>, h: map<Pid, nat>, g: Grove, q: Pid, x: Pid)
    requires LinksOk(kids, parent) && Graded(kids, h) && Fits(kids, kids.Keys, g)
    requires g.Cons? && q in h && Distinct(Tops(g))
    requires forall c :: c in Tops(g) ==> c in kids[q]
    requires x in h && (x in Flat(g.kids) || x == g.pid)
    ensures x !in Flat(g.next)
    decreases h[q] - Height(h, x)
  {
    LowerInside(kids, h, kids.Keys, g, h[q]);
    assert Tops(g)[0] == g.pid && Tops(g)[1..] == Tops(g.next);
    assert q !in Flat(g);
    assert forall c :: c in Tops(g) ==> c in parent && parent[c] == q;
    if x != g.pid {
      ParentOf(kids, parent, g, x);
      assert x !in Tops(g);
      if x in Flat(g.next) {
        ParentInside(kids, parent, kids.Keys, g.next, x);
        SiblingsApart(kids, parent, h, g, q, parent[x]);
        assert false;
      }
    } else if x in Flat(g.next) {
      assert x in Tops(g);
      assert x !in Tops(g.next);
      ParentInside(kids, parent, kids.Keys, g.next, x);
      assert false;
    }
  }

  /** No process is visited twice. */
  lemma {:induction false} SiblingsDistinct(kids: Kids, parent: map<Pid, Pid>, h: map<Pid, nat>, g: Grove, q: Pid)
    requires LinksOk(kids, parent) && Graded(kids, h) && Fits(kids, kids.Keys, g)
    requires Distinct(Tops(g)) && forall c :: c in Tops(g) ==> c in h
    requires |Tops(g)| <= 1 || (q in h && forall c :: c in Tops(g) ==> c in kids[q])
    ensures Distinct(Flat(g))
    decreases g
  {
    if g.Cons? {
      var n := Flat(g.next);
      assert Tops(g) == [g.pid] + Tops(g.next);
      DistinctSplit([g.pid], Tops(g.next));
      KidsOfNode(kids, parent, h, g.pid);
      SiblingsDistinct(kids, parent, h, g.kids, g.pid);
      SiblingsDistinct(kids, parent, h, g.next, q);
      BelowIsLower(kids, h, kids.Keys, g);
      DistinctCons(g.pid, Flat(g.kids));
      if g.next.Cons? {
        forall x | x in [g.pid] + Flat(g.kids)
          ensures x !in n
        {
          SiblingsApart(kids, parent, h, g, q, x);
        }
      }
      DistinctJoin([g.pid] + Flat(g.kids), n);
    }
  }

  lemma ParentOf(kids: Kids, parent: map<Pid, Pid>, g: Grove, x: Pid)
    requires LinksOk(kids, parent) && Fits(kids, kids.Keys, g)
    requires g.Cons? && x in Flat(g.kids)
    ensures x in parent && (parent[x] == g.pid || parent[x] in Flat(g.kids))
  {
    if x in Tops(g.kids) {
      assert x in kids[g.pid];
    } else {
      ParentInside(kids, parent, kids.Keys, g.kids, x);
    }
  }

  // ---------- a finite tree has heights ----------

  lemma {:induction false} UnderHere(kids: Kids, S: set<Pid>, g: Grove, p: Pid)
    requires Fits(kids, S, g) && p in Flat(g)
    ensures p in kids && Fits(kids, S, Under(g, p)) && Tops(Under(g, p)) == Sel(kids[p], S)
    ensures |Flat(Under(g, p))| < |Flat(g)|
    decreases g
  {
    if g.pid != p {
      if p in Flat(g.kids) {
        UnderHere(kids, S, g.kids, p);
      } else {
        UnderHere(kids, S, g.next, p);
      }
    }
  }

  lemma {:induction false} TopsInside(kids: Kids, g: Grove, p: Pid)
    requires p in Flat(g)
    ensures forall c :: c in Flat(Under(g, p)) ==> c in Flat(g)
  {
    if g.pid != p {
      if p in Flat(g.kids) {
        TopsInside(kids, g.kids, p);
      } else {
        TopsInside(kids, g.next, p);
      }
    }
  }

  /** How much hangs below a process. */
  function Weight(G: Grove, p: Pid): nat {
    |Flat(Under(G, p))|
  }

  lemma Lighter(kids: Kids, parent: map<Pid, Pid>, G: Grove, p: Pid, c: Pid)
    requires LinksOk(kids, parent) && Fits(kids, kids.Keys, G) && p in Flat(G) && p in kids && c in kids[p]
    ensures c in Flat(G) && Weight(G, c) < Weight(G, p)
  {
    var u := Under(G, p);
    UnderHere(kids, kids.Keys, G, p);
    assert c in parent && c in kids;
    assert c in Tops(u);
    TopsInside(kids, G, p);
    UnderHere(kids, kids.Keys, u, c);
    UnderHere(kids, kids.Keys, G, c);
    FitsUnique(kids, kids.Keys, Under(u, c), Under(G, c));
  }

  function Weights(G: Grove): map<Pid, nat> {
    map p | p in Nodes(G) :: Weight(G, p)
  }

  lemma WeightsAre(kids: Kids, G: Grove)
    requires Fits(kids, kids.Keys, G)
    ensures Weights(G).Keys == Nodes(G) && Nodes(G) <= kids.Keys
    ensures forall p :: p in Weights(G) ==> p in Flat(G) && Weights(G)[p] == Weight(G, p)
    ensures forall p :: p in Flat(G) ==> p in Weights(G)
  {
    NodesInTable(kids, G);
    hide Weight, Fits, Flat;
  }

  lemma HeightsOf(kids: Kids, parent: map<Pid, Pid>, G: Grove) returns (h: map<Pid, nat>)
    requires LinksOk(kids, parent) && Fits(kids, kids.Keys, G)
    ensures Graded(kids, h) && h.Keys == Nodes(G)
  {
    hide LinksOk, Fits, Weight, Weights, Nodes, Flat;
    h := Weights(G);
    WeightsAre(kids, G);
    forall p, c | p in h && c in kids[p]
      ensures c in h && h[c] < h[p]
    {
      Lighter(kids, parent, G, p, c);
    }
  }

  /** In the tree of a process no process occurs twice, cycles elsewhere or not. */
  lemma TreeDistinct(kids: Kids, parent: map<Pid, Pid>, root: Pid, G: Grove)
    requires LinksOk(kids, parent) && TreeOf(kids, root, G)
    ensures Distinct(Flat(G))
  {
    var h := HeightsOf(kids, parent, G);
    SiblingsDistinct(kids, parent, h, G, root);
  }

  // ---------- who is in a tree ----------

  lemma {:induction false} UpInside(kids: Kids, parent: map<Pid, Pid>, h: map<Pid, nat>, p: Pid, q: Pid, n: nat)
    requires LinksOk(kids, parent) && Graded(kids, h) && q in h
    requires Above(parent, p, n) == Some(q)
    ensures p in h && h[p] <= h[q]
    decreases n
  {
    if n > 0 {
      UpInside(kids, parent, h, parent[p], q, n - 1);
      assert p in kids[parent[p]];
    }
  }

  lemma UpOnce(parent: map<Pid, Pid>, p: Pid, q: Pid)
    requires p in parent && IsBelow(parent, parent[p], q)
    ensures IsBelow(parent, p, q)
  {
    var n: nat :| Above(parent, parent[p], n) == Some(q);
    assert Above(parent, p, n + 1) == Some(q);
  }

  lemma BelowItself(parent: map<Pid, Pid>, p: Pid)
    ensures IsBelow(parent, p, p)
  {
    assert Above(parent, p, 0) == Some(p);
  }

  /** From everywhere in a grove the parent pointers lead to one of its tops. */
  lemma {:induction false} TopAbove(kids: Kids, parent: map<Pid, Pid>, S: set<Pid>, g: Grove, x: Pid) returns (t: Pid)
    requires LinksOk(kids, parent) && Fits(kids, S, g) && x in Flat(g)
    ensures t in Tops(g) && IsBelow(parent, x, t)
    decreases g
  {
    if x == g.pid {
      t := x;
      BelowItself(parent, x);
    } else if x in Flat(g.kids) {
      var c := TopAbove(kids, parent, S, g.kids, x);
      t := g.pid;
      assert c in kids[t] && parent[c] == t;
      BelowItself(parent, t);
      UpOnce(parent, c, t);
      BelowBelow(parent, x, c, t);
    } else {
      t := TopAbove(kids, parent, S, g.next, x);
    }
  }

  lemma {:induction false} UpUp(parent: map<Pid, Pid>, p: Pid, n: nat, m: nat)
    requires Above(parent, p, n).Some?
    ensures Above(parent, p, n + m) == Above(parent, Above(parent, p, n).value, m)
    decreases n
  {
    if n > 0 {
      UpUp(parent, parent[p], n - 1, m);
    }
  }

  lemma BelowBelow(parent: map<Pid, Pid>, p: Pid, q: Pid, r: Pid)
    requires IsBelow(parent, p, q) && IsBelow(parent, q, r)
    ensures IsBelow(parent, p, r)
  {
    var n: nat :| Above(parent, p, n) == Some(q);
    var m: nat :| Above(parent, q, m) == Some(r);
    UpUp(parent, p, n, m);
  }

  /** The tree of `root` holds exactly the processes whose parent pointers lead to it. */
  lemma InTree(kids: Kids, parent: map<Pid, Pid>, root: Pid, G: Grove, x: Pid)
    requires LinksOk(kids, parent) && TreeOf(kids, root, G)
    ensures x in Flat(G) <==> root in kids && IsBelow(parent, x, root)
  {
    if x in Flat(G) {
      var t := TopAbove(kids, parent, kids.Keys, G, x);
    }
    if root in kids && IsBelow(parent, x, root) {
      var h := HeightsOf(kids, parent, G);
      assert root in Tops(G);
      var n: nat :| Above(parent, x, n) == Some(root);
      UpInside(kids, parent, h, x, root, n);
    }
  }

  // ---------- when there is a tree ----------

  ghost predicate Steps(parent: map<Pid, Pid>, p: Pid, q: Pid, n: nat) {
    Above(parent, p, n) == Some(q) && forall m: nat :: m < n ==> Above(parent, p, m) != Some(q)
  }

  lemma FewestSteps(parent: map<Pid, Pid>, p: Pid, q: Pid, n: nat)
    requires Above(parent, p, n) == Some(q)
    ensures exists m :: Steps(parent, p, q, m)
    decreases n
  {
    if m: nat :| m < n && Above(parent, p, m) == Some(q) {
      FewestSteps(parent, p, q, m);
    } else {
      assert Steps(parent, p, q, n);
    }
  }

  /** How far up `q` is. */
  ghost function StepsTo(parent: map<Pid, Pid>, p: Pid, q: Pid): (n: nat)
    requires IsBelow(parent, p, q)
    ensures Steps(parent, p, q, n)
  {
    var m: nat :| Above(parent, p, m) == Some(q);
    FewestSteps(parent, p, q, m);
    var n :| Steps(parent, p, q, n);
    n
  }

  lemma {:induction false} Bounded(m: map<Pid, nat>) returns (b: nat)
    ensures forall p :: p in m ==> m[p] <= b
    decreases |m|
  {
    b := 0;
    if m.Keys != {} {
      var p :| p in m;
      var rest := m - {p};
      assert rest.Keys == m.Keys - {p};
      b := Bounded(rest);
      if b < m[p] {
        b := m[p];
      }
      assert forall q :: q in m ==> q == p || q in rest;
    }
  }

  lemma StepsFurther(kids: Kids, parent: map<Pid, Pid>, root: Pid, p: Pid, c: Pid)
    requires LinksOk(kids, parent) && !OwnAncestor(parent, root)
    requires p in kids && c in kids[p] && IsBelow(parent, p, root)
    ensures c in kids && IsBelow(parent, c, root) && StepsTo(parent, p, root) < StepsTo(parent, c, root)
  {
    assert c in parent && parent[c] == p;
    UpOnce(parent, c, root);
    var m := StepsTo(parent, c, root);
    assert c != root;
    assert m > 0 && Above(parent, c, m) == Above(parent, p, m - 1);
  }

  /** There is a tree of `root`, a finite one, exactly if `root` is not its own ancestor. */
  lemma TreeExists(kids: Kids, parent: map<Pid, Pid>, root: Pid) returns (G: Grove)
    requires LinksOk(kids, parent)
    ensures !OwnAncestor(parent, root) ==> TreeOf(kids, root, G)
  {
    G := Nil;
    if !OwnAncestor(parent, root) && root in kids {
      var steps := map p | p in kids && IsBelow(parent, p, root) :: StepsTo(parent, p, root);
      var b := Bounded(steps);
      var h: map<Pid, nat> := map p | p in steps :: b - steps[p];
      forall p, c | p in h && c in kids[p]
        ensures c in h && h[c] < h[p]
      {
        StepsFurther(kids, parent, root, p, c);
      }
      BelowItself(parent, root);
      G := Build(kids, parent, h, [root], h[root] + 1);
    }
  }

  lemma TreeMeansNoLoop(kids: Kids, parent: map<Pid, Pid>, root: Pid, G: Grove)
    requires LinksOk(kids, parent) && TreeOf(kids, root, G)
    ensures !OwnAncestor(parent, root)
  {
    if OwnAncestor(parent, root) {
      var h := HeightsOf(kids, parent, G);
      var n: nat :| Above(parent, parent[root], n) == Some(root);
      assert root in kids && root in Tops(G);
      UpInside(kids, parent, h, parent[root], root, n);
      assert false;
    }
  }

  /** A displayed tree of `root` and the whole tree of `root'`: they cannot be below each other. */
  lemma NotMutuallyBelow(kids: Kids, parent: map<Pid, Pid>, g: Grove, root: Pid, G: Grove, root': Pid)
    requires LinksOk(kids, parent) && Shows(kids, root, g) && TreeOf(kids, root', G)
    requires root in Flat(G) && root' in Flat(g)
    ensures root == root'
  {
    assert G.pid == Tops(G)[0] && g.pid == Tops(g)[0];
    assert |Tops(G)| == 1 + |Tops(G.next)| && |Tops(g)| == 1 + |Tops(g.next)|;
    var h := HeightsOf(kids, parent, G);
    BelowIsLower(kids, h, kids.Keys, G);
    BelowIsLower(kids, h, Nodes(g), g);
  }

  /** A displayed process other than the root has a displayed parent. */
  lemma ShownParents(kids: Kids, parent: map<Pid, Pid>, root: Pid, g: Grove)
    requires LinksOk(kids, parent) && Shows(kids, root, g)
    ensures ParentClosed(kids, Nodes(g), root)
  {
    forall p, c | p in kids && c in kids[p] && c in Nodes(g) && p !in Nodes(g)
      ensures c == root
    {
      assert c in parent && parent[c] == p;
      if c !in Tops(g) {
        ParentInside(kids, parent, Nodes(g), g, c);
      }
    }
  }

  /** Whatever is displayed comes in the order of the whole tree `G`, provided that the displayed
      root is in `G` and no other displayed process is at the top of it. */
  lemma ShownInOrder(kids: Kids, root: Pid, g: Grove, G: Grove)
    requires Shows(kids, root, g) && ParentClosed(kids, Nodes(g), root)
    requires Fits(kids, kids.Keys, G) && Distinct(Flat(G))
    requires g.Cons? ==> root in Flat(G)
    requires forall x :: x in Tops(G) && x in Nodes(g) ==> x == root
    ensures Sel(Flat(G), Nodes(g)) == Flat(g)
  {
    if g.Nil? {
      SelNone(Flat(G), Nodes(g));
    } else {
      Restriction(kids, g, root, G);
    }
  }

  lemma {:induction false} NodesInTable(kids: Kids, g: Grove)
    requires Fits(kids, kids.Keys, g)
    ensures Nodes(g) <= kids.Keys
    decreases g
  {
    if g.Cons? {
      NodesInTable(kids, g.kids);
      NodesInTable(kids, g.next);
      assert forall x :: x in Flat(g) ==> x == g.pid || x in Nodes(g.kids) || x in Nodes(g.next);
    }
  }

  lemma {:induction false} KidsInside(kids: Kids, S: set<Pid>, g: Grove)
    requires Fits(kids, kids.Keys, g) && Nodes(g) <= S
    ensures Fits(kids, S * kids.Keys, g)
    decreases g
  {
    if g.Cons? {
      assert Nodes(g.kids) <= Nodes(g) && Nodes(g.next) <= Nodes(g);
      KidsInside(kids, S, g.kids);
      KidsInside(kids, S, g.next);
      SelSel(kids[g.pid], kids.Keys, S);
      SelAll(Tops(g.kids), S);
      assert kids.Keys * S == S * kids.Keys;
    }
  }

  /** The whole tree, once it is displayed, is what the child lists show. */
  lemma WholeTreeShows(kids: Kids, root: Pid, g: Grove)
    requires TreeOf(kids, root, g) && Distinct(Flat(g))
    ensures Shows(kids, root, g)
  {
    NodesInTable(kids, g);
    KidsInside(kids, Nodes(g), g);
    assert Nodes(g) * kids.Keys == Nodes(g);
    if g.Cons? {
      assert |Tops(g)| > 0;
    }
  }
}
