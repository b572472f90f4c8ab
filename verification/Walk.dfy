/** The tree iterator of proctree.c, on trees: why climbing from a leaf until there is a next sibling
    visits the nodes in preorder. */
module Walk {
  import opened Seqs
  import opened Groves
  import opened ProcSpec
  import opened Trees
  import opened Options

  function First(g: Grove): Option<Pid> {
    if g.Nil? then None else Some(g.pid)
  }

  /** Who is visited after `p` and everything below it. */
  function Climb(g: Grove, p: Pid): Option<Pid> {
    if g.Nil? then None
    else if g.pid == p then First(g.next)
    else if p in Flat(g.kids) then
      var r := Climb(g.kids, p);
      if r.Some? then r else First(g.next)
    else Climb(g.next, p)
  }

  /** How many steps `p` is below the top of `g`. */
  function Depth(g: Grove, p: Pid): nat {
    if g.Nil? || g.pid == p then 0
    else if p in Flat(g.kids) then 1 + Depth(g.kids, p)
    else Depth(g.next, p)
  }

  lemma FirstVisited(g: Grove)
    ensures At(Flat(g), 0) == First(g) == At(Tops(g), 0)
  {
  }

  /** Preorder: down to the first child, or up and on. */
  lemma {:induction false} NextInPreorder(g: Grove, k: nat)
    requires Distinct(Flat(g)) && k < |Flat(g)|
    ensures var p := Flat(g)[k];
            At(Flat(g), k + 1) == if Under(g, p).Cons? then First(Under(g, p)) else Climb(g, p)
    decreases g
  {
    var p, s, n := Flat(g)[k], Flat(g.kids), Flat(g.next);
    DistinctParts(g);
    FirstVisited(g.kids);
    FirstVisited(g.next);
    if 0 < k <= |s| {
      assert p == s[k - 1];
      NextInPreorder(g.kids, k - 1);
    } else if k > |s| {
      assert p == n[k - 1 - |s|];
      NextInPreorder(g.next, k - 1 - |s|);
    }
  }

  lemma {:induction false} TopsClimb(g: Grove, j: nat)
    requires Distinct(Flat(g)) && j < |Tops(g)|
    ensures Climb(g, Tops(g)[j]) == At(Tops(g), j + 1)
    decreases g
  {
    DistinctParts(g);
    FirstVisited(g.next);
    if j > 0 {
      assert Tops(g)[j] == Tops(g.next)[j - 1];
      TopsClimb(g.next, j - 1);
    }
  }

  /** The child list of a node of the whole tree. */
  lemma ChildrenOf(kids: Kids, parent: map<Pid, Pid>, g: Grove)
    requires LinksOk(kids, parent) && Fits(kids, kids.Keys, g) && g.Cons?
    ensures Tops(g.kids) == kids[g.pid]
  {
    SelAll(kids[g.pid], kids.Keys);
  }

  /** One step of the climb, by the links: the next sibling if there is one, else whoever follows the
      parent. `j` is the place of `p` among its siblings. */
  lemma {:induction false} ClimbStep(kids: Kids, parent: map<Pid, Pid>, g: Grove, p: Pid, j: nat)
    requires LinksOk(kids, parent) && Fits(kids, kids.Keys, g) && Distinct(Flat(g))
    requires p in Flat(g) && p !in Tops(g)
    requires p in parent && j < |KidsOf(kids, parent[p])| && KidsOf(kids, parent[p])[j] == p
    ensures var s := KidsOf(kids, parent[p]);
            Climb(g, p) == if j + 1 < |s| then Some(s[j + 1]) else Climb(g, parent[p])
    ensures parent[p] in Flat(g) && Depth(g, p) == Depth(g, parent[p]) + 1
    decreases g
  {
    DistinctParts(g);
    ParentInside(kids, parent, kids.Keys, g, p);
    ChildrenOf(kids, parent, g);
    if p in Flat(g.kids) {
      if p in Tops(g.kids) {
        assert p in kids[g.pid];
        TopsClimb(g.kids, j);
        TopDepth(g.kids, j);
      } else {
        ClimbStep(kids, parent, g.kids, p, j);
      }
    } else {
      ClimbStep(kids, parent, g.next, p, j);
      assert parent[p] in Flat(g.next);
    }
  }

  lemma {:induction false} TopDepth(g: Grove, j: nat)
    requires Distinct(Flat(g)) && j < |Tops(g)|
    ensures Depth(g, Tops(g)[j]) == 0
    decreases g
  {
    DistinctParts(g);
    if j > 0 {
      assert Tops(g)[j] == Tops(g.next)[j - 1];
      TopDepth(g.next, j - 1);
    }
  }

  /** What tree_next needs to know about the process `p` it stands on. */
  lemma StandingOn(kids: Kids, parent: map<Pid, Pid>, root: Pid, G: Grove, p: Pid)
    requires LinksOk(kids, parent) && TreeOf(kids, root, G) && Distinct(Flat(G)) && p in Flat(G)
    ensures p in kids && At(kids[p], 0) == First(Under(G, p))
    ensures p == root ==> Climb(G, p) == None
    ensures p != root ==> p in parent && p !in Tops(G) && parent[p] in kids && p in kids[parent[p]]
  {
    UnderFits(kids, kids.Keys, G, p);
    SelAll(kids[p], kids.Keys);
    FirstVisited(Under(G, p));
    assert |Tops(G)| == 1 + |Tops(G.next)|;
    assert Tops(G)[0] == root;
    if p == root {
      TopsClimb(G, 0);
    } else {
      ParentInside(kids, parent, kids.Keys, G, p);
    }
  }
}
