/** Process trees as the source links them: every node has a first child and a next
    sibling (`child` and `broth.nx` of proctree.h), so one binary datatype describes
    a node, its descendants and its younger siblings. */
module Groves {
  import opened Seqs

  type Pid = nat

  datatype Grove = Nil | Cons(pid: Pid, kids: Grove, next: Grove)

  /** Preorder: the order in which `tree_next` walks. */
  function Flat(g: Grove): seq<Pid> {
    if g.Nil? then [] else [g.pid] + Flat(g.kids) + Flat(g.next)
  }

  /** The pids of a node and its younger siblings. */
  function Tops(g: Grove): (s: seq<Pid>)
    ensures forall x :: x in s ==> x in Flat(g)
  {
    if g.Nil? then [] else [g.pid] + Tops(g.next)
  }

  function Nodes(g: Grove): set<Pid> {
    Elems(Flat(g))
  }

  /** The nodes of `g` in `A`, an unselected node taking its descendants with it. */
  function Keep(g: Grove, A: set<Pid>): Grove {
    if g.Nil? then Nil
    else if g.pid in A then Cons(g.pid, Keep(g.kids, A), Keep(g.next, A))
    else Keep(g.next, A)
  }

  /** The siblings of `g`, then those of `h`. */
  function Append(g: Grove, h: Grove): Grove {
    if g.Nil? then h else Cons(g.pid, g.kids, Append(g.next, h))
  }

  type Kids = map<Pid, seq<Pid>>

  /** `g` is exactly what the child lists show when only the pids in `S` are looked at. */
  ghost predicate Fits(kids: Kids, S: set<Pid>, g: Grove)
    decreases g
  {
    g.Cons? ==>
      && g.pid in kids
      && Tops(g.kids) == Sel(kids[g.pid], S)
      && Fits(kids, S, g.kids)
      && Fits(kids, S, g.next)
  }

  /** Below an unselected node nothing is selected. */
  ghost predicate Hereditary(g: Grove, A: set<Pid>) {
    g.Cons? ==>
      && (g.pid !in A ==> forall x :: x in Flat(g.kids) ==> x !in A)
      && Hereditary(g.kids, A)
      && Hereditary(g.next, A)
  }

  lemma {:induction false} KeepTops(g: Grove, A: set<Pid>)
    ensures Tops(Keep(g, A)) == Sel(Tops(g), A)
  {
    if g.Cons? {
      KeepTops(g.next, A);
      assert Tops(g)[1..] == Tops(g.next);
    }
  }

  /** Pruning a hereditary set leaves the preorder of the rest in its old order. */
  lemma {:induction false} KeepFlat(g: Grove, A: set<Pid>)
    requires Hereditary(g, A)
    ensures Flat(Keep(g, A)) == Sel(Flat(g), A)
  {
    if g.Cons? {
      KeepFlat(g.kids, A);
      KeepFlat(g.next, A);
      SelAppend([g.pid] + Flat(g.kids), Flat(g.next), A);
      SelAppend([g.pid], Flat(g.kids), A);
      if g.pid !in A {
        SelNone(Flat(g.kids), A);
      }
    }
  }

  lemma {:induction false} KeepFits(kids: Kids, S: set<Pid>, g: Grove, A: set<Pid>)
    requires Fits(kids, S, g)
    ensures Fits(kids, S * A, Keep(g, A))
    decreases g
  {
    if g.Cons? {
      KeepFits(kids, S, g.kids, A);
      KeepFits(kids, S, g.next, A);
      KeepTops(g.kids, A);
      SelSel(kids[g.pid], S, A);
    }
  }

  /** The child lists and the top pids determine the whole grove. */
  lemma {:induction false} FitsUnique(kids: Kids, S: set<Pid>, g: Grove, h: Grove)
    requires Fits(kids, S, g) && Fits(kids, S, h)
    requires Tops(g) == Tops(h)
    ensures g == h
    decreases g
  {
    if g.Cons? {
      assert h.Cons? by { assert |Tops(h)| > 0; }
      assert Tops(g)[0] == g.pid && Tops(h)[0] == h.pid;
      assert Tops(g)[1..] == Tops(g.next) && Tops(h)[1..] == Tops(h.next);
      FitsUnique(kids, S, g.kids, h.kids);
      FitsUnique(kids, S, g.next, h.next);
    }
  }

  /** Two sets of child lists that show the same pids of `S` fit the same groves. */
  lemma {:induction false} FitsCongruent(kids: Kids, S: set<Pid>, kids': Kids, S': set<Pid>, g: Grove)
    requires Fits(kids, S, g)
    requires forall x :: x in Flat(g) ==> x in kids && x in kids' && Sel(kids[x], S) == Sel(kids'[x], S')
    ensures Fits(kids', S', g)
    decreases g
  {
    if g.Cons? {
      assert forall x :: x in Flat(g.kids) || x in Flat(g.next) ==> x in Flat(g);
      FitsCongruent(kids, S, kids', S', g.kids);
      FitsCongruent(kids, S, kids', S', g.next);
    }
  }

  /** The pids of `p` and its descendants in `g`. */
  function Below(g: Grove, p: Pid): (s: set<Pid>)
    ensures s <= Nodes(g)
  {
    if g.Nil? then {}
    else if g.pid == p then {p} + Nodes(g.kids)
    else Below(g.kids, p) + Below(g.next, p)
  }

  /** The grove without `p` and its descendants. */
  function Cut(g: Grove, p: Pid): Grove {
    Keep(g, Nodes(g) - Below(g, p))
  }

  lemma {:induction false} HereditaryUniform(g: Grove, A: set<Pid>)
    requires (forall x :: x in Flat(g) ==> x !in A) || (forall x :: x in Flat(g) ==> x in A)
    ensures Hereditary(g, A)
  {
    if g.Cons? {
      assert g.pid in Flat(g);
      assert forall x :: x in Flat(g.kids) || x in Flat(g.next) ==> x in Flat(g);
      HereditaryUniform(g.kids, A);
      HereditaryUniform(g.next, A);
    }
  }

  lemma DistinctParts(g: Grove)
    requires g.Cons? && Distinct(Flat(g))
    ensures Distinct(Flat(g.kids)) && Distinct(Flat(g.next))
    ensures g.pid !in Flat(g.kids) && g.pid !in Flat(g.next)
    ensures forall x :: x in Flat(g.kids) ==> x !in Flat(g.next)
  {
    DistinctSplit([g.pid] + Flat(g.kids), Flat(g.next));
    DistinctSplit([g.pid], Flat(g.kids));
    assert g.pid in [g.pid];
  }

  lemma {:induction false} BelowHereditary(g: Grove, p: Pid, A: set<Pid>)
    requires Distinct(Flat(g))
    requires forall x :: x in Flat(g) ==> (x in A <==> x !in Below(g, p))
    ensures Hereditary(g, A)
  {
    if g.Cons? {
      DistinctParts(g);
      assert forall x :: x in Flat(g.kids) || x in Flat(g.next) ==> x in Flat(g);
      if g.pid == p {
        HereditaryUniform(g.kids, A);
        HereditaryUniform(g.next, A);
      } else {
        BelowHereditary(g.kids, p, A);
        BelowHereditary(g.next, p, A);
      }
    }
  }

  /** What `mark_del` leaves displayed: the other rows, in their old order, and they are again
      exactly what the child lists show of them. */
  lemma CutShows(kids: Kids, g: Grove, p: Pid)
    requires Distinct(Flat(g)) && Fits(kids, Nodes(g), g)
    ensures Flat(Cut(g, p)) == Sel(Flat(g), Nodes(g) - Below(g, p))
    ensures Distinct(Flat(Cut(g, p)))
    ensures Nodes(Cut(g, p)) == Nodes(g) - Below(g, p)
    ensures Fits(kids, Nodes(Cut(g, p)), Cut(g, p))
  {
    var A := Nodes(g) - Below(g, p);
    BelowHereditary(g, p, A);
    KeepFlat(g, A);
    SelDistinct(Flat(g), A);
    KeepFits(kids, Nodes(g), g, A);
    assert Nodes(g) * A == A;
    assert Nodes(Cut(g, p)) == A;
  }

  /** Outside `S`, only `root` may have its parent. */
  ghost predicate ParentClosed(kids: Kids, S: set<Pid>, root: Pid) {
    forall p, c :: p in kids && c in kids[p] && c in S && p !in S ==> c == root
  }

  lemma {:induction false} NothingShown(kids: Kids, S: set<Pid>, root: Pid, g: Grove)
    requires Fits(kids, kids.Keys, g) && ParentClosed(kids, S, root)
    requires root !in Flat(g)
    requires forall x :: x in Tops(g) ==> x !in S
    ensures forall x :: x in Flat(g) ==> x !in S
    decreases g
  {
    if g.Cons? {
      assert g.pid == Tops(g)[0];
      assert forall x :: x in Flat(g.kids) || x in Flat(g.next) ==> x in Flat(g);
      forall x | x in Tops(g.kids)
        ensures x !in S
      {
        assert x in Flat(g.kids) && x in kids[g.pid];
      }
      NothingShown(kids, S, root, g.kids);
      NothingShown(kids, S, root, g.next);
    }
  }

  lemma {:induction false} ShownHereditary(kids: Kids, S: set<Pid>, root: Pid, g: Grove)
    requires Fits(kids, kids.Keys, g) && ParentClosed(kids, S, root)
    requires root !in Flat(g)
    ensures Hereditary(g, S)
    decreases g
  {
    if g.Cons? {
      assert forall x :: x in Flat(g.kids) || x in Flat(g.next) ==> x in Flat(g);
      if g.pid !in S {
        NothingShown(kids, S, root, g.kids);
      }
      ShownHereditary(kids, S, root, g.kids);
      ShownHereditary(kids, S, root, g.next);
    }
  }

  /** Preorder stability. `g` is the displayed tree, rooted at `root`; `G` the whole tree, in which
      `root` may sit anywhere. The preorder of `G`, restricted to what is displayed, is the
      preorder of `g`. */
  lemma {:induction false} Restriction(kids: Kids, g: Grove, root: Pid, G: Grove)
    requires Fits(kids, kids.Keys, G) && Distinct(Flat(G))
    requires Fits(kids, Nodes(g), g) && Tops(g) == [root] && Nodes(g) <= kids.Keys
    requires ParentClosed(kids, Nodes(g), root)
    requires root in Flat(G)
    requires forall x :: x in Tops(G) && x in Nodes(g) ==> x == root
    ensures Sel(Flat(G), Nodes(g)) == Flat(g)
    decreases G
  {
    var S := Nodes(g);
    DistinctParts(G);
    assert G.pid == Tops(G)[0];
    SelAppend([G.pid] + Flat(G.kids), Flat(G.next), S);
    SelAppend([G.pid], Flat(G.kids), S);
    if root !in Flat(G.next) {
      NothingShown(kids, S, root, G.next);
      SelNone(Flat(G.next), S);
    }
    if G.pid == root {
      assert g.pid == Tops(g)[0] && g.next.Nil? by { assert |Tops(g)| == 1 + |Tops(g.next)|; }
      assert root in Flat(g);
      ShownHereditary(kids, S, root, G.kids);
      KeepFlat(G.kids, S);
      KeepFits(kids, kids.Keys, G.kids, S);
      KeepTops(G.kids, S);
      SelSel(kids[root], kids.Keys, S);
      assert kids.Keys * S == S;
      FitsUnique(kids, S, g.kids, Keep(G.kids, S));
    } else {
      assert G.pid !in S;
      if root in Flat(G.kids) {
        assert forall x :: x in Tops(G.kids) && x in S ==> x == root;
        Restriction(kids, g, root, G.kids);
      } else {
        NothingShown(kids, S, root, G.kids);
        SelNone(Flat(G.kids), S);
        Restriction(kids, g, root, G.next);
      }
    }
  }

  /** What hangs below `p` in `g`. */
  function Under(g: Grove, p: Pid): Grove {
    if g.Nil? then Nil
    else if g.pid == p then g.kids
    else if p in Flat(g.kids) then Under(g.kids, p)
    else Under(g.next, p)
  }

  lemma {:induction false} UnderFits(kids: Kids, S: set<Pid>, g: Grove, p: Pid)
    requires Fits(kids, S, g) && Distinct(Flat(g)) && p in Flat(g)
    ensures p in kids && Tops(Under(g, p)) == Sel(kids[p], S) && Fits(kids, S, Under(g, p))
    ensures Distinct(Flat(Under(g, p))) && p !in Flat(Under(g, p))
    ensures Below(g, p) == {p} + Nodes(Under(g, p))
    decreases g
  {
    DistinctParts(g);
    if g.pid != p {
      if p in Flat(g.kids) {
        UnderFits(kids, S, g.kids, p);
        NotBelow(g.next, p);
      } else {
        UnderFits(kids, S, g.next, p);
        NotBelow(g.kids, p);
      }
    }
  }

  lemma {:induction false} NotBelow(g: Grove, p: Pid)
    requires p !in Flat(g)
    ensures Below(g, p) == {}
  {
    if g.Cons? {
      NotBelow(g.kids, p);
      NotBelow(g.next, p);
    }
  }

  lemma {:induction false} KeepWhole(g: Grove, A: set<Pid>)
    requires Nodes(g) <= A
    ensures Keep(g, A) == g
  {
    if g.Cons? {
      assert forall x :: x in Flat(g.kids) || x in Flat(g.next) ==> x in Nodes(g);
      KeepWhole(g.kids, A);
      KeepWhole(g.next, A);
    }
  }

  lemma CutNothing(g: Grove, p: Pid)
    requires p !in Flat(g)
    ensures Cut(g, p) == g
  {
    NotBelow(g, p);
    KeepWhole(g, Nodes(g) - {});
  }

  lemma CutCount(kids: Kids, S: set<Pid>, g: Grove, p: Pid)
    requires Fits(kids, S, g) && Distinct(Flat(g)) && p in Flat(g) && S == Nodes(g)
    ensures |Flat(Cut(g, p))| == |Flat(g)| - 1 - |Flat(Under(g, p))|
  {
    UnderFits(kids, S, g, p);
    CutShows(kids, g, p);
    DistinctSize(Flat(g));
    DistinctSize(Flat(Under(g, p)));
    DistinctSize(Flat(Cut(g, p)));
    assert Nodes(Cut(g, p)) == Nodes(g) - Below(g, p);
    assert Nodes(g) == Nodes(Cut(g, p)) + Below(g, p);
  }

  lemma {:induction false} AppendParts(kids: Kids, S: set<Pid>, g: Grove, h: Grove)
    ensures Flat(Append(g, h)) == Flat(g) + Flat(h) && Tops(Append(g, h)) == Tops(g) + Tops(h)
    ensures Fits(kids, S, g) && Fits(kids, S, h) ==> Fits(kids, S, Append(g, h))
    decreases g
  {
    if g.Cons? {
      AppendParts(kids, S, g.next, h);
      assert Flat(Append(g, h)) == [g.pid] + Flat(g.kids) + (Flat(g.next) + Flat(h));
    }
  }

  lemma {:induction false} KeepWithin(g: Grove, A: set<Pid>)
    ensures forall x :: x in Flat(Keep(g, A)) ==> x in A && x in Flat(g)
  {
    if g.Cons? {
      KeepWithin(g.kids, A);
      KeepWithin(g.next, A);
    }
  }
}
