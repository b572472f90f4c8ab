/** list.h: the circular doubly linked list. A node is the list head or the link of an element; `next`
    and `prev` are the memory. */
module Ring {
  import opened Seqs

  datatype Node<+E> = Base | Link(e: E)

  /** Element `i` of the list, or the head before the first and after the last. */
  function NodeAt<E>(s: seq<E>, i: int): Node<E> {
    if 0 <= i < |s| then Link(s[i]) else Base
  }

  /** Node `i` and the one before it point at each other. */
  ghost predicate Joined<E>(next: map<Node<E>, Node<E>>, prev: map<Node<E>, Node<E>>, s: seq<E>, i: int) {
    && NodeAt(s, i - 1) in next && next[NodeAt(s, i - 1)] == NodeAt(s, i)
    && NodeAt(s, i) in prev && prev[NodeAt(s, i)] == NodeAt(s, i - 1)
  }

  /** The links run through `s` both ways and back to the head. */
  ghost predicate Linked<E>(next: map<Node<E>, Node<E>>, prev: map<Node<E>, Node<E>>, s: seq<E>) {
    forall i :: 0 <= i <= |s| ==> Joined(next, prev, s, i)
  }

  lemma NodesApart<E(!new)>(s: seq<E>, i: int, j: int)
    requires Distinct(s) && 0 <= i < |s| && 0 <= j < |s|
    ensures NodeAt(s, i) == NodeAt(s, j) ==> i == j
  {
  }

  /** __list_add between two neighbours. */
  lemma AddLinks<E(!new)>(next: map<Node<E>, Node<E>>, prev: map<Node<E>, Node<E>>, s: seq<E>, i: nat, e: E)
    requires Linked(next, prev, s) && Distinct(s) && i <= |s| && e !in s
    ensures var p, n := NodeAt(s, i - 1), NodeAt(s, i);
            Linked(next[Link(e) := n][p := Link(e)], prev[n := Link(e)][Link(e) := p], Inserted(s, i, e))
  {
    var p, n := NodeAt(s, i - 1), NodeAt(s, i);
    var next', prev' := next[Link(e) := n][p := Link(e)], prev[n := Link(e)][Link(e) := p];
    var r := Inserted(s, i, e);
    forall j | 0 <= j <= |r|
      ensures Joined(next', prev', r, j)
    {
      if j < i {
        assert Joined(next, prev, s, j);
        assert NodeAt(r, j) == NodeAt(s, j) && NodeAt(r, j - 1) == NodeAt(s, j - 1);
      } else if j > i + 1 {
        assert Joined(next, prev, s, j - 1);
        assert NodeAt(r, j) == NodeAt(s, j - 1) && NodeAt(r, j - 1) == NodeAt(s, j - 2);
      } else {
        assert Joined(next, prev, s, i);
        assert NodeAt(r, i) == Link(e) && NodeAt(r, i - 1) == p && NodeAt(r, i + 1) == n;
      }
    }
  }

  /** __list_del on the neighbours of element `i`. */
  lemma DelLinks<E(!new)>(next: map<Node<E>, Node<E>>, prev: map<Node<E>, Node<E>>, s: seq<E>, i: nat)
    requires Linked(next, prev, s) && Distinct(s) && i < |s|
    ensures var p, n := NodeAt(s, i - 1), NodeAt(s, i + 1);
            Linked(next[p := n], prev[n := p], Dropped(s, i))
  {
    var p, n := NodeAt(s, i - 1), NodeAt(s, i + 1);
    var next', prev' := next[p := n], prev[n := p];
    var r := Dropped(s, i);
    forall j | 0 <= j <= |r|
      ensures Joined(next', prev', r, j)
    {
      if j < i {
        assert Joined(next, prev, s, j);
        assert NodeAt(r, j) == NodeAt(s, j) && NodeAt(r, j - 1) == NodeAt(s, j - 1);
      } else if j > i {
        assert Joined(next, prev, s, j + 1);
        assert NodeAt(r, j) == NodeAt(s, j + 1) && NodeAt(r, j - 1) == NodeAt(s, j);
      } else {
        assert NodeAt(r, i) == n && NodeAt(r, i - 1) == p;
      }
    }
  }

  class Ring<E(==, !new)> {
    var next: map<Node<E>, Node<E>>
    var prev: map<Node<E>, Node<E>>
    ghost var elems: seq<E>

    ghost predicate Valid()
      reads this
    {
      Linked(next, prev, elems) && Distinct(elems)
    }

    /** INIT_LIST_HEAD */
    constructor ()
      ensures Valid() && elems == []
    {
      next, prev, elems := map[Base := Base], map[Base := Base], [];
    }

    /** list_add: behind the head. */
    method Add(e: E)
      requires Valid() && e !in elems
      modifies this
      ensures Valid() && elems == [e] + old(elems)
    {
      AddLinks(next, prev, elems, 0, e);
      Front(elems, e);
      assert Joined(next, prev, elems, 0);
      var n := next[Base];
      prev := prev[n := Link(e)];
      next := next[Link(e) := n];
      prev := prev[Link(e) := Base];
      next := next[Base := Link(e)];
      elems := [e] + elems;
    }

    /** list_del of element `i`. */
    method Del(e: E, ghost i: nat)
      requires Valid() && i < |elems| && elems[i] == e
      modifies this
      ensures Valid() && elems == Dropped(old(elems), i)
    {
      DelLinks(next, prev, elems, i);
      DroppedDistinct(elems, i);
      Neighbours(i);
      var p, n := prev[Link(e)], next[Link(e)];
      prev := prev[n := p];
      next := next[p := n];
      elems := Dropped(elems, i);
    }

    lemma Neighbours(i: nat)
      requires Valid() && i < |elems|
      ensures Link(elems[i]) in prev && prev[Link(elems[i])] == NodeAt(elems, i - 1)
      ensures Link(elems[i]) in next && next[Link(elems[i])] == NodeAt(elems, i + 1)
    {
      assert Joined(next, prev, elems, i) && Joined(next, prev, elems, i + 1);
      assert NodeAt(elems, i) == Link(elems[i]);
    }

    /** list_for_each starts at the first element and stops at the head again. */
    method First() returns (n: Node<E>)
      requires Valid()
      ensures n == NodeAt(elems, 0)
    {
      assert Joined(next, prev, elems, 0);
      n := next[Base];
    }

    method Next(e: E, ghost i: nat) returns (n: Node<E>)
      requires Valid() && i < |elems| && elems[i] == e
      ensures n == NodeAt(elems, i + 1)
    {
      Neighbours(i);
      n := next[Link(e)];
    }

    /** list_for_each_r starts at the last one. */
    method Last() returns (n: Node<E>)
      requires Valid()
      ensures n == NodeAt(elems, |elems| - 1)
    {
      assert Joined(next, prev, elems, |elems|);
      n := prev[Base];
    }

    method Previous(e: E, ghost i: nat) returns (n: Node<E>)
      requires Valid() && i < |elems| && elems[i] == e
      ensures n == NodeAt(elems, i - 1)
    {
      Neighbours(i);
      n := prev[Link(e)];
    }
  }

  lemma Front<E(!new)>(s: seq<E>, e: E)
    requires Distinct(s) && e !in s
    ensures Inserted(s, 0, e) == [e] + s && Distinct([e] + s)
  {
    DistinctCons(e, s);
  }
}
