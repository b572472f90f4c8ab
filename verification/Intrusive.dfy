/** Intrusive lists with a pointer back to the slot that points at an element (`ppv` in proctree.h,
    `prev` in struct process). Memory is modelled by address: a slot is a pointer variable, either a
    list head or the `nx` field of an element; `ptr` says what each slot points at. Writing through
    a `ppv` writes to whatever slot it holds, as in the source. */
module Intrusive {
  import opened Options
  import opened Seqs

  datatype Slot<+H, +E> = Head(h: H) | Nx(e: E)

  type Ptr<!H(==), !E(==)> = map<Slot<H, E>, E>

  type Ppv<!H(==), !E(==)> = map<E, Slot<H, E>>

  function Deref<H(==), E(==)>(ptr: Ptr<H, E>, l: Slot<H, E>): Option<E> {
    if l in ptr then Some(ptr[l]) else None
  }

  function Store<H(==), E(==)>(ptr: Ptr<H, E>, l: Slot<H, E>, v: Option<E>): Ptr<H, E> {
    if v.Some? then ptr[l := v.value] else ptr - {l}
  }

  /** The slot that points at element `i` of the list `s` of head `h`; the last one holds null. */
  function SlotAt<H(==), E(==)>(s: seq<E>, i: int, h: H): Slot<H, E> {
    if 0 < i <= |s| then Nx(s[i - 1]) else Head(h)
  }

  /** From head `h` on, the slots thread the elements of `s`, and every element knows its slot. */
  ghost predicate Threaded<H, E>(ptr: Ptr<H, E>, ppv: Ppv<H, E>, s: seq<E>, h: H) {
    && (forall i :: 0 <= i <= |s| ==> Deref(ptr, SlotAt(s, i, h)) == At(s, i))
    && (forall i :: 0 <= i < |s| ==> s[i] in ppv && ppv[s[i]] == SlotAt(s, i, h))
  }

  /** The lists of all heads: no element twice, in one list or in two. */
  ghost predicate Apart<H(!new), E(!new)>(seqs: map<H, seq<E>>) {
    && (forall h :: h in seqs ==> Distinct(seqs[h]))
    && (forall h, k, x :: h in seqs && k in seqs && h != k && x in seqs[h] ==> x !in seqs[k])
  }

  ghost predicate AllThreaded<H(!new), E(!new)>(ptr: Ptr<H, E>, ppv: Ppv<H, E>, seqs: map<H, seq<E>>) {
    forall h :: h in seqs ==> Threaded(ptr, ppv, seqs[h], h)
  }

  lemma FirstOf<H(!new), E(!new)>(ptr: Ptr<H, E>, ppv: Ppv<H, E>, seqs: map<H, seq<E>>, h: H)
    requires AllThreaded(ptr, ppv, seqs) && h in seqs
    ensures Deref(ptr, Head(h)) == At(seqs[h], 0)
  {
    assert Threaded(ptr, ppv, seqs[h], h);
    assert Deref(ptr, SlotAt(seqs[h], 0, h)) == At(seqs[h], 0);
  }

  lemma NextOf<H(!new), E(!new)>(ptr: Ptr<H, E>, ppv: Ppv<H, E>, seqs: map<H, seq<E>>, h: H, i: nat)
    requires AllThreaded(ptr, ppv, seqs) && h in seqs && i < |seqs[h]|
    ensures Deref(ptr, Nx(seqs[h][i])) == At(seqs[h], i + 1)
  {
    assert Threaded(ptr, ppv, seqs[h], h);
    assert Deref(ptr, SlotAt(seqs[h], i + 1, h)) == At(seqs[h], i + 1);
  }

  // ---------- what the two macros write ----------

  function AddPtr<H(==), E(==)>(ptr: Ptr<H, E>, l: Slot<H, E>, e: E): Ptr<H, E> {
    Store(ptr, Nx(e), Deref(ptr, l))[l := e]
  }

  function AddPpv<H(==), E(==)>(ptr: Ptr<H, E>, ppv: Ppv<H, E>, l: Slot<H, E>, e: E): Ppv<H, E> {
    if l in ptr then ppv[e := l][ptr[l] := Nx(e)] else ppv[e := l]
  }

  function DelPtr<H(==), E(==)>(ptr: Ptr<H, E>, ppv: Ppv<H, E>, e: E): Ptr<H, E>
    requires e in ppv
  {
    Store(ptr, ppv[e], Deref(ptr, Nx(e)))
  }

  function DelPpv<H(==), E(==)>(ptr: Ptr<H, E>, ppv: Ppv<H, E>, e: E): Ppv<H, E>
    requires e in ppv
  {
    if Nx(e) in ptr then ppv[ptr[Nx(e)] := ppv[e]] else ppv
  }

  lemma AddSlots<H(!new), E(!new)>(ptr: Ptr<H, E>, ppv: Ppv<H, E>, s: seq<E>, h: H, i: nat, e: E)
    requires Threaded(ptr, ppv, s, h) && Distinct(s) && i <= |s| && e !in s
    ensures var l, r := SlotAt(s, i, h), s[..i] + [e] + s[i..];
            forall j :: 0 <= j <= |r| ==> Deref(AddPtr(ptr, l, e), SlotAt(r, j, h)) == At(r, j)
  {
    var l := SlotAt(s, i, h);
    var r := s[..i] + [e] + s[i..];
    var after := AddPtr(ptr, l, e);
    forall j | 0 <= j <= |r|
      ensures Deref(after, SlotAt(r, j, h)) == At(r, j)
    {
      if j <= i {
        assert SlotAt(r, j, h) == SlotAt(s, j, h);
        assert Deref(ptr, SlotAt(s, j, h)) == At(s, j);
      } else if j > i + 1 {
        assert SlotAt(r, j, h) == SlotAt(s, j - 1, h);
        assert Deref(ptr, SlotAt(s, j - 1, h)) == At(s, j - 1);
      } else {
        assert SlotAt(r, j, h) == Nx(e);
        assert Deref(ptr, l) == At(s, i);
      }
    }
  }

  lemma AddBacklinks<H(!new), E(!new)>(ptr: Ptr<H, E>, ppv: Ppv<H, E>, s: seq<E>, h: H, i: nat, e: E)
    requires Threaded(ptr, ppv, s, h) && Distinct(s) && i <= |s| && e !in s
    ensures var l, r := SlotAt(s, i, h), s[..i] + [e] + s[i..];
            forall j :: 0 <= j < |r| ==> r[j] in AddPpv(ptr, ppv, l, e) && AddPpv(ptr, ppv, l, e)[r[j]] == SlotAt(r, j, h)
  {
    var l := SlotAt(s, i, h);
    var r := s[..i] + [e] + s[i..];
    var after := AddPpv(ptr, ppv, l, e);
    assert Deref(ptr, l) == At(s, i);
    forall j | 0 <= j < |r|
      ensures r[j] in after && after[r[j]] == SlotAt(r, j, h)
    {
      if j > i {
        assert r[j] == s[j - 1];
      }
    }
  }

  lemma AddThreads<H(!new), E(!new)>(ptr: Ptr<H, E>, ppv: Ppv<H, E>, s: seq<E>, h: H, i: nat, e: E)
    requires Threaded(ptr, ppv, s, h) && Distinct(s) && i <= |s| && e !in s
    ensures var l := SlotAt(s, i, h);
            Threaded(AddPtr(ptr, l, e), AddPpv(ptr, ppv, l, e), s[..i] + [e] + s[i..], h)
  {
    AddSlots(ptr, ppv, s, h, i, e);
    AddBacklinks(ptr, ppv, s, h, i, e);
  }

  lemma DelSlots<H(!new), E(!new)>(ptr: Ptr<H, E>, ppv: Ppv<H, E>, s: seq<E>, h: H, i: nat)
    requires Threaded(ptr, ppv, s, h) && Distinct(s) && i < |s|
    ensures var r := s[..i] + s[i + 1..];
            forall j :: 0 <= j <= |r| ==> Deref(DelPtr(ptr, ppv, s[i]), SlotAt(r, j, h)) == At(r, j)
  {
    var r := s[..i] + s[i + 1..];
    var ptr' := DelPtr(ptr, ppv, s[i]);
    assert Deref(ptr, SlotAt(s, i + 1, h)) == At(s, i + 1);
    forall j | 0 <= j <= |r|
      ensures Deref(ptr', SlotAt(r, j, h)) == At(r, j)
    {
      var k := if j <= i then j else j + 1;
      assert SlotAt(r, j, h) == SlotAt(s, k, h);
      assert Deref(ptr, SlotAt(s, k, h)) == At(s, k);
    }
  }

  lemma DelBacklinks<H(!new), E(!new)>(ptr: Ptr<H, E>, ppv: Ppv<H, E>, s: seq<E>, h: H, i: nat)
    requires Threaded(ptr, ppv, s, h) && Distinct(s) && i < |s|
    ensures var r := s[..i] + s[i + 1..];
            forall j :: 0 <= j < |r| ==>
              r[j] in DelPpv(ptr, ppv, s[i]) && DelPpv(ptr, ppv, s[i])[r[j]] == SlotAt(r, j, h)
  {
    var r := s[..i] + s[i + 1..];
    var ppv' := DelPpv(ptr, ppv, s[i]);
    assert Deref(ptr, SlotAt(s, i + 1, h)) == At(s, i + 1);
    forall j | 0 <= j < |r|
      ensures r[j] in ppv' && ppv'[r[j]] == SlotAt(r, j, h)
    {
      var k := if j < i then j else j + 1;
      assert r[j] == s[k];
    }
  }

  lemma DelThreads<H(!new), E(!new)>(ptr: Ptr<H, E>, ppv: Ppv<H, E>, s: seq<E>, h: H, i: nat)
    requires Threaded(ptr, ppv, s, h) && Distinct(s) && i < |s|
    ensures Threaded(DelPtr(ptr, ppv, s[i]), DelPpv(ptr, ppv, s[i]), s[..i] + s[i + 1..], h)
  {
    DelSlots(ptr, ppv, s, h, i);
    DelBacklinks(ptr, ppv, s, h, i);
  }

  /** A list that shares no slot and no element with the change is not affected by it. */
  lemma Unaffected<H(!new), E(!new)>(ptr: Ptr<H, E>, ppv: Ppv<H, E>, ptr': Ptr<H, E>, ppv': Ppv<H, E>, s: seq<E>, h: H)
    requires Threaded(ptr, ppv, s, h)
    requires Deref(ptr', Head(h)) == Deref(ptr, Head(h))
    requires forall x :: x in s ==> Deref(ptr', Nx(x)) == Deref(ptr, Nx(x))
    requires forall x :: x in s && x in ppv ==> x in ppv' && ppv'[x] == ppv[x]
    ensures Threaded(ptr', ppv', s, h)
  {
    forall i | 0 <= i <= |s|
      ensures Deref(ptr', SlotAt(s, i, h)) == At(s, i)
    {
      assert Deref(ptr, SlotAt(s, i, h)) == At(s, i);
    }
  }

  // ---------- all lists at once ----------

  lemma AddOthers<H(!new), E(!new)>(ptr: Ptr<H, E>, ppv: Ppv<H, E>, seqs: map<H, seq<E>>, h: H, i: nat, e: E, k: H)
    requires AllThreaded(ptr, ppv, seqs) && Apart(seqs) && h in seqs && i <= |seqs[h]|
    requires k in seqs && k != h && e !in seqs[k]
    ensures var l := SlotAt(seqs[h], i, h);
            Threaded(AddPtr(ptr, l, e), AddPpv(ptr, ppv, l, e), seqs[k], k)
  {
    var s, l := seqs[h], SlotAt(seqs[h], i, h);
    assert Threaded(ptr, ppv, s, h);
    assert Deref(ptr, l) == At(s, i);
    assert forall x :: x in seqs[k] ==> x !in s;
    Unaffected(ptr, ppv, AddPtr(ptr, l, e), AddPpv(ptr, ppv, l, e), seqs[k], k);
  }

  lemma AddAll<H(!new), E(!new)>(ptr: Ptr<H, E>, ppv: Ppv<H, E>, seqs: map<H, seq<E>>, h: H, i: nat, e: E)
    requires AllThreaded(ptr, ppv, seqs) && Apart(seqs) && h in seqs && i <= |seqs[h]|
    requires forall k :: k in seqs ==> e !in seqs[k]
    ensures var l := SlotAt(seqs[h], i, h);
            AllThreaded(AddPtr(ptr, l, e), AddPpv(ptr, ppv, l, e), seqs[h := Inserted(seqs[h], i, e)])
  {
    AddThreads(ptr, ppv, seqs[h], h, i, e);
    forall k | k in seqs && k != h
      ensures var l := SlotAt(seqs[h], i, h); Threaded(AddPtr(ptr, l, e), AddPpv(ptr, ppv, l, e), seqs[k], k)
    {
      AddOthers(ptr, ppv, seqs, h, i, e, k);
    }
  }

  lemma AddApart<H(!new), E(!new)>(seqs: map<H, seq<E>>, h: H, i: nat, e: E)
    requires Apart(seqs) && h in seqs && i <= |seqs[h]|
    requires forall k :: k in seqs ==> e !in seqs[k]
    ensures Apart(seqs[h := Inserted(seqs[h], i, e)])
  {
    InsertedDistinct(seqs[h], i, e);
  }

  lemma DelOthers<H(!new), E(!new)>(ptr: Ptr<H, E>, ppv: Ppv<H, E>, seqs: map<H, seq<E>>, h: H, i: nat, k: H)
    requires AllThreaded(ptr, ppv, seqs) && Apart(seqs) && h in seqs && i < |seqs[h]|
    requires k in seqs && k != h
    ensures var e := seqs[h][i];
            e in ppv && Threaded(DelPtr(ptr, ppv, e), DelPpv(ptr, ppv, e), seqs[k], k)
  {
    var s, e := seqs[h], seqs[h][i];
    assert Threaded(ptr, ppv, s, h);
    assert e in ppv && ppv[e] == SlotAt(s, i, h);
    assert Deref(ptr, SlotAt(s, i + 1, h)) == At(s, i + 1);
    assert forall x :: x in seqs[k] ==> x !in s;
    Unaffected(ptr, ppv, DelPtr(ptr, ppv, e), DelPpv(ptr, ppv, e), seqs[k], k);
  }

  lemma DelAll<H(!new), E(!new)>(ptr: Ptr<H, E>, ppv: Ppv<H, E>, seqs: map<H, seq<E>>, h: H, e: E)
    requires AllThreaded(ptr, ppv, seqs) && Apart(seqs) && h in seqs && e in seqs[h]
    ensures e in ppv
    ensures AllThreaded(DelPtr(ptr, ppv, e), DelPpv(ptr, ppv, e), seqs[h := Without(seqs[h], e)])
  {
    var i :| 0 <= i < |seqs[h]| && seqs[h][i] == e;
    assert Threaded(ptr, ppv, seqs[h], h);
    DelThreads(ptr, ppv, seqs[h], h, i);
    WithoutAt(seqs[h], i);
    forall k | k in seqs && k != h
      ensures Threaded(DelPtr(ptr, ppv, e), DelPpv(ptr, ppv, e), seqs[k], k)
    {
      DelOthers(ptr, ppv, seqs, h, i, k);
    }
  }

  lemma DelApart<H(!new), E(!new)>(seqs: map<H, seq<E>>, h: H, e: E)
    requires Apart(seqs) && h in seqs
    ensures Apart(seqs[h := Without(seqs[h], e)])
  {
    WithoutDistinct(seqs[h], e);
  }

  lemma NextLinked<H(!new), E(!new)>(ptr: Ptr<H, E>, ppv: Ppv<H, E>, s: seq<E>, h: H, e: E)
    requires Threaded(ptr, ppv, s, h) && e in s
    ensures e in ppv && (Nx(e) in ptr ==> ptr[Nx(e)] in ppv)
  {
    var i :| 0 <= i < |s| && s[i] == e;
    assert Deref(ptr, SlotAt(s, i + 1, h)) == At(s, i + 1);
  }

  lemma HeadLinked<H(!new), E(!new)>(ptr: Ptr<H, E>, ppv: Ppv<H, E>, s: seq<E>, h: H)
    requires Threaded(ptr, ppv, s, h)
    ensures Head(h) in ptr ==> ptr[Head(h)] in ppv
  {
    assert Deref(ptr, SlotAt(s, 0, h)) == At(s, 0);
  }

  lemma ReheadAll<H(!new), E(!new)>(ptr: Ptr<H, E>, ppv: Ppv<H, E>, seqs: map<H, seq<E>>, h: H, k: H)
    requires AllThreaded(ptr, ppv, seqs) && Apart(seqs)
    requires h in seqs && k !in seqs && h != k
    ensures var ptr' := Store(ptr, Head(k), Deref(ptr, Head(h))) - {Head(h)};
            var ppv' := if Head(h) in ptr then ppv[ptr[Head(h)] := Head(k)] else ppv;
            var seqs' := seqs[k := seqs[h]][h := []];
            AllThreaded(ptr', ppv', seqs') && Apart(seqs')
  {
    var ptr' := Store(ptr, Head(k), Deref(ptr, Head(h))) - {Head(h)};
    var ppv' := if Head(h) in ptr then ppv[ptr[Head(h)] := Head(k)] else ppv;
    var s := seqs[h];
    assert Threaded(ptr, ppv, s, h);
    assert Deref(ptr, SlotAt(s, 0, h)) == At(s, 0);
    forall i | 0 <= i <= |s|
      ensures Deref(ptr', SlotAt(s, i, k)) == At(s, i)
    {
      assert Deref(ptr, SlotAt(s, i, h)) == At(s, i);
    }
    forall x | x in seqs && x != h && x != k
      ensures Threaded(ptr', ppv', seqs[x], x)
    {
      assert forall y :: y in seqs[x] ==> y !in s;
      Unaffected(ptr, ppv, ptr', ppv', seqs[x], x);
    }
  }

  lemma ClearAll<H(!new), E(!new)>(ptr: Ptr<H, E>, ppv: Ppv<H, E>, seqs: map<H, seq<E>>, e: E)
    requires AllThreaded(ptr, ppv, seqs) && forall k :: k in seqs ==> e !in seqs[k]
    ensures AllThreaded(ptr - {Nx(e)}, ppv - {e}, seqs)
  {
    forall k | k in seqs
      ensures Threaded(ptr - {Nx(e)}, ppv - {e}, seqs[k], k)
    {
      Unaffected(ptr, ppv, ptr - {Nx(e)}, ppv - {e}, seqs[k], k);
    }
  }

  lemma NewHeadAll<H(!new), E(!new)>(ptr: Ptr<H, E>, ppv: Ppv<H, E>, seqs: map<H, seq<E>>, h: H)
    requires AllThreaded(ptr, ppv, seqs) && h !in seqs
    ensures AllThreaded(ptr - {Head(h)}, ppv, seqs[h := []])
  {
    forall k | k in seqs
      ensures Threaded(ptr - {Head(h)}, ppv, seqs[k], k)
    {
      Unaffected(ptr, ppv, ptr - {Head(h)}, ppv, seqs[k], k);
    }
  }

  /** The lists threaded through one `struct plist` field. */
  class Lists<H(==, !new), E(==, !new)> {
    var ptr: Ptr<H, E>
    var ppv: Ppv<H, E>
    ghost var seqs: map<H, seq<E>>

    ghost predicate Valid() reads this {
      AllThreaded(ptr, ppv, seqs) && Apart(seqs)
    }

    constructor (ghost heads: set<H>)
      ensures Valid() && seqs.Keys == heads && (forall h :: h in heads ==> seqs[h] == []) && ppv == map[]
    {
      ptr, ppv, seqs := map[], map[], map h | h in heads :: [];
    }

    /** list_add(l, e, f): `l` is any slot, a head or the `nx` of an element. */
    method Add(l: Slot<H, E>, e: E, ghost h: H, ghost i: nat)
      requires Valid() && h in seqs && i <= |seqs[h]| && l == SlotAt(seqs[h], i, h)
      requires forall k :: k in seqs ==> e !in seqs[k]
      modifies this
      ensures Valid() && seqs == old(seqs)[h := Inserted(old(seqs)[h], i, e)]
      ensures ppv.Keys == old(ppv.Keys) + {e}
    {
      AddAll(ptr, ppv, seqs, h, i, e);
      AddApart(seqs, h, i, e);
      assert Threaded(ptr, ppv, seqs[h], h);
      assert Deref(ptr, l) == At(seqs[h], i);
      ptr := Store(ptr, Nx(e), Deref(ptr, l));
      ppv := ppv[e := l];
      if l in ptr {
        ppv := ppv[ptr[l] := Nx(e)];
      }
      ptr := ptr[l := e];
      seqs := seqs[h := Inserted(seqs[h], i, e)];
    }

    /** list_del(e, f) */
    method Del(e: E, ghost h: H)
      requires Valid() && h in seqs && e in seqs[h]
      modifies this
      ensures Valid() && seqs == old(seqs)[h := Without(old(seqs)[h], e)]
      ensures ppv.Keys == old(ppv.Keys)
    {
      DelAll(ptr, ppv, seqs, h, e);
      DelApart(seqs, h, e);
      NextLinked(ptr, ppv, seqs[h], h, e);
      ptr := Store(ptr, ppv[e], Deref(ptr, Nx(e)));
      if Nx(e) in ptr {
        ppv := ppv[ptr[Nx(e)] := ppv[e]];
      }
      seqs := seqs[h := Without(seqs[h], e)];
    }

    /** change_head(h, k, f) for a new head `k`, and `h` is zeroed. */
    method Rehead(h: H, k: H)
      requires Valid() && h in seqs && k !in seqs && h != k
      modifies this
      ensures Valid() && seqs == old(seqs)[k := old(seqs)[h]][h := []] && ppv.Keys == old(ppv.Keys)
    {
      ReheadAll(ptr, ppv, seqs, h, k);
      HeadLinked(ptr, ppv, seqs[h], h);
      ptr := Store(ptr, Head(k), Deref(ptr, Head(h)));
      if Head(h) in ptr {
        ppv := ppv[ptr[Head(h)] := Head(k)];
      }
      ptr := ptr - {Head(h)};
      seqs := seqs[k := seqs[h]][h := []];
    }

    /** The link of an element that is on no list is zeroed. */
    method Clear(e: E)
      requires Valid() && forall k :: k in seqs ==> e !in seqs[k]
      modifies this
      ensures Valid() && seqs == old(seqs) && ppv == old(ppv) - {e}
    {
      ClearAll(ptr, ppv, seqs, e);
      ptr, ppv := ptr - {Nx(e)}, ppv - {e};
    }

    /** A new head is zeroed. */
    method NewHead(h: H)
      requires Valid() && h !in seqs
      modifies this
      ensures Valid() && seqs == old(seqs)[h := []] && ppv == old(ppv)
    {
      NewHeadAll(ptr, ppv, seqs, h);
      ptr := ptr - {Head(h)};
      seqs := seqs[h := []];
    }

    /** The memory of a head is given back. */
    method Free(h: H)
      requires Valid() && h in seqs
      modifies this
      ensures Valid() && seqs == old(seqs) - {h} && ppv == old(ppv)
    {
      seqs := seqs - {h};
    }
  }
}
