/** proctree.c: the static variables, the hash index and the three lists that run through every
    node. A node is addressed by its pid (0 and 1 are the static nodes). */
module ProcTable {
  import opened Seqs
  import opened Groves
  import opened ProcSpec
  import opened Trees
  import opened Rows
  import opened Walk
  import opened Draw
  import opened Intrusive
  import opened Options

  const HASHSIZE := 128

  datatype MlistHead = MainList | OldList

  predicate IsBucket(b: nat) {
    b < HASHSIZE
  }

  function AllBuckets(): set<nat> {
    set b: nat | b < HASHSIZE && IsBucket(b)
  }

  function HashFun(n: Pid): nat {
    n % HASHSIZE
  }

  /** Every pid above 1 is in its own bucket and nowhere else. */
  ghost predicate Indexes(buckets: map<nat, seq<Pid>>, pids: set<Pid>) {
    && (forall b: nat :: b in buckets <==> IsBucket(b))
    && (forall b: nat, x: Pid :: b in buckets && x in buckets[b] ==> x in pids && x > 1 && HashFun(x) == b)
    && (forall x: Pid :: x in pids && x > 1 ==> HashFun(x) in buckets && x in buckets[HashFun(x)])
  }

  lemma IndexesNew(buckets: map<nat, seq<Pid>>, pids: set<Pid>, n: Pid)
    requires Indexes(buckets, pids) && n > 1
    ensures HashFun(n) in buckets
    ensures Indexes(buckets[HashFun(n) := [n] + buckets[HashFun(n)]], pids + {n})
  {
    var b := HashFun(n);
    assert IsBucket(b);
    var s := [n] + buckets[b];
    var after := buckets[b := s];
    assert forall c: nat :: c in after <==> c in buckets;
    forall c: nat, x: Pid | c in after && x in after[c]
      ensures x in pids + {n} && x > 1 && HashFun(x) == c
    {
      assert c in buckets;
      if c == b {
        assert x == n || x in buckets[b];
      } else {
        assert x in buckets[c];
      }
    }
    forall x: Pid | x in pids + {n} && x > 1
      ensures HashFun(x) in after && x in after[HashFun(x)]
    {
      assert x == n || x in buckets[HashFun(x)];
      assert n in s && forall y :: y in buckets[b] ==> y in s;
    }
    assert Indexes(after, pids + {n});
  }

  lemma EmptyIndex(buckets: map<nat, seq<Pid>>)
    requires buckets.Keys == AllBuckets() && forall b :: b in buckets ==> buckets[b] == []
    ensures Indexes(buckets, {0, 1})
  {
  }

  lemma NotIndexed(buckets: map<nat, seq<Pid>>, pids: set<Pid>, n: Pid)
    requires Indexes(buckets, pids) && n !in pids
    ensures forall b: nat :: b in buckets ==> n !in buckets[b]
  {
  }

  lemma IndexesLess(buckets: map<nat, seq<Pid>>, pids: set<Pid>, n: Pid)
    requires Indexes(buckets, pids) && n > 1 && n in pids && Distinct(buckets[HashFun(n)])
    ensures var b := HashFun(n);
            Indexes(buckets[b := Without(buckets[b], n)], pids - {n})
  {
    var b := HashFun(n);
    assert IsBucket(b);
    var after := buckets[b := Without(buckets[b], n)];
    assert forall c: nat :: c in after <==> c in buckets;
    WithoutDistinct(buckets[b], n);
    forall c: nat, x: Pid | c in after && x in after[c]
      ensures x in pids - {n} && x > 1 && HashFun(x) == c
    {
      assert c != b ==> after[c] == buckets[c];
      assert x in buckets[c];
    }
    forall x: Pid | x in pids - {n} && x > 1
      ensures HashFun(x) in after && x in after[HashFun(x)]
    {
      assert x in buckets[HashFun(x)];
    }
    assert Indexes(after, pids - {n});
  }

  class ProcTable {
    const mlist: Lists<MlistHead, Pid>
    const broth: Lists<Pid, Pid>         // the head of q's children is q->child
    const hash: Lists<nat, Pid>
    var state: map<Pid, char>
    var parent: map<Pid, Pid>            // absent: null
    var priv: map<Pid, RowId>            // absent: null
    var cache: Option<Pid>
    var numProc: int
    var proc: Option<Pid>                // the iterator of tree_start and tree_next
    var root: Option<Pid>

    ghost function Live(): seq<Pid>
      reads mlist
    {
      if MainList in mlist.seqs then mlist.seqs[MainList] else []
    }

    /** The old list is a local variable of update_tree; outside there is none. */
    ghost function Stale(): seq<Pid>
      reads mlist
    {
      if OldList in mlist.seqs then mlist.seqs[OldList] else []
    }

    ghost predicate Scanning()
      reads mlist
    {
      OldList in mlist.seqs
    }

    /** The table this memory represents. */
    ghost function Tab(): Table
      reads `state, `parent, mlist, broth
    {
      TabAt(Stale())
    }

    /** The same while update_tree walks the old list and `stale` is what is left of it. */
    ghost function TabAt(stale: seq<Pid>): Table
      reads `state, `parent, mlist, broth
    {
      Table(state, parent, broth.seqs, Live(), stale)
    }

    lemma TabShift(st: seq<Pid>, st': seq<Pid>)
      ensures TabAt(st') == TabAt(st).(stale := st')
    {
    }

    ghost predicate Memory()
      reads mlist, broth, hash
    {
      && broth != hash && (var m: object := mlist; m != broth && m != hash && m != this)
      && mlist.Valid() && broth.Valid() && hash.Valid()
      && MainList in mlist.seqs
    }

    ghost predicate Rep()
      reads `parent, `cache, `numProc, mlist, broth, hash
    {
      && Memory()
      && Indexes(hash.seqs, broth.seqs.Keys)
      && broth.ppv.Keys == parent.Keys               // is_on_list(p, broth)
      && numProc == |broth.seqs.Keys| - 1
      && (cache.Some? ==> cache.value !in broth.seqs)
    }

    ghost predicate Valid()
      reads `state, `parent, `cache, `numProc, mlist, broth, hash
    {
      Rep() && Ok(Tab())
    }

    lemma MlistReady()
      requires Rep()
      ensures AllThreaded(mlist.ptr, mlist.ppv, mlist.seqs) && MainList in mlist.seqs
    {
    }

    lemma TabParts()
      ensures Tab().kids == broth.seqs
    {
    }

    lemma ValidParts()
      ensures Valid() <==> Rep() && Ok(Tab())
      ensures Valid() && !Scanning() ==> Tab().stale == []
    {
    }

    /** The static initialisers. */
    constructor ()
      ensures Valid() && !Scanning() && Tab() == Empty() && priv == map[]
      ensures fresh(mlist) && fresh(broth) && fresh(hash)
    {
      mlist := new Lists({MainList});
      broth := new Lists({0, 1});
      hash := new Lists(AllBuckets());
      state, parent, priv := Empty().state, map[], map[];
      cache, numProc := None, 1;
      proc, root := None, None;
      new;
      hide *;
      EmptyValid();
    }

    lemma EmptyValid()
      requires broth != hash && (var m: object := mlist; m != broth && m != hash && m != this)
      requires mlist.Valid() && broth.Valid() && hash.Valid()
      requires mlist.seqs.Keys == {MainList} && mlist.seqs[MainList] == []
      requires broth.seqs.Keys == {0, 1} && broth.seqs[0] == [] && broth.seqs[1] == [] && broth.ppv == map[]
      requires hash.seqs.Keys == AllBuckets() && forall b :: b in AllBuckets() ==> hash.seqs[b] == []
      requires state == Empty().state && parent == map[] && cache == None && numProc == 1
      ensures Valid() && !Scanning() && Tab() == Empty()
    {
      EmptyKids(broth.seqs);
      EmptyOk();
      EmptyIndex(hash.seqs);
    }

    static lemma EmptyKids(b: map<Pid, seq<Pid>>)
      requires b.Keys == {0, 1} && b[0] == [] && b[1] == []
      ensures b == Empty().kids && |b.Keys| == 2
    {
    }

    method FindByPid(n: Pid) returns (p: Option<Pid>)
      requires Memory() && Indexes(hash.seqs, broth.seqs.Keys) && 0 in broth.seqs && 1 in broth.seqs
      ensures p == if n in broth.seqs then Some(n) else None
    {
      if n <= 1 {
        return Some(n);
      }
      ghost var b := HashFun(n);
      assert IsBucket(b);
      ghost var s, i := hash.seqs[b], 0;
      assert Threaded(hash.ptr, hash.ppv, s, b);
      p := Deref(hash.ptr, Head(HashFun(n)));
      assert SlotAt(s, 0, b) == Head(b);
      while p.Some?
        invariant 0 <= i <= |s| && p == At(s, i) && n !in s[..i]
        decreases |s| - i
      {
        if p.value == n {
          return;
        }
        assert Nx(p.value) == SlotAt(s, i + 1, b);
        p, i := Deref(hash.ptr, Nx(p.value)), i + 1;
      }
    }

    /** `x` is on the child list its parent field names, and on no other. */
    ghost predicate Placed(x: Pid)
      reads `parent, broth
    {
      if x in parent then parent[x] in broth.seqs && x in broth.seqs[parent[x]]
      else forall k :: k in broth.seqs ==> x !in broth.seqs[k]
    }

    /** Only the child lists and the parents changed, and they agree. */
    twostate lemma BrothChanged()
      requires old(Rep()) && unchanged(mlist) && unchanged(hash)
      requires numProc == old(numProc) && cache == old(cache)
      requires broth.Valid() && broth.ppv.Keys == parent.Keys && broth.seqs.Keys == old(broth.seqs.Keys)
      ensures Rep()
    {
    }

    /** list_del(x, broth), if it is on a list. */
    method Unlink(x: Pid)
      requires Rep() && Placed(x)
      modifies broth
      ensures Rep() && broth.seqs == Unlinked(old(broth.seqs), parent, x) && broth.seqs.Keys == old(broth.seqs.Keys)
      ensures forall k :: k in broth.seqs ==> x !in broth.seqs[k]
    {
      if x in broth.ppv {
        WithoutDistinct(broth.seqs[parent[x]], x);
        broth.Del(x, parent[x]);
      }
      BrothChanged();
    }

    method ChangeParent(x: Pid, q: Pid, ghost st: seq<Pid>)
      requires Rep() && Placed(x) && q in broth.seqs
      modifies `parent, broth
      ensures Rep() && TabAt(st) == ProcSpec.ChangeParent(old(TabAt(st)), x, q)
    {
      Unlink(x);
      InFront(broth.seqs[q], x);
      broth.Add(Head(q), x, q, 0);
      parent := parent[x := q];
      BrothChanged();
    }

    twostate lemma NodeAdded(n: Pid)
      requires old(Rep()) && n !in old(broth.seqs)
      requires Memory() && Indexes(hash.seqs, broth.seqs.Keys) && cache == None
      requires broth.seqs.Keys == old(broth.seqs.Keys) + {n} && numProc == old(numProc) + 1
      requires broth.ppv.Keys == parent.Keys
      ensures Rep()
    {
    }

    /** memset(p, 0, sizeof *p) */
    method ZeroNode(n: Pid)
      requires Memory() && n !in broth.seqs && n !in parent && n !in priv && broth.ppv.Keys == parent.Keys
      requires forall k :: k in broth.seqs ==> n !in broth.seqs[k]
      requires forall k :: k in mlist.seqs ==> n !in mlist.seqs[k]
      requires forall k :: k in hash.seqs ==> n !in hash.seqs[k]
      modifies `parent, `priv, mlist, broth, hash
      ensures Memory()
      ensures mlist.seqs == old(mlist.seqs) && hash.seqs == old(hash.seqs)
      ensures broth.seqs == old(broth.seqs)[n := []] && broth.seqs.Keys == old(broth.seqs.Keys) + {n}
      ensures parent == old(parent) && broth.ppv.Keys == parent.Keys && priv == old(priv)
    {
      mlist.Clear(n);
      broth.Clear(n);
      broth.NewHead(n);
      hash.Clear(n);
      parent, priv := parent - {n}, priv - {n};
    }

    /** list_add(hash_table[hash_fun(n)], p, hash) */
    method Index(n: Pid, ghost pids: set<Pid>)
      requires hash.Valid() && Indexes(hash.seqs, pids) && n > 1 && n !in pids
      modifies hash
      ensures hash.Valid() && Indexes(hash.seqs, pids + {n})
    {
      IndexesNew(hash.seqs, pids, n);
      InFront(hash.seqs[HashFun(n)], n);
      hash.Add(Head(HashFun(n)), n, HashFun(n), 0);
    }

    method NewProc(n: Pid, st: char)
      requires Rep() && n > 1 && n !in broth.seqs && n !in parent && n !in priv
      requires forall k :: k in broth.seqs ==> n !in broth.seqs[k]
      requires forall k :: k in mlist.seqs ==> n !in mlist.seqs[k]
      modifies `state, `parent, `priv, `cache, `numProc, mlist, broth, hash
      ensures Rep() && mlist.seqs == old(mlist.seqs) && parent == old(parent)
      ensures broth.seqs == old(broth.seqs)[n := []] && state == old(state)[n := st] && priv == old(priv)
      ensures cache == None && numProc == old(numProc) + 1
    {
      hide AllThreaded, Apart, Indexes;
      ghost var pids := broth.seqs.Keys;
      NotIndexed(hash.seqs, pids, n);
      cache := None;
      ZeroNode(n);
      state := state[n := st];
      Index(n, pids);
      numProc := numProc + 1;
      NodeAdded(n);
    }

    // ---------- validate_proc ----------

    twostate lemma MlistChanged()
      requires old(Rep()) && unchanged(broth) && unchanged(hash)
      requires numProc == old(numProc) && cache == old(cache) && parent == old(parent)
      requires mlist.Valid() && MainList in mlist.seqs
      ensures Rep()
    {
    }

    /** list_del(p, mlist) from whichever list it is on, then list_add(main_list, p, mlist). */
    method Refile(x: Pid)
      requires mlist.Valid() && MainList in mlist.seqs && (x in Live() || x in Stale())
      modifies mlist
      ensures mlist.Valid() && mlist.seqs.Keys == old(mlist.seqs.Keys)
      ensures Live() == [x] + Without(old(Live()), x) && Stale() == Without(old(Stale()), x)
    {
      ghost var h := if x in mlist.seqs[MainList] then MainList else OldList;
      TakenOff(mlist.seqs, x, h);
      mlist.Del(x, h);
      File(x);
    }

    /** list_add(main_list, p, mlist) */
    method File(x: Pid)
      requires mlist.Valid() && MainList in mlist.seqs && forall k :: k in mlist.seqs ==> x !in mlist.seqs[k]
      modifies mlist
      ensures mlist.Valid() && mlist.seqs.Keys == old(mlist.seqs.Keys)
      ensures mlist.seqs == old(mlist.seqs)[MainList := [x] + old(mlist.seqs[MainList])]
    {
      InFront(mlist.seqs[MainList], x);
      mlist.Add(Head(MainList), x, MainList, 0);
    }

    lemma Unlisted(x: Pid)
      requires x !in Live() && x !in Stale()
      ensures forall k :: k in mlist.seqs ==> x !in mlist.seqs[k]
    {
      forall k | k in mlist.seqs
        ensures x !in mlist.seqs[k]
      {
        assert k == MainList || k == OldList;
      }
    }

    method FileNew(x: Pid)
      requires Rep() && forall k :: k in mlist.seqs ==> x !in mlist.seqs[k]
      modifies mlist
      ensures Rep() && Live() == [x] + old(Live()) && Stale() == old(Stale())
      ensures Scanning() == old(Scanning())
    {
      File(x);
      MlistChanged();
    }

    method ValidateKnown(n: Pid, st: char)
      requires Rep() && n > 1 && n in broth.seqs && (n in Live() || n in Stale())
      modifies mlist
      ensures Rep() && Tab() == Validate(old(Tab()), n, st) && Scanning() == old(Scanning())
    {
      Refile(n);
      MlistChanged();
    }

    method ValidateNew(n: Pid, st: char)
      requires Rep() && n > 1 && n !in broth.seqs && n !in parent && n !in priv && n !in Live() && n !in Stale()
      requires forall k :: k in broth.seqs ==> n !in broth.seqs[k]
      modifies `state, `parent, `priv, `cache, `numProc, mlist, broth, hash
      ensures Rep() && Tab() == Validate(old(Tab()), n, st) && priv == old(priv)
      ensures Scanning() == old(Scanning())
    {
      Unlisted(n);
      NewProc(n, st);
      FileNew(n);
    }

    method ValidateProc(n: Pid, st: char)
      requires Rep() && Ok(Tab()) && (n in priv ==> n in broth.seqs)
      modifies `state, `parent, `priv, `cache, `numProc, mlist, broth, hash
      ensures Rep() && Tab() == Validate(old(Tab()), n, st) && priv == old(priv)
      ensures Scanning() == old(Scanning())
    {
      var p := FindByPid(n);
      if n <= 1 {
        state := state[n := st];
        return;
      }
      WhereIs(Tab(), n);
      hide Ok;
      if p.Some? {
        ValidateKnown(n, st);
      } else {
        ValidateNew(n, st);
      }
    }

    /** Both pids of an entry, the process first. */
    method ValidateEntry(i: Info)
      requires Rep() && Ok(Tab()) && forall p :: p in priv ==> p in broth.seqs
      modifies `state, `parent, `priv, `cache, `numProc, mlist, broth, hash
      ensures Rep() && Tab() == Touch(old(Tab()), i) && priv == old(priv)
      ensures Scanning() == old(Scanning())
    {
      ValidateOk(Tab(), i.pid, i.state);
      ValidateKeeps(Tab(), i.pid, i.state);
      hide Ok;
      ValidateProc(i.pid, i.state);
      ValidateProc(i.ppid, i.state);
    }

    // ---------- the end of a process ----------

    /** while(p->child) change_parent(p->child, &proc_init) */
    method AdoptKids(x: Pid, ghost st: seq<Pid>)
      requires Rep() && LinksOk(broth.seqs, parent) && x in broth.seqs && x != 1
      modifies `parent, broth
      ensures Rep() && TabAt(st) == Adopt(old(TabAt(st)), x)
    {
      FirstOf(broth.ptr, broth.ppv, broth.seqs, x);
      var c := Deref(broth.ptr, Head(x));
      while c.Some?
        invariant Rep() && LinksOk(broth.seqs, parent) && x in broth.seqs
        invariant c == At(broth.seqs[x], 0) && Adopt(TabAt(st), x) == Adopt(old(TabAt(st)), x)
        decreases |broth.seqs[x]|
      {
        AdoptStep(TabAt(st), x);
        ChangeParent(c.value, 1, st);
        FirstOf(broth.ptr, broth.ppv, broth.seqs, x);
        c := Deref(broth.ptr, Head(x));
      }
    }

    /** A dying process loses its children and its place among its siblings. */
    method Detach(x: Pid, ghost st: seq<Pid>)
      requires Rep() && LinksOk(broth.seqs, parent) && x in broth.seqs && x != 1
      modifies `parent, broth
      ensures Rep()
      ensures TabAt(st) == Detached(old(TabAt(st)), x)
      ensures x in broth.seqs && broth.seqs[x] == [] && forall k :: k in broth.seqs ==> x !in broth.seqs[k]
    {
      DetachFacts(TabAt(st), x);
      AdoptKids(x, st);
      Unlink(x);
    }

    /** list_del(p, hash) */
    method Unindex(n: Pid, ghost pids: set<Pid>)
      requires hash.Valid() && Indexes(hash.seqs, pids) && n > 1 && n in pids
      modifies hash
      ensures hash.Valid() && Indexes(hash.seqs, pids - {n})
    {
      assert Distinct(hash.seqs[HashFun(n)]);
      IndexesLess(hash.seqs, pids, n);
      hash.Del(n, HashFun(n));
    }

    twostate lemma NodeRemoved(n: Pid)
      requires old(Rep()) && n in old(broth.seqs) && unchanged(mlist)
      requires hash.Valid() && broth.Valid() && Indexes(hash.seqs, broth.seqs.Keys) && cache == Some(n)
      requires broth.seqs.Keys == old(broth.seqs.Keys) - {n} && numProc == old(numProc) - 1
      requires broth.ppv.Keys == parent.Keys
      ensures Rep()
    {
    }

    /** The links of a process that is on no child list any more are given up, and its own list. */
    method Vacate(x: Pid)
      requires broth.Valid() && x in broth.seqs && forall k :: k in broth.seqs ==> x !in broth.seqs[k]
      modifies broth
      ensures broth.Valid() && broth.seqs == old(broth.seqs) - {x} && broth.ppv.Keys == old(broth.ppv.Keys) - {x}
      ensures broth.seqs.Keys == old(broth.seqs.Keys) - {x}
    {
      broth.Clear(x);
      broth.Free(x);
    }

    method Forget(x: Pid)
      modifies `state, `parent
      ensures state == old(state) - {x} && parent == old(parent) - {x}
    {
      state, parent := state - {x}, parent - {x};
    }

    method RemoveProc(x: Pid, ghost st: seq<Pid>)
      requires Rep() && x > 1 && x in broth.seqs && forall k :: k in broth.seqs ==> x !in broth.seqs[k]
      modifies `state, `parent, `cache, `numProc, broth, hash
      ensures Rep() && TabAt(st) == Removed(old(TabAt(st)), x) && state == old(state) - {x}
      ensures cache == Some(x) && numProc == old(numProc) - 1
    {
      Unindex(x, broth.seqs.Keys);
      cache, numProc := Some(x), numProc - 1;
      Forget(x);
      Vacate(x);
      NodeRemoved(x);
    }

    // ---------- the iterator ----------

    /** The tree of process `r` is `G`. */
    ghost predicate HasTree(r: Pid, G: Grove)
      reads `parent, broth
    {
      LinksOk(broth.seqs, parent) && TreeOf(broth.seqs, r, G) && Distinct(Flat(G))
    }

    lemma TreeHere(r: Pid, G: Grove)
      requires Ok(Tab()) && TreeOf(Tab().kids, r, G) && Distinct(Flat(G))
      ensures HasTree(r, G)
    {
    }

    lemma TreeDistinct(r: Pid, G: Grove)
      requires HasTree(r, G)
      ensures Distinct(Flat(G))
    {
    }

    /** p->broth.nx */
    method NextSibling(p: Pid, ghost G: Grove) returns (q: Option<Pid>)
      requires Rep() && root.Some? && HasTree(root.value, G) && p in Flat(G) && p != root.value
      ensures p in parent && parent[p] in Flat(G) && Depth(G, p) == Depth(G, parent[p]) + 1
      ensures Climb(G, p) == if q.Some? then q else Climb(G, parent[p])
    {
      StandingOn(broth.seqs, parent, root.value, G, p);
      ghost var s := broth.seqs[parent[p]];
      ghost var j :| 0 <= j < |s| && s[j] == p;
      ClimbStep(broth.seqs, parent, G, p, j);
      NextOf(broth.ptr, broth.ppv, broth.seqs, parent[p], j);
      q := Deref(broth.ptr, Nx(p));
    }

    /** The iterator is on the `k`-th process of the walk from `r`, or through. */
    ghost predicate Walking(r: Pid, G: Grove, k: nat)
      reads `parent, `cache, `numProc, `proc, `root, mlist, broth, hash
    {
      && Rep() && HasTree(r, G)
      && (k < |Flat(G)| ==> proc == Some(Flat(G)[k]) && root == Some(r))
    }

    lemma WalkingOn(r: Pid, G: Grove, k: nat)
      ensures Rep() && HasTree(r, G) && proc == At(Flat(G), k) && root == Some(r) ==> Walking(r, G, k)
    {
    }

    /** tree_next */
    method TreeNext(ghost r: Pid, ghost G: Grove, ghost k: nat) returns (p: Option<Pid>)
      requires Walking(r, G, k) && k < |Flat(G)|
      modifies `proc
      ensures Walking(r, G, k + 1) && p == At(Flat(G), k + 1)
    {
      hide Distinct, TreeOf, LinksOk;
      var q := proc.value;
      NextInPreorder(G, k);
      StandingOn(broth.seqs, parent, root.value, G, q);
      FirstOf(broth.ptr, broth.ppv, broth.seqs, q);
      p := Deref(broth.ptr, Head(q));
      if p.None? {
        p := ClimbFrom(q, G);
      }
      proc := p;
    }

    method ClimbFrom(start: Pid, ghost G: Grove) returns (p: Option<Pid>)
      requires Rep() && root.Some? && HasTree(root.value, G) && start in Flat(G)
      ensures p == Climb(G, start)
    {
      var q := start;
      while true
        invariant q in Flat(G) && Climb(G, q) == Climb(G, start)
        decreases Depth(G, q)
      {
        StandingOn(broth.seqs, parent, root.value, G, q);
        if q == root.value {
          return None;
        }
        p := NextSibling(q, G);
        if p.Some? {
          return;
        }
        q := parent[q];
      }
    }

    /** `root = find_by_pid(r)` */
    method FindRoot(r: Pid, ghost G: Grove)
      requires Rep() && HasTree(r, G)
      modifies `root
      ensures root == At(Flat(G), 0) && root == if r in broth.seqs then Some(r) else None
      ensures root.None? ==> |Flat(G)| == 0
    {
      FirstVisited(G);
      TreeTop(broth.seqs, r, G);
      hide Fits, Distinct, Flat, Tops, Indexes, Threaded;
      root := FindByPid(r);
    }

    /** tree_start(r, r): the first process of the walk; process 0 is skipped. */
    method TreeStart(r: Pid, ghost G: Grove) returns (p: Option<Pid>)
      requires Rep() && HasTree(r, G)
      modifies `proc, `root
      ensures root == if r in broth.seqs then Some(r) else None
      ensures var k := if r == 0 then 1 else 0; p == At(Flat(G), k) && Walking(r, G, k)
    {
      hide Rep, HasTree, Flat;
      FindRoot(r, G);
      if root.None? {
        return None;
      }
      proc := root;
      WalkingOn(r, G, 0);
      if r != 0 {
        return proc;
      }
      p := TreeNext(r, G, 0);
    }

    // ---------- the drawing ----------

    lemma Ascend(r: Pid, G: Grove, q: Pid)
      requires Rep() && HasTree(r, G) && q in Flat(G) && q != r
      ensures q in parent && parent[q] in Flat(G) && Depth(G, q) == Depth(G, parent[q]) + 1
      ensures Path(G, q) == Path(G, parent[q]) + [Nx(q) in broth.ptr]
    {
      hide Path, Depth, Climb, Flat, Distinct, LinksOk, Fits, Tops, Indexes, Under;
      StandingOn(broth.seqs, parent, r, G, q);
      var s := broth.seqs[parent[q]];
      var j :| 0 <= j < |s| && s[j] == q;
      ClimbStep(broth.seqs, parent, G, q, j);
      SomeNode(G, q);
      PathUp(broth.seqs, parent, G, q, j);
      NextOf(broth.ptr, broth.ppv, broth.seqs, parent[q], j);
    }

    lemma AtTop(r: Pid, G: Grove, q: Pid)
      requires HasTree(r, G) && q in Flat(G)
      ensures r in Flat(G) && Depth(G, r) == 0 && |Path(G, q)| == Depth(G, q) + 1
      ensures q != r ==> Depth(G, q) > 0
    {
      assert |Tops(G)| == 1 + |Tops(G.next)|;
      assert Tops(G)[0] == r == G.pid;
      assert Flat(G.next) == [];
    }

    /** How many steps `p` is below the root: the first loop of tree_string. */
    method Level(r: Pid, p: Pid, ghost G: Grove) returns (i: nat)
      requires Rep() && HasTree(r, G) && p in Flat(G)
      ensures i == Depth(G, p)
    {
      hide Rep, HasTree, Depth, Path, Flat;
      i := 0;
      var q := p;
      AtTop(r, G, p);
      while q != r
        invariant q in Flat(G) && i + Depth(G, q) == Depth(G, p)
        decreases Depth(G, q)
      {
        Ascend(r, G, q);
        q, i := parent[q], i + 1;
      }
    }

    /** `q` is the ancestor of `p` whose path is the first `n` steps of that of `p`. */
    ghost predicate Ancestor(G: Grove, p: Pid, q: Pid, n: nat) {
      q in Flat(G) && n <= |Path(G, p)| && Path(G, q) == Path(G, p)[..n]
    }

    lemma AncestorUp(r: Pid, G: Grove, p: Pid, q: Pid, n: nat)
      requires Rep() && HasTree(r, G) && Ancestor(G, p, q, n) && n > 1
      ensures q in parent && Ancestor(G, p, parent[q], n - 1)
      ensures n <= |Path(G, p)| && Path(G, p)[n - 1] == (Nx(q) in broth.ptr)
    {
      hide Rep, HasTree, Path, Flat, Depth;
      AtTop(r, G, q);
      AtTop(r, G, r);
      Ascend(r, G, q);
      var f := Path(G, p);
      assert f[..n] == Path(G, parent[q]) + [Nx(q) in broth.ptr];
      assert f[..n - 1] == f[..n][..n - 1];
    }

    lemma AncestorSelf(G: Grove, p: Pid)
      requires p in Flat(G)
      ensures Ancestor(G, p, p, |Path(G, p)|)
    {
      assert Path(G, p)[..|Path(G, p)|] == Path(G, p);
    }

    /** while(i > TREE_DEPTH) p=p->parent, i--; with `skip` levels that are not drawn. */
    method CutOff(r: Pid, p: Pid, i: nat, ghost G: Grove, ghost skip: nat) returns (q: Pid, j: nat)
      requires Rep() && HasTree(r, G) && p in Flat(G) && |Path(G, p)| == skip + i && skip > 0
      ensures j == (if i <= TREE_DEPTH then i else TREE_DEPTH) && Ancestor(G, p, q, skip + j)
    {
      hide Rep, HasTree, Path, Flat, Ancestor;
      q, j := p, i;
      AncestorSelf(G, p);
      while j > TREE_DEPTH
        invariant j <= i && (j > TREE_DEPTH || j == if i <= TREE_DEPTH then i else TREE_DEPTH)
        invariant Ancestor(G, p, q, skip + j)
        decreases j
      {
        AncestorUp(r, G, p, q, skip + j);
        q, j := parent[q], j - 1;
      }
    }

    /** while(i) ...: the two characters of each level, from that of `top` up; `d` is how deep the row is. */
    method DrawLevels(r: Pid, top: Pid, i: nat, d: nat, buf: array<char>, ghost G: Grove, ghost p: Pid, ghost skip: nat)
      requires Rep() && HasTree(r, G) && p in Flat(G) && skip > 0 && |Path(G, p)| == skip + d
      requires i == (if d <= TREE_DEPTH then d else TREE_DEPTH) && Ancestor(G, p, top, skip + i)
      requires buf.Length == TREE_STRING_SZ
      modifies buf
      ensures forall k :: 2 * i <= k < buf.Length ==> buf[k] == old(buf[k])
      ensures forall k :: 0 <= k < 2 * i ==> buf[k] == Text(Path(G, p)[skip..])[k]
    {
      hide Rep, HasTree, Path, Flat, Ancestor, Text, Bar;
      ghost var f := Path(G, p)[skip..];
      ghost var text := Text(f);
      var q, j, s := top, i, 2 * i;
      while j > 0
        invariant 0 <= j <= i && s == 2 * j && Ancestor(G, p, q, skip + j)
        invariant forall k :: s <= k < 2 * i ==> buf[k] == text[k]
        invariant forall k :: 2 * i <= k < buf.Length ==> buf[k] == old(buf[k])
      {
        TextAt(f, j);
        BarIs(f, j);
        AncestorUp(r, G, p, q, skip + j);
        assert f[j - 1] == (Nx(q) in broth.ptr);
        var last := j == d <= TREE_DEPTH && Nx(q) !in broth.ptr;
        buf[s - 1] := if last then '`' else if Nx(q) in broth.ptr then '|' else ' ';
        buf[s - 2] := ' ';
        s := s - 2;
        q, j := parent[q], j - 1;
      }
    }

    /** tree_string: `buf` holds the drawing in front of `p`, row `k` of the tree, and the byte after it is
        0. In the forest of all processes the level of process 0 is not drawn. */
    method TreeString(r: Pid, p: Pid, buf: array<char>, ghost G: Grove, ghost k: nat) returns (n: nat)
      requires Rep() && HasTree(r, G) && k < |Flat(G)| && Flat(G)[k] == p && (r == 0 ==> p != 0)
      requires buf.Length == TREE_STRING_SZ
      modifies buf
      ensures |Path(G, p)| >= if r == 0 then 2 else 1
      ensures var f := Path(G, p)[if r == 0 then 2 else 1..];
              n == |Text(f)| < buf.Length && buf[..n] == Text(f) && buf[n] == '\0'
      ensures ColumnsShow(buf[..n], G, k, if r == 0 then 2 else 1)
    {
      hide Rep, HasTree, Path, Flat, Ancestor, Text, Depth, ColumnsShow;
      AtTop(r, G, p);
      TreeDistinct(r, G);
      var d := Level(r, p, G);
      if r == 0 {
        d := d - 1;
      }
      ghost var skip: nat := if r == 0 then 2 else 1;
      ghost var f := Path(G, p)[skip..];
      assert |f| == d;
      TextEnd(f);
      var q, i := CutOff(r, p, d, G, skip);
      var s := 2 * i;
      n := s + 1;
      buf[s + 1] := '\0';
      buf[s] := '.';
      if d <= TREE_DEPTH {
        buf[s] := '-';
      }
      DrawLevels(r, q, i, d, buf, G, p, skip);
      assert buf[..n] == Text(f);
      DrawnColumns(G, k, skip);
    }
  }

  lemma TreeTop(kids: Kids, r: Pid, G: Grove)
    requires TreeOf(kids, r, G)
    ensures First(G) == if r in kids then Some(r) else None
  {
    FirstVisited(G);
  }

  lemma DetachFacts(t: Table, x: Pid)
    requires LinksOk(t.kids, t.parent) && x in t.kids && x != 1
    ensures var u := Adopt(t, x);
            && (if x in u.parent then u.parent[x] in u.kids && x in u.kids[u.parent[x]]
                else forall k :: k in u.kids ==> x !in u.kids[k])
            && x in u.kids && Unlinked(u.kids, u.parent, x)[x] == []
  {
    AdoptLinks(t, x);
  }

  /** A process comes off the one list it is on. */
  lemma TakenOff(seqs: map<MlistHead, seq<Pid>>, x: Pid, h: MlistHead)
    requires Apart(seqs) && h in seqs && x in seqs[h] && MainList in seqs
    ensures var after := seqs[h := Without(seqs[h], x)];
            && after.Keys == seqs.Keys
            && (forall k :: k in after ==> x !in after[k] && after[k] == Without(seqs[k], x))
  {
    WithoutDistinct(seqs[h], x);
  }

  lemma AdoptStep(t: Table, x: Pid)
    requires LinksOk(t.kids, t.parent) && x in t.kids && x != 1 && t.kids[x] != []
    ensures var c := t.kids[x][0];
            var u := ProcSpec.ChangeParent(t, c, 1);
            && c in t.parent && t.parent[c] == x && 1 in t.kids
            && LinksOk(u.kids, u.parent) && x in u.kids && |u.kids[x]| < |t.kids[x]|
            && Adopt(u, x) == Adopt(t, x)
  {
    var c := t.kids[x][0];
    assert c in t.kids[x];
    FirstKidLeaves(t, x);
  }

  lemma ValidateKeeps(t: Table, pid: Pid, state: char)
    ensures t.kids.Keys <= Validate(t, pid, state).kids.Keys
  {
  }

  lemma ValidateOk(t: Table, pid: Pid, state: char)
    requires Ok(t)
    ensures Ok(Validate(t, pid, state))
  {
    ValidateIndex(t, pid, state);
    ValidateLinks(t, pid, state);
  }

  /** A process above init is in the index iff it is on a list; otherwise nothing refers to it. */
  lemma WhereIs(t: Table, x: Pid)
    requires Ok(t) && x > 1
    ensures x in t.kids <==> x in t.live || x in t.stale
    ensures x !in t.kids ==> x !in t.parent && forall q :: q in t.kids ==> x !in t.kids[q]
  {
  }

  lemma InFront(s: seq<Pid>, x: Pid)
    ensures Inserted(s, 0, x) == [x] + s
  {
  }
}
