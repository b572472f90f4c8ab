/** ulist.c: the ring of logged-in users with their line numbers, and the counters. A user_t is addressed
    by a number. */
module Ulist {
  import opened Seqs
  import opened Screen
  import opened Options
  import opened Ring
  import opened Users

  type UserId = nat

  /** Element `i` of the ring is on line `n - 1 - i`: the newest user is in front and at the bottom. */
  ghost predicate Numbered(ring: seq<UserId>, info: map<UserId, User>, line: map<UserId, int>) {
    forall i :: 0 <= i < |ring| ==> ring[i] in info && ring[i] in line && line[ring[i]] == |ring| - 1 - i
  }

  /** The users by line. */
  ghost function ByLine(ring: seq<UserId>, info: map<UserId, User>): (us: seq<User>)
    requires forall x :: x in ring ==> x in info
    ensures |us| == |ring| && forall l :: 0 <= l < |us| ==> us[l] == info[ring[|ring| - 1 - l]]
  {
    seq(|ring|, l requires 0 <= l < |ring| => info[ring[|ring| - 1 - l]])
  }

  ghost predicate Counted(nr: seq<nat>, us: seq<User>) {
    |nr| == |PROTOCOLS| && forall i :: 0 <= i < |nr| ==> nr[i] == Count(us, PROTOCOLS[i])
  }

  class UserList {
    const ring: Ring<UserId>
    var info: map<UserId, User>
    var line: map<UserId, int>
    var nusers: int
    var nr: seq<nat>                     // prot_tab[].nr

    ghost predicate Linked()
      reads `info, `line, ring
    {
      ring.Valid() && Numbered(ring.elems, info, line)
    }

    ghost function Users(): seq<User>
      requires Linked()
      reads `info, `line, ring
    {
      assert forall x :: x in ring.elems ==> x in info;
      ByLine(ring.elems, info)
    }

    ghost predicate Valid()
      reads this, ring
    {
      Linked() && nusers == |Users()| && Counted(nr, Users())
    }

    constructor ()
      ensures Valid() && Users() == [] && fresh(ring)
    {
      ring := new Ring();
      info, line, nusers, nr := map[], map[], 0, [0, 0, 0];
      new;
      assert Users() == [];
    }

    /** u_count. A counter that is taken down counts this user. */
    method Tally(name: string, p: int)
      requires p == 1 || p == -1
      requires |nr| == |PROTOCOLS|
      requires p == -1 ==> forall i :: 0 <= i < |nr| && StartsWith(name, PROTOCOLS[i]) ==> nr[i] > 0
      modifies `nusers, `nr
      ensures nusers == old(nusers) + p && |nr| == |PROTOCOLS|
      ensures forall i :: 0 <= i < |nr| ==> nr[i] == old(nr)[i] + if StartsWith(name, PROTOCOLS[i]) then p else 0
    {
      nusers := nusers + p;
      for i := 0 to |PROTOCOLS|
        invariant |nr| == |PROTOCOLS| && nusers == old(nusers) + p
        invariant forall j :: 0 <= j < i ==> nr[j] == old(nr)[j] + if StartsWith(name, PROTOCOLS[j]) then p else 0
        invariant forall j :: i <= j < |nr| ==> nr[j] == old(nr)[j]
      {
        if StartsWith(name, PROTOCOLS[i]) {
          nr := nr[i := nr[i] + p];
        }
      }
    }

    /** update_line: the lines below a deleted one move up. */
    method UpdateLine(l: int)
      requires Linked()
      modifies `line
      ensures line.Keys == old(line.Keys)
      ensures forall x :: x in ring.elems ==> x in line && line[x] == old(line)[x] - if old(line)[x] > l then 1 else 0
    {
      ghost var i, s := 0, ring.elems;
      var n := ring.First();
      while n.Link?
        invariant 0 <= i <= |s| && n == NodeAt(s, i) && line.Keys == old(line.Keys)
        invariant forall j :: 0 <= j < |s| ==>
                    s[j] in line && line[s[j]] == old(line)[s[j]] - if j < i && old(line)[s[j]] > l then 1 else 0
        decreases |s| - i
      {
        var u := n.e;
        if line[u] > l {
          line := line[u := line[u] - 1];
        }
        n := ring.Next(u, i);
        i := i + 1;
      }
    }

    /** new_user */
    method NewUser(u: User)
      requires Valid()
      modifies this, ring
      ensures Valid() && Users() == old(Users()) + [u]
    {
      ghost var us, s := Users(), ring.elems;
      ghost var free := FreeAddress(info.Keys);
      assert free !in info;
      var id: UserId :| id !in info;
      assert id !in s;
      AddedByLine(s, info, line, id, u, nusers);
      info, line := info[id := u], line[id := nusers];
      ring.Add(id);
      CountsAdded(us, u);
      Tally(u.parent, 1);
    }

    /** udel of the user on line `l`. */
    method UDel(id: UserId, w: Widget, ghost l: nat)
      requires Valid() && l < |ring.elems| && ring.elems[|ring.elems| - 1 - l] == id
      modifies this, ring, w`vy, w`crsr
      ensures Valid() && Users() == Dropped(old(Users()), l)
      ensures w.At() == LineDeleted(old(w.At()), l)
    {
      ghost var us, s, i := Users(), ring.elems, |ring.elems| - 1 - l;
      var u := info[id];
      w.Deleted(line[id]);
      UpdateLine(line[id]);
      DroppedByLine(s, info, old(line), line, i);
      CountsDropped(us, l);
      Tally(u.parent, -1);
      ring.Del(id, i);
      info, line := info - {id}, line - {id};
    }

    /** proc_ucount: what the user list reports; nobody is counted twice. */
    method Report() returns (all: int, local: int, telnet: int, ssh: int, other: int)
      requires Valid()
      ensures all == |Users()| && ssh == Count(Users(), "(sshd")
      ensures telnet == Count(Users(), "(in.telnetd)") && local == Count(Users(), "(init)")
      ensures other == all - local - telnet - ssh >= 0
    {
      OtherNotNegative(Users());
      all, local, telnet, ssh := nusers, nr[2], nr[1], nr[0];
      other := all - local - telnet - ssh;
    }

    /** find_user_by_tty, and the search of a logout: newest first. */
    method FindByTty(tty: string) returns (id: Option<UserId>)
      requires Linked()
      ensures var l := FindTty(Users(), tty);
              && (id.Some? <==> l.Some?)
              && (id.Some? ==> l.value < |ring.elems| && ring.elems[|ring.elems| - 1 - l.value] == id.value)
    {
      ghost var i, s, us := 0, ring.elems, Users();
      assert us[..|us|] == us;
      var n := ring.First();
      while n.Link?
        invariant 0 <= i <= |s| && n == NodeAt(s, i)
        invariant FindTty(us, tty) == FindTty(us[..|us| - i], tty)
        decreases |s| - i
      {
        FindStep(us[..|us| - i], tty);
        assert us[..|us| - i][..|us| - i - 1] == us[..|us| - (i + 1)];
        assert us[|us| - i - 1] == info[s[i]];
        if info[n.e].tty == tty {
          return Some(n.e);
        }
        n := ring.Next(n.e, i);
        i := i + 1;
      }
      return None;
    }

    /** cursor_user: who is on a line. */
    method CursorUser(l: int) returns (id: Option<UserId>)
      requires Valid()
      ensures id.Some? <==> 0 <= l < |Users()|
      ensures id.Some? ==> id.value in info && info[id.value] == Users()[l]
    {
      ghost var i, s := 0, ring.elems;
      assert 0 <= l < |s| ==> line[s[|s| - 1 - l]] == l;
      var n := ring.First();
      while n.Link?
        invariant 0 <= i <= |s| && n == NodeAt(s, i)
        invariant forall j :: 0 <= j < i ==> line[s[j]] != l
        decreases |s| - i
      {
        if line[n.e] == l {
          return Some(n.e);
        }
        n := ring.Next(n.e, i);
        i := i + 1;
      }
      return None;
    }

    /** check_utmpx */
    method CheckUtmpx(es: seq<Entry>, w: Widget)
      requires Valid()
      modifies this, ring, w`vy, w`crsr
      ensures Valid() && (Users(), w.At()) == ApplyAll(old(Users()), old(w.At()), es)
    {
      assert es[0..] == es;
      for k := 0 to |es|
        invariant Valid()
        invariant ApplyAll(Users(), w.At(), es[k..]) == ApplyAll(old(Users()), old(w.At()), es)
      {
        ApplyStep(Users(), w.At(), es, k);
        One(es[k], w);
      }
    }

    /** One utmp entry. */
    method One(e: Entry, w: Widget)
      requires Valid()
      modifies this, ring, w`vy, w`crsr
      ensures Valid() && (Users(), w.At()) == Apply(old(Users()), old(w.At()), e)
    {
      match e
      case Login(u) =>
        var id := FindByTty(u.tty);
        if id.None? {
          NewUser(u);
        }
      case Logout(tty) =>
        var id := FindByTty(tty);
        if id.Some? {
          UDel(id.value, w, FindTty(Users(), tty).value);
        }
      case Other =>
    }
  }

  lemma FindStep(us: seq<User>, tty: string)
    ensures FindTty(us, tty) ==
            if us == [] then None
            else if us[|us| - 1].tty == tty then Some(|us| - 1) else FindTty(us[..|us| - 1], tty)
  {
  }

  lemma ApplyStep(us: seq<User>, v: View, es: seq<Entry>, k: nat)
    requires k < |es|
    ensures var (us', v') := Apply(us, v, es[k]); ApplyAll(us, v, es[k..]) == ApplyAll(us', v', es[k + 1..])
  {
    assert es[k..][0] == es[k] && es[k..][1..] == es[k + 1..];
  }

  lemma AddedByLine(s: seq<UserId>, info: map<UserId, User>, line: map<UserId, int>, id: UserId, u: User, n: int)
    requires Numbered(s, info, line) && id !in s && n == |s| && Distinct(s)
    ensures forall x :: x in s ==> x in info
    ensures var s', info' := [id] + s, info[id := u];
            && Numbered(s', info', line[id := n]) && (forall x :: x in s' ==> x in info')
            && ByLine(s', info') == ByLine(s, info) + [u]
  {
    var s', info' := [id] + s, info[id := u];
    assert forall i :: 0 < i < |s'| ==> s'[i] == s[i - 1] && s'[i] in s;
  }

  lemma DroppedNumbered(s: seq<UserId>, info: map<UserId, User>, line: map<UserId, int>, line': map<UserId, int>, i: nat)
    requires Numbered(s, info, line) && i < |s| && Distinct(s)
    requires forall x :: x in s ==> x in line' && line'[x] == line[x] - if line[x] > line[s[i]] then 1 else 0
    ensures Numbered(Dropped(s, i), info - {s[i]}, line' - {s[i]})
  {
    var s', info' := Dropped(s, i), info - {s[i]};
    forall j | 0 <= j < |s'|
      ensures s'[j] in info' && s'[j] in line' - {s[i]} && (line' - {s[i]})[s'[j]] == |s'| - 1 - j
    {
      var k := if j < i then j else j + 1;
      assert s'[j] == s[k] && s[k] in s && s[k] != s[i];
    }
  }

  lemma DroppedByLine(s: seq<UserId>, info: map<UserId, User>, line: map<UserId, int>, line': map<UserId, int>, i: nat)
    requires Numbered(s, info, line) && i < |s| && Distinct(s)
    requires forall x :: x in s ==> x in line' && line'[x] == line[x] - if line[x] > line[s[i]] then 1 else 0
    ensures forall x :: x in s ==> x in info
    ensures var s', info' := Dropped(s, i), info - {s[i]};
            && Numbered(s', info', line' - {s[i]}) && (forall x :: x in s' ==> x in info')
            && ByLine(s', info') == Dropped(ByLine(s, info), |s| - 1 - i)
  {
    var s', info', n := Dropped(s, i), info - {s[i]}, |s|;
    DroppedNumbered(s, info, line, line', i);
    DroppedDistinct(s, i);
    hide Numbered, Distinct;
    KnownUsers(s, info, line);
    var a, b := ByLine(s', info'), Dropped(ByLine(s, info), n - 1 - i);
    forall l | 0 <= l < n - 1
      ensures a[l] == b[l]
    {
      var k := n - 2 - l;
      assert s'[k] == s[if k < i then k else k + 1] && s'[k] in s';
    }
  }

  lemma KnownUsers(s: seq<UserId>, info: map<UserId, User>, line: map<UserId, int>)
    requires Numbered(s, info, line)
    ensures forall x :: x in s ==> x in info
  {
  }

  lemma CountsAdded(us: seq<User>, u: User)
    ensures forall i :: 0 <= i < |PROTOCOLS| ==>
              Count(us + [u], PROTOCOLS[i])
              == Count(us, PROTOCOLS[i]) + if StartsWith(u.parent, PROTOCOLS[i]) then 1 else 0
  {
    forall i | 0 <= i < |PROTOCOLS|
      ensures Count(us + [u], PROTOCOLS[i])
              == Count(us, PROTOCOLS[i]) + if StartsWith(u.parent, PROTOCOLS[i]) then 1 else 0
    {
      CountAdded(us, u, PROTOCOLS[i]);
    }
  }

  lemma CountsDropped(us: seq<User>, l: nat)
    requires l < |us|
    ensures forall i :: 0 <= i < |PROTOCOLS| ==>
              Count(Dropped(us, l), PROTOCOLS[i])
              == Count(us, PROTOCOLS[i]) - if StartsWith(us[l].parent, PROTOCOLS[i]) then 1 else 0
  {
    forall i | 0 <= i < |PROTOCOLS|
      ensures Count(Dropped(us, l), PROTOCOLS[i])
              == Count(us, PROTOCOLS[i]) - if StartsWith(us[l].parent, PROTOCOLS[i]) then 1 else 0
    {
      CountDropped(us, l, PROTOCOLS[i]);
    }
  }
}
