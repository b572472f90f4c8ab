/** The login list as values: the users in the order of their lines, and what logins and logouts do to
    them, to the counts per protocol and to the cursor. */
module Users {
  import opened Seqs
  import opened Screen
  import opened Options

  datatype User = User(name: string, tty: string, host: string, parent: string, pid: int)

  /** One utmp entry; entries of other types are skipped. */
  datatype Entry = Login(user: User) | Logout(tty: string) | Other

  /** prot_tab */
  const PROTOCOLS: seq<string> := ["(sshd", "(in.telnetd)", "(init)"]

  /** strncmp(p, name, strlen(p)) == 0 */
  predicate StartsWith(name: string, p: string) {
    |p| <= |name| && name[..|p|] == p
  }

  /** How many users came in by the protocol `p`. */
  function Count(us: seq<User>, p: string): nat {
    if us == [] then 0 else Count(us[..|us| - 1], p) + if StartsWith(us[|us| - 1].parent, p) then 1 else 0
  }

  /** The highest line of a user on `tty`, the list being searched from the newest user on. */
  function FindTty(us: seq<User>, tty: string): (r: Option<nat>)
    ensures r.Some? ==> r.value < |us| && us[r.value].tty == tty && forall k :: r.value < k < |us| ==> us[k].tty != tty
    ensures r.None? ==> forall k :: 0 <= k < |us| ==> us[k].tty != tty
  {
    if us == [] then None
    else if us[|us| - 1].tty == tty then Some(|us| - 1)
    else FindTty(us[..|us| - 1], tty)
  }

  /** check_utmpx on one entry. */
  function Apply(us: seq<User>, v: View, e: Entry): (seq<User>, View) {
    match e
    case Login(u) => if FindTty(us, u.tty).Some? then (us, v) else (us + [u], v)
    case Logout(tty) =>
      var l := FindTty(us, tty);
      if l.Some? then (Dropped(us, l.value), LineDeleted(v, l.value)) else (us, v)
    case Other => (us, v)
  }

  function ApplyAll(us: seq<User>, v: View, es: seq<Entry>): (seq<User>, View)
    decreases |es|
  {
    if es == [] then (us, v)
    else
      var (us', v') := Apply(us, v, es[0]);
      ApplyAll(us', v', es[1..])
  }

  // ---------- the counts ----------

  lemma {:induction false} CountDropped(us: seq<User>, l: nat, p: string)
    requires l < |us|
    ensures Count(Dropped(us, l), p) == Count(us, p) - if StartsWith(us[l].parent, p) then 1 else 0
  {
    var n := |us| - 1;
    if l == n {
      assert Dropped(us, l) == us[..n];
    } else {
      assert Dropped(us, l)[..n - 1] == Dropped(us[..n], l);
      assert Dropped(us, l)[n - 1] == us[n];
      CountDropped(us[..n], l, p);
    }
  }

  lemma CountAdded(us: seq<User>, u: User, p: string)
    ensures Count(us + [u], p) == Count(us, p) + if StartsWith(u.parent, p) then 1 else 0
  {
    assert (us + [u])[..|us|] == us;
  }

  /** Nobody came in by two protocols, so "other" is never negative. */
  lemma {:induction false} OtherNotNegative(us: seq<User>)
    ensures Count(us, PROTOCOLS[0]) + Count(us, PROTOCOLS[1]) + Count(us, PROTOCOLS[2]) <= |us|
  {
    if us != [] {
      OtherNotNegative(us[..|us| - 1]);
      OneProtocol(us[|us| - 1].parent);
    }
  }

  lemma OneProtocol(name: string)
    ensures !(StartsWith(name, PROTOCOLS[0]) && StartsWith(name, PROTOCOLS[1]))
    ensures !(StartsWith(name, PROTOCOLS[0]) && StartsWith(name, PROTOCOLS[2]))
    ensures !(StartsWith(name, PROTOCOLS[1]) && StartsWith(name, PROTOCOLS[2]))
  {
    assert StartsWith(name, PROTOCOLS[0]) ==> name[1] == name[..5][1] == 's';
    assert StartsWith(name, PROTOCOLS[1]) ==> name[2] == name[..12][2] == '.' || name[3] == name[..12][3] == '.';
    assert StartsWith(name, PROTOCOLS[2]) ==> name[3] == name[..6][3] == 'i';
  }

  // ---------- whole runs ----------

  ghost predicate TtysApart(us: seq<User>) {
    forall i, j :: 0 <= i < j < |us| ==> us[i].tty != us[j].tty
  }

  lemma ApplyApart(us: seq<User>, v: View, e: Entry)
    requires TtysApart(us)
    ensures TtysApart(Apply(us, v, e).0)
  {
    if e.Logout? && FindTty(us, e.tty).Some? {
      var l := FindTty(us, e.tty).value;
      var r := Dropped(us, l);
      forall i, j | 0 <= i < j < |r|
        ensures r[i].tty != r[j].tty
      {
        assert r[i] == us[if i < l then i else i + 1] && r[j] == us[if j < l then j else j + 1];
      }
    }
  }

  /** No two users are ever on the same terminal, if none were. */
  lemma {:induction false} AlwaysApart(us: seq<User>, v: View, es: seq<Entry>)
    requires TtysApart(us)
    ensures TtysApart(ApplyAll(us, v, es).0)
    decreases |es|
  {
    if es != [] {
      ApplyApart(us, v, es[0]);
      var (us', v') := Apply(us, v, es[0]);
      AlwaysApart(us', v', es[1..]);
    }
  }

  /** Logins, and logouts of others, leave the cursor on its user. */
  lemma ApplyFollows(us: seq<User>, v: View, e: Entry)
    requires TtysApart(us) && 0 <= v.crsr < |us|
    requires e != Logout(us[v.crsr].tty)
    ensures var (us', v') := Apply(us, v, e);
            && 0 <= v'.crsr < |us'| && us'[v'.crsr] == us[v.crsr]
            && v'.crsr <= v.crsr && v'.vy == Max(v.vy - (v.crsr - v'.crsr), 0)
  {
  }

  /** So do whole runs; and the screen moves up with the cursor while it can. */
  lemma {:induction false} CursorFollows(us: seq<User>, v: View, es: seq<Entry>)
    requires TtysApart(us) && 0 <= v.crsr < |us|
    requires Logout(us[v.crsr].tty) !in es
    ensures var (us', v') := ApplyAll(us, v, es);
            && 0 <= v'.crsr < |us'| && us'[v'.crsr] == us[v.crsr]
            && v'.crsr <= v.crsr && v'.vy == Max(v.vy - (v.crsr - v'.crsr), 0)
    decreases |es|
  {
    if es != [] {
      assert es[0] in es;
      ApplyApart(us, v, es[0]);
      ApplyFollows(us, v, es[0]);
      var (us', v') := Apply(us, v, es[0]);
      CursorFollows(us', v', es[1..]);
    }
  }

  // ---------- who is logged in after a run ----------

  function FirstLogin(es: seq<Entry>, tty: string): Option<User> {
    if es == [] then None
    else if es[0].Login? && es[0].user.tty == tty then Some(es[0].user)
    else FirstLogin(es[1..], tty)
  }

  /** The entries after the last logout from `tty`; all of them if there is none. */
  function SinceLogout(es: seq<Entry>, tty: string): seq<Entry> {
    if Logout(tty) !in es then es else SinceLogout(es[1..], tty)
  }

  ghost predicate IsOn(us: seq<User>, tty: string, u: User) {
    u in us && u.tty == tty
  }

  /** Who is on a terminal: whoever was there, unless a logout came, and else who came first since. */
  ghost predicate Sits(us: seq<User>, es: seq<Entry>, tty: string, u: User) {
    if Logout(tty) !in es && exists w :: IsOn(us, tty, w) then IsOn(us, tty, u)
    else FirstLogin(SinceLogout(es, tty), tty) == Some(u)
  }

  lemma ApplyOn(us: seq<User>, v: View, e: Entry, tty: string, u: User)
    requires TtysApart(us)
    ensures var r := Apply(us, v, e).0;
            IsOn(r, tty, u) <==>
              if e == Logout(tty) then false
              else if e.Login? && e.user.tty == tty && !exists w :: IsOn(us, tty, w) then u == e.user
              else IsOn(us, tty, u)
  {
    match e
    case Login(w) =>
      var l := FindTty(us, w.tty);
      assert l.Some? ==> IsOn(us, w.tty, us[l.value]);
    case Logout(t) =>
      var l := FindTty(us, t);
      if l.Some? {
        DroppedElements(us, l.value);
      }
    case Other =>
  }

  /** Terminals being apart, taking out line `l` takes out nobody else. */
  lemma DroppedElements(us: seq<User>, l: nat)
    requires TtysApart(us) && l < |us|
    ensures forall u :: u in Dropped(us, l) <==> u in us && u.tty != us[l].tty
  {
    var r := Dropped(us, l);
    forall u
      ensures u in r <==> u in us && u.tty != us[l].tty
    {
      if u in r {
        var i :| 0 <= i < |r| && r[i] == u;
        assert u == us[if i < l then i else i + 1];
      }
      if u in us && u.tty != us[l].tty {
        var i :| 0 <= i < |us| && us[i] == u;
        assert r[if i < l then i else i - 1] == u;
      }
    }
  }

  /** After any run: `u` is on a terminal exactly if it was there and nobody logged out from it, or came
      first since the last logout from it (or since the beginning, if nobody was there). */
  lemma {:induction false} WhoSits(us: seq<User>, v: View, es: seq<Entry>, tty: string, u: User)
    requires TtysApart(us)
    ensures IsOn(ApplyAll(us, v, es).0, tty, u) <==> Sits(us, es, tty, u)
    decreases |es|
  {
    if es == [] {
      NobodyComes(us, tty, u);
    } else {
      var (us', v') := Apply(us, v, es[0]);
      ApplyApart(us, v, es[0]);
      WhoSits(us', v', es[1..], tty, u);
      forall w
        ensures IsOn(us', tty, w) <==>
                  if es[0] == Logout(tty) then false
                  else if es[0].Login? && es[0].user.tty == tty && !exists w :: IsOn(us, tty, w) then w == es[0].user
                  else IsOn(us, tty, w)
      {
        ApplyOn(us, v, es[0], tty, w);
      }
      hide Apply, TtysApart, IsOn;
      SitsStep(us, us', es, tty, u);
    }
  }

  lemma NobodyComes(us: seq<User>, tty: string, u: User)
    ensures IsOn(us, tty, u) <==> Sits(us, [], tty, u)
  {
  }

  lemma SitsStep(us: seq<User>, us': seq<User>, es: seq<Entry>, tty: string, u: User)
    requires es != []
    requires forall w :: IsOn(us', tty, w) <==>
                           if es[0] == Logout(tty) then false
                           else if es[0].Login? && es[0].user.tty == tty && !exists w :: IsOn(us, tty, w) then w == es[0].user
                           else IsOn(us, tty, w)
    ensures Sits(us', es[1..], tty, u) <==> Sits(us, es, tty, u)
  {
    hide IsOn;
    assert es == [es[0]] + es[1..];
    assert Logout(tty) in es <==> es[0] == Logout(tty) || Logout(tty) in es[1..];
    var had, has := (exists w :: IsOn(us, tty, w)), (exists w :: IsOn(us', tty, w));
    if es[0] == Logout(tty) {
      assert !has;
    } else if es[0].Login? && es[0].user.tty == tty && !had {
      assert IsOn(us', tty, es[0].user);
    } else if had {
      var w :| IsOn(us, tty, w);
      assert IsOn(us', tty, w);
    }
  }

  /** A terminal has a user exactly if the last entry for it is a login, or if there is none and it had one. */
  lemma {:induction false} LastEntryDecides(us: seq<User>, v: View, es: seq<Entry>, tty: string)
    requires TtysApart(us)
    ensures (exists u :: IsOn(ApplyAll(us, v, es).0, tty, u)) <==>
              match LastFor(es, tty)
              case Some(e) => e.Login?
              case None => exists u :: IsOn(us, tty, u)
  {
    var first := FirstLogin(SinceLogout(es, tty), tty);
    LastSince(es, tty);
    forall u
      ensures IsOn(ApplyAll(us, v, es).0, tty, u) <==> Sits(us, es, tty, u)
    {
      WhoSits(us, v, es, tty, u);
    }
    hide ApplyAll, IsOn, FirstLogin, SinceLogout, LastFor, TtysApart;
    if w :| IsOn(us, tty, w) {
      if Logout(tty) !in es {
        assert Sits(us, es, tty, w);
        assert IsOn(ApplyAll(us, v, es).0, tty, w);
      }
    }
    if first.Some? && (Logout(tty) in es || !exists w :: IsOn(us, tty, w)) {
      assert Sits(us, es, tty, first.value);
      assert IsOn(ApplyAll(us, v, es).0, tty, first.value);
    }
  }

  /** The last login to or logout from `tty`. */
  function LastFor(es: seq<Entry>, tty: string): Option<Entry> {
    if es == [] then None
    else
      var later := LastFor(es[1..], tty);
      if later.Some? then later
      else if es[0] == Logout(tty) || (es[0].Login? && es[0].user.tty == tty) then Some(es[0])
      else None
  }

  lemma {:induction false} LastSince(es: seq<Entry>, tty: string)
    ensures LastFor(es, tty).None? <==> Logout(tty) !in es && FirstLogin(es, tty).None?
    ensures LastFor(es, tty).Some? ==>
              (LastFor(es, tty).value.Login? <==> FirstLogin(SinceLogout(es, tty), tty).Some?)
    ensures LastFor(es, tty).Some? ==> LastFor(es, tty).value.Login? || LastFor(es, tty).value == Logout(tty)
  {
    if es != [] {
      LastSince(es[1..], tty);
      assert es == [es[0]] + es[1..];
      assert Logout(tty) in es <==> es[0] == Logout(tty) || Logout(tty) in es[1..];
    }
  }

  // ---------- their order ----------

  /** Those who were there and from whose terminal nobody logged out. */
  function Stayed(us: seq<User>, es: seq<Entry>): seq<User> {
    if us == [] then []
    else (if Logout(us[0].tty) in es then [] else [us[0]]) + Stayed(us[1..], es)
  }

  function Logins(es: seq<Entry>): seq<User> {
    if es == [] then [] else (if es[0].Login? then [es[0].user] else []) + Logins(es[1..])
  }

  /** `a` is `b` with some elements left out. */
  predicate Within(a: seq<User>, b: seq<User>)
    decreases |b|
  {
    a == [] || (b != [] && (Within(a, b[1..]) || (a[0] == b[0] && Within(a[1..], b[1..]))))
  }

  lemma {:induction false} WithinLess(a: seq<User>, l: nat, b: seq<User>)
    requires Within(a, b) && l < |a|
    ensures Within(Dropped(a, l), b)
    decreases |b|
  {
    if Within(a, b[1..]) {
      WithinLess(a, l, b[1..]);
    } else if l == 0 {
      assert Dropped(a, l) == a[1..];
    } else {
      WithinLess(a[1..], l - 1, b[1..]);
      assert Dropped(a, l)[0] == a[0] && Dropped(a, l)[1..] == Dropped(a[1..], l - 1);
    }
  }

  lemma {:induction false} WithinMore(a: seq<User>, b: seq<User>, u: User)
    requires Within(a, b)
    ensures Within(a + [u], b + [u]) && Within(a, b + [u])
    decreases |b|
  {
    assert b != [] ==> (b + [u])[0] == b[0] && (b + [u])[1..] == b[1..] + [u];
    if a == [] {
      WithinLast(b, u);
    } else if Within(a, b[1..]) {
      WithinMore(a, b[1..], u);
    } else {
      WithinMore(a[1..], b[1..], u);
      assert (a + [u])[0] == a[0] && (a + [u])[1..] == a[1..] + [u];
    }
  }

  lemma {:induction false} WithinLast(b: seq<User>, u: User)
    ensures Within([] + [u], b + [u]) && Within([], b + [u])
    decreases |b|
  {
    assert [] + [u] == [u] && [u][1..] == [];
    assert b != [] ==> (b + [u])[0] == b[0] && (b + [u])[1..] == b[1..] + [u];
    if b == [] {
      assert Within([u][1..], (b + [u])[1..]);
    } else {
      WithinLast(b[1..], u);
    }
  }

  lemma {:induction false} LastEntry(us: seq<User>, v: View, es: seq<Entry>, e: Entry)
    ensures var (us', v') := ApplyAll(us, v, es); ApplyAll(us, v, es + [e]) == Apply(us', v', e)
    decreases |es|
  {
    if es == [] {
      assert ([] + [e])[1..] == [];
    } else {
      assert (es + [e])[0] == es[0] && (es + [e])[1..] == es[1..] + [e];
      var (us', v') := Apply(us, v, es[0]);
      LastEntry(us', v', es[1..], e);
    }
  }

  lemma {:induction false} StayedWho(us: seq<User>, es: seq<Entry>)
    ensures forall u :: u in Stayed(us, es) <==> u in us && Logout(u.tty) !in es
  {
    if us != [] {
      StayedWho(us[1..], es);
    }
  }

  lemma {:induction false} StayedStill(us: seq<User>, es: seq<Entry>, e: Entry)
    requires forall u :: u in Stayed(us, es) ==> e != Logout(u.tty)
    ensures Stayed(us, es + [e]) == Stayed(us, es)
  {
    if us != [] {
      StayedStill(us[1..], es, e);
      assert Logout(us[0].tty) in es + [e] <==> Logout(us[0].tty) in es || e == Logout(us[0].tty);
      assert Logout(us[0].tty) !in es ==> us[0] in Stayed(us, es);
    }
  }

  lemma StayedStep(us: seq<User>, es: seq<Entry>, e: Entry)
    requires us != []
    ensures Stayed(us, es) == (if Logout(us[0].tty) in es then [] else [us[0]]) + Stayed(us[1..], es)
    ensures Stayed(us, es + [e])
            == (if Logout(us[0].tty) in es || e == Logout(us[0].tty) then [] else [us[0]]) + Stayed(us[1..], es + [e])
  {
    assert Logout(us[0].tty) in es + [e] <==> Logout(us[0].tty) in es || e == Logout(us[0].tty);
  }

  lemma ApartTail(us: seq<User>, es: seq<Entry>)
    requires TtysApart(us) && us != []
    ensures TtysApart(us[1..]) && forall u :: u in Stayed(us[1..], es) ==> u.tty != us[0].tty
  {
    StayedWho(us[1..], es);
    assert forall u :: u in us[1..] ==> u.tty != us[0].tty;
  }

  lemma DroppedCons(u: User, t: seq<User>, l: nat)
    requires l <= |t|
    ensures Dropped([u] + t, l) == if l == 0 then t else [u] + Dropped(t, l - 1)
  {
  }

  lemma {:induction false} StayedLess(us: seq<User>, es: seq<Entry>, l: nat)
    requires TtysApart(us) && l < |Stayed(us, es)|
    ensures Stayed(us, es + [Logout(Stayed(us, es)[l].tty)]) == Dropped(Stayed(us, es), l)
    decreases |us|
  {
    var s, t, e := Stayed(us, es), Stayed(us[1..], es), Logout(Stayed(us, es)[l].tty);
    StayedStep(us, es, e);
    ApartTail(us, es);
    hide Stayed, TtysApart, Dropped;
    if Logout(us[0].tty) in es {
      assert s == t;
      StayedLess(us[1..], es, l);
    } else {
      DroppedCons(us[0], t, l);
      if l == 0 {
        StayedStill(us[1..], es, e);
      } else {
        assert s[l] == t[l - 1] && t[l - 1] in t;
        StayedLess(us[1..], es, l - 1);
      }
    }
  }

  lemma LoginsMore(es: seq<Entry>, e: Entry)
    ensures Logins(es + [e]) == Logins(es) + if e.Login? then [e.user] else []
  {
    if es == [] {
      assert ([] + [e])[1..] == [];
    } else {
      assert (es + [e])[0] == es[0] && (es + [e])[1..] == es[1..] + [e];
      LoginsMore(es[1..], e);
    }
  }

  /** After any run the users who stayed are in their old order, and behind them are new ones, in the order
      in which they came. */
  lemma {:induction false} NewcomersLast(us: seq<User>, v: View, es: seq<Entry>) returns (came: seq<User>)
    requires TtysApart(us)
    ensures ApplyAll(us, v, es).0 == Stayed(us, es) + came && Within(came, Logins(es))
    decreases |es|
  {
    if es == [] {
      came := [];
      NobodyLeft(us);
    } else {
      var n := |es| - 1;
      var init, e := es[..n], es[n];
      assert es == init + [e];
      came := NewcomersLast(us, v, init);
      LastEntry(us, v, init, e);
      LoginsMore(init, e);
      AlwaysApart(us, v, init);
      came := OneMoreEntry(us, ApplyAll(us, v, init).1, init, e, came);
    }
  }

  lemma {:induction false} NobodyLeft(us: seq<User>)
    ensures Stayed(us, []) == us
  {
    if us != [] {
      NobodyLeft(us[1..]);
    }
  }

  lemma OneMoreEntry(us: seq<User>, v: View, es: seq<Entry>, e: Entry, before: seq<User>) returns (came: seq<User>)
    requires TtysApart(us) && TtysApart(Stayed(us, es) + before) && Within(before, Logins(es))
    ensures Apply(Stayed(us, es) + before, v, e).0 == Stayed(us, es + [e]) + came
    ensures Within(came, Logins(es) + if e.Login? then [e.user] else [])
  {
    var s := Stayed(us, es);
    came := before;
    hide Stayed, TtysApart, Within, Logins;
    match e
    case Login(u) =>
      StayedStill(us, es, e);
      WithinMore(before, Logins(es), u);
      if FindTty(s + before, u.tty).None? {
        came := before + [u];
        assert s + before + [u] == s + (before + [u]);
      }
    case Logout(tty) =>
      assert Logins(es) + [] == Logins(es);
      came := OneLogout(us, es, tty, before);
    case Other =>
      assert Logins(es) + [] == Logins(es);
      StayedStill(us, es, e);
  }

  lemma NotBefore(s: seq<User>, t: seq<User>, tty: string)
    requires TtysApart(s + t)
    ensures var l := FindTty(s + t, tty); l.None? || l.value >= |s| ==> forall u :: u in s ==> u.tty != tty
  {
    var l := FindTty(s + t, tty);
    forall k | 0 <= k < |s| && (l.None? || l.value >= |s|)
      ensures s[k].tty != tty
    {
      assert (s + t)[k] == s[k];
    }
  }

  lemma OneLogout(us: seq<User>, es: seq<Entry>, tty: string, before: seq<User>) returns (came: seq<User>)
    requires TtysApart(us) && TtysApart(Stayed(us, es) + before) && Within(before, Logins(es))
    ensures var l := FindTty(Stayed(us, es) + before, tty);
            (if l.Some? then Dropped(Stayed(us, es) + before, l.value) else Stayed(us, es) + before)
            == Stayed(us, es + [Logout(tty)]) + came
    ensures Within(came, Logins(es))
  {
    hide Stayed, Within, Logins;
    var s := Stayed(us, es);
    var l := FindTty(s + before, tty);
    came := before;
    if l.Some? && l.value < |s| {
      assert (s + before)[l.value] == s[l.value];
      StayedLess(us, es, l.value);
      assert Dropped(s + before, l.value) == Dropped(s, l.value) + before;
    } else {
      NotBefore(s, before, tty);
      StayedStill(us, es, Logout(tty));
      if l.Some? {
        came := Dropped(before, l.value - |s|);
        WithinLess(before, l.value - |s|, Logins(es));
        assert Dropped(s + before, l.value) == s + came;
      }
    }
  }

  // ---------- the counts in words ----------

  /** A name starts with a prefix exactly if it is the prefix with something behind it. */
  lemma StartsWithIs(name: string, p: string)
    ensures StartsWith(name, p) <==> exists rest :: name == p + rest
  {
    if StartsWith(name, p) {
      assert name == p + name[|p|..];
    }
    if rest :| name == p + rest {
      assert name[..|p|] == p;
    }
  }
}
