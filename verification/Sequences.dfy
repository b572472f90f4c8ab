/** What complete control sequences decode to: numbers with any leading zeros, modifier arguments, the
    8-bit introducers and the second ESC. */
module Sequences {
  import opened Keys
  import opened Decoder
  import opened Options

  // ---------- one complete sequence ----------

  /** The key and the state after `s`, if exactly the last byte of `s` completes a sequence. The window
      plays no part. */
  function Complete(c: Config, s: seq<Byte>): (r: Option<(Key, Config)>)
    requires ConfigOk(c) && c.st != Start && |c.win| < BUFSIZE
    ensures r.Some? ==> |r.value.1.sq.arg| == MAX_ARGS
    decreases |s|
  {
    if s == [] then None
    else
      FeedOk(c, s[0]);
      var (d, r) := Feed(c, s[0]);
      match r
      case More => Complete(d, s[1..])
      case Done(k) => if |s| == 1 then Some((k, d)) else None
      case Incomplete => None
  }

  lemma SameFeed(c: Config, w: seq<Byte>, b: Byte)
    requires ConfigOk(c) && ConfigOk(c.(win := w))
    ensures Feed(c.(win := w), b) == (Feed(c, b).0.(win := w), Feed(c, b).1)
  {
  }

  lemma RunStep(c: Config, s: seq<Byte>)
    requires ConfigOk(c) && |c.win| < BUFSIZE && s != [] && !Feed(c, s[0]).1.Incomplete?
    ensures var (d, r) := Feed(c, s[0]);
            && (r.More? ==> ConfigOk(d.(win := c.win + [s[0]])) && Run(c, s) == Run(d.(win := c.win + [s[0]]), s[1..]))
            && (r.Done? ==> ConfigOk(Restart(d, d.delf)) && Run(c, s) == After(Emit(r.key), Run(Restart(d, d.delf), s[1..])))
  {
    FeedOk(c, s[0]);
    AfterAfter([], [], Run(Next(c, s).1, Next(c, s).2));
  }

  /** A complete sequence that fits the window gives its key and nothing else. */
  lemma {:induction false} CompleteRuns(c: Config, s: seq<Byte>, w: seq<Byte>)
    requires ConfigOk(c) && c.st != Start && |c.win| < BUFSIZE
    requires Complete(c, s).Some?
    requires w != [] && |w| + |s| <= BUFSIZE
    ensures var (k, d) := Complete(c, s).value;
            Run(c.(win := w), s) == (Emit(k), Restart(d, d.delf))
    decreases |s|
  {
    hide Feed;
    FeedOk(c, s[0]);
    SameFeed(c, w, s[0]);
    RunStep(c.(win := w), s);
    var (d, r) := Feed(c, s[0]);
    if r.More? {
      CompleteRuns(d, s[1..], w + [s[0]]);
      assert d.(win := w).(win := w + [s[0]]) == d.(win := w + [s[0]]);
    } else {
      assert s[1..] == [];
      assert Emit(r.key) + [] == Emit(r.key);
    }
  }

  // ---------- introducers ----------

  /** After an introducer. */
  function Opened(c: Config, typ: int, mod: int, w: seq<Byte>): Config
    requires |c.sq.arg| == MAX_ARGS
  {
    Config(Csiss3, Seq(typ, mod, false, c.sq.arg[0 := 0][1 := 0], 0), c.delf, w)
  }

  lemma OpenWithEsc(c: Config, typ: Byte, s: seq<Byte>)
    requires ConfigOk(c) && c.st == Start && (typ == CSI || typ == SS3)
    ensures ConfigOk(Opened(c, typ, 0, [27, typ])) && Run(c, [27, typ] + s) == Run(Opened(c, typ, 0, [27, typ]), s)
  {
    var all := [27, typ] + s;
    RunStep(c, all);
    var d := Feed(c, 27).0.(win := [27]);
    assert all[1..] == [typ] + s && all[1..][1..] == s;
    assert c.win + [all[0]] == [27];
    RunStep(d, all[1..]);
    assert [27] + [typ] == [27, typ];
  }

  lemma OpenWithTwoEscs(c: Config, typ: Byte, s: seq<Byte>)
    requires ConfigOk(c) && c.st == Start && (typ == CSI || typ == SS3)
    ensures ConfigOk(Opened(c, typ, 27, [27, 27, typ]))
    ensures Run(c, [27, 27, typ] + s) == Run(Opened(c, typ, 27, [27, 27, typ]), s)
  {
    hide Run;
    var all := [27, 27, typ] + s;
    RunStep(c, all);
    var d := Feed(c, 27).0.(win := [27]);
    assert all[1..] == [27, typ] + s && all[1..][1..] == [typ] + s && all[1..][1..][1..] == s;
    assert c.win + [all[0]] == [27];
    RunStep(d, all[1..]);
    var e := Feed(d, 27).0.(win := [27, 27]);
    assert [27] + [27] == [27, 27];
    RunStep(e, all[1..][1..]);
    assert [27, 27] + [typ] == [27, 27, typ];
  }

  /** The 8-bit forms: 0x9B for ESC [ and 0x8F for ESC O. */
  lemma OpenWithOneByte(c: Config, typ: Byte, s: seq<Byte>)
    requires ConfigOk(c) && c.st == Start && (typ == CSI || typ == SS3)
    ensures ConfigOk(Opened(c, typ, 0, [typ + 64]))
    ensures Run(c, [typ + 64] + s) == Run(Opened(c, typ, 0, [typ + 64]), s)
  {
    var all: seq<Byte> := [typ + 64] + s;
    RunStep(c, all);
    assert c.win + [all[0]] == [typ + 64];
    assert all[1..] == s;
  }

  /** Both forms of an introducer give the same key, and the same state after it. */
  lemma IntroducersAgree(c: Config, typ: Byte, s: seq<Byte>)
    requires ConfigOk(c) && c.st == Start && (typ == CSI || typ == SS3)
    requires Complete(Opened(c, typ, 0, [typ]), s).Some? && 2 + |s| <= BUFSIZE
    ensures Run(c, [27, typ] + s) == Run(c, [typ + 64] + s)
    ensures Run(c, [27, typ] + s).0 == Emit(Complete(Opened(c, typ, 0, [typ]), s).value.0)
  {
    OpenWithEsc(c, typ, s);
    OpenWithOneByte(c, typ, s);
    CompleteRuns(Opened(c, typ, 0, [typ]), s, [27, typ]);
    CompleteRuns(Opened(c, typ, 0, [typ]), s, [typ + 64]);
  }

  // ---------- sequences that are given up ----------

  /** Exactly the last byte of `s` makes the decoder give up. */
  predicate GivesUp(c: Config, s: seq<Byte>)
    requires ConfigOk(c) && c.st != Start && |c.win| < BUFSIZE
    decreases |s|
  {
    && s != []
    && (FeedOk(c, s[0]);
        var (d, r) := Feed(c, s[0]);
        match r
        case More => GivesUp(d, s[1..])
        case Done(_) => false
        case Incomplete => |s| == 1)
  }

  /** After all of `s` the sequence still goes on. */
  predicate Pends(c: Config, s: seq<Byte>)
    requires ConfigOk(c) && c.st != Start && |c.win| < BUFSIZE
    decreases |s|
  {
    || s == []
    || (FeedOk(c, s[0]);
        var (d, r) := Feed(c, s[0]);
        r.More? && Pends(d, s[1..]))
  }

  /** The state in which `s` leaves the decoder, but for the window. */
  function Reached(c: Config, s: seq<Byte>): (d: Config)
    requires ConfigOk(c) && c.st != Start && |c.win| < BUFSIZE && (GivesUp(c, s) || Pends(c, s))
    ensures |d.sq.arg| == MAX_ARGS && d.win == c.win
    ensures Pends(c, s) ==> ConfigOk(d) && d.st != Start
    decreases |s|
  {
    if s == [] then c
    else
      FeedOk(c, s[0]);
      var (d, r) := Feed(c, s[0]);
      if r.More? then Reached(d, s[1..]) else d
  }

  lemma {:induction false} PendingRuns(c: Config, s: seq<Byte>, w: seq<Byte>)
    requires ConfigOk(c) && c.st != Start && |c.win| < BUFSIZE && Pends(c, s)
    requires w != [] && |w| + |s| < BUFSIZE
    ensures ConfigOk(Reached(c, s).(win := w + s)) && Run(c.(win := w), s) == ([], Reached(c, s).(win := w + s))
    decreases |s|
  {
    hide Feed;
    if s == [] {
      assert w + s == w;
    } else {
      FeedOk(c, s[0]);
      SameFeed(c, w, s[0]);
      RunStep(c.(win := w), s);
      var d := Feed(c, s[0]).0;
      PendingRuns(d, s[1..], w + [s[0]]);
      assert d.(win := w).(win := w + [s[0]]) == d.(win := w + [s[0]]);
      assert w + [s[0]] + s[1..] == w + s;
    }
  }

  /** What a rewind leads to. */
  function Reread(c: Config, w: seq<Byte>): (seq<Key>, Config)
    requires |c.sq.arg| == MAX_ARGS && w != []
  {
    var (ks, d, t) := GiveUp(c, w, []);
    After(ks, Run(d, t))
  }

  lemma GiveUpRuns(c: Config, s: seq<Byte>)
    requires ConfigOk(c) && c.st != Start && |c.win| < BUFSIZE && s != []
    requires Feed(c, s[0]).1.Incomplete? && |s| == 1
    ensures |Feed(c, s[0]).0.sq.arg| == MAX_ARGS && Run(c, s) == Reread(Feed(c, s[0]).0, c.win + s)
  {
    FeedOk(c, s[0]);
    assert s == [s[0]] && s[1..] == [];
  }

  lemma SameReread(c: Config, v: seq<Byte>, w: seq<Byte>)
    requires |c.sq.arg| == MAX_ARGS && w != []
    ensures Reread(c.(win := v), w) == Reread(c, w)
  {
  }

  /** A sequence that is given up inside the window is read again. */
  lemma {:induction false} GivenUpRuns(c: Config, s: seq<Byte>, w: seq<Byte>)
    requires ConfigOk(c) && c.st != Start && |c.win| < BUFSIZE && GivesUp(c, s)
    requires w != [] && |w| + |s| <= BUFSIZE
    ensures Run(c.(win := w), s) == Reread(Reached(c, s), w + s)
    decreases |s|
  {
    hide Feed, Reread, Run;
    FeedOk(c, s[0]);
    SameFeed(c, w, s[0]);
    var (d, r) := Feed(c, s[0]);
    if r.More? {
      RunStep(c.(win := w), s);
      GivenUpRuns(d, s[1..], w + [s[0]]);
      assert d.(win := w).(win := w + [s[0]]) == d.(win := w + [s[0]]);
      assert w + [s[0]] + s[1..] == w + s;
    } else {
      GiveUpRuns(c.(win := w), s);
      SameReread(d, w, w + s);
    }
  }

  /** The old F1: ESC [ M. */
  predicate IsOldF1(typ: Byte, s: seq<Byte>) {
    typ == CSI && s != [] && s[0] == 'M' as int
  }

  lemma RereadEsc(e: Config, typ: Byte, s: seq<Byte>)
    requires |e.sq.arg| == MAX_ARGS && (typ == CSI || typ == SS3)
    ensures Reread(e, [27, typ] + s) ==
            if IsOldF1(typ, s) then After([Plain(F1)], Run(Restart(e, e.delf), s[1..]))
            else After([With(Plain(typ), false, true, false)], Run(Restart(e, e.delf), s))
  {
    var w := [27, typ] + s;
    assert w[2..] + [] == s;
    assert IsOldF1(typ, s) ==> w[..3] == [27, CSI, 'M' as int] && w[3..] + [] == s[1..];
    assert |w| >= 3 && w[..3] == [27, CSI, 'M' as int] ==> w[1] == w[..3][1] && w[2] == w[..3][2];
    assert w[1] == typ && (s != [] ==> w[2] == s[0]);
  }

  lemma RereadByte(e: Config, typ: Byte, s: seq<Byte>)
    requires |e.sq.arg| == MAX_ARGS && (typ == CSI || typ == SS3)
    ensures Reread(e, [typ + 64] + s) == Run(Restart(e, e.delf), s)
  {
    var w: seq<Byte> := [typ + 64] + s;
    assert w[1..] + [] == s;
    assert |w| >= 3 ==> w[..3][0] == w[0];
    AfterAfter([], [], Run(Restart(e, e.delf), s));
  }

  /** Read again, the two forms never give the same keys: ESC and its letter are taken for a key with
      ALT, or with an M for the F1 of old terminals, but the one byte is dropped. */
  lemma RereadsDiffer(e: Config, typ: Byte, s: seq<Byte>)
    requires |e.sq.arg| == MAX_ARGS && (typ == CSI || typ == SS3)
    ensures Reread(e, [27, typ] + s).0 != Reread(e, [typ + 64] + s).0
  {
    hide Run, Reread;
    var z := Restart(e, e.delf);
    RereadEsc(e, typ, s);
    RereadByte(e, typ, s);
    if IsOldF1(typ, s) {
      AnM(z, s);
      assert Reread(e, [27, typ] + s).0[0] == Plain(F1) && Reread(e, [typ + 64] + s).0[0] == Plain('M' as int);
    } else {
      assert |Reread(e, [27, typ] + s).0| == 1 + |Run(z, s).0|;
    }
  }

  lemma AnM(z: Config, s: seq<Byte>)
    requires ConfigOk(z) && z.st == Start && s != [] && s[0] == 'M' as int
    ensures Run(z, s) == After([Plain('M' as int)], Run(z, s[1..]))
  {
    RunStep(z, s);
    assert Restart(z, z.delf) == z;
  }

  /** The keys that `s` gives, and then a timeout, if there is one. */
  ghost predicate Waits(c: Config, s: seq<Byte>)
    requires ConfigOk(c)
  {
    var d := Run(c, s).1; WindowOk(d) && d.st != Start
  }

  function Outcome(c: Config, s: seq<Byte>, timeout: bool): (seq<Key>, Config)
    requires ConfigOk(c) && (timeout ==> Waits(c, s))
  {
    var (ks, d) := Run(c, s);
    if timeout then After(ks, Read(d, [], true)) else (ks, d)
  }

  /** A sequence that goes on until nothing more comes. */
  lemma TimedOut(c: Config, o: Config, s: seq<Byte>, w: seq<Byte>, all: seq<Byte>)
    requires ConfigOk(c) && ConfigOk(o) && (o.st == Csiss3 || o.st == Arg || o.st == Mouse) && |o.win| < BUFSIZE && Pends(o, s)
    requires w != [] && IsIntroducer(w[0]) && (w[0] == 27 ==> |w| >= 2) && |w| + |s| < BUFSIZE
    requires ConfigOk(o.(win := w)) && Run(c, all) == Run(o.(win := w), s)
    ensures Waits(c, all) && Outcome(c, all, true) == Reread(Reached(o, s), w + s)
  {
    PendingRuns(o, s, w);
    StillOpen(o, s);
    var d := Reached(o, s).(win := w + s);
    assert d.win[0] == w[0];
    AgainOk(d, []);
    SameReread(Reached(o, s), w + s, w + s);
    AfterAfter([], [], Reread(d, w + s));
  }

  lemma BothTimedOut(c: Config, typ: Byte, s: seq<Byte>)
    requires ConfigOk(c) && c.st == Start && (typ == CSI || typ == SS3)
    requires Pends(Opened(c, typ, 0, [typ]), s) && 2 + |s| < BUFSIZE
    ensures var e, a, b := Reached(Opened(c, typ, 0, [typ]), s), [27, typ] + s, [typ + 64] + s;
            && Waits(c, a) && Outcome(c, a, true) == Reread(e, [27, typ] + s)
            && Waits(c, b) && Outcome(c, b, true) == Reread(e, [typ + 64] + s)
  {
    hide Run, Pends, Reread, Reached, Outcome, Waits, Feed;
    var o := Opened(c, typ, 0, [typ]);
    OpenWithEsc(c, typ, s);
    OpenWithOneByte(c, typ, s);
    TimedOut(c, o, s, [27, typ], [27, typ] + s);
    TimedOut(c, o, s, [typ + 64], [typ + 64] + s);
  }

  lemma {:induction false} StillOpen(o: Config, s: seq<Byte>)
    requires ConfigOk(o) && (o.st == Csiss3 || o.st == Arg || o.st == Mouse) && |o.win| < BUFSIZE && Pends(o, s)
    ensures var d := Reached(o, s); d.st == Csiss3 || d.st == Arg || d.st == Mouse
    decreases |s|
  {
    if s != [] {
      FeedOk(o, s[0]);
      StillOpen(Feed(o, s[0]).0, s[1..]);
    }
  }

  /** A sequence that is decided inside the window, by its last byte or by a timeout. */
  predicate Decided(o: Config, s: seq<Byte>, timeout: bool)
    requires ConfigOk(o) && o.st != Start && |o.win| < BUFSIZE
  {
    if timeout then Pends(o, s) && 2 + |s| < BUFSIZE
    else (Complete(o, s).Some? || GivesUp(o, s)) && 2 + |s| <= BUFSIZE
  }

  lemma {:induction false} PendingIsIncomplete(o: Config, s: seq<Byte>)
    requires ConfigOk(o) && o.st != Start && |o.win| < BUFSIZE && (Pends(o, s) || GivesUp(o, s))
    ensures Complete(o, s).None?
    decreases |s|
  {
    if s != [] {
      FeedOk(o, s[0]);
      var (d, r) := Feed(o, s[0]);
      if r.More? {
        PendingIsIncomplete(d, s[1..]);
      }
    }
  }

  /** The 8-bit introducers give the keys of ESC [ and ESC O on complete sequences and on no others. */
  lemma AgreeOnlyIfComplete(c: Config, typ: Byte, s: seq<Byte>, timeout: bool)
    requires ConfigOk(c) && c.st == Start && (typ == CSI || typ == SS3)
    requires Decided(Opened(c, typ, 0, [typ]), s, timeout)
    ensures timeout ==> Waits(c, [27, typ] + s) && Waits(c, [typ + 64] + s)
    ensures Outcome(c, [27, typ] + s, timeout).0 == Outcome(c, [typ + 64] + s, timeout).0
            <==> Complete(Opened(c, typ, 0, [typ]), s).Some?
  {
    var o := Opened(c, typ, 0, [typ]);
    hide Run, Complete, GivesUp, Pends, Reread, Reached;
    if !timeout && Complete(o, s).Some? {
      IntroducersAgree(c, typ, s);
    } else {
      PendingIsIncomplete(o, s);
      RereadsDiffer(Reached(o, s), typ, s);
      if timeout {
        BothTimedOut(c, typ, s);
      } else {
        OpenWithEsc(c, typ, s);
        OpenWithOneByte(c, typ, s);
        GivenUpRuns(o, s, [27, typ]);
        GivenUpRuns(o, s, [typ + 64]);
      }
    }
  }

  /** The F1 of old terminals, ESC [ M and then nothing: its 8-bit form is an M. */
  lemma OldF1(c: Config)
    requires ConfigOk(c) && c.st == Start
    ensures Waits(c, [27, CSI, 'M' as int]) && Outcome(c, [27, CSI, 'M' as int], true).0 == [Plain(F1)]
    ensures Waits(c, [0x9B, 'M' as int]) && Outcome(c, [0x9B, 'M' as int], true).0 == [Plain('M' as int)]
  {
    hide Run, Pends, Reread, Reached, Outcome, Waits, Feed, ConfigOk;
    OpenedOk(c);
    var o, s: seq<Byte> := Opened(c, CSI, 0, [CSI]), ['M' as int];
    MouseBegins(o);
    BothTimedOut(c, CSI, s);
    OldF1Again(Reached(o, s), s);
    assert [27, CSI] + s == [27, CSI, 'M' as int] && [0x9B] + s == [0x9B, 'M' as int];
  }

  lemma OpenedOk(c: Config)
    requires ConfigOk(c)
    ensures |c.sq.arg| == MAX_ARGS && ConfigOk(Opened(c, CSI, 0, [CSI]))
  {
  }

  lemma MouseBegins(o: Config)
    requires ConfigOk(o) && o.st == Csiss3 && o.sq.typ == CSI && |o.win| < BUFSIZE
    ensures Pends(o, ['M' as int])
  {
    var s: seq<Byte> := ['M' as int];
    assert s[1..] == [];
  }

  lemma OldF1Again(e: Config, s: seq<Byte>)
    requires |e.sq.arg| == MAX_ARGS && s == ['M' as int]
    ensures Reread(e, [27, CSI] + s).0 == [Plain(F1)] && Reread(e, [0x9B] + s).0 == [Plain('M' as int)]
  {
    hide Run, Reread;
    var z := Restart(e, e.delf);
    RereadEsc(e, CSI, s);
    RereadByte(e, CSI, s);
    AnM(z, s);
    NoBytes(z);
    assert s[1..] == [];
  }

  lemma NoBytes(z: Config)
    requires ConfigOk(z) && z.st == Start
    ensures Run(z, []) == ([], z)
  {
  }

  // ---------- a second ESC ----------

  /** `c` with the second ESC remembered instead of nothing. */
  function Doubled(c: Config): Config {
    c.(sq := c.sq.(mod := 27))
  }

  /** If byte `b` ends the sequence, it does so in csiss3 by way of `ready`. */
  predicate EndsReady(c: Config, b: Byte)
    requires ConfigOk(c)
  {
    (c.st == Csiss3 || (c.st == Arg && b != ';' as int)) && FinalOf(c.sq, b).Ready?
  }

  predicate ThroughReady(c: Config, s: seq<Byte>)
    requires ConfigOk(c) && c.st != Start && |c.win| < BUFSIZE
    decreases |s|
  {
    if s == [] then false
    else
      FeedOk(c, s[0]);
      var (d, r) := Feed(c, s[0]);
      if r.More? then ThroughReady(d, s[1..]) else EndsReady(c, s[0])
  }

  function AltIf(k: Key, alt: bool): Key {
    if alt then With(k, false, true, false) else k
  }

  lemma DoubledFinish(c: Config, b: Byte)
    requires Numbers(c.sq) && c.sq.mod == 0
    ensures var (d, r) := Finish(c, b);
            Finish(Doubled(c), b) == (Doubled(d), Done(AltIf(r.key, FinalOf(c.sq, b).Ready?)))
    ensures Finish(c, b).0.sq == c.sq && Finish(c, b).1.Done?
  {
  }

  ghost predicate Parallel(c: Config, b: Byte)
    requires ConfigOk(c) && ConfigOk(Doubled(c))
  {
    var (d, r) := Feed(c, b);
    var (e, q) := Feed(Doubled(c), b);
    && d.sq.mod == 0 && e == Doubled(d)
    && (r.More? ==> q.More? && (d.st == Arg || d.st == Mouse))
    && (r.Incomplete? ==> q.Incomplete?)
    && (r.Done? ==> q == Done(AltIf(r.key, EndsReady(c, b))))
  }

  lemma DoubledCsiss3(c: Config, b: Byte)
    requires ConfigOk(c) && c.st == Csiss3 && c.sq.mod == 0
    requires c.sq.typ == CSI ==> b != CSI && b != '?' as int
    ensures ConfigOk(Doubled(c)) && Parallel(c, b)
  {
    hide Finish, FinalOf;
    DoubledFinish(c, b);
  }

  lemma DoubledArg(c: Config, b: Byte)
    requires ConfigOk(c) && c.st == Arg && c.sq.mod == 0
    ensures ConfigOk(Doubled(c)) && Parallel(c, b)
  {
    hide Finish, FinalOf;
    DoubledFinish(c, b);
  }

  lemma DoubledMouse(c: Config, b: Byte)
    requires ConfigOk(c) && c.st == Mouse && c.sq.mod == 0
    ensures ConfigOk(Doubled(c)) && Parallel(c, b)
  {
    hide Finish, FinalOf;
  }

  lemma DoubledFeed(c: Config, b: Byte)
    requires ConfigOk(c) && (c.st == Csiss3 || c.st == Arg || c.st == Mouse) && c.sq.mod == 0
    requires c.st == Csiss3 && c.sq.typ == CSI ==> b != CSI && b != '?' as int
    ensures ConfigOk(Doubled(c)) && Parallel(c, b)
  {
    hide Parallel;
    match c.st
    case Csiss3 => DoubledCsiss3(c, b);
    case Arg => DoubledArg(c, b);
    case Mouse => DoubledMouse(c, b);
  }

  /** Same bytes, same state: only ALT is added, and only by way of `ready`. */
  lemma {:induction false} DoubledCompletes(c: Config, s: seq<Byte>)
    requires ConfigOk(c) && (c.st == Csiss3 || c.st == Arg || c.st == Mouse) && c.sq.mod == 0 && |c.win| < BUFSIZE
    requires c.st == Csiss3 && c.sq.typ == CSI && s != [] ==> s[0] != CSI && s[0] != '?' as int
    requires Complete(c, s).Some?
    ensures ConfigOk(Doubled(c))
    ensures var (k, d) := Complete(c, s).value;
            Complete(Doubled(c), s) == Some((AltIf(k, ThroughReady(c, s)), Doubled(d)))
    decreases |s|
  {
    hide Feed, EndsReady;
    DoubledFeed(c, s[0]);
    FeedOk(c, s[0]);
    var (d, r) := Feed(c, s[0]);
    if r.More? {
      DoubledCompletes(d, s[1..]);
    }
  }

  /** ESC ESC [ ... is the key of ESC [ ... with ALT. */
  lemma SecondEscape(c: Config, typ: Byte, s: seq<Byte>)
    requires ConfigOk(c) && c.st == Start && (typ == CSI || typ == SS3)
    requires Complete(Opened(c, typ, 0, [typ]), s).Some? && 3 + |s| <= BUFSIZE
    requires typ == CSI ==> s[0] != CSI && s[0] != '?' as int
    ensures var o := Opened(c, typ, 0, [typ]);
            && Run(c, [27, typ] + s).0 == Emit(Complete(o, s).value.0)
            && Run(c, [27, 27, typ] + s).0 == Emit(AltIf(Complete(o, s).value.0, ThroughReady(o, s)))
  {
    var o := Opened(c, typ, 0, [typ]);
    OpenWithEsc(c, typ, s);
    OpenWithTwoEscs(c, typ, s);
    CompleteRuns(o, s, [27, typ]);
    DoubledCompletes(o, s);
    CompleteRuns(Doubled(o), s, [27, 27, typ]);
  }

  // ---------- numbers ----------

  predicate AllDigits(ds: seq<Byte>) {
    forall b :: b in ds ==> IsDigit(b)
  }

  /** What an argument that held `v` holds after the digits `ds`. */
  function Number(v: nat, ds: seq<Byte>): nat
    requires AllDigits(ds)
    decreases |ds|
  {
    if ds == [] then v else Number(10 * v + Digit(ds[0]), ds[1..])
  }

  function Decimal(n: nat): (ds: seq<Byte>)
    ensures AllDigits(ds) && ds != []
  {
    if n < 10 then ['0' as int + n] else Decimal(n / 10) + ['0' as int + n % 10]
  }

  lemma {:induction false} NumberAppend(v: nat, a: seq<Byte>, b: seq<Byte>)
    requires AllDigits(a) && AllDigits(b)
    ensures Number(v, a + b) == Number(Number(v, a), b)
    decreases |a|
  {
    if a == [] {
      assert a + b == b;
    } else {
      assert (a + b)[1..] == a[1..] + b;
      NumberAppend(10 * v + Digit(a[0]), a[1..], b);
    }
  }

  lemma {:induction false} DecimalNumber(n: nat)
    ensures Number(0, Decimal(n)) == n
  {
    if n >= 10 {
      DecimalNumber(n / 10);
      var last: seq<Byte> := ['0' as int + n % 10];
      NumberAppend(0, Decimal(n / 10), last);
      assert last[1..] == [];
    } else {
      assert Decimal(n)[1..] == [];
    }
  }

  function Zeros(k: nat): (ds: seq<Byte>)
    ensures AllDigits(ds) && |ds| == k
  {
    seq(k, i => '0' as int)
  }

  lemma {:induction false} ZerosNumber(k: nat)
    ensures Number(0, Zeros(k)) == 0
  {
    if k > 0 {
      assert Zeros(k)[1..] == Zeros(k - 1);
      ZerosNumber(k - 1);
    }
  }

  /** A number as it may be written: any leading zeros, then its decimal digits. */
  function Written(k: nat, n: nat): (ds: seq<Byte>)
    ensures AllDigits(ds) && ds != []
  {
    Zeros(k) + Decimal(n)
  }

  lemma WrittenNumber(k: nat, n: nat)
    ensures Number(0, Written(k, n)) == n
  {
    NumberAppend(0, Zeros(k), Decimal(n));
    ZerosNumber(k);
    DecimalNumber(n);
  }

  // ---------- round trips ----------

  function Argument(c: Config, v: nat): Config
    requires SeqOk(c.sq)
  {
    c.(sq := c.sq.(arg := c.sq.arg[c.sq.argp := v]))
  }

  /** Digits collect in the current argument. */
  lemma {:induction false} CompleteDigits(c: Config, ds: seq<Byte>, rest: seq<Byte>)
    requires ConfigOk(c) && c.st == Arg && |c.win| < BUFSIZE && AllDigits(ds)
    ensures var d := Argument(c, Number(c.sq.arg[c.sq.argp], ds));
            ConfigOk(d) && Complete(c, ds + rest) == Complete(d, rest)
    decreases |ds|
  {
    var i := c.sq.argp;
    if ds == [] {
      assert ds + rest == rest;
      assert c.sq.arg[i := c.sq.arg[i]] == c.sq.arg;
    } else {
      var v := c.sq.arg[i];
      var e := Argument(c, 10 * v + Digit(ds[0]));
      assert (ds + rest)[0] == ds[0] && (ds + rest)[1..] == ds[1..] + rest;
      assert Feed(c, ds[0]) == (e, More);
      FeedOk(c, ds[0]);
      CompleteDigits(e, ds[1..], rest);
      assert e.sq.arg[i := Number(v, ds)] == c.sq.arg[i := Number(v, ds)];
    }
  }

  /** Two numbers with a semicolon between them. */
  function TwoNumbers(a: seq<Byte>, b: seq<Byte>, last: Byte): seq<Byte> {
    a + ([';' as int] + (b + [last]))
  }

  lemma TwoNumbersSize(a: seq<Byte>, b: seq<Byte>, last: Byte)
    ensures |TwoNumbers(a, b, last)| == |a| + |b| + 2
  {
  }

  /** Before the last byte: both numbers are in their arguments. */
  function WithNumbers(c: Config, n: nat, m: nat): Config
    requires |c.sq.arg| == MAX_ARGS
  {
    c.(st := Arg, sq := c.sq.(argf := true, arg := c.sq.arg[0 := n][1 := m], argp := 1))
  }

  lemma FirstNumber(c: Config, a: seq<Byte>, rest: seq<Byte>)
    requires ConfigOk(c) && c.st == Csiss3 && |c.win| < BUFSIZE
    requires AllDigits(a) && a != []
    ensures var d := c.(st := Arg, sq := c.sq.(argf := true, arg := c.sq.arg[0 := Number(0, a)]));
            ConfigOk(d) && Complete(c, a + rest) == Complete(d, rest)
  {
    var e := c.(st := Arg, sq := c.sq.(argf := true, arg := c.sq.arg[0 := Digit(a[0])]));
    assert (a + rest)[0] == a[0] && (a + rest)[1..] == a[1..] + rest;
    assert Feed(c, a[0]) == (e, More);
    FeedOk(c, a[0]);
    CompleteDigits(e, a[1..], rest);
    assert e.sq.arg[0 := Number(0, a)] == c.sq.arg[0 := Number(0, a)];
  }

  lemma SecondNumber(c: Config, b: seq<Byte>, rest: seq<Byte>)
    requires ConfigOk(c) && c.st == Arg && |c.win| < BUFSIZE && c.sq.argp == 0 && AllDigits(b)
    ensures var d := c.(sq := c.sq.(arg := c.sq.arg[1 := Number(0, b)], argp := 1));
            ConfigOk(d) && Complete(c, [';' as int] + (b + rest)) == Complete(d, rest)
  {
    var e := c.(sq := c.sq.(arg := c.sq.arg[1 := 0], argp := 1));
    var s: seq<Byte> := [';' as int] + (b + rest);
    assert s[0] == ';' as int && s[1..] == b + rest;
    assert Feed(c, s[0]) == (e, More);
    FeedOk(c, s[0]);
    CompleteDigits(e, b, rest);
    assert e.sq.arg[1 := Number(0, b)] == c.sq.arg[1 := Number(0, b)];
  }

  /** A sequence with two numbers is decided by its last byte. */
  lemma CompleteTwoNumbers(c: Config, a: seq<Byte>, b: seq<Byte>, last: Byte)
    requires ConfigOk(c) && c.st == Csiss3 && |c.win| < BUFSIZE && c.sq.typ == CSI && c.sq.mod == 0
    requires AllDigits(a) && a != [] && AllDigits(b) && !IsDigit(last) && last != ';' as int
    ensures var d := WithNumbers(c, Number(0, a), Number(0, b));
            && ConfigOk(d) && Numbers(d.sq)
            && Complete(c, TwoNumbers(a, b, last)) == Some((KeyOf(FinalOf(d.sq, last), 0), Finish(d, last).0))
  {
    var d1 := c.(st := Arg, sq := c.sq.(argf := true, arg := c.sq.arg[0 := Number(0, a)]));
    FirstNumber(c, a, [';' as int] + (b + [last]));
    SecondNumber(d1, b, [last]);
    var d := WithNumbers(c, Number(0, a), Number(0, b));
    assert Feed(d, last) == Finish(d, last);
    FeedOk(d, last);
  }

  /** A sequence with one number too. */
  lemma CompleteOneNumber(c: Config, a: seq<Byte>, last: Byte)
    requires ConfigOk(c) && c.st == Csiss3 && |c.win| < BUFSIZE
    requires AllDigits(a) && a != [] && !IsDigit(last) && last != ';' as int
    ensures var d := c.(st := Arg, sq := c.sq.(argf := true, arg := c.sq.arg[0 := Number(0, a)]));
            && ConfigOk(d) && Numbers(d.sq)
            && Complete(c, a + [last]) == Some((KeyOf(FinalOf(d.sq, last), c.sq.mod), Finish(d, last).0))
  {
    FirstNumber(c, a, [last]);
    var d := c.(st := Arg, sq := c.sq.(argf := true, arg := c.sq.arg[0 := Number(0, a)]));
    assert Feed(d, last) == Finish(d, last);
    FeedOk(d, last);
  }

  /** The modifiers of a key as the terminal numbers them. */
  function Modifiers(k: Key): nat
    requires k.Key?
  {
    (if k.shift then 1 else 0) + (if k.alt then 2 else 0) + (if k.ctrl then 4 else 0)
  }

  /** The same key but for the modifiers. */
  predicate SameKey(k: Key, l: Key) {
    k.Key? && l.Key? && k.code == l.code
  }

  lemma LowBits(n: nat)
    ensures n % 8 == n % 2 + 2 * (n / 2 % 2) + 4 * (n / 4 % 2)
  {
    var q, r := n / 8, n % 8;
    assert n == 8 * q + r;
    assert n / 2 == 4 * q + r / 2 && n / 4 == 2 * q + r / 4;
  }

  lemma ModifierArgument(k: Key, m: nat)
    requires k.Key? && Modifiers(k) == 0 && m >= 1
    ensures WithArg(k, m).Key? && WithArg(k, m).code == k.code && Modifiers(WithArg(k, m)) == (m - 1) % 8
  {
    LowBits(m - 1);
  }

  lemma TildeIsPlain(n: nat)
    requires n < |TildeTbl()|
    ensures TildeTbl()[n].Key? && Modifiers(TildeTbl()[n]) == 0
    ensures TildeTbl()[n] != NO_KEY ==> TildeTbl()[n].code != 0
  {
    assert TildeTbl()[n] in TildeTbl();
  }

  /** CSI n ; m ~ is entry n of csi_tilde with the modifiers m - 1, whichever way the numbers are
      written, as long as the sequence fits the window; and DEL is backspace again. */
  lemma TildeRoundTrip(c: Config, n: nat, m: nat, j: nat, k: nat)
    requires ConfigOk(c) && c.st == Start && n < |TildeTbl()| && TildeTbl()[n] != NO_KEY && 1 <= m <= 8
    requires 4 + |Written(j, n)| + |Written(k, m)| <= BUFSIZE
    ensures var (ks, d) := Run(c, [27, CSI] + TwoNumbers(Written(j, n), Written(k, m), '~' as int));
            && |ks| == 1 && SameKey(ks[0], TildeTbl()[n]) && Modifiers(ks[0]) == m - 1
            && d.st == Start && !d.delf
    ensures var t := TwoNumbers(Written(j, n), Written(k, m), '~' as int);
            Run(c, [0x9B] + t) == Run(c, [27, CSI] + t)
  {
    ReadTwoNumbers(c, n, m, j, k, '~' as int);
    TildeFinal(WithNumbers(Opened(c, CSI, 0, [CSI]), n, m), n, m);
  }

  /** Either introducer, two numbers and a last byte. */
  lemma ReadTwoNumbers(c: Config, n: nat, m: nat, j: nat, k: nat, last: Byte)
    requires ConfigOk(c) && c.st == Start && !IsDigit(last) && last != ';' as int
    requires 4 + |Written(j, n)| + |Written(k, m)| <= BUFSIZE
    ensures var d := WithNumbers(Opened(c, CSI, 0, [CSI]), n, m);
            var t := TwoNumbers(Written(j, n), Written(k, m), last);
            && Numbers(d.sq) && Run(c, [0x9B] + t) == Run(c, [27, CSI] + t)
            && Run(c, [27, CSI] + t)
               == (Emit(KeyOf(FinalOf(d.sq, last), 0)), Restart(Finish(d, last).0, Finish(d, last).0.delf))
  {
    hide Finish, FinalOf, Run, Complete, Written, TwoNumbers;
    TwoNumbersSize(Written(j, n), Written(k, m), last);
    var o, t := Opened(c, CSI, 0, [CSI]), TwoNumbers(Written(j, n), Written(k, m), last);
    OpenWithEsc(c, CSI, t);
    WrittenNumber(j, n);
    WrittenNumber(k, m);
    CompleteTwoNumbers(o, Written(j, n), Written(k, m), last);
    CompleteRuns(o, t, [27, CSI]);
    IntroducersAgree(c, CSI, t);
  }

  lemma TildeFinal(d: Config, n: nat, m: nat)
    requires Numbers(d.sq) && d.sq.typ == CSI && d.sq.mod == 0 && d.sq.argf && d.sq.arg[0] == n && d.sq.arg[1] == m
    requires n < |TildeTbl()| && TildeTbl()[n] != NO_KEY && 1 <= m <= 8
    ensures var k := KeyOf(FinalOf(d.sq, '~' as int), 0);
            && IsKey(k) && SameKey(k, TildeTbl()[n]) && Modifiers(k) == m - 1
            && !Finish(d, '~' as int).0.delf
  {
    TildeIsPlain(n);
    ModifierArgument(TildeTbl()[n], m);
  }

  /** The key that a number stands for before 'z'. */
  function ZEntry(a: nat): Key {
    if a < |TildeTbl()| then TildeTbl()[a]
    else if 0 <= a - CSI_Z_START < |ZTbl()| then ZTbl()[a - CSI_Z_START]
    else NO_KEY
  }

  lemma ZIsPlain(i: nat)
    requires i < |ZTbl()|
    ensures ZTbl()[i].Key? && Modifiers(ZTbl()[i]) == 0
    ensures ZTbl()[i] != NO_KEY ==> ZTbl()[i].code != 0
  {
    assert ZTbl()[i] in ZTbl();
  }

  lemma ZFinal(d: Config, a: nat, m: nat)
    requires Numbers(d.sq) && d.sq.typ == CSI && d.sq.mod == 0 && d.sq.argf && d.sq.arg[0] == a && d.sq.arg[1] == m
    requires ZEntry(a) != NO_KEY && 1 <= m <= 8
    ensures var k := KeyOf(FinalOf(d.sq, 'z' as int), 0);
            && IsKey(k) && SameKey(k, ZEntry(a)) && Modifiers(k) == m - 1
            && Finish(d, 'z' as int).0.delf == d.delf
  {
    hide ZEntry, TildeTbl, ZTbl, Modifiers, WithArg;
    ZBase(d, a, m);
    ModifierArgument(ZEntry(a), m);
    WithNothing(WithArg(ZEntry(a), m));
  }

  lemma WithNothing(k: Key)
    ensures With(k, false, false, false) == k
  {
  }

  lemma ZBase(d: Config, a: nat, m: nat)
    requires Numbers(d.sq) && d.sq.typ == CSI && d.sq.mod == 0 && d.sq.argf && d.sq.arg[0] == a && d.sq.arg[1] == m
    requires ZEntry(a) != NO_KEY
    ensures FinalOf(d.sq, 'z' as int) == Ready(ZEntry(a), m)
    ensures ZEntry(a).Key? && Modifiers(ZEntry(a)) == 0 && ZEntry(a).code != 0
  {
    if a < |TildeTbl()| {
      TildeIsPlain(a);
    } else {
      ZIsPlain(a - CSI_Z_START);
    }
  }

  /** The same for CSI n ; m z, with the larger numbering; it leaves DEL alone. */
  lemma ZRoundTrip(c: Config, a: nat, m: nat, j: nat, k: nat)
    requires ConfigOk(c) && c.st == Start && ZEntry(a) != NO_KEY && 1 <= m <= 8
    requires 4 + |Written(j, a)| + |Written(k, m)| <= BUFSIZE
    ensures var (ks, d) := Run(c, [27, CSI] + TwoNumbers(Written(j, a), Written(k, m), 'z' as int));
            && |ks| == 1 && SameKey(ks[0], ZEntry(a)) && Modifiers(ks[0]) == m - 1
            && d.st == Start && d.delf == c.delf
    ensures var t := TwoNumbers(Written(j, a), Written(k, m), 'z' as int);
            Run(c, [0x9B] + t) == Run(c, [27, CSI] + t)
  {
    ReadTwoNumbers(c, a, m, j, k, 'z' as int);
    ZFinal(WithNumbers(Opened(c, CSI, 0, [CSI]), a, m), a, m);
  }

  // ---------- letters ----------

  /** The letters that are looked up in a table after this introducer. */
  predicate LookedUp(typ: Byte, b: Byte) {
    b >= 0x40 && (typ == CSI ==> b != CSI && b != 'M' as int && b != 'z' as int && b != 't' as int)
  }

  function LetterKey(typ: Byte, b: Byte): Key {
    Pick(if typ == SS3 then Ss3Tbl() else CsiTbl(), b - 0x40)
  }

  lemma LetterEnds(o: Config, typ: Byte, b: Byte)
    requires ConfigOk(o) && o == Opened(o, typ, 0, o.win) && (typ == CSI || typ == SS3) && LookedUp(typ, b)
    ensures Feed(o, b) == (o, Done(LetterKey(typ, b)))
  {
    hide CsiTbl, Ss3Tbl;
    WithNothing(LetterKey(typ, b));
  }

  /** An introducer and a letter, in either form, give the key of the table. */
  lemma LetterRuns(c: Config, typ: Byte, b: Byte)
    requires ConfigOk(c) && c.st == Start && (typ == CSI || typ == SS3) && LookedUp(typ, b)
    ensures Run(c, [27, typ, b]).0 == Emit(LetterKey(typ, b)) && Run(c, [typ + 64, b]) == Run(c, [27, typ, b])
  {
    hide Run, Feed, CsiTbl, Ss3Tbl, LetterKey;
    OpenWithEsc(c, typ, [b]);
    var o := Opened(c, typ, 0, [typ]);
    LetterEnds(o, typ, b);
    FeedOk(o, b);
    assert [b][1..] == [];
    assert Complete(o, [b]) == Some((LetterKey(typ, b), o));
    IntroducersAgree(c, typ, [b]);
    assert [27, typ] + [b] == [27, typ, b] && [typ + 64] + [b] == [typ + 64, b];
  }

  function Code(c: char, i: nat): Byte
    requires c as int + i < 256
  {
    c as int + i
  }

  function Arrow(i: nat): Key
    requires i < 4
  {
    [Plain(UP), Plain(DOWN), Plain(RIGHT), Plain(LEFT)][i]
  }

  lemma ArrowTable(i: nat)
    requires i < 4
    ensures Emit(LetterKey(CSI, Code('A', i))) == [Arrow(i)] == Emit(LetterKey(SS3, Code('A', i)))
    ensures Emit(LetterKey(CSI, Code('a', i))) == [With(Arrow(i), true, false, false)]
    ensures Emit(LetterKey(SS3, Code('a', i))) == [With(Arrow(i), false, false, true)]
    ensures LookedUp(CSI, Code('A', i)) && LookedUp(CSI, Code('a', i))
    ensures LookedUp(SS3, Code('A', i)) && LookedUp(SS3, Code('a', i))
  {
    Arrows(i);
    hide CsiTbl, Ss3Tbl, Pick;
  }

  /** The arrows are A to D after both introducers, with SHIFT a to d after CSI and with CTRL after SS3. */
  lemma ArrowLetters(c: Config, i: nat)
    requires ConfigOk(c) && c.st == Start && i < 4
    ensures Run(c, [27, CSI, Code('A', i)]).0 == [Arrow(i)] == Run(c, [27, SS3, Code('A', i)]).0
    ensures Run(c, [27, CSI, Code('a', i)]).0 == [With(Arrow(i), true, false, false)]
    ensures Run(c, [27, SS3, Code('a', i)]).0 == [With(Arrow(i), false, false, true)]
  {
    ArrowTable(i);
    hide Run, LetterKey, LookedUp, Emit, Code, Arrow, With, ConfigOk;
    LetterRuns(c, CSI, Code('A', i));
    LetterRuns(c, SS3, Code('A', i));
    LetterRuns(c, CSI, Code('a', i));
    LetterRuns(c, SS3, Code('a', i));
  }

  /** F1 to F4 are P to S after SS3, F2 to F12 N to X after CSI; and the keypad sends its own characters. */
  lemma OtherLetters(c: Config, i: nat)
    requires ConfigOk(c) && c.st == Start
    ensures i < 4 ==> Run(c, [27, SS3, Code('P', i)]).0 == [F(i)]
    ensures 1 <= i < 12 ==> Run(c, [27, CSI, Code('M', i)]).0 == [F(i)]
    ensures i < 10 ==> Run(c, [27, SS3, Code('p', i)]).0 == [Plain('0' as int + i)]
    ensures i < 6 ==> Run(c, [27, SS3, Code('j', i)]).0 == [Plain('*' as int + i)]
  {
    FunctionKeys(i);
    Keypad(i);
    hide Run, CsiTbl, Ss3Tbl;
    if i < 4 {
      LetterRuns(c, SS3, Code('P', i));
    }
    if 1 <= i < 12 {
      LetterRuns(c, CSI, Code('M', i));
    }
    if i < 10 {
      LetterRuns(c, SS3, Code('p', i));
    }
    if i < 6 {
      LetterRuns(c, SS3, Code('j', i));
    }
  }

  /** The editing keys by letter are those by number before '~'. */
  lemma EditingLetters(c: Config)
    requires ConfigOk(c) && c.st == Start
    ensures Run(c, [27, CSI, 'H' as int]).0 == [TildeTbl()[1]] && Run(c, [27, CSI, 'L' as int]).0 == [TildeTbl()[2]]
    ensures Run(c, [27, CSI, 'K' as int]).0 == [TildeTbl()[3]] && Run(c, [27, CSI, 'F' as int]).0 == [TildeTbl()[4]]
    ensures Run(c, [27, CSI, 'I' as int]).0 == [TildeTbl()[5]] && Run(c, [27, CSI, 'G' as int]).0 == [TildeTbl()[6]]
  {
    EditingKeys();
    hide Run, CsiTbl, Ss3Tbl, TildeTbl, ZTbl;
    LetterRuns(c, CSI, 'H' as int);
    LetterRuns(c, CSI, 'L' as int);
    LetterRuns(c, CSI, 'K' as int);
    LetterRuns(c, CSI, 'F' as int);
    LetterRuns(c, CSI, 'I' as int);
    LetterRuns(c, CSI, 'G' as int);
  }
}
