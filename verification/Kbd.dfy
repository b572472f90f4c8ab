/** kbd.c: getkey with its static variables. Reads return as many bytes as they like; what comes out is
    what Decoder.Run makes of the bytes. */
module Kbd {
  import opened Seqs
  import opened Keys
  import opened Decoder
  import opened Options

  /** Standard input, non-blocking: `stream` is what is still to be read. */
  class Terminal {
    var stream: seq<Byte>
    var closed: bool

    /** read(0, p, l) */
    method Read(l: nat) returns (n: int, data: seq<Byte>)
      requires l > 0
      modifies `stream
      ensures n > 0 <==> old(stream) != []
      ensures n > 0 ==> n == |data| <= l && old(stream) == data + stream
      ensures n <= 0 ==> stream == old(stream) && (n < 0 <==> !closed)
    {
      if stream == [] {
        return if closed then 0 else -1, [];
      }
      n :| 1 <= n <= l && n <= |stream|;
      data, stream := stream[..n], stream[n..];
    }
  }

  /** What getkey returns: a key, KBD_MORE, or KBD_NOKEY and KBD_ERROR for an empty input. */
  datatype Answer = Pressed(key: Key) | MoreLater | NoKey | Failure

  class Keyboard {
    var state: State
    var typ: int
    var mod: int
    var argf: bool
    var delf: bool
    const arg: array<int>
    var argp: nat
    var waitdata: bool
    const buf: array<Byte>
    var p: nat
    var e: nat
    const tty: Terminal

    constructor (tty: Terminal)
      ensures Valid() && this.tty == tty && fresh(arg) && fresh(buf)
      ensures state == Start && p == 0 && e == 0 && !waitdata && !delf
    {
      state, typ, mod, argf, delf, argp := Start, 0, 0, false, false, 0;
      arg := new int[MAX_ARGS](i => 0);
      buf := new Byte[BUFSIZE](i => 0);
      waitdata, p, e := false, 0, 0;
      this.tty := tty;
    }

    ghost function CfgAt(w: seq<Byte>): Config
      reads `state, `typ, `mod, `argf, `delf, `argp, arg
    {
      Config(state, Seq(typ, mod, argf, arg[..], argp), delf, w)
    }

    /** The bytes of the sequence so far, and those that have been read but not looked at. */
    ghost function Window(): seq<Byte>
      requires p <= buf.Length
      reads `p, buf
    {
      buf[..p]
    }

    ghost function Unread(): seq<Byte>
      requires p <= e <= buf.Length
      reads `p, `e, buf
    {
      buf[p..e]
    }

    ghost predicate Sizes()
      reads `p, `e
    {
      arg.Length == MAX_ARGS && buf.Length == BUFSIZE && p <= e <= BUFSIZE
    }

    ghost predicate Valid()
      reads this, arg, buf
    {
      && Sizes() && ConfigOk(CfgAt(Window())) && WindowOk(CfgAt(Window()))
      && (waitdata ==> state != Start) && (state != Start ==> waitdata || p < e)
    }

    // ---------- the state functions ----------

    method OrdKey(c: Byte) returns (k: Key)
      modifies `delf
      ensures (k, delf) == Decoder.OrdKey(c, old(delf))
    {
      k := Plain(c);
      if c < 32 {
        if c == 8 {
          delf := true;
        }
        k := LowKey(c);
      } else if c >= 127 && c < 0xA0 {
        k := NO_KEY;
        if c == 127 {
          k := if delf then Plain(DEL) else Plain(BS);
        }
      }
    }

    method StStart(c: Byte, ghost w: seq<Byte>) returns (r: Result)
      requires arg.Length == MAX_ARGS
      modifies `state, `typ, `mod, `argf, `delf, `argp, arg
      ensures (CfgAt(w), r) == Decoder.StStart(old(CfgAt(w)), c)
    {
      if c == 27 || c == 0x9B || c == 0x8F {
        typ, mod := 0, 0;
        argp := 0;
        arg[0] := 0;
        arg[1] := 0;
        argf := false;
        state := Esc;
        if c >= 128 {
          typ := c - 64;
          state := Csiss3;
        }
        return More;
      }
      var k := OrdKey(c);
      if k == NO_KEY {
        var (x, isCtrl) := Control(c);
        k := OrdKey(x);
        if k != NO_KEY {
          k := With(k, false, !isCtrl, isCtrl);
        }
      }
      return Done(k);
    }

    method StEsc(c: Byte, ghost w: seq<Byte>) returns (r: Result)
      modifies `state, `typ, `mod, `delf
      ensures (CfgAt(w), r) == Decoder.StEsc(old(CfgAt(w)), c)
    {
      if c == CSI || c == SS3 {
        typ := c;
        state := Csiss3;
        return More;
      }
      if c == 27 {
        if mod != 0 {
          return Incomplete;
        }
        mod := c;
        return More;
      }
      var k := OrdKey(c);
      if k != NO_KEY {
        k := With(k, false, true, false);
      }
      return Done(k);
    }

    /** csiss3 */
    method Last(c: Byte, ghost w: seq<Byte>) returns (r: Result)
      requires arg.Length == MAX_ARGS && Numbers(CfgAt(w).sq)
      modifies `delf
      ensures (CfgAt(w), r) == Finish(old(CfgAt(w)), c)
    {
      hide TildeTbl, ZTbl, CsiTbl, Ss3Tbl, WithArg;
      var m, v := arg[0], NO_KEY;
      if typ == SS3 {
        v := Pick(Ss3Tbl(), c - 0x40);
      } else if mod == CSI {
        if c < 'A' as int + 12 {
          v := Plain(F1 + c - 'A' as int);
        }
      } else if mod == '?' as int {
        return Done(if c == 'c' as int then Report(DeviceId) else NO_KEY);
      } else if argf && IsTilde(c) {
        v := Pick(TildeTbl(), arg[0]);
        if v == NO_KEY {
          return Done(NO_KEY);
        }
        delf := false;
        if c != '~' as int {
          if c != '^' as int {
            v := With(v, true, false, false);
          }
          if c != '$' as int {
            v := With(v, false, false, true);
          }
        }
        m := arg[1];
      } else if c == 'z' as int {
        var a := arg[0];
        if a < |TildeTbl()| {
          v := TildeTbl()[a];
        } else {
          if a < CSI_Z_START || a - CSI_Z_START >= |ZTbl()| {
            return Done(NO_KEY);
          }
          v := ZTbl()[a - CSI_Z_START];
        }
        m := arg[1];
      } else if c == 'R' as int && argp == 1 {
        return Done(Report(CursorPosition));
      } else if c == 't' as int {
        return Done(Report(WindowReport));
      } else {
        v := Pick(CsiTbl(), c - 0x40);
      }
      return Done(With(WithArg(v, m), false, mod == 27, false));
    }

    method StCsiss3(c: Byte, ghost w: seq<Byte>) returns (r: Result)
      requires arg.Length == MAX_ARGS && Numbers(CfgAt(w).sq) && argp == 0
      modifies `state, `mod, `argf, `delf, `argp, arg
      ensures (CfgAt(w), r) == Decoder.StCsiss3(old(CfgAt(w)), c)
    {
      if c < 32 {
        return Incomplete;
      }
      if (c == CSI || c == '?' as int) && typ == CSI {
        if mod != 0 {
          return Incomplete;
        }
        mod := c;
        return More;
      }
      if '0' as int <= c <= '9' as int {
        arg[0] := c - '0' as int;
        argf := true;
        state := Arg;
        return More;
      }
      if c == ';' as int {
        argp := argp + 1;
        arg[argp] := 0;
        argf := true;
        state := Arg;
        return More;
      }
      if c == 'M' as int && typ == CSI {
        state := Mouse;
        return More;
      }
      r := Last(c, w);
    }

    method StArg(c: Byte, ghost w: seq<Byte>) returns (r: Result)
      requires arg.Length == MAX_ARGS && Numbers(CfgAt(w).sq)
      modifies `delf, `argp, arg
      ensures (CfgAt(w), r) == Decoder.StArg(old(CfgAt(w)), c)
    {
      if '0' as int <= c <= '9' as int {
        arg[argp] := 10 * arg[argp] + c - '0' as int;
        return More;
      }
      if c == ';' as int {
        argp := argp + 1;
        if argp >= arg.Length {
          return Done(NO_KEY);
        }
        arg[argp] := 0;
        return More;
      }
      r := Last(c, w);
    }

    method StMouse(c: Byte, ghost w: seq<Byte>) returns (r: Result)
      requires arg.Length == MAX_ARGS && argp < MAX_ARGS
      modifies `argp, arg
      ensures (CfgAt(w), r) == Decoder.StMouse(old(CfgAt(w)), c)
    {
      arg[argp] := c - 0x20;
      argp := argp + 1;
      return if argp < 3 then More else Done(Report(MouseReport));
    }

    /** `state(c)`, where no byte stands for KBD_MORE; st_start never gets that. */
    method Call(c: Option<Byte>, ghost w: seq<Byte>) returns (r: Result)
      requires arg.Length == MAX_ARGS && ConfigOk(CfgAt(w))
      requires c.None? ==> state != Start
      modifies `state, `typ, `mod, `argf, `delf, `argp, arg
      ensures c.Some? ==> (CfgAt(w), r) == Feed(old(CfgAt(w)), c.value)
      ensures c.None? ==> r == Incomplete && CfgAt(w) == old(CfgAt(w))
    {
      match state
      case Start => r := StStart(c.value, w);
      case Esc => if c.None? { return Incomplete; } r := StEsc(c.value, w);
      case Csiss3 => if c.None? { return Incomplete; } r := StCsiss3(c.value, w);
      case Arg => if c.None? { return Incomplete; } r := StArg(c.value, w);
      case Mouse => if c.None? { return Incomplete; } r := StMouse(c.value, w);
    }

    // ---------- getkey ----------

    /** incomplete: `l` is all that is in the buffer, but what it decides is in the window. */
    method GiveUp() returns (k: Key)
      requires Sizes() && p > 0 && IsIntroducer(buf[0])
      requires p == 1 || (p == 2 && buf[0] == 27) ==> p == e
      modifies `p, `delf, buf
      ensures p <= e && (k, p, delf) == Rewind(old(Window()), old(delf))
      ensures buf[..e] == old(buf[..e])
    {
      ghost var w := Window();
      var l := e;
      assert forall i :: 0 <= i < p ==> w[i] == buf[i];
      p := 0;
      if l == 1 {
        p := 1;
        k := OrdKey(buf[0]);
        return;
      }
      if l < buf.Length {
        buf[l] := 0;
      }
      assert Prefix(w, 3) == [27, '[' as int, 'M' as int] <==>
          buf[0] == 27 && buf[1] == '[' as int && buf[2] == 'M' as int;
      if buf[0] == 27 && buf[1] == '[' as int && buf[2] == 'M' as int {
        p := 3;
        return Plain(F1);
      }
      // The second comparison is with a zero byte and an 'x', which no window starts with.
      assert buf[0] != 0;
      if buf[0] == 27 {
        p := 2;
        k := OrdKey(buf[1]);
        k := With(k, false, true, false);
        return;
      }
      p := 1;
      k := OrdKey(buf[0]);
    }

    /** The unread bytes move to the front. */
    method Shift()
      requires Sizes()
      modifies `p, `e, buf
      ensures Sizes() && p == 0 && buf[..e] == old(Unread())
    {
      var q := 0;
      ghost var p0 := p;
      while p < e
        invariant Sizes() && e == old(e) && p0 <= p && q == p - p0
        invariant buf[..q] == old(buf[p0..p0 + q])
        invariant forall i :: p <= i < e ==> buf[i] == old(buf[i])
      {
        buf[q] := buf[p];
        q, p := q + 1, p + 1;
      }
      e := q;
      p := 0;
    }

    ghost function Cfg(): Config
      requires p <= buf.Length
      reads this, arg, buf
    {
      CfgAt(Window())
    }

    /** All bytes that have not been looked at. */
    ghost function Ahead(): seq<Byte>
      requires p <= e <= buf.Length
      reads this, buf, tty
    {
      Unread() + tty.stream
    }

    /** The next byte; none if the window is full or the rest of a sequence does not come; or nothing
        to do at all. */
    method Fetch() returns (c: Option<Byte>, out: Option<Answer>)
      requires Valid()
      modifies `p, `e, buf, tty`stream
      ensures Sizes() && (c.None? ==> p == e == old(p) && Window() == old(Window()) && Ahead() == old(Ahead()))
      ensures out.Some? ==> c.None? && Ahead() == [] && !waitdata && p < BUFSIZE
      ensures out.Some? ==> out.value == if tty.closed then Failure else NoKey
      ensures out.None? && c.None? ==> p == BUFSIZE || (waitdata && Ahead() == [])
      ensures c.Some? ==>
                && out.None? && p == old(p) + 1 && Window() == old(Window()) + [c.value]
                && old(Ahead()) == [c.value] + Ahead()
    {
      hide ConfigOk, WindowOk;
      if p == e {
        var l := buf.Length - p;
        if l == 0 {
          return None, None;
        }
        var n, data := tty.Read(l);
        if n <= 0 {
          if waitdata {
            return None, None;
          }
          return None, Some(if n < 0 then NoKey else Failure);
        }
        Receive(data);
      }
      ghost var u := Unread();
      c, out := Some(buf[p]), None;
      p := p + 1;
      assert u == [c.value] + Unread();
    }

    method Receive(data: seq<Byte>)
      requires Sizes() && p == e && |data| <= BUFSIZE - p
      modifies `e, buf
      ensures Sizes() && p == old(p) && Unread() == data && Window() == old(Window())
    {
      for i := 0 to |data|
        invariant forall j :: 0 <= j < i ==> buf[p + j] == data[j]
        invariant forall j :: 0 <= j < p ==> buf[j] == old(buf[j])
      {
        buf[p + i] := data[i];
      }
      e := p + |data|;
    }

    /** Nothing more comes although a sequence has begun. */
    ghost predicate TimedOut()
      requires p <= e <= buf.Length
      reads this, buf, tty
    {
      waitdata && p < BUFSIZE && Ahead() == []
    }

    /** The bytes of a sequence that did not work out are read again. */
    ghost function Again(): (seq<Key>, Config, seq<Byte>)
      requires Sizes() && p > 0
      reads this, arg, buf, tty
    {
      Decoder.GiveUp(Cfg(), Window(), Ahead())
    }

    /** `v = incomplete()` and what follows it. */
    method TakeBack() returns (k: Key)
      requires Sizes() && p > 0 && IsIntroducer(buf[0])
      requires p == 1 || (p == 2 && buf[0] == 27) ==> p == e
      modifies `state, `delf, `p, `e, `waitdata, buf
      ensures Sizes() && state == Start && p == 0 && !waitdata
      ensures (Emit(k), Cfg(), Ahead()) == old(Again())
    {
      hide Rewind, IsIntroducer, Prefix;
      ghost var w, u, s, c0, d0 := Window(), Unread(), tty.stream, Cfg(), delf;
      RewindProgress(w, delf);
      GiveUpParts(c0, w, u + s);
      BufferParts(buf[..e], w, u, s, Rewind(w, delf).1);
      assert buf[..e] == w + u;
      k := GiveUp();
      assert Unread() == buf[..e][p..];
      Finished();
    }

    /** A key is complete. */
    method Finished()
      requires Sizes()
      modifies `state, `p, `e, `waitdata, buf
      ensures Sizes() && state == Start && p == 0 && !waitdata && Ahead() == old(Ahead())
      ensures Cfg() == Restart(old(CfgAt([])), delf)
    {
      waitdata := false;
      Shift();
      state := Start;
      assert buf[..0] == [];
    }

    /** What a byte `b` led to: the sequence goes on, is complete, or is given up. */
    method Settle(r: Result, ghost c0: Config, ghost b: Byte) returns (a: Option<Answer>)
      requires Sizes() && ConfigOk(c0) && WindowOk(c0) && |c0.win| < BUFSIZE
      requires (CfgAt(c0.win), r) == Feed(c0, b) && Window() == c0.win + [b]
      modifies `state, `delf, `waitdata, `p, `e, buf
      ensures Sizes() && ConfigOk(Cfg()) && WindowOk(Cfg())
      ensures (waitdata ==> state != Start) && (state != Start ==> waitdata || p < e)
      ensures a.Some? ==> (a.value.Pressed? && IsKey(a.value.key)) || a.value.MoreLater?
      ensures (if a.Some? && a.value.Pressed? then [a.value.key] else [], Cfg(), Ahead())
              == Next(c0, [b] + old(Ahead()))
      ensures a.None? ==> p < e || !waitdata
      ensures a.Some? && a.value.MoreLater? ==> p == e && waitdata
    {
      hide Next, Feed, ConfigOk, WindowOk, Decoder.GiveUp, Rewind;
      ghost var ahead := Ahead();
      NextParts(c0, b, ahead);
      match r
      case Incomplete =>
        assert p > 0 && buf[0] == Window()[0];
        var k := TakeBack();
        a := if IsKey(k) then Some(Pressed(k)) else None;
      case More =>
        if p < e {
          return None;
        }
        waitdata := true;
        a := Some(MoreLater);
      case Done(k) =>
        Finished();
        a := if IsKey(k) then Some(Pressed(k)) else None;
    }

    /** No byte comes: the window is full, or the terminal is silent in the middle of a sequence. */
    method Resign(ghost c0: Config) returns (a: Option<Answer>)
      requires Sizes() && ConfigOk(c0) && WindowOk(c0) && Cfg() == c0 && c0.st != Start && p == e
      modifies `state, `delf, `waitdata, `p, `e, buf
      ensures Sizes() && ConfigOk(Cfg()) && WindowOk(Cfg()) && !waitdata && state == Start
      ensures a.Some? ==> a.value.Pressed? && IsKey(a.value.key)
      ensures (if a.Some? then [a.value.key] else [], Cfg(), Ahead()) == old(Again())
    {
      hide ConfigOk, WindowOk, Decoder.GiveUp, Rewind;
      ghost var ahead := Ahead();
      AgainOk(c0, ahead);
      assert buf[0] == Window()[0];
      var k := TakeBack();
      a := if IsKey(k) then Some(Pressed(k)) else None;
    }

    /** What getkey makes of the bytes from here on. */
    ghost function Wanted(): (seq<Key>, Config)
      requires Valid()
      reads this, arg, buf, tty
    {
      if TimedOut() then
        AgainOk(Cfg(), Ahead());
        var (ks, d, t) := Again();
        After(ks, Run(d, t))
      else Rest()
    }

    ghost function Rest(): (seq<Key>, Config)
      requires Valid()
      reads this, arg, buf, tty
    {
      Run(Cfg(), Ahead())
    }

    /** Once around: one byte, or one rewind. */
    method Turn() returns (a: Option<Answer>)
      requires Valid()
      modifies `state, `typ, `mod, `argf, `delf, `argp, `waitdata, `p, `e, arg, buf, tty`stream
      ensures Valid()
      ensures a.Some? && (a.value.NoKey? || a.value.Failure?) ==> a.value == if tty.closed then Failure else NoKey
      ensures a.Some? && (a.value.NoKey? || a.value.Failure?) ==>
                !old(TimedOut()) && Ahead() == old(Ahead()) == [] && Cfg() == old(Cfg()) && p < BUFSIZE && !waitdata
      ensures a.None? || a.value.Pressed? || a.value.MoreLater? ==>
                && (old(TimedOut()) || old(p) == BUFSIZE || old(Ahead()) != [])
                && (if a.Some? && a.value.Pressed? then [a.value.key] else [], Cfg(), Ahead())
                   == if old(TimedOut()) then old(Again()) else Next(old(Cfg()), old(Ahead()))
      ensures a.None? ==> !TimedOut()
      ensures a.Some? && a.value.Pressed? ==> IsKey(a.value.key)
      ensures a.Some? && a.value.MoreLater? ==> p == e && waitdata
    {
      hide ConfigOk, WindowOk, Feed, Decoder.GiveUp, Next, Rewind, Restart;
      ghost var c0, ahead := Cfg(), Ahead();
      ConfigParts(c0);
      var c, out := Fetch();
      assert c.None? ==> Cfg() == c0;
      if out.Some? {
        return out;
      }
      var r := Call(c, c0.win);
      if c.Some? {
        a := Settle(r, c0, c.value);
        return;
      }
      FullGivesUp(c0, ahead);
      a := Resign(c0);
    }

    lemma ValidParts()
      requires Valid()
      ensures ConfigOk(Cfg()) && WindowOk(Cfg()) && |Cfg().win| == p && p <= BUFSIZE
      ensures TimedOut() ==> Cfg().st != Start && p < BUFSIZE && Ahead() == []
      ensures Wanted() == Read(Cfg(), Ahead(), TimedOut())
      ensures Rest() == Run(Cfg(), Ahead())
      ensures p > 0 ==> Again() == Decoder.GiveUp(Cfg(), Cfg().win, Ahead())
      ensures Ahead() == [] && !waitdata ==> state == Start && p == 0 && !TimedOut()
    {
    }

    /** getkey. Whatever the reads return, the keys handed out and the state in between are what
        Decoder.Run makes of the bytes; and if a sequence begun before is not continued by the time
        of the call, its bytes are read again first. With nothing to read and no sequence begun, there is
        no key, or an error if the input has ended. */
    method GetKey() returns (a: Answer)
      requires Valid()
      modifies `state, `typ, `mod, `argf, `delf, `argp, `waitdata, `p, `e, arg, buf, tty`stream
      ensures Valid()
      ensures a.Pressed? ==> IsKey(a.key) && old(Wanted()) == After([a.key], Rest())
      ensures !a.Pressed? ==> old(Wanted()) == Rest()
      ensures a.MoreLater? ==> p == e && waitdata
      ensures a.NoKey? || a.Failure? ==> Ahead() == [] && state == Start && a == if tty.closed then Failure else NoKey
      ensures old(Ahead()) == [] && !old(waitdata) ==> a.NoKey? || a.Failure?
    {
      hide ConfigOk, WindowOk, Next, Decoder.GiveUp, Run, After, TimedOut, Again, Wanted, Rest;
      ghost var want, idle := Wanted(), Ahead() == [] && !waitdata;
      while true
        invariant Valid() && Wanted() == want && (idle ==> Ahead() == [] && !waitdata)
        decreases p + |Ahead()|, |Ahead()|
      {
        ValidParts();
        ghost var c, s, timeout := Cfg(), Ahead(), TimedOut();
        var r := Turn();
        ValidParts();
        if r.Some? && (r.value.NoKey? || r.value.Failure?) {
          return r.value;
        }
        ReadStep(c, s, timeout);
        AfterAfter([], [], Rest());
        if r.Some? {
          return r.value;
        }
      }
    }
  }

  lemma ReadStep(c: Config, s: seq<Byte>, timeout: bool)
    requires ConfigOk(c) && WindowOk(c) && (timeout ==> c.st != Start && s == [])
    requires timeout || |c.win| == BUFSIZE || s != []
    ensures timeout ==> c.win != []
    ensures var (ks, d, t) := if timeout then Decoder.GiveUp(c, c.win, s) else Next(c, s);
            && ConfigOk(d) && Read(c, s, timeout) == After(ks, Run(d, t))
            && (|d.win| + |t| < |c.win| + |s| || (|d.win| + |t| == |c.win| + |s| && |t| < |s|))
  {
    if timeout {
      AgainOk(c, s);
      GiveUpProgress(c, c.win, s);
    } else {
      NextProgress(c, s);
      AfterAfter([], [], Run(c, s));
    }
  }

  lemma NextParts(c: Config, b: Byte, s: seq<Byte>)
    requires ConfigOk(c) && WindowOk(c) && |c.win| < BUFSIZE
    ensures var (d, r) := Feed(c, b);
            var w := c.win + [b];
            && (r.More? ==> d.st != Start && Next(c, [b] + s) == ([], d.(win := w), s))
            && (r.Done? ==> Next(c, [b] + s) == (Emit(r.key), Restart(d, d.delf), s))
            && (r.Incomplete? ==> Next(c, [b] + s) == Decoder.GiveUp(d.(win := w), w, s))
            && (r.Incomplete? ==> IsIntroducer(w[0]) && |w| >= 2 && (w[0] == 27 ==> |w| >= 3))
    ensures var d := Next(c, [b] + s).1; ConfigOk(d) && WindowOk(d)
  {
    assert ([b] + s)[1..] == s;
    FeedOk(c, b);
    FeedWindow(c, b);
    NextProgress(c, [b] + s);
  }

  lemma ConfigParts(c: Config)
    requires ConfigOk(c)
    ensures |c.win| <= BUFSIZE && |c.sq.arg| == MAX_ARGS && (c.st == Start <==> c.win == [])
  {
  }

  lemma FullGivesUp(c: Config, s: seq<Byte>)
    requires ConfigOk(c)
    ensures |c.win| == BUFSIZE ==> Next(c, s) == Decoder.GiveUp(c, c.win, s)
  {
  }

  lemma BufferParts(all: seq<Byte>, w: seq<Byte>, u: seq<Byte>, s: seq<Byte>, n: nat)
    requires n <= |w|
    ensures all == w + u ==> all[n..] + s == w[n..] + (u + s)
  {
    if all == w + u {
      assert all[n..] == w[n..] + u;
    }
  }

  lemma GiveUpParts(c: Config, w: seq<Byte>, s: seq<Byte>)
    requires w != []
    ensures var (k, n, d) := Rewind(w, c.delf);
            n <= |w| && Decoder.GiveUp(c, w, s) == (Emit(k), Restart(c, d), w[n..] + s)
  {
    RewindProgress(w, c.delf);
  }
}
