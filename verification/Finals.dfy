/** How complete sequences end: the last bytes that add modifiers, letters with a number, the function keys
    of the console, reports; and two ways in which a sequence ends without a key. */
module Finals {
  import opened Decoder
  import opened Keys
  import opened Options
  import opened Sequences

  // ---------- numbers and modifiers ----------

  /** The bits of a modifier argument; 0 means none was given. */
  function Shifts(m: nat): bool {
    m > 0 && (m - 1) % 2 == 1
  }

  function Alts(m: nat): bool {
    m > 0 && (m - 1) / 2 % 2 == 1
  }

  function Ctrls(m: nat): bool {
    m > 0 && (m - 1) / 4 % 2 == 1
  }

  predicate IsOne(b: Byte, s: string) {
    exists i :: 0 <= i < |s| && b == s[i] as int
  }

  lemma TildeEnds(sq: Seq, n: nat, last: Byte)
    requires Numbers(sq) && sq.typ == CSI && sq.mod == 0 && sq.argf && sq.arg[0] == n
    requires n < |TildeTbl()| && TildeTbl()[n] != NO_KEY && IsOne(last, "~$^@")
    ensures var m := sq.arg[1];
            var k := KeyOf(FinalOf(sq, last), 0);
            && IsKey(k) && k == Key(TildeTbl()[n].code, Shifts(m) || IsOne(last, "$@"), Alts(m), Ctrls(m) || IsOne(last, "^@"))
            && ClearsDel(sq, last)
  {
    assert TildeTbl()[n] in TildeTbl();
    assert IsPlain(TildeTbl()[n]);
    TildeIsPlain(n);
    assert "$@"[0] == '$' && "$@"[1] == '@' && "^@"[0] == '^' && "^@"[1] == '@';
    assert IsOne(last, "$@") <==> last == '$' as int || last == '@' as int;
    assert IsOne(last, "^@") <==> last == '^' as int || last == '@' as int;
  }

  /** CSI n ; m and one of ~ $ ^ @: the n-th key with the modifiers of m; $ adds SHIFT, ^ adds CTRL and @
      both. DEL is backspace again. */
  lemma TildeFamily(c: Config, n: nat, m: nat, j: nat, k: nat, last: Byte)
    requires ConfigOk(c) && c.st == Start && n < |TildeTbl()| && TildeTbl()[n] != NO_KEY && IsOne(last, "~$^@")
    requires 4 + |Written(j, n)| + |Written(k, m)| <= BUFSIZE
    ensures var (ks, d) := Run(c, [27, CSI] + TwoNumbers(Written(j, n), Written(k, m), last));
            && ks == [Key(TildeTbl()[n].code, Shifts(m) || IsOne(last, "$@"), Alts(m), Ctrls(m) || IsOne(last, "^@"))]
            && d.st == Start && !d.delf
  {
    hide Run, TildeTbl, Shifts, Alts, Ctrls, TwoNumbers, Written, FinalOf, KeyOf, ClearsDel;
    NotDigit(last);
    ReadTwoNumbers(c, n, m, j, k, last);
    var d := WithNumbers(Opened(c, CSI, 0, [CSI]), n, m);
    TildeEnds(d.sq, n, last);
  }

  lemma NotDigit(last: Byte)
    requires IsOne(last, "~$^@")
    ensures !IsDigit(last) && last != ';' as int
  {
  }

  /** An introducer, a number and a last byte. */
  lemma ReadOneNumber(c: Config, typ: Byte, n: nat, j: nat, last: Byte)
    requires ConfigOk(c) && c.st == Start && (typ == CSI || typ == SS3) && !IsDigit(last) && last != ';' as int
    requires 3 + |Written(j, n)| <= BUFSIZE
    ensures var o := Opened(c, typ, 0, [typ]);
            var d := o.(st := Arg, sq := o.sq.(argf := true, arg := o.sq.arg[0 := n]));
            && Numbers(d.sq)
            && Run(c, [27, typ] + (Written(j, n) + [last]))
               == (Emit(KeyOf(FinalOf(d.sq, last), 0)), Restart(Finish(d, last).0, Finish(d, last).0.delf))
  {
    hide Finish, FinalOf, Run, Complete, Written;
    var o, t := Opened(c, typ, 0, [typ]), Written(j, n) + [last];
    OpenWithEsc(c, typ, t);
    WrittenNumber(j, n);
    CompleteOneNumber(o, Written(j, n), last);
    CompleteRuns(o, t, [27, typ]);
  }

  /** CSI n and one of ~ $ ^ @, without a modifier argument. */
  lemma TildeAlone(c: Config, n: nat, j: nat, last: Byte)
    requires ConfigOk(c) && c.st == Start && n < |TildeTbl()| && TildeTbl()[n] != NO_KEY && IsOne(last, "~$^@")
    requires 3 + |Written(j, n)| <= BUFSIZE
    ensures var (ks, d) := Run(c, [27, CSI] + (Written(j, n) + [last]));
            && ks == [Key(TildeTbl()[n].code, IsOne(last, "$@"), false, IsOne(last, "^@"))]
            && d.st == Start && !d.delf
  {
    hide Run, TildeTbl, Written, FinalOf, KeyOf, ClearsDel;
    NotDigit(last);
    ReadOneNumber(c, CSI, n, j, last);
    var o := Opened(c, CSI, 0, [CSI]);
    TildeEnds(o.sq.(argf := true, arg := o.sq.arg[0 := n]), n, last);
  }

  /** The last bytes that are looked up as letters when a number came before. */
  predicate LetterAfterNumber(typ: Byte, b: Byte) {
    b >= 0x40 && (typ == CSI ==> !IsOne(b, "~^@zt"))
  }

  lemma LetterFinal(sq: Seq, typ: Byte, n: nat, b: Byte)
    requires Numbers(sq) && sq.typ == typ && (typ == CSI || typ == SS3) && sq.mod == 0 && sq.argp == 0 && sq.arg[0] == n
    requires LetterAfterNumber(typ, b)
    ensures var k := LetterKey(typ, b);
            KeyOf(FinalOf(sq, b), 0)
            == if k.Report? then k else Key(k.code, k.shift || Shifts(n), k.alt || Alts(n), k.ctrl || Ctrls(n))
  {
    hide CsiTbl, Ss3Tbl, TildeTbl, ZTbl;
    var t := "~^@zt";
    assert t[0] == '~' && t[1] == '^' && t[2] == '@' && t[3] == 'z' && t[4] == 't';
  }

  /** An introducer, a number n and a letter: the key of the letter with the modifiers of n. */
  lemma LetterWithNumber(c: Config, typ: Byte, n: nat, j: nat, b: Byte)
    requires ConfigOk(c) && c.st == Start && (typ == CSI || typ == SS3) && LetterAfterNumber(typ, b)
    requires 3 + |Written(j, n)| <= BUFSIZE
    ensures var k := LetterKey(typ, b);
            Run(c, [27, typ] + (Written(j, n) + [b])).0
            == Emit(if k.Report? then k else Key(k.code, k.shift || Shifts(n), k.alt || Alts(n), k.ctrl || Ctrls(n)))
  {
    hide Run, Written, FinalOf, KeyOf, LetterKey, Shifts, Alts, Ctrls, Finish;
    ReadOneNumber(c, typ, n, j, b);
    var o := Opened(c, typ, 0, [typ]);
    LetterFinal(o.sq.(argf := true, arg := o.sq.arg[0 := n]), typ, n, b);
  }

  // ---------- the console ----------

  /** A mark after CSI and one more byte that ends the sequence. */
  lemma MarkedByte(c: Config, mark: Byte, b: Byte)
    requires ConfigOk(c) && c.st == Start && (mark == '[' as int || mark == '?' as int)
    requires b >= 0x40 && b != '[' as int && b != 'M' as int
    ensures var o := Opened(c, CSI, mark, [CSI]);
            && Numbers(o.sq) && Run(c, [27, CSI, mark, b]).0 == Emit(KeyOf(FinalOf(o.sq, b), mark))
            && Run(c, [0x9B, mark, b]) == Run(c, [27, CSI, mark, b])
  {
    hide Run, FinalOf, KeyOf;
    var o, s := Opened(c, CSI, 0, [CSI]), [mark, b];
    assert s[1..] == [b] && [b][1..] == [];
    MarkedCompletes(o, mark, b);
    IntroducersAgree(c, CSI, s);
    assert [27, CSI] + s == [27, CSI, mark, b] && [CSI + 64] + s == [0x9B, mark, b];
  }

  lemma MarkedCompletes(o: Config, mark: Byte, b: Byte)
    requires ConfigOk(o) && o.st == Csiss3 && o.sq.typ == CSI && o.sq.mod == 0 && |o.win| < BUFSIZE
    requires mark == '[' as int || mark == '?' as int
    requires b >= 0x40 && b != '[' as int && b != 'M' as int
    ensures var d := o.(sq := o.sq.(mod := mark));
            Numbers(d.sq) && Complete(o, [mark, b]) == Some((KeyOf(FinalOf(d.sq, b), mark), Finish(d, b).0))
  {
    hide FinalOf, KeyOf;
    var d := o.(sq := o.sq.(mod := mark));
    assert [mark, b][1..] == [b] && [b][1..] == [];
    FeedOk(o, mark);
    FeedOk(d, b);
    assert Feed(o, mark) == (d, More);
    assert Feed(d, b) == Finish(d, b);
  }

  /** ESC [ [ A to L are F1 to F12. */
  lemma ConsoleKeys(c: Config, i: nat)
    requires ConfigOk(c) && c.st == Start && i < 12
    ensures Run(c, [27, CSI, '[' as int, Code('A', i)]).0 == [F(i)]
    ensures Run(c, [0x9B, '[' as int, Code('A', i)]).0 == [F(i)]
  {
    hide Run;
    MarkedByte(c, '[' as int, Code('A', i));
  }

  // ---------- reports ----------

  /** CSI ? c is the terminal's answer; and a mouse report is CSI M with any three bytes after it. */
  lemma Reports(c: Config, x: Byte, y: Byte, z: Byte)
    requires ConfigOk(c) && c.st == Start
    ensures Run(c, [27, CSI, '?' as int, 'c' as int]).0 == [Report(DeviceId)]
    ensures Run(c, [27, CSI, 'M' as int, x, y, z]).0 == [Report(MouseReport)]
    ensures Run(c, [27, CSI, 'M' as int, x, y, z]).1.st == Start && Run(c, [27, CSI, 'M' as int, x, y, z]).1.delf == c.delf
  {
    hide Run;
    MarkedByte(c, '?' as int, 'c' as int);
    MouseCompletes(Opened(c, CSI, 0, [CSI]), x, y, z);
    var s := ['M' as int, x, y, z];
    IntroducersAgree(c, CSI, s);
    OpenWithEsc(c, CSI, s);
    CompleteRuns(Opened(c, CSI, 0, [CSI]), s, [27, CSI]);
    assert [27, CSI] + s == [27, CSI, 'M' as int, x, y, z];
  }

  lemma MouseCompletes(o: Config, x: Byte, y: Byte, z: Byte)
    requires ConfigOk(o) && o.st == Csiss3 && o.sq.typ == CSI && |o.win| < BUFSIZE
    ensures var r := Complete(o, ['M' as int, x, y, z]);
            r.Some? && r.value.0 == Report(MouseReport) && r.value.1.delf == o.delf
  {
    var s: seq<Byte> := ['M' as int, x, y, z];
    assert s[1..] == [x, y, z] && s[1..][1..] == [y, z] && s[1..][1..][1..] == [z] && [z][1..] == [];
    var d := Feed(o, 'M' as int).0;
    FeedOk(o, 'M' as int);
    assert Complete(o, s) == Complete(d, [x, y, z]);
    var e := Feed(d, x).0;
    FeedOk(d, x);
    assert Complete(d, [x, y, z]) == Complete(e, [y, z]);
    var f := Feed(e, y).0;
    FeedOk(e, y);
    assert Complete(e, [y, z]) == Complete(f, [z]);
    FeedOk(f, z);
  }

  /** CSI with two numbers and R is the position of the cursor, with t the size of the window. */
  lemma NumberReports(c: Config, n: nat, m: nat, j: nat, k: nat)
    requires ConfigOk(c) && c.st == Start && 4 + |Written(j, n)| + |Written(k, m)| <= BUFSIZE
    ensures Run(c, [27, CSI] + TwoNumbers(Written(j, n), Written(k, m), 'R' as int)).0 == [Report(CursorPosition)]
    ensures Run(c, [27, CSI] + TwoNumbers(Written(j, n), Written(k, m), 't' as int)).0 == [Report(WindowReport)]
  {
    hide Run, TwoNumbers, Written, Finish;
    ReadTwoNumbers(c, n, m, j, k, 'R' as int);
    ReadTwoNumbers(c, n, m, j, k, 't' as int);
  }

  // ---------- no key ----------

  function Semicolons(n: nat): (s: seq<Byte>)
    ensures |s| == n && forall i :: 0 <= i < n ==> s[i] == ';' as int
  {
    seq(n, i => ';' as int)
  }

  lemma {:induction false} ManyArguments(c: Config)
    requires ConfigOk(c) && c.st == Arg && |c.win| < BUFSIZE
    ensures var r := Complete(c, Semicolons(16 - c.sq.argp)); r.Some? && r.value.0 == NO_KEY && r.value.1.delf == c.delf
    decreases 16 - c.sq.argp
  {
    var s := Semicolons(16 - c.sq.argp);
    assert s[1..] == Semicolons(15 - c.sq.argp);
    FeedOk(c, s[0]);
    if c.sq.argp < 15 {
      ManyArguments(Feed(c, s[0]).0);
    }
  }

  /** Sixteen semicolons are one argument too many: the sequence is dropped. */
  lemma TooManyArguments(c: Config, typ: Byte)
    requires ConfigOk(c) && c.st == Start && (typ == CSI || typ == SS3)
    ensures var (ks, d) := Run(c, [27, typ] + Semicolons(16)); ks == [] && d.st == Start && d.delf == c.delf
  {
    hide Run;
    var o, s := Opened(c, typ, 0, [typ]), Semicolons(16);
    assert s[1..] == Semicolons(15);
    FeedOk(o, s[0]);
    ManyArguments(Feed(o, s[0]).0);
    OpenWithEsc(c, typ, s);
    CompleteRuns(o, s, [27, typ]);
  }

  lemma {:induction false} FullRuns(c: Config, s: seq<Byte>, w: seq<Byte>)
    requires ConfigOk(c) && c.st != Start && |c.win| < BUFSIZE && Pends(c, s)
    requires w != [] && |w| + |s| == BUFSIZE
    ensures Run(c.(win := w), s) == Reread(Reached(c, s), w + s)
    decreases |s|
  {
    hide Feed, Reread;
    if s == [] {
      assert w + s == w;
      FullGives(c, w);
    } else {
      hide Run;
      FeedOk(c, s[0]);
      SameFeed(c, w, s[0]);
      RunStep(c.(win := w), s);
      var d := Feed(c, s[0]).0;
      FullRuns(d, s[1..], w + [s[0]]);
      assert d.(win := w).(win := w + [s[0]]) == d.(win := w + [s[0]]);
      assert w + [s[0]] + s[1..] == w + s;
    }
  }

  lemma FullGives(c: Config, w: seq<Byte>)
    requires ConfigOk(c) && c.st != Start && |w| == BUFSIZE
    ensures Run(c.(win := w), []) == Reread(c, w)
  {
    SameReread(c, w, w);
  }

  /** A sequence that is not finished after 20 bytes is given up: what is handed out is its ESC and letter as
      one key with ALT, and then what the rest gives. */
  lemma TwentyBytes(c: Config, typ: Byte, s: seq<Byte>)
    requires ConfigOk(c) && c.st == Start && (typ == CSI || typ == SS3)
    requires Pends(Opened(c, typ, 0, [typ]), s) && 2 + |s| == 20 && !IsOldF1(typ, s)
    ensures var e := Reached(Opened(c, typ, 0, [typ]), s);
            Run(c, [27, typ] + s) == After([Key(typ, false, true, false)], Run(Restart(e, e.delf), s))
  {
    hide Run, Pends, Reached, Reread;
    OpenWithEsc(c, typ, s);
    FullRuns(Opened(c, typ, 0, [typ]), s, [27, typ]);
    RereadEsc(Reached(Opened(c, typ, 0, [typ]), s), typ, s);
  }

  // ---------- the tables, by what is typed ----------

  /** Every letter after CSI, but for the introducer of a second mark, mouse reports and the two letters with
      a meaning of their own. */
  lemma CsiLetters(c: Config, b: Byte)
    requires ConfigOk(c) && c.st == Start && LookedUp(CSI, b)
    ensures Run(c, [27, CSI, b]).0 == Emit(
              if b == '@' as int || b == 'L' as int then Plain(INS)
              else if b == 'A' as int || b == 'a' as int then Key(UP, b == 'a' as int, false, false)
              else if b == 'B' as int || b == 'b' as int then Key(DOWN, b == 'b' as int, false, false)
              else if b == 'C' as int || b == 'c' as int then Key(RIGHT, b == 'c' as int, false, false)
              else if b == 'D' as int || b == 'd' as int then Key(LEFT, b == 'd' as int, false, false)
              else if b == 'E' as int then Plain(CENTER)
              else if b == 'F' as int then Plain(END)
              else if b == 'G' as int then Plain(PAGE_DOWN)
              else if b == 'H' as int || b == 'Y' as int then Plain(HOME)
              else if b == 'I' as int then Plain(PAGE_UP)
              else if b == 'J' as int then Plain(WIN1)
              else if b == 'K' as int then Plain(DEL)
              else if 'M' as int <= b <= 'X' as int then F(b - 'M' as int)
              else if b == 'Z' as int then Key(TAB, true, false, false)
              else if b == '}' as int then Plain(WIN3)
              else if b == '~' as int then Plain(WIN2)
              else NO_KEY)
  {
    hide Run;
    LetterRuns(c, CSI, b);
    CsiShape();
  }

  /** Every letter after SS3. */
  lemma Ss3Letters(c: Config, b: Byte)
    requires ConfigOk(c) && c.st == Start && LookedUp(SS3, b)
    ensures Run(c, [27, SS3, b]).0 == Emit(
              if b == 'A' as int || b == 'a' as int then Key(UP, false, false, b == 'a' as int)
              else if b == 'B' as int || b == 'b' as int then Key(DOWN, false, false, b == 'b' as int)
              else if b == 'C' as int || b == 'c' as int then Key(RIGHT, false, false, b == 'c' as int)
              else if b == 'D' as int || b == 'd' as int then Key(LEFT, false, false, b == 'd' as int)
              else if b == 'I' as int then Plain(TAB)
              else if b == 'M' as int then Plain(ENTER)
              else if 'P' as int <= b <= 'S' as int then F(b - 'P' as int)
              else if 'X' as int == b then Plain('=' as int)
              else if 'j' as int <= b <= 'o' as int then Plain('*' as int + (b - 'j' as int))
              else if 'p' as int <= b <= 'y' as int then Plain('0' as int + (b - 'p' as int))
              else NO_KEY)
  {
    hide Run;
    LetterRuns(c, SS3, b);
    Ss3Shape();
  }

  lemma TildeOf(sq: Seq, n: nat)
    requires Numbers(sq) && sq.typ == CSI && sq.mod == 0 && sq.argf && sq.arg[0] == n && sq.arg[1] == 0
    ensures KeyOf(FinalOf(sq, '~' as int), 0) == Pick(TildeTbl(), n)
    ensures KeyOf(FinalOf(sq, 'z' as int), 0) == ZEntry(n)
  {
    hide TildeTbl, ZTbl;
    WithNothing(Pick(TildeTbl(), n));
    WithNothing(ZEntry(n));
  }

  lemma NumberRuns(c: Config, n: nat, j: nat)
    requires ConfigOk(c) && c.st == Start && 3 + |Written(j, n)| <= BUFSIZE
    ensures Run(c, [27, CSI] + (Written(j, n) + ['~' as int])).0 == Emit(Pick(TildeTbl(), n))
    ensures Run(c, [27, CSI] + (Written(j, n) + ['z' as int])).0 == Emit(ZEntry(n))
  {
    hide Run, Written, FinalOf, KeyOf, TildeTbl, ZTbl, ZEntry, Finish;
    ReadOneNumber(c, CSI, n, j, '~' as int);
    ReadOneNumber(c, CSI, n, j, 'z' as int);
    var o := Opened(c, CSI, 0, [CSI]);
    TildeOf(o.sq.(argf := true, arg := o.sq.arg[0 := n]), n);
  }

  /** Every number before '~'. */
  lemma TildeNumbers(c: Config, n: nat, j: nat)
    requires ConfigOk(c) && c.st == Start && 3 + |Written(j, n)| <= BUFSIZE
    ensures Run(c, [27, CSI] + (Written(j, n) + ['~' as int])).0 == Emit(
              if n == 1 then Plain(HOME) else if n == 2 then Plain(INS) else if n == 3 then Plain(DEL)
              else if n == 4 then Plain(END) else if n == 5 then Plain(PAGE_UP) else if n == 6 then Plain(PAGE_DOWN)
              else if 7 <= n <= 10 then F(n - 7)
              else if 11 <= n <= 15 then F(n - 11)
              else if 16 <= n <= 21 then F(n - 12)
              else if 23 <= n <= 32 then F(n - 13)
              else NO_KEY)
  {
    hide Run, Written;
    NumberRuns(c, n, j);
  }

  /** Every number from 33 on before 'z'; below, it is as before '~'. */
  lemma ZNumbers(c: Config, n: nat, j: nat)
    requires ConfigOk(c) && c.st == Start && 3 + |Written(j, n)| <= BUFSIZE
    ensures n >= 33 ==> Run(c, [27, CSI] + (Written(j, n) + ['z' as int])).0 == Emit(
              if n == 192 || n == 193 then F(n - 182)
              else if n == 214 then Plain(HOME) else if n == 216 then Plain(PAGE_UP) else if n == 218 then Plain(CENTER)
              else if n == 220 then Plain(END) else if n == 222 then Plain(PAGE_DOWN)
              else if 224 <= n <= 235 then F(n - 224)
              else if n == 247 then Plain(INS) else if n == 249 then Plain(DEL)
              else NO_KEY)
    ensures n < 33 ==>
              Run(c, [27, CSI] + (Written(j, n) + ['z' as int])).0 == Run(c, [27, CSI] + (Written(j, n) + ['~' as int])).0
  {
    hide Run, Written;
    NumberRuns(c, n, j);
  }
}
