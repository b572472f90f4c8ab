/** What the decoder makes of ordinary bytes, alone and after ESC: control characters, their 8-bit forms,
    and characters. The keys are written out; no table is referred to. */
module Typing {
  import opened Decoder
  import opened Keys
  import opened Sequences

  // ---------- one byte ----------

  lemma OneByte(c: Config, b: Byte)
    requires ConfigOk(c) && c.st == Start && !IsIntroducer(b)
    ensures |c.sq.arg| == MAX_ARGS && StStart(c, b).1.Done?
    ensures Run(c, [b]) == (Emit(StStart(c, b).1.key), Restart(StStart(c, b).0, StStart(c, b).0.delf))
  {
    RunStep(c, [b]);
    assert [b][1..] == [];
    var d := Restart(StStart(c, b).0, StStart(c, b).0.delf);
    NoBytes(d);
    assert Emit(StStart(c, b).1.key) + [] == Emit(StStart(c, b).1.key);
  }

  /** The keys with a control character of their own. */
  lemma NamedControls(c: Config)
    requires ConfigOk(c) && c.st == Start
    ensures Run(c, [13]) == ([Key(ENTER, false, false, false)], c)
    ensures Run(c, [10]) == ([Key(ENTER, true, false, false)], c)
    ensures Run(c, [9]) == ([Key(TAB, false, false, false)], c)
  {
    hide Run;
    OneByte(c, 13);
    OneByte(c, 10);
    OneByte(c, 9);
  }

  /** BS is the backspace key and makes DEL the delete key; before that DEL is backspace too. */
  lemma Backspace(c: Config)
    requires ConfigOk(c) && c.st == Start
    ensures Run(c, [8]) == ([Key(BS, false, false, false)], c.(delf := true))
    ensures Run(c, [127]) == ([Key(if c.delf then DEL else BS, false, false, false)], c)
  {
    hide Run;
    OneByte(c, 8);
    OneByte(c, 127);
  }

  /** Any other control character, ESC aside, is the character 64 places above with CTRL. */
  lemma OtherControls(c: Config, b: Byte)
    requires ConfigOk(c) && c.st == Start && b < 32 && b != 8 && b != 9 && b != 10 && b != 13 && b != 27
    ensures Run(c, [b]) == ([Key(b + 64, false, false, true)], c)
  {
    hide Run;
    OneByte(c, b);
  }

  lemma Characters(c: Config, b: Byte)
    requires ConfigOk(c) && c.st == Start && (32 <= b < 127 || b >= 160)
    ensures Run(c, [b]) == ([Key(b, false, false, false)], c)
  {
    hide Run;
    OneByte(c, b);
  }

  /** The 8-bit control characters that are no introducers: those of the named ones are these with ALT, and
      the others are no keys. */
  lemma HighControls(c: Config, b: Byte)
    requires ConfigOk(c) && c.st == Start && 128 <= b < 160 && b != 0x9B && b != 0x8F
    ensures Run(c, [b]) ==
            if b == 128 + 8 then ([Key(BS, false, true, false)], c.(delf := true))
            else if b == 128 + 9 then ([Key(TAB, false, true, false)], c)
            else if b == 128 + 10 then ([Key(ENTER, true, true, false)], c)
            else if b == 128 + 13 then ([Key(ENTER, false, true, false)], c)
            else ([], c)
  {
    hide Run;
    OneByte(c, b);
  }

  // ---------- after ESC ----------

  /** `c` after one ESC, or after two. */
  function Escaped(c: Config, two: bool): Config
    requires |c.sq.arg| == MAX_ARGS
  {
    Config(Esc, Seq(0, if two then 27 else 0, false, c.sq.arg[0 := 0][1 := 0], 0), c.delf, if two then [27, 27] else [27])
  }

  function Escs(two: bool): seq<Byte> {
    if two then [27, 27] else [27]
  }

  lemma AfterEsc(c: Config, two: bool, s: seq<Byte>)
    requires ConfigOk(c) && c.st == Start
    ensures ConfigOk(Escaped(c, two)) && Run(c, Escs(two) + s) == Run(Escaped(c, two), s)
  {
    hide Run;
    var all := Escs(two) + s;
    RunStep(c, all);
    var d := Feed(c, 27).0.(win := [27]);
    assert c.win + [all[0]] == [27];
    if two {
      assert all[1..] == [27] + s && all[1..][1..] == s;
      RunStep(d, all[1..]);
      assert [27] + [27] == [27, 27];
    } else {
      assert all[1..] == s;
    }
  }

  /** What `c` is after a sequence that began with ESC: only its scratch fields differ. */
  ghost predicate Returned(c: Config, d: Config, delf: bool) {
    d.st == Start && d.win == [] && d.delf == delf
  }

  lemma EscByte(c: Config, two: bool, b: Byte)
    requires ConfigOk(c) && c.st == Start && b != CSI && b != SS3 && b != 27
    ensures var (k, delf) := OrdKey(b, c.delf);
            var (ks, d) := Run(c, Escs(two) + [b]);
            ks == (if k == NO_KEY then [] else Emit(With(k, false, true, false))) && Returned(c, d, delf)
  {
    hide Run;
    AfterEsc(c, two, [b]);
    var e := Escaped(c, two);
    RunStep(e, [b]);
    assert [b][1..] == [];
    var d := Feed(e, b).0;
    NoBytes(Restart(d, d.delf));
    assert forall k :: Emit(k) + [] == Emit(k);
  }

  /** ESC, once or twice, and an ordinary byte: the key of the byte with ALT. A control character without a
      key of its own is lost. */
  lemma EscOrdinary(c: Config, two: bool, b: Byte)
    requires ConfigOk(c) && c.st == Start && b != '[' as int && b != 'O' as int && b != 27
    ensures var (ks, d) := Run(c, Escs(two) + [b]);
            && Returned(c, d, c.delf || b == 8)
            && ks == if 32 <= b < 127 || b >= 160 then [Key(b, false, true, false)]
                     else if b == 13 then [Key(ENTER, false, true, false)]
                     else if b == 10 then [Key(ENTER, true, true, false)]
                     else if b == 9 then [Key(TAB, false, true, false)]
                     else if b == 8 then [Key(BS, false, true, false)]
                     else if b == 127 then [Key(if c.delf then DEL else BS, false, true, false)]
                     else []
  {
    hide Run;
    EscByte(c, two, b);
  }

  /** ESC and then nothing is the ESC key; and a third ESC makes the first two one key, ESC with ALT. */
  lemma EscAlone(c: Config)
    requires ConfigOk(c) && c.st == Start
    ensures Waits(c, [27]) && Outcome(c, [27], true).0 == [Key(ESC, false, false, false)]
    ensures Run(c, [27, 27, 27]).0 == [Key(ESC, false, true, false)]
    ensures Waits(c, [27, 27, 27]) && Run(c, [27, 27, 27]).1.win == [27]
  {
    hide Run;
    EscWaits(c);
    ThirdEsc(c);
  }

  lemma EscWaits(c: Config)
    requires ConfigOk(c) && c.st == Start
    ensures Waits(c, [27]) && Outcome(c, [27], true).0 == [Key(ESC, false, false, false)]
  {
    hide Run;
    AfterEsc(c, false, []);
    var e := Escaped(c, false);
    assert Escs(false) + [] == [27];
    NothingMore(e);
    AgainOk(e, []);
    var (ks, d, t) := GiveUp(e, e.win, []);
    assert t == [];
    NoBytes(d);
    assert [Key(ESC, false, false, false)] + [] == [Key(ESC, false, false, false)];
  }

  lemma NothingMore(e: Config)
    requires ConfigOk(e) && |e.win| < BUFSIZE
    ensures Run(e, []) == ([], e)
  {
  }

  lemma ThirdEsc(c: Config)
    requires ConfigOk(c) && c.st == Start
    ensures Run(c, [27, 27, 27]).0 == [Key(ESC, false, true, false)]
    ensures Waits(c, [27, 27, 27]) && Run(c, [27, 27, 27]).1.win == [27]
  {
    hide Run, Reread;
    AfterEsc(c, true, [27]);
    var e := Escaped(c, true);
    assert Escs(true) + [27] == [27, 27, 27];
    GiveUpRuns(e, [27]);
    assert e.win + [27] == [27, 27, 27];
    ThirdAgain(e);
  }

  lemma ThirdAgain(e: Config)
    requires |e.sq.arg| == MAX_ARGS
    ensures Reread(e, [27, 27, 27]).0 == [Key(ESC, false, true, false)]
    ensures var d := Reread(e, [27, 27, 27]).1; WindowOk(d) && d.st != Start && d.win == [27]
  {
    hide Run;
    var w: seq<Byte> := [27, 27, 27];
    assert w[..3][1] == 27;
    assert w[2..] + [] == [27];
    var z := Restart(e, e.delf);
    AfterEsc(z, false, []);
    assert Escs(false) + [] == [27];
    NothingMore(Escaped(z, false));
    assert [Key(ESC, false, true, false)] + [] == [Key(ESC, false, true, false)];
  }
}
