/** The escape-sequence decoder of kbd.c as a function of the bytes read: five states, a window of 20
    bytes, and a rewind when a sequence does not work out. It reads the control sequences of
    section 5.4 of ECMA-48, and the 8-bit introducers of section 5.3. */
module Decoder {
  import opened Keys

  datatype State = Start | Esc | Csiss3 | Arg | Mouse

  const BUFSIZE := 20
  const MAX_ARGS := 16

  /** struct seq without delf. `argp` is an index. */
  datatype Seq = Seq(typ: int, mod: int, argf: bool, arg: seq<int>, argp: nat)

  /** `win` holds the bytes of the sequence so far: buf up to p. */
  datatype Config = Config(st: State, sq: Seq, delf: bool, win: seq<Byte>)

  const CSI := '[' as int
  const SS3 := 'O' as int

  /** What a state function returns; KBD_INCOMPLETE asks for a rewind. */
  datatype Result = More | Incomplete | Done(key: Key)

  predicate SeqOk(sq: Seq) {
    |sq.arg| == MAX_ARGS && sq.argp < MAX_ARGS
  }

  predicate Numbers(sq: Seq) {
    SeqOk(sq) && sq.arg[0] >= 0 && sq.arg[1] >= 0
  }

  ghost predicate ConfigOk(c: Config) {
    && |c.sq.arg| == MAX_ARGS
    && (c.st == Start <==> c.win == [])
    && |c.win| <= BUFSIZE
    && (c.st != Start ==> SeqOk(c.sq))
    && (c.st == Esc || c.st == Csiss3 ==> c.sq.argp == 0)
    && (c.st == Mouse ==> c.sq.argp < 3)
    && (c.st != Start && c.st != Mouse ==> Numbers(c.sq) && c.sq.arg[c.sq.argp] >= 0)
  }

  /** ordkey: the key, and whether DEL is a delete key from now on. */
  function OrdKey(c: int, delf: bool): (Key, bool)
    requires 0 <= c < 256
  {
    if c < 32 then (LowKey(c), delf || c == 8)
    else if c == 127 then (Plain(if delf then DEL else BS), delf)
    else if 127 < c < 0xA0 then (NO_KEY, delf)
    else (Plain(c), delf)
  }

  predicate IsIntroducer(c: Byte) {
    c == 27 || c == 0x9B || c == 0x8F
  }

  /** Both bytes are read again with bit 6 (and above 127 also bit 7) changed. */
  function Control(c: Byte): (Byte, bool)
    requires c < 32 || 128 <= c < 160
  {
    if c < 32 then (c + 64, true) else (c - 128, false)
  }

  function StStart(c: Config, b: Byte): (Config, Result)
    requires |c.sq.arg| == MAX_ARGS
  {
    if IsIntroducer(b) then
      var sq := Seq(if b == 27 then 0 else b - 64, 0, false, c.sq.arg[0 := 0][1 := 0], 0);
      (c.(st := if b == 27 then Esc else Csiss3, sq := sq), More)
    else
      var (k, d) := OrdKey(b, c.delf);
      if k != NO_KEY then (c.(delf := d), Done(k))
      else
        var (x, isCtrl) := Control(b);
        var (k2, d2) := OrdKey(x, d);
        (c.(delf := d2), Done(if k2 == NO_KEY then k2 else With(k2, false, !isCtrl, isCtrl)))
  }

  function StEsc(c: Config, b: Byte): (Config, Result) {
    if b == CSI || b == SS3 then (c.(st := Csiss3, sq := c.sq.(typ := b)), More)
    else if b == 27 then
      if c.sq.mod != 0 then (c, Incomplete) else (c.(sq := c.sq.(mod := 27)), More)
    else
      var (k, d) := OrdKey(b, c.delf);
      (c.(delf := d), Done(if k == NO_KEY then k else With(k, false, true, false)))
  }

  /** How csiss3 ends: through `ready`, where a modifier argument and ALT are added, or not. */
  datatype Final = Ready(base: Key, m: nat) | Ret(key: Key)

  predicate IsTilde(b: Byte) {
    b == '~' as int || b == '$' as int || b == '^' as int || b == '@' as int
  }

  /** The last byte of a control sequence whose modifier is not '[' or '?'. */
  function CsiFinal(sq: Seq, b: Byte): Final
    requires Numbers(sq)
  {
    var a, m := sq.arg[0], sq.arg[1];
    if sq.argf && IsTilde(b) then
      var k := Pick(TildeTbl(), a);
      if k == NO_KEY then Ret(NO_KEY)
      else Ready(With(k, b != '~' as int && b != '^' as int, false, b != '~' as int && b != '$' as int), m)
    else if b == 'z' as int then
      if 0 <= a < |TildeTbl()| then Ready(TildeTbl()[a], m)
      else if 0 <= a - CSI_Z_START < |ZTbl()| then Ready(ZTbl()[a - CSI_Z_START], m)
      else Ret(NO_KEY)
    else if b == 'R' as int && sq.argp == 1 then Ret(Report(CursorPosition))
    else if b == 't' as int then Ret(Report(WindowReport))
    else Ready(Pick(CsiTbl(), b - 0x40), a)
  }

  function FinalOf(sq: Seq, b: Byte): Final
    requires Numbers(sq)
  {
    if sq.typ == SS3 then Ready(Pick(Ss3Tbl(), b - 0x40), sq.arg[0])
    else if sq.mod == CSI then Ready(if b < 'A' as int + 12 then Plain(F1 + b - 'A' as int) else NO_KEY, sq.arg[0])
    else if sq.mod == '?' as int then Ret(if b == 'c' as int then Report(DeviceId) else NO_KEY)
    else CsiFinal(sq, b)
  }

  /** Only a key of csi_tilde followed by '~', '$', '^' or '@' turns DEL back into backspace. */
  function ClearsDel(sq: Seq, b: Byte): bool
    requires SeqOk(sq)
  {
    && sq.typ != SS3 && sq.mod != CSI && sq.mod != '?' as int
    && sq.argf && IsTilde(b) && Pick(TildeTbl(), sq.arg[0]) != NO_KEY
  }

  function KeyOf(f: Final, mod: int): Key {
    match f
    case Ret(k) => k
    case Ready(k, m) => With(WithArg(k, m), false, mod == 27, false)
  }

  /** csiss3 */
  function Finish(c: Config, b: Byte): (Config, Result)
    requires Numbers(c.sq)
  {
    (c.(delf := c.delf && !ClearsDel(c.sq, b)), Done(KeyOf(FinalOf(c.sq, b), c.sq.mod)))
  }

  predicate IsDigit(b: Byte) {
    '0' as int <= b <= '9' as int
  }

  function Digit(b: Byte): nat
    requires IsDigit(b)
  {
    b - '0' as int
  }

  function StCsiss3(c: Config, b: Byte): (Config, Result)
    requires Numbers(c.sq) && c.sq.argp == 0
  {
    if b < 32 then (c, Incomplete)
    else if (b == CSI || b == '?' as int) && c.sq.typ == CSI then
      if c.sq.mod != 0 then (c, Incomplete) else (c.(sq := c.sq.(mod := b)), More)
    else if IsDigit(b) then
      (c.(st := Arg, sq := c.sq.(argf := true, arg := c.sq.arg[0 := Digit(b)])), More)
    else if b == ';' as int then
      (c.(st := Arg, sq := c.sq.(argf := true, arg := c.sq.arg[1 := 0], argp := 1)), More)
    else if b == 'M' as int && c.sq.typ == CSI then (c.(st := Mouse), More)
    else Finish(c, b)
  }

  function StArg(c: Config, b: Byte): (Config, Result)
    requires Numbers(c.sq)
  {
    var i := c.sq.argp;
    if IsDigit(b) then (c.(sq := c.sq.(arg := c.sq.arg[i := 10 * c.sq.arg[i] + Digit(b)])), More)
    else if b == ';' as int then
      if i + 1 >= MAX_ARGS then (c.(sq := c.sq.(argp := i + 1)), Done(NO_KEY))
      else (c.(sq := c.sq.(argp := i + 1, arg := c.sq.arg[i + 1 := 0])), More)
    else Finish(c, b)
  }

  function StMouse(c: Config, b: Byte): (Config, Result)
    requires SeqOk(c.sq)
  {
    var sq := c.sq.(arg := c.sq.arg[c.sq.argp := b - 0x20], argp := c.sq.argp + 1);
    (c.(sq := sq), if sq.argp < 3 then More else Done(Report(MouseReport)))
  }

  /** One call of the state function with a byte. */
  function Feed(c: Config, b: Byte): (Config, Result)
    requires ConfigOk(c)
  {
    match c.st
    case Start => StStart(c, b)
    case Esc => StEsc(c, b)
    case Csiss3 => StCsiss3(c, b)
    case Arg => StArg(c, b)
    case Mouse => StMouse(c, b)
  }

  function Prefix(s: seq<Byte>, n: nat): seq<Byte> {
    if n <= |s| then s[..n] else s
  }

  /** incomplete: the key that the bytes `w` of a given-up sequence are taken for, how many of them it
      uses up, and delf. */
  function Rewind(w: seq<Byte>, delf: bool): (Key, nat, bool)
    requires w != []
  {
    if |w| == 1 then
      var (k, d) := OrdKey(w[0], delf); (k, 1, d)
    else if Prefix(w, 3) == [27, '[' as int, 'M' as int] then (Plain(F1), 3, delf)
    else if w[0] == 27 then
      var (k, d) := OrdKey(w[1], delf); (With(k, false, true, false), 2, d)
    else
      var (k, d) := OrdKey(w[0], delf); (k, 1, d)
  }

  /** Back to st_start; seq keeps what it held. */
  function Restart(c: Config, delf: bool): Config {
    c.(st := Start, win := [], delf := delf)
  }

  function Emit(k: Key): seq<Key> {
    if IsKey(k) then [k] else []
  }

  function After(ks: seq<Key>, r: (seq<Key>, Config)): (seq<Key>, Config) {
    (ks + r.0, r.1)
  }

  lemma FeedOk(c: Config, b: Byte)
    requires ConfigOk(c) && |c.win| < BUFSIZE
    ensures var (d, r) := Feed(c, b);
            && |d.sq.arg| == MAX_ARGS && d.win == c.win
            && (r == More ==> d.st != Start && ConfigOk(d.(win := c.win + [b])))
            && (r.Incomplete? ==> c.st != Start)
  {
  }

  /** What the window looks like: it starts with an introducer, and an ESC is followed by more in every
      state but the first. */
  ghost predicate WindowOk(c: Config) {
    && (c.win != [] ==> IsIntroducer(c.win[0]))
    && (c.win != [] && c.win[0] == 27 && (c.st != Esc || c.sq.mod != 0) ==> |c.win| >= 2)
  }

  /** If a byte makes the decoder give up, there are three bytes to look at after an ESC. */
  lemma FeedWindow(c: Config, b: Byte)
    requires ConfigOk(c) && WindowOk(c) && |c.win| < BUFSIZE
    ensures var (d, r) := Feed(c, b);
            && (r == More ==> WindowOk(d.(win := c.win + [b])))
            && (r == Incomplete ==> IsIntroducer(c.win[0]) && (c.win[0] == 27 ==> |c.win| >= 2))
  {
  }

  lemma RewindProgress(w: seq<Byte>, delf: bool)
    requires w != []
    ensures 1 <= Rewind(w, delf).1 <= |w|
  {
  }

  /** One byte further, or one rewind: what a decoder in state `c` with the bytes `s` to come hands out,
      its state then and the bytes to come then. A full window gives up at once. */
  function Next(c: Config, s: seq<Byte>): (seq<Key>, Config, seq<Byte>)
    requires ConfigOk(c) && (|c.win| == BUFSIZE || s != [])
  {
    if |c.win| == BUFSIZE then GiveUp(c, c.win, s)
    else
      FeedOk(c, s[0]);
      var (d, r) := Feed(c, s[0]);
      var w := c.win + [s[0]];
      match r
      case More => ([], d.(win := w), s[1..])
      case Done(k) => (Emit(k), Restart(d, d.delf), s[1..])
      case Incomplete => GiveUp(d, w, s[1..])
  }

  /** The bytes `w` of the sequence so far are read again, but for those that were taken for a key. */
  function GiveUp(c: Config, w: seq<Byte>, s: seq<Byte>): (seq<Key>, Config, seq<Byte>)
    requires w != []
  {
    RewindProgress(w, c.delf);
    var (k, n, d) := Rewind(w, c.delf);
    (Emit(k), Restart(c, d), w[n..] + s)
  }

  ghost predicate IsEnd(w: seq<Byte>, all: seq<Byte>) {
    |w| <= |all| && w == all[|all| - |w|..]
  }

  lemma GiveUpProgress(c: Config, w: seq<Byte>, s: seq<Byte>)
    requires w != []
    ensures var (ks, d, t) := GiveUp(c, w, s);
            |ks| <= 1 && |t| < |w + s| && IsEnd([] + t, w + s)
  {
    RewindProgress(w, c.delf);
  }

  /** A step hands out at most one key, and only when bytes are used up; none is lost or reordered. */
  lemma NextProgress(c: Config, s: seq<Byte>)
    requires ConfigOk(c) && (|c.win| == BUFSIZE || s != [])
    ensures var (ks, d, t) := Next(c, s);
            && ConfigOk(d) && |ks| <= 1
            && |ks| + |d.win + t| <= |c.win + s| && IsEnd(d.win + t, c.win + s)
            && (|d.win| + |t| < |c.win| + |s| || (|d.win| + |t| == |c.win| + |s| && |t| < |s|))
  {
    hide Feed, Rewind;
    if |c.win| == BUFSIZE {
      GiveUpProgress(c, c.win, s);
    } else {
      FeedOk(c, s[0]);
      var (d, r) := Feed(c, s[0]);
      var w := c.win + [s[0]];
      assert w + s[1..] == c.win + s;
      if r.Incomplete? {
        GiveUpProgress(d, w, s[1..]);
      }
    }
  }

  /** Bytes that come later do not matter yet. */
  lemma NextAppend(c: Config, a: seq<Byte>, b: seq<Byte>)
    requires ConfigOk(c) && (|c.win| == BUFSIZE || a != [])
    ensures var (ks, d, t) := Next(c, a); Next(c, a + b) == (ks, d, t + b)
  {
    hide Feed, Rewind;
    if |c.win| == BUFSIZE {
      GiveUpAppend(c, c.win, a, b);
    } else {
      assert (a + b)[0] == a[0] && (a + b)[1..] == a[1..] + b;
      FeedOk(c, a[0]);
      GiveUpAppend(Feed(c, a[0]).0, c.win + [a[0]], a[1..], b);
    }
  }

  lemma GiveUpAppend(c: Config, w: seq<Byte>, a: seq<Byte>, b: seq<Byte>)
    requires w != []
    ensures var (ks, d, t) := GiveUp(c, w, a); GiveUp(c, w, a + b) == (ks, d, t + b)
  {
    RewindProgress(w, c.delf);
    var n := Rewind(w, c.delf).1;
    assert w[n..] + (a + b) == (w[n..] + a) + b;
  }

  /** The whole decoder: the keys that `s` gives, and the state after the last byte. */
  function Run(c: Config, s: seq<Byte>): (r: (seq<Key>, Config))
    requires ConfigOk(c)
    ensures ConfigOk(r.1) && |r.1.win| < BUFSIZE
    decreases |c.win| + |s|, |s|
  {
    if |c.win| < BUFSIZE && s == [] then ([], c)
    else
      NextProgress(c, s);
      var (ks, d, t) := Next(c, s);
      After(ks, Run(d, t))
  }

  // ---------- timeouts ----------

  lemma AgainOk(c: Config, s: seq<Byte>)
    requires ConfigOk(c) && WindowOk(c) && c.st != Start
    ensures c.win != [] && IsIntroducer(c.win[0])
    ensures var d := GiveUp(c, c.win, s).1; ConfigOk(d) && WindowOk(d)
  {
  }

  /** What comes of `s`, after a rewind if the sequence so far is not continued. */
  function Read(c: Config, s: seq<Byte>, timeout: bool): (seq<Key>, Config)
    requires ConfigOk(c) && (timeout ==> WindowOk(c) && c.st != Start)
  {
    if timeout then
      AgainOk(c, s);
      var (ks, d, t) := GiveUp(c, c.win, s);
      After(ks, Run(d, t))
    else Run(c, s)
  }

  lemma AfterAfter(ks: seq<Key>, ls: seq<Key>, r: (seq<Key>, Config))
    ensures After(ks, After(ls, r)) == After(ks + ls, r)
    ensures After([], r) == r
  {
    assert (ks + ls) + r.0 == ks + (ls + r.0);
    assert [] + r.0 == r.0;
  }

  // ---------- chunking ----------

  lemma {:induction false} RunAppend(c: Config, a: seq<Byte>, b: seq<Byte>)
    requires ConfigOk(c)
    ensures Run(c, a + b) == After(Run(c, a).0, Run(Run(c, a).1, b))
    decreases |c.win| + |a|, |a|
  {
    hide Next, After;
    if |c.win| < BUFSIZE && a == [] {
      assert a + b == b;
      AfterAfter([], [], Run(c, b));
    } else {
      NextProgress(c, a);
      NextAppend(c, a, b);
      var (ks, d, t) := Next(c, a);
      RunAppend(d, t, b);
      AfterAfter(ks, Run(d, t).0, Run(Run(d, t).1, b));
      AfterParts(ks, Run(d, t));
    }
  }

  lemma AfterParts(ks: seq<Key>, r: (seq<Key>, Config))
    ensures After(ks, r) == (ks + r.0, r.1)
  {
  }

  function Joined(chunks: seq<seq<Byte>>): seq<Byte> {
    if chunks == [] then [] else chunks[0] + Joined(chunks[1..])
  }

  /** One read after another. */
  function RunChunks(c: Config, chunks: seq<seq<Byte>>): (seq<Key>, Config)
    requires ConfigOk(c)
    decreases |chunks|
  {
    if chunks == [] then Run(c, [])
    else
      var (ks, d) := Run(c, chunks[0]);
      After(ks, RunChunks(d, chunks[1..]))
  }

  /** Only the bytes count, not how the reads cut them up. */
  lemma {:induction false} ChunkingIsInvisible(c: Config, chunks: seq<seq<Byte>>)
    requires ConfigOk(c)
    ensures RunChunks(c, chunks) == Run(c, Joined(chunks))
    decreases |chunks|
  {
    if chunks != [] {
      ChunkingIsInvisible(Run(c, chunks[0]).1, chunks[1..]);
      RunAppend(c, chunks[0], Joined(chunks[1..]));
    }
  }

  // ---------- progress ----------

  lemma EndOfEnd(w: seq<Byte>, v: seq<Byte>, all: seq<Byte>)
    requires IsEnd(w, v) && IsEnd(v, all)
    ensures IsEnd(w, all)
  {
  }

  /** Every key costs at least one byte, and what is left in the window is the end of what was read, in
      the order it was read. */
  lemma {:induction false} Progress(c: Config, s: seq<Byte>)
    requires ConfigOk(c)
    ensures var (ks, d) := Run(c, s);
            |ks| + |d.win| <= |c.win + s| && IsEnd(d.win, c.win + s)
    decreases |c.win| + |s|, |s|
  {
    hide Next;
    if |c.win| < BUFSIZE && s == [] {
      assert c.win + s == c.win;
    } else {
      NextProgress(c, s);
      var (ks, d, t) := Next(c, s);
      Progress(d, t);
      EndOfEnd(Run(d, t).1.win, d.win + t, c.win + s);
    }
  }
}
