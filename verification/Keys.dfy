/** kbd.h and the key tables of kbd.c. A key is its 12-bit code and the three modifier bits; reports of
    the mouse and of the terminal are kept apart and their values are not modelled. */
module Keys {

  type Byte = b: int | 0 <= b < 256

  datatype ReportKind = CursorPosition | DeviceId | WindowReport | MouseReport

  datatype Key = Key(code: nat, shift: bool, alt: bool, ctrl: bool) | Report(kind: ReportKind)

  function Plain(code: nat): Key {
    Key(code, false, false, false)
  }

  function Shifted(code: nat): Key {
    Key(code, true, false, false)
  }

  /** `v & 0xFFF`: a key without a code is never handed out. */
  predicate IsKey(k: Key) {
    k.Report? || k.code != 0
  }

  const NO_KEY: Key := Key(0, false, false, false)

  const ENTER := 0x100
  const BS := 0x101
  const TAB := 0x102
  const ESC := 0x103
  const LEFT := 0x104
  const RIGHT := 0x105
  const UP := 0x106
  const DOWN := 0x107
  const INS := 0x108
  const DEL := 0x109
  const HOME := 0x10a
  const END := 0x10b
  const PAGE_UP := 0x10c
  const PAGE_DOWN := 0x10d
  const CENTER := 0x110
  const WIN1 := 0x111
  const WIN2 := 0x112
  const WIN3 := 0x113
  const F1 := 0x120

  /** KBD_F1 to KBD_F20 have consecutive codes. */
  function F(n: nat): Key {
    Plain(F1 + n)
  }

  /** `|` of the modifiers of `k` with others. */
  function With(k: Key, shift: bool, alt: bool, ctrl: bool): Key {
    if k.Report? then k else k.(shift := k.shift || shift, alt := k.alt || alt, ctrl := k.ctrl || ctrl)
  }

  /** ((m - 1) & 7) << 12, and nothing for m == 0. */
  function WithArg(k: Key, m: nat): Key {
    if m == 0 then k
    else With(k, (m - 1) % 2 == 1, (m - 1) / 2 % 2 == 1, (m - 1) / 4 % 2 == 1)
  }

  function Pick(tbl: seq<Key>, i: int): Key {
    if 0 <= i < |tbl| then tbl[i] else NO_KEY
  }

  /** No modifier bits. */
  predicate IsPlain(k: Key) {
    k.Key? && !k.shift && !k.alt && !k.ctrl
  }

  function Blank(n: nat): (r: seq<Key>)
    ensures |r| == n && forall k :: k in r ==> k == NO_KEY
  {
    seq(n, i => NO_KEY)
  }

  /** `n` function keys in a row. */
  function Fs(from: nat, n: nat): (r: seq<Key>)
    ensures |r| == n && forall i :: 0 <= i < n ==> r[i] == F(from + i)
  {
    seq(n, (i: nat) => F(from + i))
  }

  /** `n` keys that are characters. */
  function Chars(from: nat, n: nat): seq<Key> {
    seq(n, (i: nat) => Plain(from + i))
  }

  function ArrowKeys(shift: bool, ctrl: bool): seq<Key> {
    [Key(UP, shift, false, ctrl), Key(DOWN, shift, false, ctrl), Key(RIGHT, shift, false, ctrl), Key(LEFT, shift, false, ctrl)]
  }

  /** csitbl: the letter after CSI, from '@' on. */
  function CsiTbl(): seq<Key> {
    [Plain(INS)] + ArrowKeys(false, false)
    + [Plain(CENTER), Plain(END), Plain(PAGE_DOWN), Plain(HOME), Plain(PAGE_UP), Plain(WIN1), Plain(DEL), Plain(INS)]
    + Fs(0, 12) + [Plain(HOME), Shifted(TAB)] + Blank(6) + ArrowKeys(true, false) + Blank(24)
    + [Plain(WIN3), Plain(WIN2)]
  }

  /** ss3tbl: the letter after SS3, from '@' on. */
  function Ss3Tbl(): seq<Key> {
    [NO_KEY] + ArrowKeys(false, false) + Blank(4) + [Plain(TAB)] + Blank(3) + [Plain(ENTER)] + Blank(2)
    + Fs(0, 4) + Blank(4) + [Plain('=' as int)] + Blank(8) + ArrowKeys(false, true) + Blank(5)
    + Chars('*' as int, 6) + Chars('0' as int, 10)
  }

  /** csi_tilde: the number before '~', '$', '^', '@' or 'z'. */
  function TildeTbl(): (r: seq<Key>)
    ensures |r| == 33 && forall k :: k in r ==> IsPlain(k)
  {
    [NO_KEY, Plain(HOME), Plain(INS), Plain(DEL), Plain(END), Plain(PAGE_UP), Plain(PAGE_DOWN)]
    + Fs(0, 4) + Fs(0, 5) + Fs(4, 6) + [NO_KEY] + Fs(10, 2) + Fs(12, 8)
  }

  /** csi_z: the number before 'z', from CSI_Z_START on. */
  function ZTbl(): (r: seq<Key>)
    ensures |r| == 58 && forall k :: k in r ==> IsPlain(k)
  {
    Fs(10, 2) + Blank(20)
    + [Plain(HOME), NO_KEY, Plain(PAGE_UP), NO_KEY, Plain(CENTER), NO_KEY, Plain(END), NO_KEY, Plain(PAGE_DOWN), NO_KEY]
    + Fs(0, 12) + Blank(11) + [Plain(INS), NO_KEY, Plain(DEL)]
  }

  const CSI_Z_START := 192

  /** lowtbl: control characters. */
  function LowKey(c: int): Key {
    if c == 8 then Plain(BS)
    else if c == 9 then Plain(TAB)
    else if c == 10 then Shifted(ENTER)
    else if c == 13 then Plain(ENTER)
    else if c == 27 then Plain(ESC)
    else NO_KEY
  }

  /** The index of a letter in csitbl and ss3tbl. */
  function Letter(c: char): int {
    c as int - 0x40
  }

  /** Capital letters A to D are the arrows in both tables; small ones are the same arrows with SHIFT after
      CSI and with CTRL after SS3. */
  lemma Arrows(i: nat)
    requires i < 4
    ensures Pick(CsiTbl(), Letter('A') + i) == [Plain(UP), Plain(DOWN), Plain(RIGHT), Plain(LEFT)][i]
    ensures Pick(Ss3Tbl(), Letter('A') + i) == Pick(CsiTbl(), Letter('A') + i)
    ensures Pick(CsiTbl(), Letter('a') + i) == With(Pick(CsiTbl(), Letter('A') + i), true, false, false)
    ensures Pick(Ss3Tbl(), Letter('a') + i) == With(Pick(CsiTbl(), Letter('A') + i), false, false, true)
  {
    CsiShape();
    Ss3Shape();
  }

  /** Where the function keys are: in a row after CSI, SS3 and before 'z', and in the rows of different
      terminals before '~'. */
  lemma FunctionKeys(i: nat)
    ensures i < 12 ==> Pick(CsiTbl(), Letter('M') + i) == F(i) && Pick(ZTbl(), 224 - CSI_Z_START + i) == F(i)
    ensures i < 4 ==> Pick(Ss3Tbl(), Letter('P') + i) == F(i) && Pick(TildeTbl(), 7 + i) == F(i)
    ensures i < 5 ==> Pick(TildeTbl(), 11 + i) == F(i)
    ensures 4 <= i < 10 ==> Pick(TildeTbl(), 12 + i) == F(i)
    ensures 10 <= i < 20 ==> Pick(TildeTbl(), 13 + i) == F(i)
    ensures Pick(TildeTbl(), 22) == NO_KEY
  {
    CsiShape();
    Ss3Shape();
  }

  /** The same editing keys by number before '~', by letter after CSI and by number before 'z'. */
  lemma EditingKeys()
    ensures Plain(HOME) == Pick(TildeTbl(), 1) == Pick(CsiTbl(), Letter('H')) == Pick(ZTbl(), 214 - CSI_Z_START)
    ensures Plain(INS) == Pick(TildeTbl(), 2) == Pick(CsiTbl(), Letter('L')) == Pick(ZTbl(), 247 - CSI_Z_START)
    ensures Plain(DEL) == Pick(TildeTbl(), 3) == Pick(CsiTbl(), Letter('K')) == Pick(ZTbl(), 249 - CSI_Z_START)
    ensures Plain(END) == Pick(TildeTbl(), 4) == Pick(CsiTbl(), Letter('F')) == Pick(ZTbl(), 220 - CSI_Z_START)
    ensures Plain(PAGE_UP) == Pick(TildeTbl(), 5) == Pick(CsiTbl(), Letter('I')) == Pick(ZTbl(), 216 - CSI_Z_START)
    ensures Plain(PAGE_DOWN) == Pick(TildeTbl(), 6) == Pick(CsiTbl(), Letter('G')) == Pick(ZTbl(), 222 - CSI_Z_START)
    ensures Plain(CENTER) == Pick(CsiTbl(), Letter('E')) == Pick(ZTbl(), 218 - CSI_Z_START)
    ensures Pick(CsiTbl(), Letter('Z')) == Shifted(TAB) && Pick(Ss3Tbl(), Letter('I')) == Plain(TAB)
  {
    CsiShape();
    Ss3Shape();
  }

  /** The keypad in application mode sends its own characters. */
  lemma Keypad(i: nat)
    ensures i < 10 ==> Pick(Ss3Tbl(), Letter('p') + i) == Plain('0' as int + i)
    ensures i < 6 ==> Pick(Ss3Tbl(), Letter('j') + i) == Plain('*' as int + i)
    ensures Pick(Ss3Tbl(), Letter('X')) == Plain('=' as int) && Pick(Ss3Tbl(), Letter('M')) == Plain(ENTER)
  {
    Ss3Shape();
  }

  lemma CsiShape()
    ensures |CsiTbl()| == 63 && CsiTbl()[1..5] == ArrowKeys(false, false) && CsiTbl()[33..37] == ArrowKeys(true, false)
    ensures CsiTbl()[13..25] == Fs(0, 12)
    ensures Pick(CsiTbl(), Letter('~')) == Plain(WIN2) && Pick(CsiTbl(), Letter('}')) == Plain(WIN3)
  {
  }

  lemma Ss3Shape()
    ensures |Ss3Tbl()| == 58 && Ss3Tbl()[1..5] == ArrowKeys(false, false) && Ss3Tbl()[33..37] == ArrowKeys(false, true)
    ensures Ss3Tbl()[16..20] == Fs(0, 4) && Ss3Tbl()[42..48] == Chars('*' as int, 6)
    ensures Ss3Tbl()[48..58] == Chars('0' as int, 10)
  {
  }
}
