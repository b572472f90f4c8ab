/** screen.c: the scrolling state of a widget. `vy` is the first visible line, `crsr` the line of the
    cursor (-1: the widget has none), `nlines` the number of the last line. */
module Screen {

  datatype View = View(vy: nat, crsr: int)

  /** scr_linserted: a line above or at the cursor pushes both down, except at the very top. */
  function LineInserted(v: View, line: int): View {
    if v.vy == 0 && v.crsr == 0 then v
    else if line <= v.crsr then View(v.vy + 1, v.crsr + 1)
    else v
  }

  /** scr_ldeleted: a line above the cursor pulls the cursor up, and the screen while it can. */
  function LineDeleted(v: View, line: int): View {
    if line >= v.crsr then v
    else View(if v.vy == 0 then 0 else v.vy - 1, v.crsr - 1)
  }

  /** A line that comes in above or at the cursor: the cursor keeps its line and its place on the screen,
      unless it is at the very top, where the comment in the source promises the same in vain. */
  lemma InsertedStays(v: View, line: int)
    ensures var w := LineInserted(v, line);
            var follows := w.crsr == v.crsr + (if line <= v.crsr then 1 else 0) && w.crsr - w.vy == v.crsr - v.vy;
            follows <==> !(line <= 0 && v == View(0, 0))
  {
  }

  /** A line that goes: the cursor keeps its line exactly if that was not the one under it, and its place
      on the screen unless the screen is at its top and a line above the cursor goes. */
  lemma DeletedStays(v: View, line: int)
    ensures var w := LineDeleted(v, line);
            && w.crsr == v.crsr - (if line < v.crsr then 1 else 0)
            && (w.crsr - w.vy == v.crsr - v.vy <==> !(line < v.crsr && v.vy == 0))
            && (line < v.crsr && v.vy == 0 ==> w.vy == 0)
  {
  }

  datatype Key = Up | Down | PageUp | PageDown | Home

  /** The lines that a widget shows below its first one (ysize - y), and its last line. */
  datatype Size = Size(rows: nat, nlines: nat)

  function Min(a: int, b: int): int {
    if a < b then a else b
  }

  function Max(a: int, b: int): int {
    if a < b then b else a
  }

  /** What is left below the screen. */
  function LinesLeft(v: View, z: Size): int {
    z.nlines - (v.vy + z.rows)
  }

  /** The cursor is on a line, and on the screen. */
  predicate Safe(v: View, z: Size) {
    0 <= v.crsr <= z.nlines && v.vy <= v.crsr <= v.vy + z.rows
  }

  function PressUp(v: View): View {
    if v.crsr == -1 then v.(vy := if v.vy > 0 then v.vy - 1 else 0)
    else
      View(if v.vy > 0 && v.crsr == v.vy then v.vy - 1 else v.vy,
           if v.crsr > 0 then v.crsr - 1 else v.crsr)
  }

  function PressDown(v: View, z: Size): View {
    var scrolled := if LinesLeft(v, z) > 0 then v.vy + 1 else v.vy;
    if v.crsr == -1 then v.(vy := scrolled)
    else if v.crsr - v.vy == z.rows && LinesLeft(v, z) <= 0 then v
    else
      View(if v.crsr - v.vy == z.rows then scrolled else v.vy,
           if v.crsr < z.nlines then v.crsr + 1 else v.crsr)
  }

  function PressPageUp(v: View, z: Size): View {
    if v.vy == 0 then v.(crsr := 0)
    else
      var n := Min(v.vy, z.rows);
      View(v.vy - n, v.crsr - n)
  }

  function PressPageDown(v: View, z: Size): View {
    if LinesLeft(v, z) <= 0 then v.(crsr := z.nlines)
    else
      var n := Min(LinesLeft(v, z), z.rows);
      View(v.vy + n, if v.crsr == -1 then -1 else v.crsr + n)
  }

  function Press(v: View, z: Size, k: Key): View {
    match k
    case Up => PressUp(v)
    case Down => PressDown(v, z)
    case PageUp => PressPageUp(v, z)
    case PageDown => PressPageDown(v, z)
    case Home => View(0, 0)
  }

  function PressAll(v: View, z: Size, ks: seq<Key>): View
    decreases |ks|
  {
    if ks == [] then v else PressAll(Press(v, z, ks[0]), z, ks[1..])
  }

  /** The cursor stays on the screen and on the lines, whatever is pressed. */
  lemma {:induction false} AlwaysSafe(v: View, z: Size, ks: seq<Key>)
    requires Safe(v, z)
    ensures Safe(PressAll(v, z, ks), z)
    decreases |ks|
  {
    if ks != [] {
      AlwaysSafe(Press(v, z, ks[0]), z, ks[1..]);
    }
  }

  /** No run ever scrolls past the last full screen, if it did not start there. */
  lemma {:induction false} NeverPastTheEnd(v: View, z: Size, ks: seq<Key>)
    requires Safe(v, z) && v.vy + z.rows <= Max(z.nlines, z.rows)
    ensures PressAll(v, z, ks).vy + z.rows <= Max(z.nlines, z.rows)
    decreases |ks|
  {
    if ks != [] {
      NeverPastTheEnd(Press(v, z, ks[0]), z, ks[1..]);
    }
  }

  /** When page down and page up cancel out: a full page was left below, or the first page is partly
      left, or nothing could move at all; and the other way round. */
  lemma PagesCancel(v: View, z: Size)
    requires Safe(v, z)
    ensures Press(Press(v, z, PageDown), z, PageUp) == v <==>
              LinesLeft(v, z) >= z.rows || (v.vy == 0 && (LinesLeft(v, z) > 0 || v.crsr == 0))
    ensures v.vy >= z.rows ==> (Press(Press(v, z, PageUp), z, PageDown) == v <==> LinesLeft(v, z) >= 0)
  {
    var w := Press(v, z, PageDown);
    if LinesLeft(v, z) <= 0 {
      assert w == View(v.vy, z.nlines);
    } else {
      assert w.vy == v.vy + Min(LinesLeft(v, z), z.rows);
    }
  }

  function Repeat(k: Key, n: nat): seq<Key> {
    seq(n, i => k)
  }

  lemma RepeatStep(v: View, z: Size, k: Key, n: nat)
    requires n > 0
    ensures PressAll(v, z, Repeat(k, n)) == PressAll(Press(v, z, k), z, Repeat(k, n - 1))
  {
    assert Repeat(k, n)[1..] == Repeat(k, n - 1);
  }

  /** n times down: the cursor moves n lines or to the last one, and the screen scrolls only as far
      as it must. */
  lemma {:induction false} DownMany(v: View, z: Size, n: nat)
    requires Safe(v, z)
    ensures var w := PressAll(v, z, Repeat(Down, n));
            w.crsr == Min(v.crsr + n, z.nlines) && w.vy == Max(v.vy, w.crsr - z.rows)
    decreases n
  {
    if n > 0 {
      RepeatStep(v, z, Down, n);
      DownMany(Press(v, z, Down), z, n - 1);
    }
  }

  lemma {:induction false} UpMany(v: View, z: Size, n: nat)
    requires Safe(v, z)
    ensures var w := PressAll(v, z, Repeat(Up, n));
            w.crsr == Max(v.crsr - n, 0) && w.vy == Min(v.vy, w.crsr)
    decreases n
  {
    if n > 0 {
      RepeatStep(v, z, Up, n);
      UpMany(Press(v, z, Up), z, n - 1);
    }
  }

  /** How far page down moves the screen: a page, or what is left. */
  function PageStep(v: View, z: Size): int {
    Min(z.rows, Max(LinesLeft(v, z), 0))
  }

  /** Where page down leads after `ahead` lines' worth of pages, `all` including the last one. */
  function PagedDown(v: View, z: Size, all: nat, ahead: int): View {
    var last := Max(v.vy, z.nlines - z.rows);
    var vy := Min(v.vy + all, last);
    View(vy, if all > 0 && v.vy + ahead >= last then z.nlines else v.crsr + (vy - v.vy))
  }

  lemma PageDownFirst(v: View, z: Size, all: nat)
    requires Safe(v, z) && 0 < z.rows <= all
    ensures var u := Press(v, z, PageDown);
            PagedDown(u, z, all, all - z.rows) == PagedDown(v, z, all + z.rows, all)
  {
  }

  /** n times page down: the screen moves n pages, but not past the last full one, and the cursor with it;
      when nothing is left below, the cursor goes to the last line. */
  lemma {:induction false} PageDownMany(v: View, z: Size, n: nat)
    requires Safe(v, z) && z.rows > 0
    ensures n * z.rows >= 0 && PressAll(v, z, Repeat(PageDown, n)) == PagedDown(v, z, n * z.rows, (n - 1) * z.rows)
    decreases n
  {
    Product(n, z.rows);
    if n > 0 {
      RepeatStep(v, z, PageDown, n);
      var u := Press(v, z, PageDown);
      Product(n - 1, z.rows);
      PageDownMany(u, z, n - 1);
      if n == 1 {
        assert PressAll(v, z, Repeat(PageDown, n)) == u;
      } else {
        Product(n - 2, z.rows);
        PageDownFirst(v, z, (n - 1) * z.rows);
      }
    }
  }

  lemma Product(n: nat, r: nat)
    ensures n * r >= 0 && (n - 1) * r == n * r - r && (n > 0 && r > 0 ==> n * r > 0)
  {
  }

  /** n times page up: the screen moves n pages, but not past the first line, and the cursor with it; when
      the first line is on the screen already, the cursor goes there. */
  lemma {:induction false} PageUpMany(v: View, z: Size, n: nat)
    requires Safe(v, z) && z.rows > 0
    ensures var w := PressAll(v, z, Repeat(PageUp, n));
            && w.vy == Max(v.vy - n * z.rows, 0)
            && w.crsr == if n > 0 && v.vy <= (n - 1) * z.rows then 0 else v.crsr - (v.vy - w.vy)
    decreases n
  {
    if n > 0 {
      RepeatStep(v, z, PageUp, n);
      var u := Press(v, z, PageUp);
      PageUpMany(u, z, n - 1);
      assert n * z.rows == (n - 1) * z.rows + z.rows;
      if v.vy == 0 {
        assert (n - 1) * z.rows >= 0;
      } else if n > 1 {
        assert (n - 1) * z.rows == (n - 2) * z.rows + z.rows;
        assert (n - 2) * z.rows >= 0;
      }
    }
  }

  lemma {:induction false} PressLast(v: View, z: Size, ks: seq<Key>, k: Key)
    ensures PressAll(v, z, ks + [k]) == Press(PressAll(v, z, ks), z, k)
    decreases |ks|
  {
    if ks == [] {
      assert ([] + [k])[1..] == [];
    } else {
      assert (ks + [k])[1..] == ks[1..] + [k];
      PressLast(Press(v, z, ks[0]), z, ks[1..], k);
    }
  }

  /** Wherever a run has led, HOME leads to the first line of the first screen. */
  lemma HomeIsHome(v: View, z: Size, ks: seq<Key>)
    ensures PressAll(v, z, ks + [Home]) == View(0, 0)
  {
    PressLast(v, z, ks, Home);
  }

  /** A widget without a cursor scrolls: n times down and up move its first line by n, as far as there are
      lines below and above. */
  lemma {:induction false} ScrollMany(vy: nat, z: Size, n: nat)
    ensures PressAll(View(vy, -1), z, Repeat(Down, n)) == View(Min(vy + n, Max(vy, z.nlines - z.rows)), -1)
    ensures PressAll(View(vy, -1), z, Repeat(Up, n)) == View(Max(vy - n, 0), -1)
    decreases n
  {
    if n > 0 {
      RepeatStep(View(vy, -1), z, Down, n);
      RepeatStep(View(vy, -1), z, Up, n);
      ScrollMany(if z.nlines > vy + z.rows then vy + 1 else vy, z, n - 1);
      ScrollMany(if vy > 0 then vy - 1 else 0, z, n - 1);
    }
  }

  /** The page keys scroll it by a page or by what is left; but it remains without a cursor only on page
      down, and only if a line was left below. */
  lemma ScrollPages(vy: nat, z: Size)
    requires z.rows > 0
    ensures var d, u := Press(View(vy, -1), z, PageDown), Press(View(vy, -1), z, PageUp);
            && d.vy == vy + PageStep(View(vy, -1), z) && u.vy == Max(vy - z.rows, 0)
            && (d.crsr == -1 <==> z.nlines > vy + z.rows) && (d.crsr != -1 ==> d.crsr == z.nlines)
            && u.crsr == (if vy == 0 then 0 else -1 - (vy - u.vy)) != -1
  {
  }

  /** vy is a 32-bit unsigned number. */
  const WORD := 0x1_0000_0000

  /** scr_crsr_jmp: the cursor goes to line `l`; if that is off the screen, it becomes the last but one
      line that fits. */
  function Jump(v: View, z: Size, l: nat): View {
    var size := z.rows - 1;
    if v.vy <= l < v.vy + size then v.(crsr := l) else View((l - size) % WORD, l)
  }

  /** The jump keeps the cursor on the screen, except to a line above the screen that is on the first
      screenful: then the first visible line wraps around. */
  lemma JumpSafe(v: View, z: Size, l: nat)
    requires z.rows > 0 && l <= z.nlines && z.nlines < WORD && z.rows < WORD
    ensures Safe(Jump(v, z, l), z) <==> l >= z.rows - 1 || v.vy <= l < v.vy + z.rows - 1
  {
    var size := z.rows - 1;
    if l < size {
      assert (l - size) % WORD == l - size + WORD;
    } else {
      assert (l - size) % WORD == l - size;
    }
  }

  /** A jump within the screen moves only the cursor; to anywhere else it makes the line the last but one
      of the screen. */
  lemma JumpTo(v: View, z: Size, l: nat)
    requires z.rows > 0 && l < WORD && z.rows < WORD
    ensures var w := Jump(v, z, l);
            && w.crsr == l
            && (v.vy <= l < v.vy + z.rows - 1 ==> w.vy == v.vy)
            && (!(v.vy <= l < v.vy + z.rows - 1) && l >= z.rows - 1 ==> l == w.vy + z.rows - 1)
            && (!(v.vy <= l < v.vy + z.rows - 1) && l < z.rows - 1 ==> l + WORD == w.vy + z.rows - 1)
  {
    var size := z.rows - 1;
    if l < size {
      assert (l - size) % WORD == l - size + WORD;
    } else {
      assert (l - size) % WORD == l - size;
    }
  }

  class Widget {
    var vy: nat
    var crsr: int
    var nlines: nat
    const ysize: nat
    const y: nat

    constructor (ysize: nat, y: nat)
      requires y <= ysize
      ensures this.ysize == ysize && this.y == y && At() == View(0, 0)
    {
      this.ysize, this.y := ysize, y;
      vy, crsr, nlines := 0, 0, 0;
    }

    ghost function At(): View
      reads `vy, `crsr
    {
      View(vy, crsr)
    }

    ghost function Extent(): Size
      requires y <= ysize
      reads `nlines
    {
      Size(ysize - y, nlines)
    }

    method ToTop()
      modifies `vy, `crsr
      ensures At() == View(0, 0)
    {
      vy, crsr := 0, 0;
    }

    method Inserted(line: int)
      modifies `vy, `crsr
      ensures At() == LineInserted(old(At()), line)
    {
      if vy == 0 && crsr == 0 {
        return;
      }
      if line <= crsr {
        vy, crsr := vy + 1, crsr + 1;
      }
    }

    method Deleted(line: int)
      modifies `vy, `crsr
      ensures At() == LineDeleted(old(At()), line)
    {
      if line >= crsr {
        return;
      }
      if vy == 0 {
        crsr := crsr - 1;
      } else {
        vy, crsr := vy - 1, crsr - 1;
      }
    }

    /** s_nleft */
    function NLeft(): int
      reads `vy, `nlines
    {
      nlines - (vy + (ysize - y))
    }

    method KbdPageUp()
      requires y <= ysize
      modifies `vy, `crsr
      ensures At() == Press(old(At()), Extent(), PageUp)
    {
      var left := vy;
      var n := Min(left, ysize - y);
      if left > 0 {
        vy := vy - n;
      } else {
        crsr := 0;
        return;
      }
      crsr := crsr - n;
    }

    method KbdUp()
      requires y <= ysize
      modifies `vy, `crsr
      ensures At() == Press(old(At()), Extent(), Up)
    {
      if crsr == -1 {
        if vy > 0 {
          vy := vy - 1;
        }
        return;
      }
      if vy > 0 && crsr == vy {
        vy := vy - 1;
      }
      if crsr > 0 {
        crsr := crsr - 1;
      }
    }

    method KbdDown()
      requires y <= ysize
      modifies `vy, `crsr
      ensures At() == Press(old(At()), Extent(), Down)
    {
      var nleft := NLeft();
      if crsr == -1 {
        if nleft > 0 {
          vy := vy + 1;
        }
        return;
      }
      if crsr - vy == ysize - y {
        if nleft > 0 {
          vy := vy + 1;
        } else {
          return;
        }
      }
      if crsr < nlines {
        crsr := crsr + 1;
      }
    }

    method KbdPageDown()
      requires y <= ysize
      modifies `vy, `crsr
      ensures At() == Press(old(At()), Extent(), PageDown)
    {
      var nleft := NLeft();
      var n := Min(nleft, ysize - y);
      if nleft > 0 {
        vy := vy + n;
      } else {
        crsr := nlines;
        return;
      }
      if crsr != -1 {
        crsr := crsr + n;
      }
    }

    method KbdHome() returns (handled: bool)
      requires y <= ysize
      modifies `vy, `crsr
      ensures At() == Press(old(At()), Extent(), Home) && vy == 0 && crsr == 0
      ensures handled <==> old(At()) != View(0, 0)
    {
      if vy == 0 && crsr == 0 {
        return false;
      }
      vy := 0;
      crsr := 0;
      return true;
    }

    method CrsrJmp(l: nat)
      requires y < ysize
      modifies `vy, `crsr
      ensures At() == Jump(old(At()), Extent(), l)
    {
      var size := ysize - y - 1;
      crsr := l;
      if l >= vy && l < vy + size {
        return;
      }
      vy := (crsr - size) % WORD;
    }
  }
}
