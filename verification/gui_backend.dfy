/**
 * The ratatui backend that draws terminal cells into the KMS back buffer:
 * colour packing, the character-grid size and the cursor.
 *
 * Glyph rasterisation and alpha blending are floating point and are not
 * modelled; the cell size in pixels is a parameter. Integer arithmetic is
 * modelled as a release build performs it, with wrap-around.
 */
module GuiBackend {
  import opened Wrappers
  import Kms

  /** The colours a ratatui cell can carry. */
  datatype Color =
    | Reset | Black | Red | Green | Yellow | Blue | Magenta | Cyan | Gray | DarkGray
    | LightRed | LightGreen | LightYellow | LightBlue | LightMagenta | LightCyan | White
    | Rgb(r: bv8, g: bv8, b: bv8)
    | Indexed(index: bv8)

  /** Packs three channels as 0x00RRGGBB. */
  function Pack(r: bv8, g: bv8, b: bv8): bv32 {
    ((r as bv32) << 16) | ((g as bv32) << 8) | (b as bv32)
  }

  /** Splits a packed pixel into its red, green and blue channels. */
  function Unpack(c: bv32): (bv8, bv8, bv8) {
    (((c >> 16) & 0xFF) as bv8, ((c >> 8) & 0xFF) as bv8, (c & 0xFF) as bv8)
  }

  /** The pixel value of a colour; palette indices are drawn white. */
  function ColorToRgb(c: Color): (p: bv32)
    ensures p < 0x0100_0000
    ensures c.Reset? || c.Black? ==> p == 0
    ensures c.White? || c.Indexed? ==> p == 0x00FF_FFFF
    ensures c.Rgb? ==> Unpack(p) == (c.r, c.g, c.b)
  {
    match c
    case Reset => 0x0000_0000
    case Black => 0x0000_0000
    case Red => 0x00FF_0000
    case Green => 0x0000_FF00
    case Yellow => 0x00FF_FF00
    case Blue => 0x0000_00FF
    case Magenta => 0x00FF_00FF
    case Cyan => 0x0000_FFFF
    case Gray => 0x0080_8080
    case DarkGray => 0x0040_4040
    case LightRed => 0x00FF_8080
    case LightGreen => 0x0080_FF80
    case LightYellow => 0x00FF_FF80
    case LightBlue => 0x0080_80FF
    case LightMagenta => 0x00FF_80FF
    case LightCyan => 0x0080_FFFF
    case White => 0x00FF_FFFF
    case Rgb(r, g, b) => PackUnpack(r, g, b); Pack(r, g, b)
    case Indexed(_) => 0x00FF_FFFF
  }

  /** Unpacking a packed colour recovers its channels. */
  lemma PackUnpack(r: bv8, g: bv8, b: bv8)
    ensures Pack(r, g, b) < 0x0100_0000
    ensures Unpack(Pack(r, g, b)) == (r, g, b)
  {
  }

  /** Every pixel value of 24 bits is the packing of its own channels. */
  lemma UnpackPack(c: bv32)
    requires c < 0x0100_0000
    ensures var (r, g, b) := Unpack(c); Pack(r, g, b) == c
  {
  }

  /** Every pixel value of 24 bits is drawn by some colour. */
  lemma EveryPixelIsAColor(p: bv32)
    requires p < 0x0100_0000
    ensures var (r, g, b) := Unpack(p); ColorToRgb(Rgb(r, g, b)) == p
  {
    UnpackPack(p);
  }

  // ---------------------------------------------------------------------------
  // Grid size
  // ---------------------------------------------------------------------------

  const U16_MODULUS: nat := 0x1_0000

  /** `count` whole cells of size `cell` fit in `total`, and one more does not. */
  predicate Brackets(count: nat, cell: nat, total: nat) {
    count * cell <= total < (count + 1) * cell
  }

  /**
   * The terminal size in cells: the screen size divided by the cell size,
   * truncated to 16 bits. A cell size of zero divides by zero and aborts.
   */
  function Size(width: Kms.u32, height: Kms.u32, charWidth: Kms.u32, charHeight: Kms.u32): (r: Option<(nat, nat)>)
    ensures r.None? <==> charWidth == 0 || charHeight == 0
    ensures r.Some? ==> r.value.0 < U16_MODULUS && r.value.1 < U16_MODULUS
    ensures r.Some? ==> Truncates(width as nat, charWidth as nat, r.value.0)
    ensures r.Some? ==> Truncates(height as nat, charHeight as nat, r.value.1)
  {
    if charWidth == 0 || charHeight == 0 then None
    else Some((CellCount(width as nat, charWidth as nat), CellCount(height as nat, charHeight as nat)))
  }

  /**
   * `count` is the number of whole cells that fit, whenever that number
   * fits in 16 bits; otherwise it is that number's low 16 bits.
   */
  ghost predicate Truncates(total: nat, cell: nat, count: nat) {
    exists whole: nat ::
      Brackets(whole, cell, total) && count == whole % U16_MODULUS
  }

  /** The number of whole cells in `total`, truncated to 16 bits. */
  function CellCount(total: nat, cell: nat): (r: nat)
    requires cell > 0
    ensures r < U16_MODULUS && Truncates(total, cell, r)
  {
    DivBounds(total, cell);
    (total / cell) % U16_MODULUS
  }

  /** Floor division brackets its dividend. */
  lemma DivBounds(n: nat, d: nat)
    requires d > 0
    ensures Brackets(n / d, d, n)
  {
  }

  /** At most one count brackets a total, so the untruncated count is determined. */
  lemma BracketsUnique(a: nat, b: nat, cell: nat, total: nat)
    requires Brackets(a, cell, total) && Brackets(b, cell, total)
    ensures a == b
  {
    if a < b {
      MulMono(a + 1, b, cell);
    } else if b < a {
      MulMono(b + 1, a, cell);
    }
  }

  lemma MulMono(a: nat, c: nat, w: nat)
    requires a <= c
    ensures a * w <= c * w
  {
  }

  // ---------------------------------------------------------------------------
  // Pixel arithmetic
  // ---------------------------------------------------------------------------

  const I32_MODULUS: int := 0x1_0000_0000
  const I32_MAX: int := 0x7FFF_FFFF

  /** The signed 32-bit value with the same low 32 bits. */
  function WrapI32(v: int): (r: int)
    ensures -I32_MAX - 1 <= r <= I32_MAX
    ensures -I32_MAX - 1 <= v <= I32_MAX ==> r == v
  {
    (v + I32_MAX + 1) % I32_MODULUS - I32_MAX - 1
  }

  /** Reinterprets a signed 32-bit value as unsigned. */
  function AsU32(v: int): (r: Kms.u32)
    ensures 0 <= v < I32_MODULUS ==> r as int == v
  {
    (v % I32_MODULUS) as Kms.u32
  }

  /** The pixel at column `dx`, row `dy` of the cell whose corner is (`px`, `py`). */
  function CellPixel(px: int, py: int, dx: int, dy: int): (Kms.u32, Kms.u32) {
    (AsU32(WrapI32(px + WrapI32(dx))), AsU32(WrapI32(py + WrapI32(dy))))
  }

  /** One pixel row of a cell, left to right. */
  function RowPixels(px: int, py: int, dy: nat, charWidth: nat): (r: seq<(Kms.u32, Kms.u32)>)
    ensures |r| == charWidth
  {
    seq(charWidth, dx => CellPixel(px, py, dx, dy))
  }

  /** The bottom four pixel rows of a cell at least four pixels high, row by row. */
  function Bar(px: int, py: int, cw: nat, ch: nat): (r: seq<(Kms.u32, Kms.u32)>)
    requires ch >= 4
    ensures |r| == 4 * cw
  {
    RowPixels(px, py, ch - 4, cw) + RowPixels(px, py, ch - 3, cw)
      + RowPixels(px, py, ch - 2, cw) + RowPixels(px, py, ch - 1, cw)
  }

  /**
   * The pixels of the cursor bar of cell (`x`, `y`). With a cell lower than
   * four pixels the row range starts past its end and nothing is drawn.
   */
  function CursorPixels(x: nat, y: nat, charWidth: Kms.u32, charHeight: Kms.u32): (r: seq<(Kms.u32, Kms.u32)>)
    ensures |r| == if charHeight >= 4 then 4 * charWidth as int else 0
  {
    var cw := charWidth as nat;
    var ch := charHeight as nat;
    if ch < 4 then []
    else Bar(WrapI32(x * WrapI32(cw)), WrapI32(y * WrapI32(ch)), cw, ch)
  }

  /** Some pixel of `ps` is at (`px`, `py`). */
  ghost predicate Covers(ps: seq<(Kms.u32, Kms.u32)>, px: int, py: int) {
    exists k :: 0 <= k < |ps| && ps[k].0 as int == px && ps[k].1 as int == py
  }

  lemma CoversConcat(a: seq<(Kms.u32, Kms.u32)>, b: seq<(Kms.u32, Kms.u32)>, px: int, py: int)
    requires Covers(a, px, py) || Covers(b, px, py)
    ensures Covers(a + b, px, py)
  {
    if Covers(a, px, py) {
      var k :| 0 <= k < |a| && a[k].0 as int == px && a[k].1 as int == py;
      assert (a + b)[k] == a[k];
    } else {
      var k :| 0 <= k < |b| && b[k].0 as int == px && b[k].1 as int == py;
      assert (a + b)[|a| + k] == b[k];
    }
  }

  /** Every pixel of `ps` lies in columns `x0` to `x1 - 1` and rows `y0` to `y1 - 1`. */
  predicate Within(ps: seq<(Kms.u32, Kms.u32)>, x0: int, x1: int, y0: int, y1: int) {
    forall k :: 0 <= k < |ps| ==> x0 <= ps[k].0 as int < x1 && y0 <= ps[k].1 as int < y1
  }

  /** Without overflow a pixel row reaches every column of the cell on that row. */
  lemma RowCovers(px: nat, py: nat, dy: nat, cw: nat, qy: int)
    requires px + cw <= I32_MAX && qy == py + dy <= I32_MAX
    ensures forall qx :: px <= qx < px + cw ==> Covers(RowPixels(px, py, dy, cw), qx, qy)
  {
    var ps := RowPixels(px, py, dy, cw);
    forall qx | px <= qx < px + cw
      ensures Covers(ps, qx, qy)
    {
      assert ps[qx - px].0 as int == qx;
    }
  }

  /** Without overflow every pixel of the bar lies in the cell's columns on its bottom four rows. */
  lemma BarWithin(px: nat, py: nat, cw: nat, ch: nat)
    requires ch >= 4 && px + cw <= I32_MAX && py + ch <= I32_MAX
    ensures Within(Bar(px, py, cw, ch), px, px + cw, py + ch - 4, py + ch)
  {
    var y0 := py + ch - 4;
    var r0, r1, r2, r3 := RowPixels(px, py, ch - 4, cw), RowPixels(px, py, ch - 3, cw),
                          RowPixels(px, py, ch - 2, cw), RowPixels(px, py, ch - 1, cw);
    var bar := Bar(px, py, cw, ch);
    assert bar == r0 + r1 + r2 + r3;
    forall k | 0 <= k < |bar|
      ensures px <= bar[k].0 as int < px + cw && y0 <= bar[k].1 as int < y0 + 4
    {
      if k < cw {
        assert bar[k] == r0[k];
      } else if k < 2 * cw {
        assert bar[k] == r1[k - cw];
      } else if k < 3 * cw {
        assert bar[k] == r2[k - 2 * cw];
      } else {
        assert bar[k] == r3[k - 3 * cw];
      }
    }
  }

  /** Without overflow the bar reaches the pixel (`qx`, `qy`) of the cell's bottom four rows. */
  lemma BarCoversPoint(px: nat, py: nat, cw: nat, ch: nat, qx: int, qy: int)
    requires ch >= 4 && px + cw <= I32_MAX && py + ch <= I32_MAX
    requires px <= qx < px + cw && py + ch - 4 <= qy < py + ch
    ensures Covers(Bar(px, py, cw, ch), qx, qy)
  {
    var r0, r1, r2, r3 := RowPixels(px, py, ch - 4, cw), RowPixels(px, py, ch - 3, cw),
                          RowPixels(px, py, ch - 2, cw), RowPixels(px, py, ch - 1, cw);
    var dy := qy - py;
    RowCovers(px, py, dy, cw, qy);
    if dy == ch - 4 {
      CoversConcat(r0, r1, qx, qy);
      CoversConcat(r0 + r1, r2, qx, qy);
    } else if dy == ch - 3 {
      CoversConcat(r0, r1, qx, qy);
      CoversConcat(r0 + r1, r2, qx, qy);
    } else if dy == ch - 2 {
      CoversConcat(r0 + r1, r2, qx, qy);
    }
    CoversConcat(r0 + r1 + r2, r3, qx, qy);
  }

  /** Without overflow the bar is exactly the cell's columns on its bottom four rows. */
  lemma BarExact(px: nat, py: nat, cw: nat, ch: nat)
    requires ch >= 4 && px + cw <= I32_MAX && py + ch <= I32_MAX
    ensures Within(Bar(px, py, cw, ch), px, px + cw, py + ch - 4, py + ch)
    ensures forall qx, qy :: px <= qx < px + cw && py + ch - 4 <= qy < py + ch ==> Covers(Bar(px, py, cw, ch), qx, qy)
  {
    BarWithin(px, py, cw, ch);
    forall qx, qy | px <= qx < px + cw && py + ch - 4 <= qy < py + ch
      ensures Covers(Bar(px, py, cw, ch), qx, qy)
    {
      BarCoversPoint(px, py, cw, ch, qx, qy);
    }
  }

  /**
   * When no coordinate overflows, the cursor bar of cell (`x`, `y`) is
   * exactly the pixels of the cell's columns on its bottom four rows.
   */
  lemma CursorBarCovers(x: nat, y: nat, charWidth: Kms.u32, charHeight: Kms.u32)
    requires 4 <= charHeight
    requires x * charWidth as int + charWidth as int <= I32_MAX
    requires y * charHeight as int + charHeight as int <= I32_MAX
    ensures var ps := CursorPixels(x, y, charWidth, charHeight);
      var px, py := x * charWidth as int, y * charHeight as int;
      && Within(ps, px, px + charWidth as int, py + charHeight as int - 4, py + charHeight as int)
      && (forall qx, qy :: px <= qx < px + charWidth as int && py + charHeight as int - 4 <= qy < py + charHeight as int ==>
            Covers(ps, qx, qy))
  {
    var cw, ch := charWidth as nat, charHeight as nat;
    var px, py := x * cw, y * ch;
    MulMono(0, x, cw);
    MulMono(0, y, ch);
    assert 0 <= px <= I32_MAX && 0 <= py <= I32_MAX;
    assert CursorPixels(x, y, charWidth, charHeight) == Bar(px, py, cw, ch) by {
      assert WrapI32(cw) == cw && WrapI32(ch) == ch;
      assert WrapI32(px) == px && WrapI32(py) == py;
    }
    BarExact(px, py, cw, ch);
  }

  // ---------------------------------------------------------------------------
  // Drawing and the cursor
  // ---------------------------------------------------------------------------

  const WHITE: Kms.u32 := 0x00FF_FFFF

  /** Sets each listed pixel in turn; off-screen pixels are skipped by `SetPixel`. */
  function PaintAll(b: Kms.BackBuffer, ps: seq<(Kms.u32, Kms.u32)>, color: Kms.u32): (r: Kms.BackBuffer)
    ensures r.width == b.width && r.height == b.height && |r.pixels| == |b.pixels|
  {
    if ps == [] then b
    else
      var last := ps[|ps| - 1];
      Kms.SetPixel(PaintAll(b, ps[..|ps| - 1], color), last.0, last.1, color)
  }

  /** Painting sets exactly the on-screen cells some listed pixel names. */
  lemma {:induction false} PaintAllEffect(b: Kms.BackBuffer, ps: seq<(Kms.u32, Kms.u32)>, color: Kms.u32)
    requires Kms.Valid(b)
    ensures var r := PaintAll(b, ps, color);
      forall row, col :: 0 <= row < b.height && 0 <= col < b.width ==>
        r.pixels[Kms.Index(b.width, b.height, row, col)] ==
          if Covers(ps, col, row) then color else b.pixels[Kms.Index(b.width, b.height, row, col)]
  {
    if ps != [] {
      var init := ps[..|ps| - 1];
      var last := ps[|ps| - 1];
      PaintAllEffect(b, init, color);
      var mid := PaintAll(b, init, color);
      forall row, col | 0 <= row < b.height && 0 <= col < b.width
        ensures PaintAll(b, ps, color).pixels[Kms.Index(b.width, b.height, row, col)] ==
          if Covers(ps, col, row) then color else b.pixels[Kms.Index(b.width, b.height, row, col)]
      {
        PaintOneCell(mid, last, color, row, col);
        CoversSnoc(init, last, col, row);
      }
    }
  }

  /** Setting one pixel changes the cell it names, if it is on screen, and no other. */
  lemma PaintOneCell(b: Kms.BackBuffer, last: (Kms.u32, Kms.u32), color: Kms.u32, row: nat, col: nat)
    requires Kms.Valid(b) && row < b.height && col < b.width
    ensures var i := Kms.Index(b.width, b.height, row, col);
      Kms.SetPixel(b, last.0, last.1, color).pixels[i] ==
        if last.0 as int == col && last.1 as int == row then color else b.pixels[i]
  {
    var i := Kms.Index(b.width, b.height, row, col);
    if last.0 as int < b.width && last.1 as int < b.height {
      Kms.OnScreenPixelHasCell(b, last.0 as nat, last.1 as nat);
      if (last.0 as int != col || last.1 as int != row) && i == Kms.Index(b.width, b.height, last.1 as nat, last.0 as nat) {
        Kms.IndexInjective(b.width, b.height, row, col, last.1 as nat, last.0 as nat);
      }
    }
  }

  lemma CoversSnoc(init: seq<(Kms.u32, Kms.u32)>, last: (Kms.u32, Kms.u32), px: int, py: int)
    ensures Covers(init + [last], px, py) <==> Covers(init, px, py) || (last.0 as int == px && last.1 as int == py)
  {
    var ps := init + [last];
    if Covers(ps, px, py) {
      var k :| 0 <= k < |ps| && ps[k].0 as int == px && ps[k].1 as int == py;
      if k < |init| {
        assert init[k] == ps[k];
      }
    }
    if last.0 as int == px && last.1 as int == py {
      assert ps[|init|] == last;
    }
    if Covers(init, px, py) {
      var k :| 0 <= k < |init| && init[k].0 as int == px && init[k].1 as int == py;
      assert ps[k] == init[k];
    }
  }

  /** The drawing state of the backend: the back buffer, the cursor and the cell size. */
  datatype Screen = Screen(back: Kms.BackBuffer, cursor: Option<(Kms.u16, Kms.u16)>, charWidth: Kms.u32, charHeight: Kms.u32)

  /** A fresh backend has no cursor position. */
  function NewScreen(back: Kms.BackBuffer, charWidth: Kms.u32, charHeight: Kms.u32): (s: Screen)
    ensures s.cursor.None? && s.back == back
    ensures s.charWidth == charWidth && s.charHeight == charHeight
  {
    Screen(back, None, charWidth, charHeight)
  }

  /** Records the cursor position and draws its white bar into the back buffer. */
  function SetCursor(s: Screen, x: Kms.u16, y: Kms.u16): (r: Screen)
    ensures r.cursor == Some((x, y)) && r.charWidth == s.charWidth && r.charHeight == s.charHeight
    ensures r.back.width == s.back.width && r.back.height == s.back.height && |r.back.pixels| == |s.back.pixels|
  {
    var bar := CursorPixels(x as nat, y as nat, s.charWidth, s.charHeight);
    s.(cursor := Some((x, y)), back := PaintAll(s.back, bar, WHITE))
  }

  /** Forgets the cursor position; the bar already drawn stays in the buffer. */
  function HideCursor(s: Screen): (r: Screen)
    ensures r.cursor.None? && r.back == s.back
  {
    s.(cursor := None)
  }

  /** The last position set, or the origin when there is none. */
  function GetCursor(s: Screen): (r: (Kms.u16, Kms.u16))
    ensures s.cursor.Some? ==> r == s.cursor.value
    ensures s.cursor.None? ==> r == (0, 0)
  {
    s.cursor.GetOr((0, 0))
  }

  /** Clears the back buffer to black. */
  function Clear(s: Screen): (r: Screen)
    ensures r.cursor == s.cursor
    ensures forall i :: 0 <= i < |r.back.pixels| ==> r.back.pixels[i] == 0
  {
    s.(back := Kms.FillScreen(s.back, 0))
  }

  /** Reading the cursor returns the last position set, the origin after hiding, and the origin at first. */
  lemma CursorRoundTrip(s: Screen, x: Kms.u16, y: Kms.u16, back: Kms.BackBuffer, cw: Kms.u32, ch: Kms.u32)
    ensures GetCursor(SetCursor(s, x, y)) == (x, y)
    ensures GetCursor(HideCursor(s)) == (0, 0)
    ensures GetCursor(NewScreen(back, cw, ch)) == (0, 0)
    ensures GetCursor(HideCursor(SetCursor(s, x, y))) == (0, 0)
  {
  }

  /**
   * When no coordinate overflows, setting the cursor paints white exactly
   * the on-screen pixels of the bottom four rows of the cell, and leaves
   * every other pixel as it was.
   */
  lemma SetCursorPaintsBar(s: Screen, x: Kms.u16, y: Kms.u16)
    requires Kms.Valid(s.back) && 4 <= s.charHeight
    requires x as int * s.charWidth as int + s.charWidth as int <= I32_MAX
    requires y as int * s.charHeight as int + s.charHeight as int <= I32_MAX
    ensures var b, r := s.back, SetCursor(s, x, y).back;
      var px, py := x as int * s.charWidth as int, y as int * s.charHeight as int;
      forall row, col :: 0 <= row < b.height && 0 <= col < b.width ==>
        r.pixels[Kms.Index(b.width, b.height, row, col)] ==
          if px <= col < px + s.charWidth as int && py + s.charHeight as int - 4 <= row < py + s.charHeight as int
          then WHITE
          else b.pixels[Kms.Index(b.width, b.height, row, col)]
  {
    var bar := CursorPixels(x as nat, y as nat, s.charWidth, s.charHeight);
    CursorBarCovers(x as nat, y as nat, s.charWidth, s.charHeight);
    PaintAllEffect(s.back, bar, WHITE);
    var px, py := x as int * s.charWidth as int, y as int * s.charHeight as int;
    forall row, col | 0 <= row < s.back.height && 0 <= col < s.back.width && Covers(bar, col, row)
      ensures px <= col < px + s.charWidth as int && py + s.charHeight as int - 4 <= row < py + s.charHeight as int
    {
      var k :| 0 <= k < |bar| && bar[k].0 as int == col && bar[k].1 as int == row;
    }
  }
}
