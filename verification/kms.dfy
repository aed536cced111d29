/**
 * The kernel mode-setting backend: choosing a DRM card, connector, mode,
 * encoder and CRTC, and drawing into the back buffer that is later copied
 * to the mapped scanout buffer.
 *
 * Every DRM call, `open` and `mmap` is an oracle answer; the copy to the
 * mapping and the dirty-rectangle ioctl are outside the model.
 */
module Kms {
  import opened Wrappers

  /** An unsigned 32-bit value. */
  newtype u32 = x: int | 0 <= x < 0x1_0000_0000

  /** An unsigned 16-bit value, the width of a mode's dimensions. */
  newtype u16 = x: int | 0 <= x < 0x1_0000

  const U32_MODULUS: int := 0x1_0000_0000

  /** Unsigned 32-bit addition as a release build performs it: modulo 2^32. */
  function WrappingAdd(a: u32, b: u32): (r: u32)
    ensures a as int + b as int < U32_MODULUS ==> r as int == a as int + b as int
    ensures a as int + b as int >= U32_MODULUS ==> r as int == a as int + b as int - U32_MODULUS && r < a
  {
    ((a as int + b as int) % U32_MODULUS) as u32
  }

  function Min(a: int, b: int): int {
    if a < b then a else b
  }

  datatype KmsError =
    | OpenDevice
    | ModeSet(errno: int)
    | NoConnector
    | NoEncoder
    | NoCrtc
    | DumbBufferCreate(errno: int)
    | DumbBufferMap(errno: int)
    | Framebuffer(errno: int)
    | Mmap(errno: int)

  const EINVAL: int := 22

  /** The number of DRM card nodes tried, card0 to card9. */
  const CARD_COUNT: nat := 10

  // ---------------------------------------------------------------------------
  // Device selection
  // ---------------------------------------------------------------------------

  /**
   * The first card node, in the order card0 to card9, that opens for
   * reading and writing; `opens[i]` is the answer for card `i`.
   */
  function OpenCard(opens: seq<bool>): (r: Result<nat, KmsError>)
    requires |opens| == CARD_COUNT
    ensures r.Ok? ==> r.value < CARD_COUNT && opens[r.value] && forall j :: 0 <= j < r.value ==> !opens[j]
    ensures r.Err? <==> forall j :: 0 <= j < CARD_COUNT ==> !opens[j]
    ensures r.Err? ==> r.error == OpenDevice
  {
    FirstTrue(opens, 0)
  }

  function FirstTrue(opens: seq<bool>, from: nat): (r: Result<nat, KmsError>)
    requires from <= |opens|
    ensures r.Ok? ==> from <= r.value < |opens| && opens[r.value] && forall j :: from <= j < r.value ==> !opens[j]
    ensures r.Err? <==> forall j :: from <= j < |opens| ==> !opens[j]
    ensures r.Err? ==> r.error == OpenDevice
    decreases |opens| - from
  {
    if from == |opens| then Err(OpenDevice)
    else if opens[from] then Ok(from)
    else FirstTrue(opens, from + 1)
  }

  /** A display mode; only the preferred flag and the size matter here. */
  datatype Mode = Mode(preferred: bool, width: u16, height: u16)

  /** What reading a connector yields: nothing, or its state, modes and encoders. */
  datatype ConnectorProbe =
    | Unreadable
    | Readable(connected: bool, modes: seq<Mode>, currentEncoder: Option<nat>, encoders: seq<nat>)

  predicate Usable(c: ConnectorProbe) {
    c.Readable? && c.connected
  }

  /** The first connector that can be read and is connected. */
  function SelectConnector(cs: seq<ConnectorProbe>): (r: Option<nat>)
    ensures r.Some? ==> r.value < |cs| && Usable(cs[r.value]) && forall j :: 0 <= j < r.value ==> !Usable(cs[j])
    ensures r.None? <==> forall j :: 0 <= j < |cs| ==> !Usable(cs[j])
  {
    if cs == [] then None
    else if Usable(cs[0]) then Some(0)
    else
      var r := SelectConnector(cs[1..]);
      if r.Some? then Some(r.value + 1) else None
  }

  /** The first preferred mode, else the first mode, else EINVAL. */
  function SelectMode(modes: seq<Mode>): (r: Result<nat, KmsError>)
    ensures r.Err? <==> modes == []
    ensures r.Err? ==> r.error == ModeSet(EINVAL)
    ensures r.Ok? ==> r.value < |modes|
    ensures r.Ok? && modes[r.value].preferred ==> forall j :: 0 <= j < r.value ==> !modes[j].preferred
    ensures r.Ok? && !modes[r.value].preferred ==> r.value == 0 && forall j :: 0 <= j < |modes| ==> !modes[j].preferred
    ensures (exists j :: 0 <= j < |modes| && modes[j].preferred) ==> r.Ok? && modes[r.value].preferred
  {
    var p := FirstPreferred(modes);
    if p.Some? then Ok(p.value)
    else if modes != [] then Ok(0)
    else Err(ModeSet(EINVAL))
  }

  function FirstPreferred(modes: seq<Mode>): (r: Option<nat>)
    ensures r.Some? ==> r.value < |modes| && modes[r.value].preferred && forall j :: 0 <= j < r.value ==> !modes[j].preferred
    ensures r.None? <==> forall j :: 0 <= j < |modes| ==> !modes[j].preferred
  {
    if modes == [] then None
    else if modes[0].preferred then Some(0)
    else
      var r := FirstPreferred(modes[1..]);
      if r.Some? then Some(r.value + 1) else None
  }

  /** What the card says about an encoder: unreadable, or readable with its current CRTC, if any. */
  datatype EncoderProbe = EncoderUnreadable | EncoderInfo(crtc: Option<nat>)

  /**
   * The encoder and CRTC to drive: the connector's current encoder with its
   * CRTC if both exist; otherwise the first readable encoder of the connector
   * with the first CRTC of the card; otherwise NoCrtc.
   */
  function FindEncoderCrtc(current: Option<nat>, probe: map<nat, EncoderProbe>, encoders: seq<nat>, crtcs: seq<nat>)
    : (r: Result<(nat, nat), KmsError>)
    ensures var cur := current.Some? && current.value in probe && probe[current.value].EncoderInfo?
                       && probe[current.value].crtc.Some?;
      && (cur ==> r == Ok((current.value, probe[current.value].crtc.value)))
      && (!cur && crtcs != [] ==> (r.Ok? <==> exists j :: 0 <= j < |encoders| && Readable(probe, encoders[j])))
      && (!cur && crtcs != [] && r.Ok? ==> r.value.1 == crtcs[0] && r.value.0 in encoders && Readable(probe, r.value.0))
      && (!cur && crtcs == [] ==> r == Err(NoCrtc))
    ensures r.Err? ==> r.error == NoCrtc
  {
    if current.Some? && current.value in probe && probe[current.value].EncoderInfo? && probe[current.value].crtc.Some? then
      Ok((current.value, probe[current.value].crtc.value))
    else
      match FirstReadable(probe, encoders)
      case None => Err(NoCrtc)
      case Some(i) => if crtcs == [] then Err(NoCrtc) else Ok((encoders[i], crtcs[0]))
  }

  /** An encoder the card can describe; handles it does not know count as unreadable. */
  predicate Readable(probe: map<nat, EncoderProbe>, e: nat) {
    e in probe && probe[e].EncoderInfo?
  }

  function FirstReadable(probe: map<nat, EncoderProbe>, encoders: seq<nat>): (r: Option<nat>)
    ensures r.Some? ==>
      r.value < |encoders| && Readable(probe, encoders[r.value]) && forall j :: 0 <= j < r.value ==> !Readable(probe, encoders[j])
    ensures r.None? <==> forall j :: 0 <= j < |encoders| ==> !Readable(probe, encoders[j])
  {
    if encoders == [] then None
    else if Readable(probe, encoders[0]) then Some(0)
    else
      var r := FirstReadable(probe, encoders[1..]);
      if r.Some? then Some(r.value + 1) else None
  }

  // ---------------------------------------------------------------------------
  // The back buffer
  // ---------------------------------------------------------------------------

  /** The drawing state: the mode's size and one 32-bit pixel per cell, row by row. */
  datatype BackBuffer = BackBuffer(width: nat, height: nat, pixels: seq<u32>)

  /** The invariant set up at construction: one pixel per cell. */
  predicate Valid(b: BackBuffer) {
    |b.pixels| == b.width * b.height
  }

  /** The buffer created with the backend: all pixels zero. */
  function NewBackBuffer(width: nat, height: nat): (b: BackBuffer)
    ensures Valid(b) && b.width == width && b.height == height
    ensures forall i :: 0 <= i < |b.pixels| ==> b.pixels[i] == 0
  {
    BackBuffer(width, height, seq(width * height, _ => 0))
  }

  /** Sets every pixel to one colour. */
  function FillScreen(b: BackBuffer, color: u32): (r: BackBuffer)
    ensures r.width == b.width && r.height == b.height && |r.pixels| == |b.pixels|
    ensures forall i :: 0 <= i < |r.pixels| ==> r.pixels[i] == color
  {
    b.(pixels := seq(|b.pixels|, _ => color))
  }

  /** Sets one pixel if it is on screen and inside the buffer; otherwise nothing changes. */
  function SetPixel(b: BackBuffer, x: u32, y: u32, color: u32): (r: BackBuffer)
    ensures r.width == b.width && r.height == b.height && |r.pixels| == |b.pixels|
    ensures (x as int >= b.width || y as int >= b.height) ==> r == b
    ensures x as int < b.width && y as int < b.height && y as int * b.width + x as int < |b.pixels| ==>
      r.pixels == b.pixels[y as int * b.width + x as int := color]
  {
    if x as int >= b.width || y as int >= b.height then b
    else
      var offset := y as int * b.width + x as int;
      if offset < |b.pixels| then b.(pixels := b.pixels[offset := color]) else b
  }

  lemma MulMono(a: nat, c: nat, w: nat)
    requires a <= c
    ensures a * w <= c * w
  {
  }

  /** On a valid buffer the second bounds check never fails: every on-screen pixel has a cell. */
  lemma OnScreenPixelHasCell(b: BackBuffer, x: nat, y: nat)
    requires Valid(b) && x < b.width && y < b.height
    ensures y * b.width + x < |b.pixels|
  {
    MulMono(y + 1, b.height, b.width);
  }

  /** The offset of the cell at row `row`, column `col` in a buffer `w` cells wide. */
  function Index(w: nat, hgt: nat, row: nat, col: nat): (i: nat)
    requires row < hgt && col < w
    ensures i < w * hgt
  {
    MulMono(row + 1, hgt, w);
    row * w + col
  }

  /** Distinct cells have distinct offsets. */
  lemma IndexInjective(w: nat, hgt: nat, r1: nat, c1: nat, r2: nat, c2: nat)
    requires r1 < hgt && r2 < hgt && c1 < w && c2 < w
    requires Index(w, hgt, r1, c1) == Index(w, hgt, r2, c2)
    ensures r1 == r2 && c1 == c2
  {
    if r1 < r2 {
      MulMono(r1 + 1, r2, w);
    } else if r2 < r1 {
      MulMono(r2 + 1, r1, w);
    }
  }

  /** The clamped bounds of a rectangle, with the source's 32-bit end arithmetic. */
  function RectBounds(b: BackBuffer, x: u32, y: u32, w: u32, h: u32): (r: (nat, nat, nat, nat))
    ensures r.0 <= b.width && r.1 <= b.width && r.2 <= b.height && r.3 <= b.height
  {
    (Min(x as int, b.width) as nat, Min(WrappingAdd(x, w) as int, b.width) as nat,
     Min(y as int, b.height) as nat, Min(WrappingAdd(y, h) as int, b.height) as nat)
  }

  /** Whether the cell at row `row`, column `col` lies in the clamped rectangle. */
  predicate InRect(bounds: (nat, nat, nat, nat), row: nat, col: nat) {
    bounds.0 <= col < bounds.1 && bounds.2 <= row < bounds.3
  }

  /** Fills `count` pixels from `start` with one colour. */
  function FillRun(pixels: seq<u32>, start: nat, count: nat, color: u32): (r: seq<u32>)
    requires start + count <= |pixels|
    ensures |r| == |pixels|
    ensures forall i :: 0 <= i < |r| ==> r[i] == if start <= i < start + count then color else pixels[i]
  {
    pixels[..start] + seq(count, _ => color) + pixels[start + count..]
  }

  /** Filling columns `sx` to `ex` of one row changes exactly those cells of that row. */
  lemma {:induction false} FillRowCells(p: seq<u32>, w: nat, hgt: nat, row: nat, sx: nat, ex: nat, color: u32)
    requires |p| == w * hgt && row < hgt && sx < ex <= w
    ensures Index(w, hgt, row, sx) + (ex - sx) <= |p|
    ensures var q := FillRun(p, Index(w, hgt, row, sx), ex - sx, color);
      forall r0, c0 :: 0 <= r0 < hgt && 0 <= c0 < w ==>
        q[Index(w, hgt, r0, c0)] == if r0 == row && sx <= c0 < ex then color else p[Index(w, hgt, r0, c0)]
  {
    assert Index(w, hgt, row, ex - 1) < |p|;
    var start := Index(w, hgt, row, sx);
    var q := FillRun(p, start, ex - sx, color);
    forall r0, c0 | 0 <= r0 < hgt && 0 <= c0 < w
      ensures q[Index(w, hgt, r0, c0)] == if r0 == row && sx <= c0 < ex then color else p[Index(w, hgt, r0, c0)]
    {
      var i := Index(w, hgt, r0, c0);
      if start <= i < start + (ex - sx) {
        IndexInjective(w, hgt, r0, c0, row, sx + (i - start));
      }
    }
  }

  /**
   * Fills the rectangle clamped to the screen. The right and bottom edges
   * are computed with 32-bit wrap-around, as a release build does.
   */
  method FillRect(b: BackBuffer, x: u32, y: u32, w: u32, h: u32, color: u32) returns (r: BackBuffer)
    requires Valid(b)
    ensures Valid(r) && r.width == b.width && r.height == b.height
    ensures var bounds := RectBounds(b, x, y, w, h);
      forall row, col :: 0 <= row < b.height && 0 <= col < b.width ==>
        r.pixels[Index(b.width, b.height, row, col)] ==
          if InRect(bounds, row, col) then color else b.pixels[Index(b.width, b.height, row, col)]
    ensures var bounds := RectBounds(b, x, y, w, h);
      bounds.0 >= bounds.1 || bounds.2 >= bounds.3 ==> r == b
    ensures x == 0 && y == 0 && w as int >= b.width && h as int >= b.height ==> r == FillScreen(b, color)
  {
    var (sx, ex, sy, ey) := RectBounds(b, x, y, w, h);
    if sx >= ex || sy >= ey {
      return b;
    }
    var pixels := b.pixels;
    var row := sy;
    while row < ey
      invariant sy <= row <= ey
      invariant |pixels| == |b.pixels|
      invariant forall r0, c0 :: 0 <= r0 < b.height && 0 <= c0 < b.width ==>
        pixels[Index(b.width, b.height, r0, c0)] ==
          if sx <= c0 < ex && sy <= r0 < row then color else b.pixels[Index(b.width, b.height, r0, c0)]
    {
      FillRowCells(pixels, b.width, b.height, row, sx, ex, color);
      pixels := FillRun(pixels, Index(b.width, b.height, row, sx), ex - sx, color);
      row := row + 1;
    }
    r := b.(pixels := pixels);
    if x == 0 && y == 0 && w as int >= b.width && h as int >= b.height {
      EveryCellCovered(b, pixels, color);
    }
  }

  /** A buffer whose every screen cell holds one colour is that colour throughout. */
  lemma EveryCellCovered(b: BackBuffer, p: seq<u32>, color: u32)
    requires Valid(b) && |p| == |b.pixels|
    requires forall row, col :: 0 <= row < b.height && 0 <= col < b.width ==> p[Index(b.width, b.height, row, col)] == color
    ensures p == FillScreen(b, color).pixels
  {
    forall i | 0 <= i < |p|
      ensures p[i] == color
    {
      var row, col := CellOf(b.width, b.height, i);
      assert p[Index(b.width, b.height, row, col)] == color;
    }
  }

  /** Every offset of the buffer is the offset of some screen cell. */
  lemma CellOf(w: nat, hgt: nat, i: nat) returns (row: nat, col: nat)
    requires i < w * hgt
    ensures row < hgt && col < w && Index(w, hgt, row, col) == i
  {
    row, col := i / w, i % w;
    if row >= hgt {
      MulMono(hgt, row, w);
    }
  }

  // ---------------------------------------------------------------------------
  // Construction
  // ---------------------------------------------------------------------------

  /** The answers of the DRM device, in the order `new` asks for them. */
  datatype KmsOracle = KmsOracle(
    cardOpens: seq<bool>,
    resources: Outcome<int>,
    connectors: seq<ConnectorProbe>,
    encoderProbe: map<nat, EncoderProbe>,
    crtcs: seq<nat>,
    dumbBuffer: Result<u32, int>,
    framebuffer: Outcome<int>,
    mapDumb: Outcome<int>,
    mmap: Outcome<int>,
    setCrtc: Outcome<int>)

  /** The backend after construction: the chosen devices and the cleared back buffer. */
  datatype Backend = Backend(card: nat, connector: nat, mode: Mode, encoder: nat, crtc: nat, mapSize: u32, back: BackBuffer)

  /** `new` returns an error or the backend; a mapping of size zero aborts the process. */
  datatype NewOutcome = Built(backend: Backend) | Failed(error: KmsError) | Panicked

  /**
   * The mapping size: the pitch times the height, multiplied as a `u32` in a
   * release build, so a product of 2^32 or more wraps.
   */
  function MapSize(height: nat, pitch: u32): (r: u32)
    ensures height * pitch as int < U32_MODULUS ==> r as int == height * pitch as int
    ensures height == 0 || pitch == 0 ==> r == 0
    ensures r == 0 ==> height == 0 || pitch == 0 || height * pitch as int >= U32_MODULUS
  {
    ((height * pitch as int) % U32_MODULUS) as u32
  }

  /** The card opened, its resources were read, and some connector is usable. */
  predicate CardReady(o: KmsOracle)
    requires |o.cardOpens| == CARD_COUNT
  {
    OpenCard(o.cardOpens).Ok? && o.resources.Pass? && SelectConnector(o.connectors).Some?
  }

  /** The connector `new` drives. */
  function Chosen(o: KmsOracle): ConnectorProbe
    requires |o.cardOpens| == CARD_COUNT && CardReady(o)
  {
    o.connectors[SelectConnector(o.connectors).value]
  }

  /** Card, connector, mode, encoder and CRTC were all found. */
  predicate Selected(o: KmsOracle)
    requires |o.cardOpens| == CARD_COUNT
  {
    && CardReady(o)
    && SelectMode(Chosen(o).modes).Ok?
    && FindEncoderCrtc(Chosen(o).currentEncoder, o.encoderProbe, Chosen(o).encoders, o.crtcs).Ok?
  }

  /** The mode `new` sets. */
  function ChosenMode(o: KmsOracle): Mode
    requires |o.cardOpens| == CARD_COUNT && Selected(o)
  {
    Chosen(o).modes[SelectMode(Chosen(o).modes).value]
  }

  /** The dumb buffer was created, wrapped in a framebuffer and prepared for mapping. */
  predicate BuffersReady(o: KmsOracle) {
    o.dumbBuffer.Ok? && o.framebuffer.Pass? && o.mapDumb.Pass?
  }

  /** The size `new` maps, once the buffers are ready. */
  function SelectedMapSize(o: KmsOracle): u32
    requires |o.cardOpens| == CARD_COUNT && Selected(o) && BuffersReady(o)
  {
    MapSize(ChosenMode(o).height as nat, o.dumbBuffer.value)
  }

  /**
   * Opens and configures the display, reporting the first failing stage:
   * card, resources, connector, mode, encoder and CRTC, dumb buffer,
   * framebuffer, buffer map, mmap, and setting the CRTC.
   */
  function New(o: KmsOracle): (r: NewOutcome)
    requires |o.cardOpens| == CARD_COUNT
    ensures (forall j :: 0 <= j < CARD_COUNT ==> !o.cardOpens[j]) ==> r == Failed(OpenDevice)
    ensures OpenCard(o.cardOpens).Ok? && o.resources.Fail? ==> r == Failed(ModeSet(o.resources.error))
    ensures OpenCard(o.cardOpens).Ok? && o.resources.Pass? && SelectConnector(o.connectors).None? ==> r == Failed(NoConnector)
    ensures r.Built? ==>
      && OpenCard(o.cardOpens) == Ok(r.backend.card)
      && SelectConnector(o.connectors) == Some(r.backend.connector)
      && var con := o.connectors[r.backend.connector];
         SelectMode(con.modes).Ok? && r.backend.mode == con.modes[SelectMode(con.modes).value]
         && FindEncoderCrtc(con.currentEncoder, o.encoderProbe, con.encoders, o.crtcs)
            == Ok((r.backend.encoder, r.backend.crtc))
    ensures r.Built? ==> o.dumbBuffer.Ok? && o.framebuffer.Pass? && o.mapDumb.Pass? && o.mmap.Pass? && o.setCrtc.Pass?
    ensures r.Built? ==> Valid(r.backend.back) && r.backend.back == NewBackBuffer(r.backend.mode.width as nat, r.backend.mode.height as nat)
    ensures r.Built? ==> r.backend.mapSize != 0
    ensures r.Failed? ==> r.error != NoEncoder
    ensures r == Panicked ==> o.mapDumb.Pass? && o.dumbBuffer.Ok?
    ensures CardReady(o) && SelectMode(Chosen(o).modes).Err? ==> r == Failed(ModeSet(EINVAL))
    ensures CardReady(o) && SelectMode(Chosen(o).modes).Ok?
            && FindEncoderCrtc(Chosen(o).currentEncoder, o.encoderProbe, Chosen(o).encoders, o.crtcs).Err? ==>
            r == Failed(NoCrtc)
    ensures Selected(o) && o.dumbBuffer.Err? ==> r == Failed(DumbBufferCreate(o.dumbBuffer.error))
    ensures Selected(o) && o.dumbBuffer.Ok? && o.framebuffer.Fail? ==> r == Failed(Framebuffer(o.framebuffer.error))
    ensures Selected(o) && o.dumbBuffer.Ok? && o.framebuffer.Pass? && o.mapDumb.Fail? ==>
            r == Failed(DumbBufferMap(o.mapDumb.error))
    ensures r == Panicked <==> Selected(o) && BuffersReady(o) && SelectedMapSize(o) == 0
    ensures Selected(o) && BuffersReady(o) && SelectedMapSize(o) != 0 && o.mmap.Fail? ==> r == Failed(Mmap(o.mmap.error))
    ensures Selected(o) && BuffersReady(o) && SelectedMapSize(o) != 0 && o.mmap.Pass? && o.setCrtc.Fail? ==>
            r == Failed(ModeSet(o.setCrtc.error))
    ensures r.Built? <==> Selected(o) && BuffersReady(o) && SelectedMapSize(o) != 0 && o.mmap.Pass? && o.setCrtc.Pass?
    ensures r.Built? ==> r.backend.mode == ChosenMode(o) && r.backend.mapSize == SelectedMapSize(o)
  {
    match OpenCard(o.cardOpens)
    case Err(e) => Failed(e)
    case Ok(card) =>
      if o.resources.Fail? then Failed(ModeSet(o.resources.error))
      else
        match SelectConnector(o.connectors)
        case None => Failed(NoConnector)
        case Some(ci) =>
          var con := o.connectors[ci];
          match SelectMode(con.modes)
          case Err(e) => Failed(e)
          case Ok(mi) =>
            var mode := con.modes[mi];
            match FindEncoderCrtc(con.currentEncoder, o.encoderProbe, con.encoders, o.crtcs)
            case Err(e) => Failed(e)
            case Ok((enc, crtc)) =>
              if o.dumbBuffer.Err? then Failed(DumbBufferCreate(o.dumbBuffer.error))
              else if o.framebuffer.Fail? then Failed(Framebuffer(o.framebuffer.error))
              else if o.mapDumb.Fail? then Failed(DumbBufferMap(o.mapDumb.error))
              else
                var size := MapSize(mode.height as nat, o.dumbBuffer.value);
                if size == 0 then Panicked
                else if o.mmap.Fail? then Failed(Mmap(o.mmap.error))
                else if o.setCrtc.Fail? then Failed(ModeSet(o.setCrtc.error))
                else Built(Backend(card, ci, mode, enc, crtc, size, NewBackBuffer(mode.width as nat, mode.height as nat)))
  }
}
