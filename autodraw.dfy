/** The drawer: compares the live canvas with a target frame anchored at
    (startX, startY), lists the canvas coordinates to correct, and runs passes
    that re-read the canvas before each write and pace the writes by the
    /set_pixel rate limit. */
module AutoDraw {
  import opened Wrappers
  import opened Images
  import PyParse
  import TemplateManager
  import PixelsClient

  // ---------------------------------------------------------------------------
  // Colours

  /** How far apart every channel must be before a pixel is redrawn. */
  const RgbLenience := 30

  function Abs(v: int): nat { if v < 0 then -v else v }

  function Min3(a: int, b: int, c: int): int
  {
    if a <= b && a <= c then a else if b <= c then b else c
  }

  /** The smallest per-channel distance between a canvas pixel and a target pixel. */
  function MinChannelDistance(current: Rgb, pixel: Rgba): nat
  {
    Min3(Abs(current.r - pixel.r), Abs(current.g - pixel.g), Abs(current.b - pixel.b))
  }

  /** shouldChangePixel: redraw only when every channel is off by at least the
      lenience; the target's alpha is never looked at. */
  predicate ShouldChangePixel(current: Rgb, pixel: Rgba)
    ensures ShouldChangePixel(current, pixel) <==> MinChannelDistance(current, pixel) >= RgbLenience
  {
    if Abs(current.r - pixel.r) >= RgbLenience then
      if Abs(current.g - pixel.g) >= RgbLenience then
        Abs(current.b - pixel.b) >= RgbLenience
      else false
    else false
  }

  /** A distance of exactly the lenience in every channel is a change. */
  lemma LenienceIsInclusive(current: Rgb, pixel: Rgba)
    requires Abs(current.r - pixel.r) == RgbLenience && Abs(current.g - pixel.g) == RgbLenience
    requires Abs(current.b - pixel.b) == RgbLenience
    ensures ShouldChangePixel(current, pixel)
  {
  }

  /** One channel within the lenience is enough to leave the pixel alone. */
  lemma OneCloseChannelSkips(current: Rgb, pixel: Rgba)
    requires Abs(current.r - pixel.r) < RgbLenience || Abs(current.g - pixel.g) < RgbLenience
          || Abs(current.b - pixel.b) < RgbLenience
    ensures !ShouldChangePixel(current, pixel)
  {
  }

  /** The decision does not depend on the target's alpha. */
  lemma AlphaIgnored(current: Rgb, pixel: Rgba, alpha: Byte)
    ensures ShouldChangePixel(current, pixel) == ShouldChangePixel(current, pixel.(a := alpha))
  {
  }

  /** A canvas pixel that already has the target's colour is never redrawn. */
  lemma MatchingPixelUnchanged(pixel: Rgba)
    ensures !ShouldChangePixel(pixel.Opaque(), pixel)
  {
  }

  // ---------------------------------------------------------------------------
  // The hex colour sent to /set_pixel

  const HexDigits := "0123456789abcdef"

  predicate IsLowerHex(c: char) { '0' <= c <= '9' || 'a' <= c <= 'f' }

  function HexDigit(d: nat): (c: char)
    requires d < 16
    ensures IsLowerHex(c) && c == HexDigits[d]
  {
    if d < 10 then ('0' as int + d) as char else ('a' as int + d - 10) as char
  }

  function HexValue(c: char): (d: nat)
    requires IsLowerHex(c)
    ensures d < 16 && HexDigit(d) == c
  {
    if '0' <= c <= '9' then (c as int) - ('0' as int) else (c as int) - ('a' as int) + 10
  }

  /** The last `count` hexadecimal digits of n, most significant first and
      padded with '0' on the left. */
  function FixedHex(n: nat, count: nat): (s: string)
    ensures |s| == count && forall i :: 0 <= i < count ==> IsLowerHex(s[i])
  {
    if count == 0 then [] else FixedHex(n / 16, count - 1) + [HexDigit(n % 16)]
  }

  /** '%02x' of a byte. */
  function ByteHex(b: Byte): (s: string)
    ensures |s| == 2
  {
    FixedHex(b, 2)
  }

  /** The two digits of '%02x' are the high and the low nibble. */
  lemma ByteHexDigits(b: Byte)
    ensures ByteHex(b) == [HexDigit(b / 16), HexDigit(b % 16)]
  {
    assert FixedHex(b / 16, 1) == FixedHex(b / 256, 0) + [HexDigit(b / 16 % 16)];
  }

  /** rgbToHex: '%02x%02x%02x' % (r, g, b). */
  function RgbToHex(c: Rgb): (s: string)
    ensures |s| == 6 && forall i :: 0 <= i < 6 ==> IsLowerHex(s[i])
  {
    ByteHex(c.r) + ByteHex(c.g) + ByteHex(c.b)
  }

  /** Reading a colour back from six lowercase hex digits. */
  function HexToRgb(s: string): Option<Rgb>
  {
    if |s| == 6 && forall i :: 0 <= i < 6 ==> IsLowerHex(s[i]) then
      Some(Rgb(16 * HexValue(s[0]) + HexValue(s[1]),
               16 * HexValue(s[2]) + HexValue(s[3]),
               16 * HexValue(s[4]) + HexValue(s[5])))
    else None
  }

  /** The two digits of a byte read back as the byte. */
  lemma ByteHexRoundTrip(b: Byte)
    ensures 16 * HexValue(ByteHex(b)[0]) + HexValue(ByteHex(b)[1]) == b
  {
    ByteHexDigits(b);
    assert HexValue(HexDigit(b / 16)) == b / 16;
    assert HexValue(HexDigit(b % 16)) == b % 16;
  }

  /** Decoding the six digits gives back the colour. */
  lemma RgbHexRoundTrip(c: Rgb)
    ensures HexToRgb(RgbToHex(c)) == Some(c)
  {
    var s := RgbToHex(c);
    assert s == ByteHex(c.r) + ByteHex(c.g) + ByteHex(c.b);
    ByteHexRoundTrip(c.r);
    ByteHexRoundTrip(c.g);
    ByteHexRoundTrip(c.b);
    assert s[0] == ByteHex(c.r)[0] && s[1] == ByteHex(c.r)[1];
    assert s[2] == ByteHex(c.g)[0] && s[3] == ByteHex(c.g)[1];
    assert s[4] == ByteHex(c.b)[0] && s[5] == ByteHex(c.b)[1];
  }

  /** The two digits encoding the value of two hex digits are those digits. */
  lemma HexPairRoundTrip(hi: char, lo: char, b: Byte)
    requires IsLowerHex(hi) && IsLowerHex(lo) && b == 16 * HexValue(hi) + HexValue(lo)
    ensures ByteHex(b) == [hi, lo]
  {
    ByteHexDigits(b);
    assert b / 16 == HexValue(hi) && b % 16 == HexValue(lo);
  }

  /** Every six-digit lowercase hex string is the encoding of the colour it decodes to. */
  lemma HexRgbRoundTrip(s: string)
    requires HexToRgb(s).Some?
    ensures RgbToHex(HexToRgb(s).value) == s
  {
    var c := HexToRgb(s).value;
    assert forall i :: 0 <= i < 6 ==> IsLowerHex(s[i]);
    HexPairRoundTrip(s[0], s[1], c.r);
    HexPairRoundTrip(s[2], s[3], c.g);
    HexPairRoundTrip(s[4], s[5], c.b);
    assert s == [s[0], s[1]] + [s[2], s[3]] + [s[4], s[5]];
  }

  // ---------------------------------------------------------------------------
  // Pacing

  /** A window spread evenly over the remaining requests. */
  function Pace(window: int, remaining: int): (p: real)
    requires remaining != 0
    ensures p * remaining as real == window as real
  {
    window as real / remaining as real
  }

  /** p seconds between writes spread a window of the given seconds evenly
      over a non-zero number of requests. */
  predicate Spreads(window: int, requests: int, p: real)
  {
    requests != 0 && p * requests as real == window as real
  }

  lemma PaceSpreads(window: int, requests: int)
    requires requests != 0
    ensures Spreads(window, requests, Pace(window, requests))
  {
  }

  /** ceil(float(requests_reset != 0)) taken as a truth value. The stored
      value is the header's str, and a str never equals the int 0, so the
      comparison is True, float() makes it 1.0 and ceil() 1: the guard holds
      for every header value. */
  function ResetGuard(reset: string): (g: bool)
    ensures g
  {
    var differsFromZero := true;
    PyParse.Ceil(if differsFromZero then 1.0 else 0.0) != 0
  }

  /** calculateCooldownPeriod on the /set_pixel limiter's raw header strings.
      The reset guard always holds (ResetGuard), so int(remaining) decides:
      0 means no delay, anything else is divided into ceil(float(reset)).
      Either conversion can raise ValueError. */
  function CalculateCooldownPeriod(reset: Option<string>, remaining: Option<string>): (r: Result<Option<real>>)
    ensures reset.None? || remaining.None? ==> r == Ok(None)
  {
    if reset.None? || remaining.None? then Ok(None)
    else
      if !ResetGuard(reset.value) then Ok(None)
      else
        match PyParse.ParseInt(remaining.value)
        case Err(e) => Err(e)
        case Ok(n) =>
          if n == 0 then Ok(None)
          else
            match PyParse.ParseFloat(reset.value)
            case Err(e) => Err(e)
            case Ok(x) =>
              Ok(Some(Pace(PyParse.Ceil(x), n)))
  }

  /** With both fields present: a non-zero count divides the ceil(reset)
      second window evenly, a zero count means no delay, and ValueError comes
      exactly from a header that int() or float() rejects. */
  lemma CooldownSpreadsWindow(reset: string, remaining: string)
    ensures var r := CalculateCooldownPeriod(Some(reset), Some(remaining));
      var n := PyParse.ParseInt(remaining);
      var x := PyParse.ParseFloat(reset);
      && (r.Ok? && r.value.Some? ==>
            n.Ok? && x.Ok? && Spreads(PyParse.Ceil(x.value), n.value, r.value.value))
      && (n.Ok? && n.value != 0 && x.Ok? ==> r == Ok(Some(Pace(PyParse.Ceil(x.value), n.value))))
      && (n == Ok(0) ==> r == Ok(None))
      && (r.Err? <==> n.Err? || (n.value != 0 && x.Err?))
  {
    var n := PyParse.ParseInt(remaining);
    var x := PyParse.ParseFloat(reset);
    if n.Ok? && n.value != 0 && x.Ok? {
      PaceSpreads(PyParse.Ceil(x.value), n.value);
    }
  }

  /** A 10 second window with 5 requests left paces writes 2 seconds apart. */
  lemma CooldownExample()
    ensures CalculateCooldownPeriod(Some("10"), Some("5")) == Ok(Some(2.0))
  {
    assert PyParse.ParseInt("5") == Ok(5) by {
      assert PyParse.SplitSign("5") == (false, "5");
      assert "5"[..0] == "";
    }
    assert PyParse.FindPoint("10") == 2 by {
      assert "10"[1..] == "0" && "0"[1..] == "";
    }
    assert PyParse.ParseFloat("10") == Ok(10.0) by {
      assert PyParse.SplitSign("10") == (false, "10");
      assert "10"[..2] == "10" && "10"[..1] == "1" && "1"[..0] == "";
    }
  }

  /** No requests left means no pacing delay, whatever the window says. */
  lemma NoRemainingRequestsNoDelay(reset: string, remaining: string)
    requires PyParse.ParseInt(remaining) == Ok(0)
    ensures CalculateCooldownPeriod(Some(reset), Some(remaining)) == Ok(None)
  {
  }

  /** The reset guard never fires: a window of "0" gives a delay of 0.0, not None. */
  lemma ZeroResetGivesZeroDelay(remaining: string)
    requires PyParse.ParseInt(remaining).Ok? && PyParse.ParseInt(remaining).value != 0
    ensures CalculateCooldownPeriod(Some("0"), Some(remaining)) == Ok(Some(0.0))
  {
    assert PyParse.FindPoint("0") == 1 by { assert "0"[1..] == ""; }
    assert PyParse.ParseFloat("0") == Ok(0.0) by {
      assert PyParse.SplitSign("0") == (false, "0");
      assert "0"[..1] == "0" && "0"[..0] == "";
    }
  }

  // ---------------------------------------------------------------------------
  // The canvas snapshot

  /** getPixels: the bytes /get_pixels returned, decoded as an RGB image of
      the size /get_size returned, which comes as (height, width). */
  function GetPixels(pixels: seq<Byte>, size: (int, int)): (r: Result<Canvas>)
    ensures r.Ok? ==> r.value.width == size.1 && r.value.height == size.0 && r.value.data == pixels
    ensures r.Err? ==> r.error == ValueError
  {
    var (height, width) := size;
    FromBytes(width, height, pixels)
  }

  /** A snapshot rebuilt from its own bytes and its (height, width) is itself. */
  lemma GetPixelsOfOwnBytes(c: Canvas)
    ensures GetPixels(c.data, (c.height, c.width)) == Ok(c)
  {
  }

  /** The snapshot is refused exactly when the size is negative or the bytes
      are fewer than three per pixel. */
  lemma GetPixelsRefuses(pixels: seq<Byte>, height: int, width: int)
    ensures GetPixels(pixels, (height, width)).Err? <==>
      width < 0 || height < 0 || |pixels| < 3 * width * height
  {
    FromBytesAccepts(width, height, pixels);
  }

  // ---------------------------------------------------------------------------
  // The diff scan

  datatype Coord = Coord(x: int, y: int)

  /** (x, y) before (x', y') in the scan's order: x outer, y inner. */
  predicate CoordBefore(a: Coord, b: Coord)
  {
    a.x < b.x || (a.x == b.x && a.y < b.y)
  }

  predicate StrictlyIncreasing(s: seq<Coord>)
  {
    forall i, j :: 0 <= i < j < |s| ==> CoordBefore(s[i], s[j])
  }

  /** Local position (x, y) of the frame must be redrawn on the canvas. */
  predicate ChangeNeeded(canvas: Canvas, image: Frame, startX: int, startY: int, x: int, y: int)
  {
    && GetPixel(canvas, x + startX, y + startY).Ok?
    && GetFramePixel(image, x, y).Ok?
    && ShouldChangePixel(GetPixel(canvas, x + startX, y + startY).value, GetFramePixel(image, x, y).value)
  }

  /** Both getpixel calls for local position (x, y) succeed. */
  predicate Readable(canvas: Canvas, image: Frame, startX: int, startY: int, x: int, y: int)
  {
    InCanvas(canvas, x + startX, y + startY) && InFrame(image, x, y)
  }

  /** The coordinates the inner loop collects in column x for y < n, or the
      IndexError of the first getpixel that falls outside an image. */
  function ColumnCoords(canvas: Canvas, image: Frame, startX: int, startY: int, x: int, n: nat): Result<seq<Coord>>
  {
    if n == 0 then Ok([])
    else
      match ColumnCoords(canvas, image, startX, startY, x, n - 1)
      case Err(e) => Err(e)
      case Ok(prefix) =>
        match GetPixel(canvas, x + startX, n - 1 + startY)
        case Err(e) => Err(e)
        case Ok(current) =>
          match GetFramePixel(image, x, n - 1)
          case Err(e) => Err(e)
          case Ok(pixel) =>
            Ok(if ShouldChangePixel(current, pixel) then prefix + [Coord(x + startX, n - 1 + startY)] else prefix)
  }

  /** The coordinates the scan collects for columns x < m, each column running
      over y < rows. */
  function ScanCoords(canvas: Canvas, image: Frame, startX: int, startY: int, rows: nat, m: nat): Result<seq<Coord>>
  {
    if m == 0 then Ok([])
    else
      match ScanCoords(canvas, image, startX, startY, rows, m - 1)
      case Err(e) => Err(e)
      case Ok(prefix) =>
        match ColumnCoords(canvas, image, startX, startY, m - 1, rows)
        case Err(e) => Err(e)
        case Ok(column) => Ok(prefix + column)
  }

  /** getCoordsToDraw on the canvas snapshot: nested loops over x and then y,
      x below image.width and y below `rows`. */
  method GetCoordsToDraw(canvas: Canvas, image: Frame, startX: int, startY: int, rows: nat) returns (r: Result<seq<Coord>>)
    ensures r == ScanCoords(canvas, image, startX, startY, rows, image.width)
  {
    var coords: seq<Coord> := [];
    var x := 0;
    while x < image.width
      invariant 0 <= x <= image.width
      invariant ScanCoords(canvas, image, startX, startY, rows, x) == Ok(coords)
    {
      var column := ScanColumn(canvas, image, startX, startY, x, rows);
      if column.Err? {
        ColumnErrorIsIndexError(canvas, image, startX, startY, x, rows);
        ScanErrPersists(canvas, image, startX, startY, rows, x + 1, image.width);
        return Err(column.error);
      }
      coords := coords + column.value;
      x := x + 1;
    }
    r := Ok(coords);
  }

  /** The inner loop of getCoordsToDraw: column x for y below `rows`, stopping
      at the first getpixel that raises. */
  method ScanColumn(canvas: Canvas, image: Frame, startX: int, startY: int, x: int, rows: nat)
    returns (r: Result<seq<Coord>>)
    ensures r == ColumnCoords(canvas, image, startX, startY, x, rows)
  {
    var column: seq<Coord> := [];
    var y := 0;
    while y < rows
      invariant 0 <= y <= rows
      invariant ColumnCoords(canvas, image, startX, startY, x, y) == Ok(column)
    {
      var current := GetPixel(canvas, x + startX, y + startY);
      if current.Err? {
        assert ColumnCoords(canvas, image, startX, startY, x, y + 1) == Err(IndexError);
        ColumnErrPersists(canvas, image, startX, startY, x, y + 1, rows);
        return Err(current.error);
      }
      var pixel := GetFramePixel(image, x, y);
      if pixel.Err? {
        assert ColumnCoords(canvas, image, startX, startY, x, y + 1) == Err(IndexError);
        ColumnErrPersists(canvas, image, startX, startY, x, y + 1, rows);
        return Err(pixel.error);
      }
      if ShouldChangePixel(current.value, pixel.value) {
        column := column + [Coord(x + startX, y + startY)];
      }
      y := y + 1;
    }
    r := Ok(column);
  }

  lemma {:induction false} ColumnErrPersists(canvas: Canvas, image: Frame, startX: int, startY: int, x: int, n: nat, n': nat)
    requires n <= n' && ColumnCoords(canvas, image, startX, startY, x, n) == Err(IndexError)
    ensures ColumnCoords(canvas, image, startX, startY, x, n') == Err(IndexError)
  {
    if n < n' {
      ColumnErrPersists(canvas, image, startX, startY, x, n, n' - 1);
    }
  }

  lemma {:induction false} ScanErrPersists(canvas: Canvas, image: Frame, startX: int, startY: int, rows: nat, m: nat, m': nat)
    requires m <= m' && 0 < m
    requires ScanCoords(canvas, image, startX, startY, rows, m - 1).Ok?
    requires ColumnCoords(canvas, image, startX, startY, m - 1, rows) == Err(IndexError)
    ensures ScanCoords(canvas, image, startX, startY, rows, m') == Err(IndexError)
  {
    if m < m' {
      ScanErrPersists(canvas, image, startX, startY, rows, m, m' - 1);
    }
  }

  /** One step of the inner loop. */
  lemma ColumnStep(canvas: Canvas, image: Frame, startX: int, startY: int, x: int, n: nat)
    requires n > 0
    ensures var cs := ColumnCoords(canvas, image, startX, startY, x, n);
      var prev := ColumnCoords(canvas, image, startX, startY, x, n - 1);
      && (cs.Ok? <==> prev.Ok? && Readable(canvas, image, startX, startY, x, n - 1))
      && (cs.Ok? ==> cs.value == if ChangeNeeded(canvas, image, startX, startY, x, n - 1)
                                 then prev.value + [Coord(x + startX, n - 1 + startY)] else prev.value)
  {
  }

  /** One step of the outer loop. */
  lemma ScanStep(canvas: Canvas, image: Frame, startX: int, startY: int, rows: nat, m: nat)
    requires m > 0
    ensures var cs := ScanCoords(canvas, image, startX, startY, rows, m);
      var prev := ScanCoords(canvas, image, startX, startY, rows, m - 1);
      var column := ColumnCoords(canvas, image, startX, startY, m - 1, rows);
      && (cs.Ok? <==> prev.Ok? && column.Ok?)
      && (cs.Ok? ==> cs.value == prev.value + column.value)
  {
  }

  /** The scan of column x up to n fails exactly when some position in it
      falls outside the canvas or the frame. */
  lemma {:induction false} ColumnOk(canvas: Canvas, image: Frame, startX: int, startY: int, x: int, n: nat)
    ensures ColumnCoords(canvas, image, startX, startY, x, n).Ok?
        <==> forall y :: 0 <= y < n ==> Readable(canvas, image, startX, startY, x, y)
  {
    if n > 0 {
      ColumnOk(canvas, image, startX, startY, x, n - 1);
      ColumnStep(canvas, image, startX, startY, x, n);
    }
  }

  /** The scan fails exactly when some scanned position is outside the canvas
      or the frame. */
  lemma {:induction false} ScanOk(canvas: Canvas, image: Frame, startX: int, startY: int, rows: nat, m: nat)
    ensures ScanCoords(canvas, image, startX, startY, rows, m).Ok?
        <==> forall x, y :: 0 <= x < m && 0 <= y < rows ==> Readable(canvas, image, startX, startY, x, y)
  {
    if m > 0 {
      ScanOk(canvas, image, startX, startY, rows, m - 1);
      ColumnOk(canvas, image, startX, startY, m - 1, rows);
      ScanStep(canvas, image, startX, startY, rows, m);
      ReadableStep(canvas, image, startX, startY, rows, m - 1);
    }
  }

  /** Every position of the first m columns of `rows` rows is readable. */
  predicate ReadableUpTo(canvas: Canvas, image: Frame, startX: int, startY: int, rows: nat, m: nat)
  {
    forall x, y :: 0 <= x < m && 0 <= y < rows ==> Readable(canvas, image, startX, startY, x, y)
  }

  lemma ReadableStep(canvas: Canvas, image: Frame, startX: int, startY: int, rows: nat, x: nat)
    ensures ReadableUpTo(canvas, image, startX, startY, rows, x + 1) <==>
      ReadableUpTo(canvas, image, startX, startY, rows, x)
      && forall y :: 0 <= y < rows ==> Readable(canvas, image, startX, startY, x, y)
  {
  }

  /** Column x emits coordinates of column x only, in increasing y, at most
      one per row scanned. */
  lemma {:induction false} ColumnOrdered(canvas: Canvas, image: Frame, startX: int, startY: int, x: int, n: nat)
    requires ColumnCoords(canvas, image, startX, startY, x, n).Ok?
    ensures ColumnShaped(ColumnCoords(canvas, image, startX, startY, x, n).value, x + startX, startY, n)
  {
    if n > 0 {
      ColumnGrows(canvas, image, startX, startY, x, n);
      ColumnOrdered(canvas, image, startX, startY, x, n - 1);
      var prev := ColumnCoords(canvas, image, startX, startY, x, n - 1).value;
      ShapedRowAppended(prev, x + startX, startY, n - 1);
    }
  }

  /** Scanning one more row keeps the column's prefix and adds at most that row. */
  lemma ColumnGrows(canvas: Canvas, image: Frame, startX: int, startY: int, x: int, n: nat)
    requires n > 0 && ColumnCoords(canvas, image, startX, startY, x, n).Ok?
    ensures var prev := ColumnCoords(canvas, image, startX, startY, x, n - 1);
      && prev.Ok?
      && (ColumnCoords(canvas, image, startX, startY, x, n).value == prev.value
          || ColumnCoords(canvas, image, startX, startY, x, n).value == prev.value + [Coord(x + startX, n - 1 + startY)])
  {
    ColumnStep(canvas, image, startX, startY, x, n);
  }

  /** cs lies in column cx, below row y0 and above row y0 + n, in increasing y,
      one coordinate per row at most. */
  predicate ColumnShaped(cs: seq<Coord>, cx: int, y0: int, n: nat)
  {
    && |cs| <= n
    && StrictlyIncreasing(cs)
    && forall i :: 0 <= i < |cs| ==> cs[i].x == cx && y0 <= cs[i].y < n + y0
  }

  lemma ShapedRowAppended(prev: seq<Coord>, cx: int, y0: int, n: nat)
    requires ColumnShaped(prev, cx, y0, n)
    ensures ColumnShaped(prev, cx, y0, n + 1)
    ensures ColumnShaped(prev + [Coord(cx, n + y0)], cx, y0, n + 1)
  {
    var cs := prev + [Coord(cx, n + y0)];
    forall i, j | 0 <= i < j < |cs| ensures CoordBefore(cs[i], cs[j]) {
      assert cs[i] == prev[i];
      if j < |prev| { assert cs[j] == prev[j]; }
    }
    forall i | 0 <= i < |cs| ensures cs[i].x == cx && y0 <= cs[i].y < n + 1 + y0 {
      if i < |prev| { assert cs[i] == prev[i]; }
    }
  }

  /** Column x emits only positions, shifted by the anchor, that need a change. */
  lemma {:induction false} ColumnNeeded(canvas: Canvas, image: Frame, startX: int, startY: int, x: int, n: nat)
    requires ColumnCoords(canvas, image, startX, startY, x, n).Ok?
    ensures AllNeeded(canvas, image, startX, startY, n, ColumnCoords(canvas, image, startX, startY, x, n).value)
  {
    if n > 0 {
      ColumnStep(canvas, image, startX, startY, x, n);
      ColumnNeeded(canvas, image, startX, startY, x, n - 1);
      var prev := ColumnCoords(canvas, image, startX, startY, x, n - 1).value;
      NeededRowAppended(canvas, image, startX, startY, x, n - 1, prev);
    }
  }

  /** Scanning row y of column x keeps every emitted position one that needs a change. */
  lemma NeededRowAppended(canvas: Canvas, image: Frame, startX: int, startY: int, x: int, y: nat, prev: seq<Coord>)
    requires AllNeeded(canvas, image, startX, startY, y, prev)
    ensures AllNeeded(canvas, image, startX, startY, y + 1, prev)
    ensures ChangeNeeded(canvas, image, startX, startY, x, y) ==>
      AllNeeded(canvas, image, startX, startY, y + 1, prev + [Coord(x + startX, y + startY)])
  {
    AllNeededWiden(canvas, image, startX, startY, y, prev);
    if ChangeNeeded(canvas, image, startX, startY, x, y) {
      var last := [Coord(x + startX, y + startY)];
      assert AllNeeded(canvas, image, startX, startY, y + 1, last) by {
        assert last[0].x - startX == x && last[0].y - startY == y;
      }
      AllNeededConcat(canvas, image, startX, startY, y + 1, prev, last);
    }
  }

  /** Column x emits every coordinate of it that needs a change. */
  lemma {:induction false} ColumnComplete(canvas: Canvas, image: Frame, startX: int, startY: int, x: int, n: nat)
    requires ColumnCoords(canvas, image, startX, startY, x, n).Ok?
    ensures forall y :: 0 <= y < n && ChangeNeeded(canvas, image, startX, startY, x, y) ==>
      Coord(x + startX, y + startY) in ColumnCoords(canvas, image, startX, startY, x, n).value
  {
    if n > 0 {
      ColumnStep(canvas, image, startX, startY, x, n);
      ColumnComplete(canvas, image, startX, startY, x, n - 1);
    }
  }

  /** getCoordsToDraw emits coordinates in strictly increasing (x, y) order,
      so without duplicates, and only from the scanned columns. */
  lemma {:induction false} ScanOrdered(canvas: Canvas, image: Frame, startX: int, startY: int, rows: nat, m: nat)
    requires ScanCoords(canvas, image, startX, startY, rows, m).Ok?
    ensures var cs := ScanCoords(canvas, image, startX, startY, rows, m).value;
      && StrictlyIncreasing(cs)
      && forall i :: 0 <= i < |cs| ==> startX <= cs[i].x < m + startX
  {
    if m > 0 {
      ScanStep(canvas, image, startX, startY, rows, m);
      ScanOrdered(canvas, image, startX, startY, rows, m - 1);
      ColumnOrdered(canvas, image, startX, startY, m - 1, rows);
      var prefix := ScanCoords(canvas, image, startX, startY, rows, m - 1).value;
      var column := ColumnCoords(canvas, image, startX, startY, m - 1, rows).value;
      var cs := prefix + column;
      forall i, j | 0 <= i < j < |cs| ensures CoordBefore(cs[i], cs[j]) {
        if j < |prefix| {
          assert cs[i] == prefix[i] && cs[j] == prefix[j];
        } else if i >= |prefix| {
          assert cs[i] == column[i - |prefix|] && cs[j] == column[j - |prefix|];
        } else {
          assert cs[i] == prefix[i] && cs[j] == column[j - |prefix|];
        }
      }
      forall i | 0 <= i < |cs| ensures startX <= cs[i].x < m + startX {
        if i < |prefix| { assert cs[i] == prefix[i]; } else { assert cs[i] == column[i - |prefix|]; }
      }
    }
  }

  /** getCoordsToDraw emits only scanned positions, shifted by the anchor, that
      need a change. */
  lemma {:induction false} ScanNeeded(canvas: Canvas, image: Frame, startX: int, startY: int, rows: nat, m: nat)
    requires ScanCoords(canvas, image, startX, startY, rows, m).Ok?
    ensures AllNeeded(canvas, image, startX, startY, rows, ScanCoords(canvas, image, startX, startY, rows, m).value)
  {
    if m > 0 {
      ScanStep(canvas, image, startX, startY, rows, m);
      ScanNeeded(canvas, image, startX, startY, rows, m - 1);
      ColumnNeeded(canvas, image, startX, startY, m - 1, rows);
      var prefix := ScanCoords(canvas, image, startX, startY, rows, m - 1).value;
      var column := ColumnCoords(canvas, image, startX, startY, m - 1, rows).value;
      AllNeededConcat(canvas, image, startX, startY, rows, prefix, column);
    }
  }

  /** Every coordinate of cs lies in the first `rows` rows and needs a change. */
  predicate AllNeeded(canvas: Canvas, image: Frame, startX: int, startY: int, rows: nat, cs: seq<Coord>)
  {
    forall i :: 0 <= i < |cs| ==>
      (startY <= cs[i].y < rows + startY
       && ChangeNeeded(canvas, image, startX, startY, cs[i].x - startX, cs[i].y - startY))
  }

  lemma AllNeededConcat(canvas: Canvas, image: Frame, startX: int, startY: int, rows: nat, a: seq<Coord>, b: seq<Coord>)
    requires AllNeeded(canvas, image, startX, startY, rows, a) && AllNeeded(canvas, image, startX, startY, rows, b)
    ensures AllNeeded(canvas, image, startX, startY, rows, a + b)
  {
    var cs := a + b;
    forall i | 0 <= i < |cs|
      ensures startY <= cs[i].y < rows + startY
           && ChangeNeeded(canvas, image, startX, startY, cs[i].x - startX, cs[i].y - startY)
    {
      if i < |a| { assert cs[i] == a[i]; } else { assert cs[i] == b[i - |a|]; }
    }
  }

  lemma AllNeededWiden(canvas: Canvas, image: Frame, startX: int, startY: int, rows: nat, cs: seq<Coord>)
    requires AllNeeded(canvas, image, startX, startY, rows, cs)
    ensures AllNeeded(canvas, image, startX, startY, rows + 1, cs)
  {
  }

  /** Soundness of the scan: ordered, inside the scanned square, and only
      positions that need a change. */
  lemma ScanSound(canvas: Canvas, image: Frame, startX: int, startY: int, rows: nat, m: nat)
    requires ScanCoords(canvas, image, startX, startY, rows, m).Ok?
    ensures var cs := ScanCoords(canvas, image, startX, startY, rows, m).value;
      && StrictlyIncreasing(cs)
      && forall i :: 0 <= i < |cs| ==>
           (startX <= cs[i].x < m + startX && startY <= cs[i].y < rows + startY
            && ChangeNeeded(canvas, image, startX, startY, cs[i].x - startX, cs[i].y - startY))
  {
    ScanOrdered(canvas, image, startX, startY, rows, m);
    ScanNeeded(canvas, image, startX, startY, rows, m);
  }

  /** At most one coordinate per scanned position: m columns of `rows` rows. */
  lemma {:induction false} ScanLength(canvas: Canvas, image: Frame, startX: int, startY: int, rows: nat, m: nat)
    requires ScanCoords(canvas, image, startX, startY, rows, m).Ok?
    ensures |ScanCoords(canvas, image, startX, startY, rows, m).value| <= m * rows
  {
    if m > 0 {
      ScanStep(canvas, image, startX, startY, rows, m);
      ScanLength(canvas, image, startX, startY, rows, m - 1);
      ColumnOrdered(canvas, image, startX, startY, m - 1, rows);
      assert m * rows == (m - 1) * rows + rows;
    }
  }

  /** getCoordsToDraw emits every scanned position that needs a change. */
  lemma {:induction false} ScanComplete(canvas: Canvas, image: Frame, startX: int, startY: int, rows: nat, m: nat)
    requires ScanCoords(canvas, image, startX, startY, rows, m).Ok?
    ensures forall x, y :: 0 <= x < m && 0 <= y < rows && ChangeNeeded(canvas, image, startX, startY, x, y) ==>
      Coord(x + startX, y + startY) in ScanCoords(canvas, image, startX, startY, rows, m).value
  {
    if m > 0 {
      ScanStep(canvas, image, startX, startY, rows, m);
      ScanComplete(canvas, image, startX, startY, rows, m - 1);
      ColumnComplete(canvas, image, startX, startY, m - 1, rows);
    }
  }

  /** Contrapositive of completeness: a scanned position that is not emitted
      is close enough to its target in some channel. */
  lemma {:induction false} ScanSkipsOnlyClosePixels(canvas: Canvas, image: Frame, startX: int, startY: int, rows: nat, x: int, y: int)
    requires ScanCoords(canvas, image, startX, startY, rows, image.width).Ok?
    requires 0 <= x < image.width && 0 <= y < rows
    requires Coord(x + startX, y + startY) !in ScanCoords(canvas, image, startX, startY, rows, image.width).value
    ensures Readable(canvas, image, startX, startY, x, y)
    ensures !ShouldChangePixel(GetPixel(canvas, x + startX, y + startY).value, GetFramePixel(image, x, y).value)
  {
    ScanOk(canvas, image, startX, startY, rows, image.width);
    assert Readable(canvas, image, startX, startY, x, y);
    ScanComplete(canvas, image, startX, startY, rows, image.width);
    assert !ChangeNeeded(canvas, image, startX, startY, x, y);
  }

  /** A canvas that already shows the frame's colours over the scanned rectangle
      needs no correction. */
  lemma {:induction false} MatchingCanvasNeedsNothing(canvas: Canvas, image: Frame, startX: int, startY: int, rows: nat)
    requires forall x, y :: 0 <= x < image.width && 0 <= y < rows ==>
      Readable(canvas, image, startX, startY, x, y)
      && GetPixel(canvas, x + startX, y + startY).value == GetFramePixel(image, x, y).value.Opaque()
    ensures ScanCoords(canvas, image, startX, startY, rows, image.width) == Ok([])
  {
    ScanOk(canvas, image, startX, startY, rows, image.width);
    ScanSound(canvas, image, startX, startY, rows, image.width);
    var cs := ScanCoords(canvas, image, startX, startY, rows, image.width).value;
    if |cs| > 0 {
      var x, y := cs[0].x - startX, cs[0].y - startY;
      assert ChangeNeeded(canvas, image, startX, startY, x, y);
      MatchingPixelUnchanged(GetFramePixel(image, x, y).value);
      assert false;
    }
  }

  // ---------------------------------------------------------------------------
  // The inner loop's bound. getCoordsToDraw runs y below image.width; the
  // pass in this model runs it below image.height.

  /** As written, a frame wider than it is tall makes the scan read below the
      frame and raise IndexError, however large the canvas. */
  lemma WideFrameScanFails(canvas: Canvas, image: Frame, startX: int, startY: int)
    requires image.width > image.height
    ensures ScanCoords(canvas, image, startX, startY, image.width, image.width) == Err(IndexError)
  {
    ScanOk(canvas, image, startX, startY, image.width, image.width);
    assert !Readable(canvas, image, startX, startY, 0, image.height);
    ScanErrorIsIndexError(canvas, image, startX, startY, image.width, image.width);
  }

  /** As written, a frame taller than it is wide never has its lower rows
      looked at: a white 1x2 frame over a black 1x2 canvas gets only its top
      pixel listed, though both need changing. */
  lemma TallFrameScanSkipsRows()
    ensures var canvas: Canvas := CanvasBuffer(1, 2, [0, 0, 0, 0, 0, 0]);
      var image: Frame := FrameGrid(1, 2, [[Rgba(255, 255, 255, 255)], [Rgba(255, 255, 255, 255)]]);
      && ChangeNeeded(canvas, image, 0, 0, 0, 1)
      && ScanCoords(canvas, image, 0, 0, image.width, image.width) == Ok([Coord(0, 0)])
  {
    var canvas: Canvas := CanvasBuffer(1, 2, [0, 0, 0, 0, 0, 0]);
    var white := Rgba(255, 255, 255, 255);
    var image: Frame := FrameGrid(1, 2, [[white], [white]]);
    assert BufferSize(1, 1) == 3;
    assert GetPixel(canvas, 0, 0) == Ok(Rgb(0, 0, 0));
    assert GetPixel(canvas, 0, 1) == Ok(Rgb(0, 0, 0));
    assert GetFramePixel(image, 0, 0) == Ok(white) && GetFramePixel(image, 0, 1) == Ok(white);
    assert ShouldChangePixel(Rgb(0, 0, 0), white);
    assert ColumnCoords(canvas, image, 0, 0, 0, 0) == Ok([]);
    assert [] + [Coord(0, 0)] == [Coord(0, 0)];
    assert ColumnCoords(canvas, image, 0, 0, 0, 1) == Ok([Coord(0, 0)]);
    assert ScanCoords(canvas, image, 0, 0, 1, 0) == Ok([]);
    assert ScanCoords(canvas, image, 0, 0, 1, 1) == Ok([Coord(0, 0)]);
  }

  /** With the bound at image.height, a frame lying inside the canvas is
      scanned without error, and a position of the frame is listed exactly
      when it needs a change. */
  lemma ScanCoversFrame(canvas: Canvas, image: Frame, startX: int, startY: int)
    requires 0 <= startX && startX + image.width <= canvas.width
    requires 0 <= startY && startY + image.height <= canvas.height
    ensures var r := ScanCoords(canvas, image, startX, startY, image.height, image.width);
      && r.Ok?
      && forall x, y :: 0 <= x < image.width && 0 <= y < image.height ==>
           (Coord(x + startX, y + startY) in r.value <==> ChangeNeeded(canvas, image, startX, startY, x, y))
  {
    ScanOk(canvas, image, startX, startY, image.height, image.width);
    var cs := ScanCoords(canvas, image, startX, startY, image.height, image.width).value;
    ScanNeeded(canvas, image, startX, startY, image.height, image.width);
    ScanComplete(canvas, image, startX, startY, image.height, image.width);
    forall x, y | 0 <= x < image.width && 0 <= y < image.height && Coord(x + startX, y + startY) in cs
      ensures ChangeNeeded(canvas, image, startX, startY, x, y)
    {
      ListedNeeded(canvas, image, startX, startY, image.height, cs, x, y);
    }
  }

  lemma ListedNeeded(canvas: Canvas, image: Frame, startX: int, startY: int, rows: nat, cs: seq<Coord>, x: int, y: int)
    requires AllNeeded(canvas, image, startX, startY, rows, cs) && Coord(x + startX, y + startY) in cs
    ensures ChangeNeeded(canvas, image, startX, startY, x, y)
  {
    var i :| 0 <= i < |cs| && cs[i] == Coord(x + startX, y + startY);
  }

  lemma {:induction false} ColumnErrorIsIndexError(canvas: Canvas, image: Frame, startX: int, startY: int, x: int, n: nat)
    ensures ColumnCoords(canvas, image, startX, startY, x, n).Err? ==>
      ColumnCoords(canvas, image, startX, startY, x, n).error == IndexError
  {
    if n > 0 {
      ColumnErrorIsIndexError(canvas, image, startX, startY, x, n - 1);
    }
  }

  lemma {:induction false} ScanErrorIsIndexError(canvas: Canvas, image: Frame, startX: int, startY: int, rows: nat, m: nat)
    ensures ScanCoords(canvas, image, startX, startY, rows, m).Err? ==>
      ScanCoords(canvas, image, startX, startY, rows, m).error == IndexError
  {
    if m > 0 {
      ScanErrorIsIndexError(canvas, image, startX, startY, rows, m - 1);
      ColumnErrorIsIndexError(canvas, image, startX, startY, m - 1, rows);
    }
  }
}
