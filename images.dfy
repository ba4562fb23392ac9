/** The two images the drawer compares: the live canvas, which PIL builds in
    RGB mode from the flat byte buffer the server sends, and a target frame,
    which the drawer opens and converts to RGBA. */
module Images {
  import opened Wrappers

  type Byte = x: int | 0 <= x < 256

  /** A canvas pixel: PIL's RGB mode yields 3-tuples. */
  datatype Rgb = Rgb(r: Byte, g: Byte, b: Byte)

  /** A target pixel: after convert('RGBA') PIL yields 4-tuples. */
  datatype Rgba = Rgba(r: Byte, g: Byte, b: Byte, a: Byte) {
    /** pixel[0:3] */
    function Opaque(): Rgb { Rgb(r, g, b) }
  }

  datatype CanvasBuffer = CanvasBuffer(width: int, height: int, data: seq<Byte>)

  /** Bytes in the first `rows` rows of an RGB image `width` pixels wide:
      3 * width * rows (BufferSizeIsProduct), counted row by row. */
  function BufferSize(width: nat, rows: nat): nat
  {
    if rows == 0 then 0 else BufferSize(width, rows - 1) + 3 * width
  }

  /** Where pixel (x, y) starts in the row-major buffer: 3 * (y * width + x)
      (PixelOffsetIsRowMajor). */
  function PixelOffset(width: nat, x: nat, y: nat): nat
  {
    BufferSize(width, y) + 3 * x
  }

  lemma {:induction false} BufferSizeIsProduct(width: nat, rows: nat)
    ensures BufferSize(width, rows) == 3 * width * rows
  {
    if rows > 0 {
      BufferSizeIsProduct(width, rows - 1);
      assert 3 * width * rows == 3 * width * (rows - 1) + 3 * width;
    }
  }

  lemma PixelOffsetIsRowMajor(width: nat, x: nat, y: nat)
    ensures PixelOffset(width, x, y) == 3 * (y * width + x)
  {
    BufferSizeIsProduct(width, y);
  }

  lemma {:induction false} BufferSizeMonotone(width: nat, rows: nat, rows': nat)
    requires rows <= rows'
    ensures BufferSize(width, rows) <= BufferSize(width, rows')
  {
    if rows < rows' {
      BufferSizeMonotone(width, rows, rows' - 1);
    }
  }

  /** An RGB image whose buffer holds at least width*height pixels. */
  type Canvas = c: CanvasBuffer | 0 <= c.width && 0 <= c.height && BufferSize(c.width, c.height) <= |c.data|
    witness CanvasBuffer(0, 0, [])

  datatype FrameGrid = FrameGrid(width: int, height: int, rows: seq<seq<Rgba>>)

  /** An RGBA image stored row by row, rows[y][x]. */
  type Frame = f: FrameGrid | 0 <= f.width && |f.rows| == f.height
    && forall y :: 0 <= y < |f.rows| ==> |f.rows[y]| == f.width
    witness FrameGrid(0, 0, [])

  /** Image.frombytes('RGB', (width, height), data): refuses a negative size
      and a buffer shorter than 3 * width * height bytes. */
  function FromBytes(width: int, height: int, data: seq<Byte>): (r: Result<Canvas>)
    ensures r.Ok? ==> r.value.width == width && r.value.height == height && r.value.data == data
    ensures r.Err? ==> r.error == ValueError
  {
    if 0 <= width && 0 <= height && BufferSize(width, height) <= |data| then
      Ok(CanvasBuffer(width, height, data))
    else Err(ValueError)
  }

  /** frombytes accepts exactly the sizes its buffer can hold. */
  lemma FromBytesAccepts(width: int, height: int, data: seq<Byte>)
    ensures FromBytes(width, height, data).Ok? <==> 0 <= width && 0 <= height && 3 * width * height <= |data|
  {
    if 0 <= width && 0 <= height {
      BufferSizeIsProduct(width, height);
    }
  }

  /** Pixel (x, y) of the image lies wholly inside its buffer. */
  lemma OffsetInBuffer(width: nat, height: nat, x: nat, y: nat)
    requires x < width && y < height
    ensures PixelOffset(width, x, y) + 3 <= BufferSize(width, height)
  {
    BufferSizeMonotone(width, y + 1, height);
  }

  predicate InCanvas(c: Canvas, x: int, y: int) { 0 <= x < c.width && 0 <= y < c.height }

  /** canvas.getpixel((x, y)): the three bytes at offset 3*(y*width + x), or
      IndexError outside the image. */
  function GetPixel(c: Canvas, x: int, y: int): (r: Result<Rgb>)
    ensures r.Ok? <==> InCanvas(c, x, y)
    ensures r.Err? ==> r.error == IndexError
    ensures r.Ok? ==> var o := PixelOffset(c.width, x, y);
      o + 2 < |c.data| && r.value == Rgb(c.data[o], c.data[o + 1], c.data[o + 2])
  {
    if InCanvas(c, x, y) then
      OffsetInBuffer(c.width, c.height, x, y);
      var o := PixelOffset(c.width, x, y);
      Ok(Rgb(c.data[o], c.data[o + 1], c.data[o + 2]))
    else Err(IndexError)
  }

  /** getpixel reads the three bytes at offset 3 * (y * width + x). */
  lemma GetPixelRowMajor(c: Canvas, x: int, y: int)
    requires InCanvas(c, x, y)
    ensures var o := 3 * (y * c.width + x);
      o + 2 < |c.data| && GetPixel(c, x, y) == Ok(Rgb(c.data[o], c.data[o + 1], c.data[o + 2]))
  {
    OffsetInBuffer(c.width, c.height, x, y);
    PixelOffsetIsRowMajor(c.width, x, y);
  }

  predicate InFrame(f: Frame, x: int, y: int) { 0 <= x < f.width && 0 <= y < f.height }

  /** image.getpixel((x, y)) on the target frame, or IndexError outside it. */
  function GetFramePixel(f: Frame, x: int, y: int): (r: Result<Rgba>)
    ensures r.Ok? <==> InFrame(f, x, y)
    ensures r.Err? ==> r.error == IndexError
    ensures r.Ok? ==> r.value == f.rows[y][x]
  {
    if InFrame(f, x, y) then Ok(f.rows[y][x]) else Err(IndexError)
  }
}
