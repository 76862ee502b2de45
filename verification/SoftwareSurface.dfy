/** The checks that keep `render_software` in bounds (rsmpv/src/render.rs), in machine arithmetic. */
module SoftwareSurface {
  import opened Common

  datatype PixelFormat = Rgb0 | Bgr0 | ZeroBgr | ZeroRgb | Rgb24

  datatype Component = R | G | B | Unused

  /** The bytes of a pixel, in memory order, as mpv names the formats: "rgb0", "bgr0", "0bgr",
      "0rgb", "rgb24". */
  function Layout(f: PixelFormat): seq<Component> {
    match f
    case Rgb0 => [R, G, B, Unused]
    case Bgr0 => [B, G, R, Unused]
    case ZeroBgr => [Unused, B, G, R]
    case ZeroRgb => [Unused, R, G, B]
    case Rgb24 => [R, G, B]
  }

  function BytesPerPixel(f: PixelFormat): (n: nat)
    ensures n == |Layout(f)|
  {
    if f.Rgb24? then 3 else 4
  }

  type Int32 = x: int | -0x8000_0000 <= x < 0x8000_0000

  /** `usize` of some machine: `max` is its largest value. */
  predicate WordOf(max: nat) {
    max >= 0xFFFF_FFFF
  }

  function CheckedMul(max: nat, a: nat, b: nat): Option<nat> {
    if a * b <= max then Some(a * b) else None
  }

  /** `x as usize`: sign extension, so negative values wrap. */
  function AsUsize(max: nat, x: Int32): nat
    requires WordOf(max)
  {
    if x >= 0 then x else x + max + 1
  }

  /** The argument checks, up to the call into libmpv. */
  function Check(max: nat, width: Int32, height: Int32, format: PixelFormat, stride: nat, len: nat): Result<(), Error>
    requires WordOf(max)
  {
    var needed := CheckedMul(max, stride, AsUsize(max, if height > 0 then height else 0));
    if needed.None? then Err(InvalidParameter)
    else if width < 0 || height < 0 || len < needed.value then Err(InvalidParameter)
    else
      var minStride := CheckedMul(max, AsUsize(max, width), BytesPerPixel(format));
      if minStride.None? then Err(InvalidParameter)
      else if stride < minStride.value then Err(InvalidParameter)
      else Ok(())
  }

  /** What the checks are for, over unbounded integers. */
  predicate SurfaceFits(width: int, height: int, bpp: nat, stride: nat, len: nat) {
    width >= 0 && height >= 0 && len >= stride * height && stride >= width * bpp
  }

  /** Overflow never lets a surface through, and never keeps a fitting one out. */
  lemma CheckIsExact(max: nat, width: Int32, height: Int32, format: PixelFormat, stride: nat, len: nat)
    requires WordOf(max) && stride <= max && len <= max
    ensures Check(max, width, height, format, stride, len).Ok?
       <==> SurfaceFits(width, height, |Layout(format)|, stride, len)
    ensures Check(max, width, height, format, stride, len).Err? ==>
              Check(max, width, height, format, stride, len).error == InvalidParameter
  {
    if width >= 0 && height >= 0 {
      assert CheckedMul(max, stride, AsUsize(max, height)).None? ==> len < stride * height;
      var bpp := BytesPerPixel(format);
      assert CheckedMul(max, AsUsize(max, width), bpp).None? ==> stride < width * bpp;
    }
  }

  /** The byte k of pixel (x, y). */
  function Index(x: nat, y: nat, k: nat, bpp: nat, stride: nat): nat {
    y * stride + x * bpp + k
  }

  predicate InSurface(x: nat, y: nat, k: nat, width: nat, height: nat, bpp: nat) {
    x < width && y < height && k < bpp
  }

  lemma RowOffset(x: nat, k: nat, width: nat, bpp: nat)
    requires x < width && k < bpp
    ensures x * bpp + k < width * bpp
  {
    assert (x + 1) * bpp <= width * bpp;
  }

  lemma RowsBefore(y: nat, height: nat, stride: nat)
    requires y < height
    ensures (y + 1) * stride <= stride * height
  {
  }

  /** Every byte of every pixel of an accepted surface is in the buffer. */
  lemma PixelsInBounds(x: nat, y: nat, k: nat, width: nat, height: nat, bpp: nat, stride: nat, len: nat)
    requires SurfaceFits(width, height, bpp, stride, len) && InSurface(x, y, k, width, height, bpp)
    ensures Index(x, y, k, bpp, stride) < len
  {
    RowOffset(x, k, width, bpp);
    RowsBefore(y, height, stride);
    assert (y + 1) * stride == y * stride + stride;
  }

  lemma RowsApart(q: nat, q': nat, d: nat)
    ensures q < q' ==> q * d + d <= q' * d
  {
    if q < q' {
      assert (q + 1) * d <= q' * d;
    }
  }

  lemma DivMod(q: nat, r: nat, d: nat, q': nat, r': nat)
    requires r < d && r' < d && q * d + r == q' * d + r'
    ensures q == q' && r == r'
  {
    RowsApart(q, q', d);
    RowsApart(q', q, d);
  }

  /** Different bytes of an accepted surface are at different places. */
  lemma PixelsDistinct(x: nat, y: nat, k: nat, x': nat, y': nat, k': nat,
                       width: nat, height: nat, bpp: nat, stride: nat, len: nat)
    requires SurfaceFits(width, height, bpp, stride, len)
    requires InSurface(x, y, k, width, height, bpp) && InSurface(x', y', k', width, height, bpp)
    requires Index(x, y, k, bpp, stride) == Index(x', y', k', bpp, stride)
    ensures x == x' && y == y' && k == k'
  {
    RowOffset(x, k, width, bpp);
    RowOffset(x', k', width, bpp);
    DivMod(y, x * bpp + k, stride, y', x' * bpp + k');
    DivMod(x, k, bpp, x', k');
  }

  /** A byte of a surface: pixel (x, y), component k of its layout. */
  datatype Place = Place(x: nat, y: nat, k: nat)

  predicate OnSurface(p: Place, width: int, height: int, format: PixelFormat) {
    p.x < width && p.y < height && p.k < |Layout(format)|
  }

  function Offset(p: Place, format: PixelFormat, stride: nat): nat {
    p.y * stride + p.x * |Layout(format)| + p.k
  }

  /** What the checks are for: on an accepted surface every component of every pixel is in the
      buffer, and no two of them are at the same place. */
  lemma AcceptedSurfaceIsSafe(max: nat, width: Int32, height: Int32, format: PixelFormat, stride: nat, len: nat,
                              p: Place, q: Place)
    requires WordOf(max) && stride <= max && len <= max
    requires Check(max, width, height, format, stride, len).Ok?
    requires OnSurface(p, width, height, format) && OnSurface(q, width, height, format)
    ensures Offset(p, format, stride) < len
    ensures Offset(p, format, stride) == Offset(q, format, stride) ==> p == q
  {
    var bpp := |Layout(format)|;
    CheckIsExact(max, width, height, format, stride, len);
    PixelsInBounds(p.x, p.y, p.k, width, height, bpp, stride, len);
    if Offset(p, format, stride) == Offset(q, format, stride) {
      PixelsDistinct(p.x, p.y, p.k, q.x, q.y, q.k, width, height, bpp, stride, len);
    }
  }

  /** And no larger pixel would do: a surface whose rows are one byte too short is refused. */
  lemma ShortRowsAreRefused(max: nat, width: Int32, height: Int32, format: PixelFormat, stride: nat, len: nat)
    requires WordOf(max) && stride <= max && len <= max
    requires width > 0 && stride < width * |Layout(format)|
    ensures Check(max, width, height, format, stride, len) == Err(InvalidParameter)
  {
    CheckIsExact(max, width, height, format, stride, len);
  }
}
