/**
 * The overlay model of the bracket images (src/visual/model.rs): packed
 * colours, the two pixel fills, components placed on a canvas, and the
 * canvas's overlay list.
 *
 * Pixel data is opaque here: an `Image` is only its width and height, which
 * the image library reports as `u32`.  Pixel buffers are `array2`s indexed
 * `[y, x]`, that is, by row and then by column.
 */
module Visual {
  import opened Wrappers
  import opened RustInt

  datatype Rgba = Rgba(r: uint8, g: uint8, b: uint8, a: uint8)

  /** `Rgba([0, 0, 0, 0])`. */
  const Transparent: Rgba := Rgba(0, 0, 0, 0)

  /** `x >> n` on an `i64`: an arithmetic shift, which rounds toward minus infinity. */
  function ShiftRight(x: int, n: nat): (r: int)
    ensures r * Pow2(n) <= x < r * Pow2(n) + Pow2(n)
  {
    x / Pow2(n)
  }

  function Pow2(n: nat): (p: nat)
    ensures p >= 1
  {
    if n == 0 then 1 else 2 * Pow2(n - 1)
  }

  /**
   * The channel unpacking of lines 58-61 (and 79-82): red from bits 24-31,
   * green from 16-23, blue from 8-15, alpha from 0-7 of the packed colour.
   */
  function UnpackColor(color: int64): (px: Rgba)
    ensures px.r as int == (color as int / 0x100_0000) % 0x100
    ensures px.g as int == (color as int / 0x1_0000) % 0x100
    ensures px.b as int == (color as int / 0x100) % 0x100
    ensures px.a as int == color as int % 0x100
  {
    assert Pow2(8) == 0x100 && Pow2(16) == 0x1_0000 && Pow2(24) == 0x100_0000 by {
      assert Pow2(4) == 16;
      assert Pow2(8) == 256;
      assert Pow2(12) == 4096;
      assert Pow2(16) == 65536;
      assert Pow2(20) == 1048576;
    }
    Rgba(AsUint8(ShiftRight(color as int, 24)),
         AsUint8(ShiftRight(color as int, 16)),   // `& 0xFF` keeps the bits `as u8` keeps
         AsUint8(ShiftRight(color as int, 8)),
         AsUint8(color as int))
  }

  /** `(r << 24) | (g << 16) | (b << 8) | a`: the channels occupy disjoint bits. */
  function PackColor(px: Rgba): (color: int)
    ensures 0 <= color < 0x1_0000_0000
  {
    px.r as int * 0x100_0000 + px.g as int * 0x1_0000 + px.b as int * 0x100 + px.a as int
  }

  /** Unpacking a 32-bit colour and packing the channels again gives the colour back. */
  lemma PackUnpack(color: int64)
    requires 0 <= color < 0x1_0000_0000
    ensures PackColor(UnpackColor(color)) == color as int
  {
    var c := color as int;
    var q1, q2, q3 := c / 0x100, c / 0x1_0000, c / 0x100_0000;
    SplitQuotient(c, q1 / 0x100, (q1 % 0x100) * 0x100 + c % 0x100, 0x1_0000);
    assert q2 == q1 / 0x100;
    SplitQuotient(c, q2 / 0x100, (q2 % 0x100) * 0x1_0000 + (q1 % 0x100) * 0x100 + c % 0x100, 0x100_0000);
    assert q3 == q2 / 0x100 && q3 < 0x100;
  }

  /** Packing four channels and unpacking them again gives the same channels. */
  lemma UnpackPack(px: Rgba)
    ensures UnpackColor(PackColor(px) as int64) == px
  {
    var r, g, b, a := px.r as int, px.g as int, px.b as int, px.a as int;
    var c := PackColor(px);
    assert c / 0x100_0000 == r by {
      SplitQuotient(c, r, g * 0x1_0000 + b * 0x100 + a, 0x100_0000);
    }
    assert c / 0x1_0000 == r * 0x100 + g by {
      SplitQuotient(c, r * 0x100 + g, b * 0x100 + a, 0x1_0000);
    }
    assert (r * 0x100 + g) % 0x100 == g by {
      SplitQuotient(r * 0x100 + g, r, g, 0x100);
    }
    assert c / 0x100 == r * 0x1_0000 + g * 0x100 + b by {
      SplitQuotient(c, r * 0x1_0000 + g * 0x100 + b, a, 0x100);
    }
    assert (r * 0x1_0000 + g * 0x100 + b) % 0x100 == b by {
      SplitQuotient(r * 0x1_0000 + g * 0x100 + b, r * 0x100 + g, b, 0x100);
    }
    assert c % 0x100 == a by {
      SplitQuotient(c, r * 0x1_0000 + g * 0x100 + b, a, 0x100);
    }
  }

  /** Dividing `hi * m + lo` by `m`, for `lo` in 0..m, gives `hi` with remainder `lo`. */
  lemma SplitQuotient(c: int, hi: int, lo: int, m: int)
    requires m > 0 && 0 <= lo < m && c == hi * m + lo
    ensures c / m == hi && c % m == lo
  {
    var q, rem := c / m, c % m;
    assert q * m + rem == hi * m + lo;
    MulAwayFromZero(q - hi, m);
  }

  /** A non-zero multiple of `m` is at least `m` away from zero. */
  lemma {:induction false} MulAwayFromZero(k: int, m: int)
    requires m > 0
    ensures k >= 1 ==> k * m >= m
    ensures k <= -1 ==> k * m <= -m
    decreases if k < 0 then -k else k
  {
    if k > 1 {
      MulAwayFromZero(k - 1, m);
    } else if k < -1 {
      MulAwayFromZero(k + 1, m);
    }
  }

  datatype Rectangle = Rectangle(width: int64, height: int64, color: int64)

  datatype Parallelogram = Parallelogram(top: int64, bottom: int64, height: int64, color: int64)

  /**
   * `Rectangle::build`: a `width` by `height` buffer (each cast to `u32`)
   * whose every pixel is the rectangle's colour.
   */
  method BuildRectangle(rect: Rectangle) returns (img: array2<Rgba>)
    ensures fresh(img)
    ensures img.Length0 == AsUint32(rect.height as int) as int
    ensures img.Length1 == AsUint32(rect.width as int) as int
    ensures forall y, x :: 0 <= y < img.Length0 && 0 <= x < img.Length1 ==> img[y, x] == UnpackColor(rect.color)
  {
    var px := UnpackColor(rect.color);
    img := new Rgba[AsUint32(rect.height as int), AsUint32(rect.width as int)]((_, _) => Transparent);
    for y := 0 to img.Length0
      invariant forall j, i :: 0 <= j < y && 0 <= i < img.Length1 ==> img[j, i] == px
    {
      for x := 0 to img.Length1
        invariant forall j, i :: 0 <= j < y && 0 <= i < img.Length1 ==> img[j, i] == px
        invariant forall i :: 0 <= i < x ==> img[y, i] == px
      {
        img[y, x] := px;
      }
    }
  }

  /**
   * `Parallelogram::build`: a `height` by `height` buffer in which a row lies
   * in the band when it is neither above `top` nor below `bottom` (each cast
   * to `u32`); band rows carry the colour and the others are transparent.
   */
  method BuildParallelogram(shape: Parallelogram) returns (img: array2<Rgba>)
    ensures fresh(img)
    ensures img.Length0 == img.Length1 == AsUint32(shape.height as int) as int
    ensures forall y, x :: 0 <= y < img.Length0 && 0 <= x < img.Length1 ==>
      img[y, x] == if y < AsUint32(shape.top as int) as int || y > AsUint32(shape.bottom as int) as int
                   then Transparent else UnpackColor(shape.color)
  {
    var px := UnpackColor(shape.color);
    var side := AsUint32(shape.height as int);
    var top := AsUint32(shape.top as int) as int;
    var bottom := AsUint32(shape.bottom as int) as int;
    img := new Rgba[side, side]((_, _) => Transparent);
    for y := 0 to img.Length0
      invariant forall j, i :: 0 <= j < y && 0 <= i < img.Length1 ==>
        img[j, i] == if j < top || j > bottom then Transparent else px
    {
      for x := 0 to img.Length1
        invariant forall j, i :: 0 <= j < y && 0 <= i < img.Length1 ==>
          img[j, i] == if j < top || j > bottom then Transparent else px
        invariant forall i :: 0 <= i < x ==> img[y, i] == if y < top || y > bottom then Transparent else px
      {
        if y < top {
          img[y, x] := Transparent;
        } else if y > bottom {
          img[y, x] := Transparent;
        } else {
          img[y, x] := px;
        }
      }
    }
  }

  /** An image whose pixels are not modelled. */
  datatype Image = Image(width: uint32, height: uint32)

  /** The name given to a component or canvas created without one. */
  const Untitled: string := "untitled"

  /** Where a component of width (or height) `size` starts when centred on a span `base`. */
  function CenterOffset(base: int64, size: uint32): (offset: int64)
    requires InInt64(base as int - size as int)
    ensures -1 <= 2 * offset as int - (base as int - size as int) <= 1
    ensures base as int - size as int >= 0 ==> 0 <= base as int - size as int - 2 * offset as int
    ensures base as int - size as int < 0 ==> 2 * offset as int - (base as int - size as int) >= 0
  {
    TruncHalf(base as int - size as int) as int64
  }

  /** An image placed at (`x`, `y`) on a canvas. */
  class Component {
    var x: int64
    var y: int64
    const img: Image
    var name: string

    /** `Component::new`: a missing position defaults to the image's size, a missing name to "untitled". */
    constructor (img: Image, x: Option<int64>, y: Option<int64>, name: Option<string>)
      ensures this.img == img
      ensures this.x == x.UnwrapOr(img.width as int64)
      ensures this.y == y.UnwrapOr(img.height as int64)
      ensures this.name == name.UnwrapOr(Untitled)
    {
      this.img := img;
      this.x := x.UnwrapOr(img.width as int64);
      this.y := y.UnwrapOr(img.height as int64);
      this.name := name.UnwrapOr(Untitled);
    }

    /** `width`: the image's `u32` width, widened to an `i64`. */
    function Width(): (w: int64)
      ensures w as int == img.width as int
      ensures 0 <= w as int < 0x1_0000_0000
    {
      img.width as int64
    }

    /** `height`: the image's `u32` height, widened to an `i64`. */
    function Height(): (h: int64)
      ensures h as int == img.height as int
      ensures 0 <= h as int < 0x1_0000_0000
    {
      img.height as int64
    }

    method SetX(x: int64)
      modifies this`x
      ensures this.x == x
    {
      this.x := x;
    }

    method SetY(y: int64)
      modifies this`y
      ensures this.y == y
    {
      this.y := y;
    }

    /** `get_center_x`: the x at which this component is centred on a span of `baseWidth`. */
    function GetCenterX(baseWidth: int64): (cx: int64)
      requires InInt64(baseWidth as int - img.width as int)
      ensures -1 <= 2 * cx as int + img.width as int - baseWidth as int <= 1
    {
      CenterOffset(baseWidth, img.width)
    }

    /** `get_center_y`: the y at which this component is centred on a span of `baseHeight`. */
    function GetCenterY(baseHeight: int64): (cy: int64)
      requires InInt64(baseHeight as int - img.height as int)
      ensures -1 <= 2 * cy as int + img.height as int - baseHeight as int <= 1
    {
      CenterOffset(baseHeight, img.height)
    }

    /** `set_center_x`: moves the component to the x that `get_center_x` reports. */
    method SetCenterX(parentWidth: int64)
      requires InInt64(parentWidth as int - img.width as int)
      modifies this`x
      ensures x == GetCenterX(parentWidth)
      ensures -1 <= 2 * x as int - (parentWidth as int - img.width as int) <= 1
    {
      x := CenterOffset(parentWidth, img.width);
    }

    /** `set_center_y`: moves the component to the y that `get_center_y` reports. */
    method SetCenterY(parentHeight: int64)
      requires InInt64(parentHeight as int - img.height as int)
      modifies this`y
      ensures y == GetCenterY(parentHeight)
      ensures -1 <= 2 * y as int - (parentHeight as int - img.height as int) <= 1
    {
      y := CenterOffset(parentHeight, img.height);
    }

    /**
     * `set_relative_center_x`: lines this component's horizontal midpoint up
     * with that of `dependent`, up to rounding: it centres itself on the span
     * `2 * dependent.x + dependent.width()`.  Rust's borrow rules keep
     * `dependent` apart from `self`.
     */
    method SetRelativeCenterX(dependent: Component)
      requires dependent != this
      requires InInt64(2 * dependent.x as int)
      requires InInt64(2 * dependent.x as int + dependent.img.width as int)
      requires InInt64(2 * dependent.x as int + dependent.img.width as int - img.width as int)
      modifies this`x
      ensures x == GetCenterX((2 * dependent.x as int + dependent.img.width as int) as int64)
      ensures -1 <= (2 * x as int + img.width as int) - (2 * dependent.x as int + dependent.img.width as int) <= 1
    {
      SetCenterX((2 * dependent.x as int + dependent.Width() as int) as int64);
    }

    /** `set_relative_center_y`: the same for the vertical midpoints. */
    method SetRelativeCenterY(dependent: Component)
      requires dependent != this
      requires InInt64(2 * dependent.y as int)
      requires InInt64(2 * dependent.y as int + dependent.img.height as int)
      requires InInt64(2 * dependent.y as int + dependent.img.height as int - img.height as int)
      modifies this`y
      ensures y == GetCenterY((2 * dependent.y as int + dependent.img.height as int) as int64)
      ensures -1 <= (2 * y as int + img.height as int) - (2 * dependent.y as int + dependent.img.height as int) <= 1
    {
      SetCenterY((2 * dependent.y as int + dependent.Height() as int) as int64);
    }
  }

  /**
   * The size `BSImage::new` gives the canvas: the given width and height when
   * both are present, and otherwise the background's own size.
   */
  function CanvasSize(width: Option<int64>, height: Option<int64>, bg: Image): (size: (int64, int64))
    ensures width.Some? && height.Some? ==> size == (width.value, height.value)
    ensures width.None? || height.None? ==> size == (bg.width as int64, bg.height as int64)
  {
    match (width, height)
    case (Some(w), Some(h)) => (w, h)
    case _ => (bg.width as int64, bg.height as int64)
  }

  /** A background image with the components drawn over it, in order. */
  class BSImage {
    var width: int64
    var height: int64
    const bg: Image
    var name: string
    var overlay: seq<Component>

    /** `BSImage::new`: the background is given instead of read from its path. */
    constructor (width: Option<int64>, height: Option<int64>, bg: Image, name: Option<string>)
      ensures (this.width, this.height) == CanvasSize(width, height, bg)
      ensures this.bg == bg
      ensures this.name == name.UnwrapOr(Untitled)
      ensures overlay == []
    {
      var size := CanvasSize(width, height, bg);
      this.width := size.0;
      this.height := size.1;
      this.bg := bg;
      this.name := name.UnwrapOr(Untitled);
      overlay := [];
    }

    /** `add_overlay`: appends a component; the earlier ones stay, in order, below it. */
    method AddOverlay(c: Component)
      modifies this`overlay
      ensures overlay == old(overlay) + [c]
      ensures |overlay| == |old(overlay)| + 1 && overlay[|overlay| - 1] == c
      ensures overlay[..|old(overlay)|] == old(overlay)
    {
      overlay := overlay + [c];
    }
  }
}
