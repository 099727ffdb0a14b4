/**
  The per-pixel part of the raster algebra the two scripts are written in.

  An image lives on the pixel grid of one region. A pixel is `None` where it
  is masked. A multi-band `Image` keeps its band names in order, and for every
  pixel one value per band in that order. A single-band layer (a mask, an index,
  a probability) is a `Band`. Every operation here works pixel by pixel, as the
  raster service's image operators do: a masked operand gives a masked result.
 */
module Raster {

  datatype Option<T> = None | Some(value: T)

  /** A single-band image: one entry per pixel of the region's grid. */
  type Band<T> = seq<Option<T>>

  /** A multi-band image: band names, and per pixel one value per band, in band order. */
  datatype Image<T> = Image(bands: seq<string>, pixels: seq<seq<Option<T>>>)

  /** Every pixel holds exactly one entry per band. */
  predicate Shaped<T>(img: Image<T>)
  {
    forall i | 0 <= i < |img.pixels| :: |img.pixels[i]| == |img.bands|
  }

  /** The image is shaped and has every band in `names` (what `select(names)` demands). */
  predicate HasBands<T>(img: Image<T>, names: seq<string>)
  {
    Shaped(img) && forall n | n in names :: n in img.bands
  }

  function MapOption<A, B>(o: Option<A>, f: A -> B): Option<B>
  {
    match o
    case None => None
    case Some(v) => Some(f(v))
  }

  /** Position of the first band called n. */
  function IndexOf(names: seq<string>, n: string): (k: nat)
    requires n in names
    ensures k < |names| && names[k] == n
  {
    if names[0] == n then 0 else 1 + IndexOf(names[1..], n)
  }

  /** The value of band n at pixel i. */
  function Value<T>(img: Image<T>, i: nat, n: string): Option<T>
    requires Shaped(img) && i < |img.pixels| && n in img.bands
  {
    img.pixels[i][IndexOf(img.bands, n)]
  }

  /** `img.select(n)` for one band, as a single-band layer. */
  function BandOf<T>(img: Image<T>, n: string): (b: Band<T>)
    requires Shaped(img) && n in img.bands
    ensures |b| == |img.pixels|
    ensures forall i | 0 <= i < |b| :: b[i] == Value(img, i, n)
  {
    seq(|img.pixels|, i requires 0 <= i < |img.pixels| => Value(img, i, n))
  }

  /** `img.select(names)`: the named bands, in the order given. */
  function Select<T>(img: Image<T>, names: seq<string>): (r: Image<T>)
    requires HasBands(img, names)
    ensures r.bands == names && |r.pixels| == |img.pixels| && Shaped(r)
    ensures forall i, j | 0 <= i < |r.pixels| && 0 <= j < |names| :: r.pixels[i][j] == Value(img, i, names[j])
  {
    Image(names, seq(|img.pixels|, i requires 0 <= i < |img.pixels| =>
      seq(|names|, j requires 0 <= j < |names| => Value(img, i, names[j]))))
  }

  /** `img.rename(names)`: positional renaming; the pixels are untouched. */
  function Rename<T>(img: Image<T>, names: seq<string>): (r: Image<T>)
    requires |names| == |img.bands|
    ensures r.bands == names && r.pixels == img.pixels
  {
    Image(names, img.pixels)
  }

  /** Applies f to every unmasked value of every band. */
  function MapValues<A, B>(img: Image<A>, f: A -> B): (r: Image<B>)
    requires Shaped(img)
    ensures r.bands == img.bands && |r.pixels| == |img.pixels| && Shaped(r)
    ensures forall i, j | 0 <= i < |r.pixels| && 0 <= j < |r.bands| :: r.pixels[i][j] == MapOption(img.pixels[i][j], f)
  {
    Image(img.bands, seq(|img.pixels|, i requires 0 <= i < |img.pixels| =>
      seq(|img.bands|, j requires 0 <= j < |img.bands| => MapOption(img.pixels[i][j], f))))
  }

  /** `multiply(c)` on integer digital numbers: the result is floating point. */
  function Multiply(img: Image<nat>, c: real): (r: Image<real>)
    requires Shaped(img)
    ensures r.bands == img.bands && |r.pixels| == |img.pixels| && Shaped(r)
  {
    MapValues(img, (v: nat) => v as real * c)
  }

  /** `add(c)`. */
  function Add(img: Image<real>, c: real): (r: Image<real>)
    requires Shaped(img)
    ensures r.bands == img.bands && |r.pixels| == |img.pixels| && Shaped(r)
  {
    MapValues(img, (v: real) => v + c)
  }

  /** `divide(d)` on integer digital numbers: the result is floating point. */
  function Divide(img: Image<nat>, d: real): (r: Image<real>)
    requires Shaped(img) && d != 0.0
    ensures r.bands == img.bands && |r.pixels| == |img.pixels| && Shaped(r)
  {
    MapValues(img, (v: nat) => v as real / d)
  }

  /** A mask pixel lets the image through where it is unmasked and non-zero. */
  predicate Passes(m: Option<int>)
  {
    m.Some? && m.value != 0
  }

  /** `img.updateMask(mask)`: one single-band mask applied to every band. */
  function UpdateMask<T>(img: Image<T>, mask: Band<int>): (r: Image<T>)
    requires Shaped(img) && |mask| == |img.pixels|
    ensures r.bands == img.bands && |r.pixels| == |img.pixels| && Shaped(r)
    ensures forall i, j | 0 <= i < |r.pixels| && 0 <= j < |r.bands| ::
      r.pixels[i][j] == if Passes(mask[i]) then img.pixels[i][j] else None
  {
    Image(img.bands, seq(|img.pixels|, i requires 0 <= i < |img.pixels| =>
      if Passes(mask[i]) then img.pixels[i] else seq(|img.bands|, _ => None)))
  }

  /** `updateMask` on a single-band layer. */
  function UpdateMaskBand<T>(b: Band<T>, mask: Band<int>): (r: Band<T>)
    requires |mask| == |b|
    ensures |r| == |b|
    ensures forall i | 0 <= i < |r| :: r[i] == if Passes(mask[i]) then b[i] else None
  {
    seq(|b|, i requires 0 <= i < |b| => if Passes(mask[i]) then b[i] else None)
  }

  /** A 0/1 layer from a per-value test, masked where the input is masked (`eq`, `neq`, `gte`, ...). */
  function Classify<T>(b: Band<T>, test: T -> bool): (r: Band<int>)
    ensures |r| == |b|
    ensures forall i | 0 <= i < |r| :: r[i] == MapOption(b[i], (v: T) => if test(v) then 1 else 0)
  {
    seq(|b|, i requires 0 <= i < |b| => MapOption(b[i], (v: T) => if test(v) then 1 else 0))
  }

  /** `gte(t)`: 1 where the value is at least t, 0 below it, masked where masked. */
  function Gte(b: Band<real>, t: real): (r: Band<int>)
    ensures |r| == |b|
    ensures forall i | 0 <= i < |r| ::
      (r[i] == None <==> b[i] == None) &&
      (r[i] == Some(1) <==> b[i].Some? && b[i].value >= t) &&
      (r[i] == Some(0) <==> b[i].Some? && b[i].value < t)
  {
    Classify(b, (v: real) => v >= t)
  }

  /** `lte(t)`: 1 where the value is at most t, 0 above it, masked where masked. */
  function Lte(b: Band<real>, t: real): (r: Band<int>)
    ensures |r| == |b|
    ensures forall i | 0 <= i < |r| ::
      (r[i] == None <==> b[i] == None) &&
      (r[i] == Some(1) <==> b[i].Some? && b[i].value <= t) &&
      (r[i] == Some(0) <==> b[i].Some? && b[i].value > t)
  {
    Classify(b, (v: real) => v <= t)
  }

  /** A pixel-wise binary operator: masked where either operand is masked. */
  function Combine(a: Band<int>, b: Band<int>, op: (int, int) -> int): (r: Band<int>)
    requires |a| == |b|
    ensures |r| == |a|
    ensures forall i | 0 <= i < |r| ::
      r[i] == if a[i].Some? && b[i].Some? then Some(op(a[i].value, b[i].value)) else None
  {
    seq(|a|, i requires 0 <= i < |a| =>
      if a[i].Some? && b[i].Some? then Some(op(a[i].value, b[i].value)) else None)
  }

  /** `a.or(b)`: 1 where either is non-zero. */
  function Or(a: Band<int>, b: Band<int>): (r: Band<int>)
    requires |a| == |b|
    ensures |r| == |a|
  {
    Combine(a, b, (x: int, y: int) => if x != 0 || y != 0 then 1 else 0)
  }

  /** `a.neq(b)`: 1 where the two values differ. */
  function Neq(a: Band<int>, b: Band<int>): (r: Band<int>)
    requires |a| == |b|
    ensures |r| == |a|
  {
    Combine(a, b, (x: int, y: int) => if x != y then 1 else 0)
  }

  /** `a.not()`: 1 where the value is zero, 0 elsewhere. */
  function Not(a: Band<int>): (r: Band<int>)
    ensures |r| == |a|
    ensures forall i | 0 <= i < |r| :: r[i] == MapOption(a[i], (x: int) => if x == 0 then 1 else 0)
  {
    Classify(a, (x: int) => x == 0)
  }

  /** `unmask(v)`: every masked pixel takes the value v, so the result is masked nowhere. */
  function Unmask<T>(b: Band<T>, v: T): (r: Band<T>)
    ensures |r| == |b|
    ensures forall i | 0 <= i < |r| :: r[i].Some?
    ensures forall i | 0 <= i < |r| :: r[i] == if b[i].Some? then b[i] else Some(v)
  {
    seq(|b|, i requires 0 <= i < |b| => if b[i].Some? then b[i] else Some(v))
  }

  /** `selfMask()`: masks every pixel whose value is zero. */
  function SelfMask(b: Band<int>): (r: Band<int>)
    ensures |r| == |b|
    ensures forall i | 0 <= i < |r| :: r[i] == if Passes(b[i]) then b[i] else None
  {
    UpdateMaskBand(b, b)
  }

  /**
    `clip(region)` onto the region's grid of `size` pixels: pixels the image
    does not cover are masked.
   */
  function Clip<T>(b: Band<T>, size: nat): (r: Band<T>)
    ensures |r| == size
    ensures forall i | 0 <= i < size :: r[i] == if i < |b| then b[i] else None
  {
    seq(size, i requires 0 <= i < size => if i < |b| then b[i] else None)
  }

  /** `ee.Image(0).updateMask(ee.Image(0))` on the region's grid: masked everywhere. */
  function EmptyBand<T>(size: nat): (r: Band<T>)
    ensures |r| == size
    ensures forall i | 0 <= i < size :: r[i] == None
  {
    seq(size, _ => None)
  }
}
