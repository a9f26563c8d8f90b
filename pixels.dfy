/** The two pixel layouts of the renderer and their channel serialisation.
    `RGBPixel` and `RGBAPixel` share one capability: a zero constructor
    (`new`) and `values`, which lists the channels in the fixed order
    R, G, B[, A]. The closed set of layouts becomes one datatype with one
    constructor per layout; `Kind` is the layout tag an image is built for. */
module Pixels {

  /** Rust's `u8`. */
  newtype u8 = x: int | 0 <= x < 256

  datatype Option<T> = None | Some(value: T)

  /** Which pixel layout an image holds. */
  datatype Kind = RGBKind | RGBAKind

  datatype Pixel =
    | RGB(r: u8, g: u8, b: u8)
    | RGBA(r: u8, g: u8, b: u8, a: u8)

  function KindOf(p: Pixel): Kind {
    match p
    case RGB(_, _, _) => RGBKind
    case RGBA(_, _, _, _) => RGBAKind
  }

  /** Number of channels a pixel of kind `k` serialises to. */
  function Arity(k: Kind): (n: nat)
    ensures n == 3 || n == 4
    ensures n == 3 <==> k == RGBKind
  {
    match k
    case RGBKind => 3
    case RGBAKind => 4
  }

  /** `T::new()`: the pixel of kind `k` whose every channel is zero. */
  function Zero(k: Kind): (p: Pixel)
    ensures KindOf(p) == k
    ensures p.r == 0 && p.g == 0 && p.b == 0
    ensures p.RGBA? ==> p.a == 0
  {
    match k
    case RGBKind => RGB(0, 0, 0)
    case RGBAKind => RGBA(0, 0, 0, 0)
  }

  /** `values()`: the channels in the order R, G, B and, for RGBA, A. */
  function Values(p: Pixel): (s: seq<u8>)
    ensures |s| == Arity(KindOf(p))
    ensures s[0] == p.r && s[1] == p.g && s[2] == p.b
    ensures p.RGBA? ==> s[3] == p.a
  {
    match p
    case RGB(r, g, b) => [r, g, b]
    case RGBA(r, g, b, a) => [r, g, b, a]
  }

  /** Reads a pixel of kind `k` back from its channel bytes; `None` when the
      number of bytes is not the arity of `k`. */
  function FromValues(k: Kind, s: seq<u8>): (o: Option<Pixel>)
    ensures o.Some? <==> |s| == Arity(k)
    ensures o.Some? ==> KindOf(o.value) == k
  {
    if |s| != Arity(k) then None
    else match k
      case RGBKind => Some(RGB(s[0], s[1], s[2]))
      case RGBAKind => Some(RGBA(s[0], s[1], s[2], s[3]))
  }

  /** A zero pixel serialises to zero bytes only, for either layout. */
  lemma ZeroValues(k: Kind)
    ensures Values(Zero(k)) == seq(Arity(k), _ => 0 as u8)
  {
  }

  /** `values()` loses nothing: the pixel is recovered from its bytes. */
  lemma FromValuesOfValues(p: Pixel)
    ensures FromValues(KindOf(p), Values(p)) == Some(p)
  {
  }

  /** The converse: every pixel read back serialises to the bytes it was read from. */
  lemma ValuesOfFromValues(k: Kind, s: seq<u8>)
    requires FromValues(k, s).Some?
    ensures Values(FromValues(k, s).value) == s
  {
  }

  /** Two pixels with the same serialisation are the same pixel. */
  lemma ValuesInjective(p: Pixel, q: Pixel)
    requires Values(p) == Values(q)
    ensures p == q
  {
    FromValuesOfValues(p);
    FromValuesOfValues(q);
  }
}
