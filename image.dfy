/** `Image<T>`: a buffer of pixels that all share one layout, built zero
    filled, and its flattening into the byte sequence handed to the encoder. */
module Images {
  import opened Pixels

  /** Every pixel of `buf` has layout `k`; Rust's `Vec<T>` guarantees this. */
  ghost predicate Uniform(k: Kind, buf: seq<Pixel>) {
    forall i :: 0 <= i < |buf| ==> KindOf(buf[i]) == k
  }

  datatype ImageData = ImageData(kind: Kind, buffer: seq<Pixel>)

  /** The image type, generic over the pixel layout through its `kind` tag. */
  type Image = img: ImageData | Uniform(img.kind, img.buffer) witness ImageData(RGBKind, [])

  /** `Image::new(length)`: `length` copies of the zero pixel. */
  function New(kind: Kind, length: nat): (img: Image)
    ensures img.kind == kind && |img.buffer| == length
    ensures forall i :: 0 <= i < length ==> img.buffer[i] == Zero(kind)
  {
    ImageData(kind, seq(length, _ => Zero(kind)))
  }

  /** The concatenation of every pixel's `values()` in buffer order. */
  function Flatten(buf: seq<Pixel>): seq<u8> {
    if buf == [] then [] else Values(buf[0]) + Flatten(buf[1..])
  }

  /** `raw_buffer()`: every pixel's channels, pixel after pixel. Pixel `i`
      occupies bytes `i * Arity .. (i + 1) * Arity`, channel `c` at offset `c`. */
  function RawBuffer(img: Image): (r: seq<u8>)
    ensures |r| == |img.buffer| * Arity(img.kind)
    ensures forall i, c :: 0 <= i < |img.buffer| && 0 <= c < Arity(img.kind) ==>
      i * Arity(img.kind) + c < |r| && r[i * Arity(img.kind) + c] == Values(img.buffer[i])[c]
  {
    FlattenLayout(img.kind, img.buffer);
    Flatten(img.buffer)
  }

  lemma {:induction false} FlattenAppend(a: seq<Pixel>, b: seq<Pixel>)
    ensures Flatten(a + b) == Flatten(a) + Flatten(b)
  {
    if a == [] {
      assert a + b == b;
    } else {
      assert (a + b)[1..] == a[1..] + b;
      FlattenAppend(a[1..], b);
    }
  }

  /** The flattened buffer has `Arity` bytes per pixel. */
  lemma {:induction false} FlattenLength(k: Kind, buf: seq<Pixel>)
    requires Uniform(k, buf)
    ensures |Flatten(buf)| == |buf| * Arity(k)
  {
    if buf != [] {
      FlattenLength(k, buf[1..]);
      assert |Flatten(buf)| == Arity(k) + (|buf| - 1) * Arity(k);
    }
  }

  /** Byte `i * Arity + c` of the flattened buffer is channel `c` of pixel `i`. */
  lemma {:induction false} FlattenAt(k: Kind, buf: seq<Pixel>, i: nat, c: nat)
    requires Uniform(k, buf)
    requires i < |buf| && c < Arity(k)
    ensures i * Arity(k) + c < |Flatten(buf)|
    ensures Flatten(buf)[i * Arity(k) + c] == Values(buf[i])[c]
  {
    FlattenLength(k, buf);
    assert i * Arity(k) + c < |buf| * Arity(k) by {
      assert i * Arity(k) <= (|buf| - 1) * Arity(k);
    }
    if i > 0 {
      FlattenAt(k, buf[1..], i - 1, c);
      assert i * Arity(k) + c == Arity(k) + ((i - 1) * Arity(k) + c);
    }
  }

  lemma FlattenLayout(k: Kind, buf: seq<Pixel>)
    requires Uniform(k, buf)
    ensures |Flatten(buf)| == |buf| * Arity(k)
    ensures forall i, c :: 0 <= i < |buf| && 0 <= c < Arity(k) ==>
      i * Arity(k) + c < |Flatten(buf)| && Flatten(buf)[i * Arity(k) + c] == Values(buf[i])[c]
  {
    FlattenLength(k, buf);
    forall i, c | 0 <= i < |buf| && 0 <= c < Arity(k)
      ensures i * Arity(k) + c < |Flatten(buf)| && Flatten(buf)[i * Arity(k) + c] == Values(buf[i])[c]
    {
      FlattenAt(k, buf, i, c);
    }
  }

  /** Splits a byte sequence back into pixels of kind `k`, `Arity(k)` bytes
      each; `None` when the bytes do not divide into whole pixels. */
  function Unflatten(k: Kind, bytes: seq<u8>): (o: Option<seq<Pixel>>)
    decreases |bytes|
    ensures o.Some? <==> |bytes| % Arity(k) == 0
    ensures o.Some? ==> Uniform(k, o.value) && |o.value| * Arity(k) == |bytes|
  {
    var n := Arity(k);
    if |bytes| == 0 then Some([])
    else if |bytes| < n then None
    else
      match Unflatten(k, bytes[n..])
      case None => None
      case Some(rest) => Some([FromValues(k, bytes[..n]).value] + rest)
  }

  /** The byte export loses nothing: the pixel buffer is recovered from it. */
  lemma {:induction false} UnflattenFlatten(k: Kind, buf: seq<Pixel>)
    requires Uniform(k, buf)
    ensures Unflatten(k, Flatten(buf)) == Some(buf)
  {
    if buf != [] {
      var n := Arity(k);
      var bytes := Flatten(buf);
      FlattenLength(k, buf[1..]);
      assert bytes[..n] == Values(buf[0]);
      assert bytes[n..] == Flatten(buf[1..]);
      UnflattenFlatten(k, buf[1..]);
      FromValuesOfValues(buf[0]);
      assert [buf[0]] + buf[1..] == buf;
    }
  }

  /** The converse: any buffer read back from bytes flattens to those bytes. */
  lemma {:induction false} FlattenUnflatten(k: Kind, bytes: seq<u8>)
    requires Unflatten(k, bytes).Some?
    ensures Flatten(Unflatten(k, bytes).value) == bytes
    decreases |bytes|
  {
    if |bytes| != 0 {
      var n := Arity(k);
      var buf := Unflatten(k, bytes).value;
      FlattenUnflatten(k, bytes[n..]);
      ValuesOfFromValues(k, bytes[..n]);
      assert buf[1..] == Unflatten(k, bytes[n..]).value;
      assert bytes == bytes[..n] + bytes[n..];
    }
  }

  /** Equal exports come from images with equal buffers. */
  lemma RawBufferInjective(x: Image, y: Image)
    requires x.kind == y.kind && RawBuffer(x) == RawBuffer(y)
    ensures x.buffer == y.buffer
  {
    UnflattenFlatten(x.kind, x.buffer);
    UnflattenFlatten(y.kind, y.buffer);
  }

  /** Flattening `n` zero pixels gives `n * Arity` zero bytes. */
  lemma {:induction false} FlattenZeros(kind: Kind, n: nat)
    ensures Flatten(seq(n, _ => Zero(kind))) == seq(n * Arity(kind), _ => 0 as u8)
  {
    if n > 0 {
      var buf := seq(n, _ => Zero(kind));
      assert buf[0] == Zero(kind);
      assert buf[1..] == seq(n - 1, _ => Zero(kind));
      FlattenZeros(kind, n - 1);
      ZeroValues(kind);
      assert n * Arity(kind) == Arity(kind) + (n - 1) * Arity(kind);
      assert seq(Arity(kind), _ => 0 as u8) + seq((n - 1) * Arity(kind), _ => 0 as u8)
          == seq(n * Arity(kind), _ => 0 as u8);
    }
  }

  /** A freshly built image exports only zero bytes, `length * Arity` of them. */
  lemma NewRawBufferZero(kind: Kind, length: nat)
    ensures RawBuffer(New(kind, length)) == seq(length * Arity(kind), _ => 0 as u8)
  {
    FlattenZeros(kind, length);
  }

  /** `Image::new(0).raw_buffer()` is empty. */
  lemma EmptyImageRawBuffer(kind: Kind)
    ensures RawBuffer(New(kind, 0)) == []
  {
  }
}
