/** The one configuration the program builds: an RGBA image of
    `Width * Height` pixels whose exported buffer goes to the encoder
    together with `Width`, `Height` and the RGBA-8 layout tag. */
module Config {
  import opened Pixels
  import opened Images

  const Width: nat := 800
  const Height: nat := 600

  /** `PIXELS_SIZE`, computed in `u32` before the widening to `usize`. */
  function PixelsSize(): (n: nat)
    ensures n < 0x1_0000_0000
    ensures n == Width * Height
  {
    (Width * Height) % 0x1_0000_0000
  }

  /** The exported buffer holds four bytes for every pixel of the raster,
      all of them zero. */
  lemma ExportedBuffer()
    ensures |RawBuffer(New(RGBAKind, PixelsSize()))| == 800 * 600 * 4
    ensures RawBuffer(New(RGBAKind, PixelsSize())) == seq(Width * Height * 4, _ => 0 as u8)
  {
    NewRawBufferZero(RGBAKind, PixelsSize());
  }
}
