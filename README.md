# Pixel and image buffer of a minimal ray tracer

This project models the integer layer of a small Rust ray tracer: the two
pixel layouts (`RGBPixel`, three `u8` channels, and `RGBAPixel`, four) with
their zero constructor `new()` and their channel serialiser `values()`, and
the generic `Image<T>` buffer with its constructor `Image::new(length)` and
its export `raw_buffer()`, which concatenates every pixel's `values()` in
buffer order into the byte sequence handed to the image encoder.

- `pixels.dfy`, module `Pixels`: a `u8` newtype, the layout tag `Kind`, the
  `Pixel` datatype with one constructor per layout, `Arity`, `Zero` (for
  `new()`), `Values` (for `values()`) and its inverse `FromValues`.
- `image.dfy`, module `Images`: the image as a layout tag plus a buffer
  whose pixels all have that layout (a subset type, standing for the Rust
  type parameter `T`), `New`, the recursive `Flatten` and `RawBuffer`, and
  its inverse `Unflatten` with the two round-trip lemmas.
- `config.dfy`, module `Config`: the 800 × 600 RGBA image the program builds.

`raw_buffer()` borrows the image immutably; in the model images are values,
so an export cannot change the buffer it reads.

## Model

| member | source | states |
|---|---|---|
| Pixels.Arity | src/pixels.rs:26-38 | an RGB pixel has 3 channels and an RGBA pixel 4, and no other count occurs |
| Pixels.Zero | src/pixels.rs:22-24 | `new()` gives a pixel of the requested layout with r, g, b and, for RGBA, a all zero |
| Pixels.Values | src/pixels.rs:26-28 | `values()` has exactly the layout's arity of bytes, in the order r, g, b and then a for RGBA |
| Pixels.FromValues | src/pixels.rs:26-38 | bytes are read back as a pixel exactly when their count is the layout's arity, yielding that layout |
| Pixels.ZeroValues | src/pixels.rs:32-38 | the values of a freshly built pixel are all zero bytes, for either layout |
| Pixels.FromValuesOfValues | src/pixels.rs:26-38 | `values()` is lossless: the pixel is recovered from its bytes |
| Pixels.ValuesOfFromValues | src/pixels.rs:26-38 | every pixel read back from bytes serialises to exactly those bytes |
| Pixels.ValuesInjective | src/pixels.rs:26-38 | two pixels with the same values are equal |
| Images.New | src/image.rs:10-14 | `Image::new(length)` has exactly `length` pixels, each equal to the zero pixel of its layout |
| Images.RawBuffer | src/image.rs:16-18 | `raw_buffer()` has `|buffer| * arity` bytes and byte `i * arity + c` is channel `c` of pixel `i` |
| Images.FlattenAppend | src/image.rs:17 | flattening two buffers one after the other gives the two flattenings one after the other |
| Images.FlattenLength | src/image.rs:17 | the flattening of a single-layout buffer has arity bytes per pixel |
| Images.FlattenAt | src/image.rs:17 | byte `i * arity + c` of the flattening exists and is channel `c` of pixel `i` |
| Images.FlattenLayout | src/image.rs:17 | length and layout of the flattening, for every pixel and channel at once |
| Images.Unflatten | src/image.rs:16-18 | bytes divide into whole pixels exactly when their count is a multiple of the arity, and then give a single-layout buffer of count / arity pixels |
| Images.UnflattenFlatten | src/image.rs:16-18 | the export is lossless: the buffer is recovered from `raw_buffer()` |
| Images.FlattenUnflatten | src/image.rs:16-18 | every buffer read back from bytes flattens to exactly those bytes |
| Images.RawBufferInjective | src/image.rs:16-18 | two images of one layout with the same export have the same buffer |
| Images.FlattenZeros | src/image.rs:12-17 | flattening `n` zero pixels gives `n * arity` zero bytes |
| Images.NewRawBufferZero | src/image.rs:10-18 | the export of a fresh image is `length * arity` zero bytes |
| Images.EmptyImageRawBuffer | src/image.rs:10-18 | `Image::new(0).raw_buffer()` is empty |
| Config.PixelsSize | src/main.rs:11-13 | `WIDTH * HEIGHT` is 480000 and fits in `u32`, so no wrap-around occurs |
| Config.ExportedBuffer | src/main.rs:18-20 | the buffer the program exports has 800 * 600 * 4 bytes, all zero |

## Left out

- Writing the PNG file through the `image` crate's `save_buffer`, and the rest of `main`: a foreign call doing file I/O. Only the sizes it is given are modelled.
- `src/vector.rs` and `src/ray.rs`: 32-bit floating-point arithmetic. Neither file compiles as written either.
- Allocation failure in `vec![T::new(); length]`, which aborts the program. It is not modelled: `length` is an unbounded `nat`.
- Rust's `usize` bound on `length` is not modelled, for the same reason.
- The type parameter `T` of `Image<T>` is modelled as a layout tag and a subset type that keeps every pixel in that layout. The `Clone` bound only serves to fill the buffer and has no counterpart.
