# PPM header and pixel value types of `ray-tracer`, modelled in Dafny

This project models the value types of the `ray-tracer` repository that carry the
plain-text PPM ("P3") format of Netpbm and its pixels:

- `ray-tracer/src/ppm/header.rs`: the magic constant `P3`, `ImageDimensions` with its
  derived total order, and `PpmHeader`, whose constructor enforces `0 < maxval < 65535`
  (module `Header`, file `header.dfy`);
- `ray-tracer-data/src/rgb.rs`: the colour `Rgb` over `Vec3<u8>`, its constructor,
  channel getters and conversions (module `Rgb`, file `rgb.dfy`);
- `ray-tracer-data/src/vec3.rs` and `vec4.rs`: the positional containers `Vec3<N>` and
  `Vec4<N>` (modules `Vec3` and `Vec4`).

Every type here is an immutable value in the source (no `&mut self` method exists), so
each becomes a Dafny `datatype` and each operation a function; the getters, which borrow
in Rust, return the component itself and cannot change the value they read. Helper
modules: `Ints` (`u8`, `u16`, `NonZeroU16`, `usize` as integer ranges), `Wrappers`
(`Option`, and `Ref<T>` for a shared reference `&T`) and `Ordering` (Rust's
`Ordering` and lexicographic comparison of integer sequences: the order
`#[derive(Ord)]` gives a struct, fields compared in declaration order, proved
antisymmetric and transitive for sequences of any length; `Header.CompareIsLexicographic`
ties `ImageDimensions` to it).

Design decisions:

- The invariant of `PpmHeader` is its type: `PpmHeader` is the subset of `HeaderFields`
  with `maxval < 65535`, and `NonZeroU16` excludes 0. The source's fields are private
  and never reassigned, so no other header can exist there either.
- The `assert!` in `PpmHeader::new` is the precondition of `Header.New`. `Header.TryNew`
  is the total version (`NonZeroU16::new` followed by `PpmHeader::new`); it returns
  `None` exactly for 0 and 65535.
- The Netpbm format allows a maxval of 65535, but `PpmHeader::new` rejects it; the
  model follows the code.
- `PpmEncoder` and `PpmDecoder` are declared with no methods, and `PpmHeader::new`
  panics rather than returning an error; the model follows the code (`New` plus the
  total `TryNew`).
- The conversions generic over `N: Into<u8>` take `N`'s conversion as a function
  parameter `into`; `Rgb.IntoU8` is the `u8` identity instance.
- Channels are of type `u8`, the integers 0..255, so every channel is a byte by its
  type; likewise the header invariant is the type `PpmHeader` itself.
- `map` on `Vec3` and `Vec4` is called (`rgb.rs:69`) and tested (`vec4.rs:74-81`) but
  defined in neither `vec3.rs` nor `vec4.rs`; here it is defined component-wise, each
  result kept at the position of its argument.
- The test `test_from_3_tuple_by_value` in `rgb.rs` (lines 94-100) converts `&t`, that is
  by reference, like the test after it; conversion by value is still stated by
  `Rgb.FromTupleChannels`.

## Model

| member | source | states |
|---|---|---|
| `Header.MagicIsAsciiP3` | ray-tracer/src/ppm/header.rs:5-7 | the magic constant is exactly the ASCII bytes of "P3": 0x50 then 0x33 |
| `Header.CompareIsLexicographic` | ray-tracer/src/ppm/header.rs:10-16 | the derived order of `ImageDimensions` is the lexicographic order of (width, height) |
| `Ordering.LexCompare` | ray-tracer/src/ppm/header.rs:10 | the derived comparison of fields in declaration order reports `Equal` exactly for equal field sequences |
| `Ordering.LexCompareAntisymmetric` | ray-tracer/src/ppm/header.rs:10 | swapping the operands of a field-by-field comparison reverses its result |
| `Ordering.LexCompareTransitive` | ray-tracer/src/ppm/header.rs:10 | field-by-field "less than or equal" is transitive |
| `Header.CompareLessIff` | ray-tracer/src/ppm/header.rs:10-16 | `a < b` iff `a` is narrower, or as wide and shorter: width first, then height |
| `Header.CompareEqualIff` | ray-tracer/src/ppm/header.rs:10 | the derived `Ord` reports `Equal` exactly when the derived `Eq` holds |
| `Header.CompareAntisymmetric` | ray-tracer/src/ppm/header.rs:10 | swapping the operands of `cmp` reverses its result |
| `Header.CompareTransitive` | ray-tracer/src/ppm/header.rs:10 | `a <= b` and `b <= c` give `a <= c` |
| `Header.New` | ray-tracer/src/ppm/header.rs:34-40 | with `maxval < 65535` construction succeeds, and the header's dimensions and maxval are exactly those supplied; width and height are unchecked |
| `Header.TryNew` | ray-tracer/src/ppm/header.rs:34-39 | construction succeeds iff `0 < maxval < 65535`, and then keeps the supplied dimensions and maxval |
| `Header.MaxVal` | ray-tracer/src/ppm/header.rs:47-51 | the maxval of every header lies strictly between 0 and 65535: the header invariant |
| `Header.LargestMaxvalAccepted` | ray-tracer/src/ppm/header.rs:64-79 | a 1 x 2 header with maxval 65534 is built and returns those dimensions and that maxval |
| `Header.MaxvalU16MaxRejected` | ray-tracer/src/ppm/header.rs:81-90 | maxval 65535 is refused for any dimensions |
| `Header.MaxvalZeroRejected` | ray-tracer/src/ppm/header.rs:23-24 | maxval 0 is refused for any dimensions (excluded by `NonZeroU16`) |
| `Header.ZeroDimensionsAccepted` | ray-tracer/src/ppm/header.rs:30-39 | a 0 x 0 (header-only) header is accepted for every legal maxval and keeps its dimensions |
| `Rgb.FromByteTupleIsNew` | ray-tracer-data/src/rgb.rs:39-47 | converting a byte tuple `(n0, n1, n2)` is `new(n0, n1, n2)`: red, green, blue in tuple order |
| `Rgb.NewThenGetters` | ray-tracer-data/src/rgb.rs:14-36 | `red`, `green`, `blue` after `new(r, g, b)` give `r`, `g`, `b` |
| `Rgb.FromTupleChannels` | ray-tracer-data/src/rgb.rs:39-48 | the tuple `(n0, n1, n2)` gives red `n0`, green `n1`, blue `n2`, each converted to `u8` |
| `Rgb.FromTupleOrderSignificant` | ray-tracer-data/src/rgb.rs:43-47 | two byte tuples give the same colour iff they are the same tuple: order matters |
| `Rgb.FromTupleRefIsFromTuple` | ray-tracer-data/src/rgb.rs:50-59 | converting through a tuple reference gives the colour the tuple itself gives |
| `Rgb.FromVec3Channels` | ray-tracer-data/src/rgb.rs:61-72 | vector component 0 becomes red, 1 green, 2 blue, each converted |
| `Rgb.IntoVec3Channels` | ray-tracer-data/src/rgb.rs:74-78 | the vector from a colour holds red, green, blue at components 0, 1, 2 |
| `Rgb.IntoVec3ThenFromVec3` | ray-tracer-data/src/rgb.rs:67-77 | a colour converted to `Vec3<u8>` and back is the same colour |
| `Rgb.FromVec3ThenIntoVec3` | ray-tracer-data/src/rgb.rs:67-77 | a `Vec3<u8>` converted to a colour and back is the same vector |
| `Vec3.Vec3.Map` | ray-tracer-data/src/rgb.rs:69 | `map(f)` applies `f` to each component and keeps it at the same position |
| `Vec3.NewThenGetters` | ray-tracer-data/src/vec3.rs:11-31 | `_0`, `_1`, `_2` after `new(a, b, c)` give `a`, `b`, `c` |
| `Vec3.FromTupleIsNew` | ray-tracer-data/src/vec3.rs:34-38 | converting the tuple `(a, b, c)` gives `new(a, b, c)` |
| `Vec3.EqualIffComponentsEqual` | ray-tracer-data/src/vec3.rs:6-31 | two vectors are equal iff their components agree position by position |
| `Vec3.NewInjective` | ray-tracer-data/src/vec3.rs:11-13 | `new(a0, a1, a2) == new(b0, b1, b2)` iff `a0 == b0`, `a1 == b1` and `a2 == b2` |
| `Vec3.MapIdentity` | ray-tracer-data/src/rgb.rs:69 | mapping the identity leaves a vector unchanged |
| `Vec3.MapCompose` | ray-tracer-data/src/rgb.rs:69 | mapping `f` then `g` equals mapping their composition |
| `Vec4.Vec4.Map` | ray-tracer-data/src/vec4.rs:74-81 | `map(f)` applies `f` to each component and keeps it at the same position |
| `Vec4.NewThenGetters` | ray-tracer-data/src/vec4.rs:6-25 | `_0` to `_3` after `new(a, b, c, d)` give `a`, `b`, `c`, `d` |
| `Vec4.FromTupleIsNew` | ray-tracer-data/src/vec4.rs:28-32 | converting the tuple `(a, b, c, d)` by value gives `new(a, b, c, d)` |
| `Vec4.FromTupleRefIsFromTuple` | ray-tracer-data/src/vec4.rs:34-38 | converting through a tuple reference gives the vector the tuple itself gives |
| `Vec4.EqualIffComponentsEqual` | ray-tracer-data/src/vec4.rs:2-25 | two vectors are equal iff their components agree position by position |
| `Vec4.MapIncrementExample` | ray-tracer-data/src/vec4.rs:74-81 | mapping `x + 1` over `(1, 2, 3, 4)` gives `(2, 3, 4, 5)` |
| `Vec4.MapIdentity` | ray-tracer-data/src/vec4.rs:74-81 | mapping the identity leaves a vector unchanged |
| `Vec4.MapCompose` | ray-tracer-data/src/vec4.rs:74-81 | mapping `f` then `g` equals mapping their composition |

## Left out

- `PpmEncoder` (`ray-tracer/src/ppm/encode.rs`) and `PpmDecoder` (`src/ppm/decode.rs`): each is a struct holding a writer or reader and a header, with no methods, so there is no encoding, decoding or round trip to model; reading and writing are I/O besides.
- `src/ppm/mod.rs`, `ray-tracer-data/src/lib.rs`, `ray-tracer-data/src/prelude.rs`: module declarations and re-exports only.
- The panic of `PpmHeader::new` and its message: the panic is the precondition of `Header.New`; the message text is not modelled.
- The derived `Debug` and `Hash`, and `Clone`/`Copy` (copying an immutable value is the value itself).
- `Into<u8>` implementations of types other than `u8`: foreign library code; the generic conversions take the conversion as a parameter.
- Borrowing: the getters of `Vec3`/`Vec4` return `&N` and the conversions from `&(N, N, N)` read through a reference; the model returns and reads values, so lifetimes and aliasing are not captured.
- `usize` is modelled as 64 bits wide; nothing in the model depends on the width.
