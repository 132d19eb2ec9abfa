/** Header of a plain-text PPM ("P3") image: its dimensions and its maximum sample value. */
module Header {
  import opened Ints
  import opened Wrappers
  import opened Ordering

  /** `PLAIN_TEXT_PPM_MAGIC_CONSTANT`: the bytes that open a plain-text PPM file. */
  const PLAIN_TEXT_PPM_MAGIC_CONSTANT: seq<u8> := [0x50, 0x33]

  /** The ASCII encoding of a string made of ASCII characters, one byte per character. */
  function AsciiBytes(s: string): (r: seq<u8>)
    requires forall i :: 0 <= i < |s| ==> s[i] < 128 as char
    ensures |r| == |s|
    ensures forall i :: 0 <= i < |s| ==> r[i] == s[i] as int
  {
    if s == [] then [] else [s[0] as int] + AsciiBytes(s[1..])
  }

  /** The magic constant is exactly the ASCII text "P3": 'P' (0x50) then '3' (0x33). */
  lemma MagicIsAsciiP3()
    ensures PLAIN_TEXT_PPM_MAGIC_CONSTANT == AsciiBytes("P3")
    ensures PLAIN_TEXT_PPM_MAGIC_CONSTANT[0] == 'P' as int && PLAIN_TEXT_PPM_MAGIC_CONSTANT[1] == '3' as int
  {}

  /** Dimensions of a 2D image, in pixels. */
  datatype ImageDimensions = ImageDimensions(width: usize, height: usize) {
    /** The fields in declaration order, which is the order the derived `Ord` compares them in. */
    function Fields(): seq<int> { [width, height] }
  }

  /** The derived `Ord::cmp` of `ImageDimensions`: widths first, heights only on a tie. */
  function Compare(a: ImageDimensions, b: ImageDimensions): Ordering {
    match CompareInt(a.width, b.width)
    case Equal => CompareInt(a.height, b.height)
    case Less => Less
    case Greater => Greater
  }

  /** The derived order is the lexicographic order of the fields in declaration order. */
  lemma CompareIsLexicographic(a: ImageDimensions, b: ImageDimensions)
    ensures Compare(a, b) == LexCompare(a.Fields(), b.Fields())
  {}

  /** `a < b` exactly when `a` is narrower, or equally wide and shorter. */
  lemma CompareLessIff(a: ImageDimensions, b: ImageDimensions)
    ensures Compare(a, b) == Less <==> a.width < b.width || (a.width == b.width && a.height < b.height)
  {}

  /** The derived `Ord` agrees with the derived `Eq`. */
  lemma CompareEqualIff(a: ImageDimensions, b: ImageDimensions)
    ensures Compare(a, b) == Equal <==> a == b
  {}

  /** Swapping the operands reverses the result. */
  lemma CompareAntisymmetric(a: ImageDimensions, b: ImageDimensions)
    ensures Compare(b, a) == Compare(a, b).Reverse()
  {
    CompareIsLexicographic(a, b);
    CompareIsLexicographic(b, a);
    LexCompareAntisymmetric(a.Fields(), b.Fields());
  }

  /** "Less than or equal" is transitive, so the derived order is a total order. */
  lemma CompareTransitive(a: ImageDimensions, b: ImageDimensions, c: ImageDimensions)
    requires Compare(a, b) != Greater && Compare(b, c) != Greater
    ensures Compare(a, c) != Greater
  {
    CompareIsLexicographic(a, b);
    CompareIsLexicographic(b, c);
    CompareIsLexicographic(a, c);
    LexCompareTransitive(a.Fields(), b.Fields(), c.Fields());
  }

  /** The fields of `PpmHeader`, before its invariant is imposed. */
  datatype HeaderFields = HeaderFields(dimensions: ImageDimensions, maxval: NonZeroU16)

  /**
   * `PpmHeader`. Its fields are private and never reassigned, and `new` is the only way to
   * build one, so every header keeps `new`'s check: `0 < maxval < u16::MAX`.
   */
  type PpmHeader = h: HeaderFields | h.maxval < U16_MAX
    witness HeaderFields(ImageDimensions(0, 0), 1)

  /**
   * `PpmHeader::new`. The width and height are not checked (0 x 0 is a header-only image);
   * a `maxval` of `u16::MAX` makes the source panic, which is this function's precondition.
   */
  function New(dimensions: ImageDimensions, maxval: NonZeroU16): (h: PpmHeader)
    requires maxval < U16_MAX
    ensures Dimensions(h) == dimensions
    ensures MaxVal(h) == maxval
  {
    HeaderFields(dimensions, maxval)
  }

  /**
   * `NonZeroU16::new` followed by `PpmHeader::new`, without the panic: a header for
   * every `maxval` the two accept, and nothing for the others.
   */
  function TryNew(dimensions: ImageDimensions, maxval: u16): (r: Option<PpmHeader>)
    ensures r.Some? <==> 0 < maxval < U16_MAX
    ensures r.Some? ==> Dimensions(r.value) == dimensions && MaxVal(r.value) == maxval
  {
    if maxval == 0 || maxval == U16_MAX then None else Some(New(dimensions, maxval))
  }

  /** `dimensions()`. */
  function Dimensions(h: PpmHeader): ImageDimensions {
    h.dimensions
  }

  /** `maxval()`: the header invariant, strictly between 0 and `u16::MAX`, holds of every header. */
  function MaxVal(h: PpmHeader): (m: NonZeroU16)
    ensures 0 < m < U16_MAX
  {
    h.maxval
  }

  /** A header for a 1 x 2 image with the largest accepted maxval, 65534, is built as given. */
  lemma LargestMaxvalAccepted()
    ensures TryNew(ImageDimensions(1, 2), 65534).Some?
    ensures Dimensions(New(ImageDimensions(1, 2), 65534)) == ImageDimensions(1, 2)
    ensures MaxVal(New(ImageDimensions(1, 2), 65534)) == 65534
  {}

  /** `maxval == u16::MAX` (65535) is refused, whatever the dimensions. */
  lemma MaxvalU16MaxRejected(dimensions: ImageDimensions)
    ensures TryNew(dimensions, 65535) == None
  {}

  /** A zero `maxval` is refused, whatever the dimensions. */
  lemma MaxvalZeroRejected(dimensions: ImageDimensions)
    ensures TryNew(dimensions, 0) == None
  {}

  /** Zero dimensions are accepted: a header-only image is a legal header. */
  lemma ZeroDimensionsAccepted(maxval: u16)
    requires 0 < maxval < U16_MAX
    ensures TryNew(ImageDimensions(0, 0), maxval).Some?
    ensures Dimensions(TryNew(ImageDimensions(0, 0), maxval).value) == ImageDimensions(0, 0)
  {}
}
