/**
 * The two pixel-format taxonomies that QCVimg has to reconcile -- the
 * owning buffer's QImage::Format and the view's cv::Mat element type --
 * and the two fixed, one-directional compatibility tables between them.
 *
 * The forward table (buffer format -> view type) is not injective: RGB32 and
 * ARGB32 both give 8UC4, Alpha8 and Grayscale8 both give 8UC1.  The reverse
 * table (view type -> buffer format) therefore picks one canonical format per
 * view type, and is only a right inverse of the forward table.
 */
module Formats {

  /** QImage::Format, in the order (and so with the numeric code) of Qt 5.15. */
  datatype QFormat =
    | Invalid | Mono | MonoLSB | Indexed8
    | RGB32 | ARGB32 | ARGB32Premultiplied | RGB16
    | ARGB8565Premultiplied | RGB666 | ARGB6666Premultiplied | RGB555
    | ARGB8555Premultiplied | RGB888 | RGB444 | ARGB4444Premultiplied
    | RGBX8888 | RGBA8888 | RGBA8888Premultiplied | BGR30
    | A2BGR30Premultiplied | RGB30 | A2RGB30Premultiplied | Alpha8
    | Grayscale8 | RGBX64 | RGBA64 | RGBA64Premultiplied
    | Grayscale16 | BGR888

  /** Bits per pixel of a buffer format (Qt's depth table); 0 for Invalid. */
  function Depth(f: QFormat): nat
  {
    match f
    case Invalid => 0
    case Mono | MonoLSB => 1
    case Indexed8 | Alpha8 | Grayscale8 => 8
    case RGB16 | RGB555 | RGB444 | ARGB4444Premultiplied | Grayscale16 => 16
    case ARGB8565Premultiplied | RGB666 | ARGB6666Premultiplied
       | ARGB8555Premultiplied | RGB888 | BGR888 => 24
    case RGBX64 | RGBA64 | RGBA64Premultiplied => 64
    case _ => 32
  }

  /** The numeric code of a format on the wire (its enumerator value). */
  function FormatCode(f: QFormat): (code: nat)
    ensures code < 30
    ensures FormatFromCode(code) == f
  {
    match f
    case Invalid => 0               case Mono => 1
    case MonoLSB => 2               case Indexed8 => 3
    case RGB32 => 4                 case ARGB32 => 5
    case ARGB32Premultiplied => 6   case RGB16 => 7
    case ARGB8565Premultiplied => 8 case RGB666 => 9
    case ARGB6666Premultiplied => 10
    case RGB555 => 11
    case ARGB8555Premultiplied => 12
    case RGB888 => 13               case RGB444 => 14
    case ARGB4444Premultiplied => 15
    case RGBX8888 => 16             case RGBA8888 => 17
    case RGBA8888Premultiplied => 18
    case BGR30 => 19
    case A2BGR30Premultiplied => 20
    case RGB30 => 21
    case A2RGB30Premultiplied => 22
    case Alpha8 => 23               case Grayscale8 => 24
    case RGBX64 => 25               case RGBA64 => 26
    case RGBA64Premultiplied => 27
    case Grayscale16 => 28          case BGR888 => 29
  }

  /** Reads a stored format code back; a code outside the enumeration reads as Invalid. */
  function FormatFromCode(code: int): QFormat
  {
    if code == 1 then Mono else if code == 2 then MonoLSB
    else if code == 3 then Indexed8 else if code == 4 then RGB32
    else if code == 5 then ARGB32 else if code == 6 then ARGB32Premultiplied
    else if code == 7 then RGB16 else if code == 8 then ARGB8565Premultiplied
    else if code == 9 then RGB666 else if code == 10 then ARGB6666Premultiplied
    else if code == 11 then RGB555 else if code == 12 then ARGB8555Premultiplied
    else if code == 13 then RGB888 else if code == 14 then RGB444
    else if code == 15 then ARGB4444Premultiplied else if code == 16 then RGBX8888
    else if code == 17 then RGBA8888 else if code == 18 then RGBA8888Premultiplied
    else if code == 19 then BGR30 else if code == 20 then A2BGR30Premultiplied
    else if code == 21 then RGB30 else if code == 22 then A2RGB30Premultiplied
    else if code == 23 then Alpha8 else if code == 24 then Grayscale8
    else if code == 25 then RGBX64 else if code == 26 then RGBA64
    else if code == 27 then RGBA64Premultiplied else if code == 28 then Grayscale16
    else if code == 29 then BGR888
    else Invalid
  }

  /** Qt's row stride: rows are padded to a multiple of 32 bits. */
  function BytesPerLine(width: nat, f: QFormat): nat
  {
    ((width * Depth(f) + 31) / 32) * 4
  }

  /** The bytes of a row that carry pixels (the rest of the stride is padding). */
  function RowBytes(width: nat, f: QFormat): nat
  {
    (width * Depth(f) + 7) / 8
  }

  lemma RowBytesFitInLine(width: nat, f: QFormat)
    ensures RowBytes(width, f) <= BytesPerLine(width, f)
  {
    var x := width * Depth(f);
    var a, b := x / 32, x % 32;
    assert x == 32 * a + b;
    assert (x + 31) / 32 == a + (b + 31) / 32;
    assert (x + 7) / 8 == 4 * a + (b + 7) / 8;
  }

  /** cv::Mat element depths, in the order of their OpenCV codes 0..7. */
  datatype ElemDepth = U8 | S8 | U16 | S16 | S32 | F32 | F64 | F16

  function DepthCode(d: ElemDepth): (code: nat)
    ensures code < 8 && DepthFromCode(code) == d
  {
    match d
    case U8 => 0  case S8 => 1  case U16 => 2  case S16 => 3
    case S32 => 4 case F32 => 5 case F64 => 6  case F16 => 7
  }

  function DepthFromCode(code: int): ElemDepth
    requires 0 <= code < 8
  {
    if code == 0 then U8 else if code == 1 then S8 else if code == 2 then U16
    else if code == 3 then S16 else if code == 4 then S32 else if code == 5 then F32
    else if code == 6 then F64 else F16
  }

  /** Bytes of one channel value. */
  function DepthBytes(d: ElemDepth): nat
  {
    match d
    case U8 | S8 => 1
    case U16 | S16 | F16 => 2
    case S32 | F32 => 4
    case F64 => 8
  }

  /** OpenCV allows 1 to 512 channels. */
  type Channels = c: int | 1 <= c <= 512 witness 1

  /** A cv::Mat element type: a depth and a channel count. */
  datatype MatType = MatType(depth: ElemDepth, channels: Channels)

  const CV_8UC1 := MatType(U8, 1)
  const CV_8UC3 := MatType(U8, 3)
  const CV_8UC4 := MatType(U8, 4)
  const CV_16UC1 := MatType(U16, 1)

  /** Bytes of one element (all channels of one pixel). */
  function ElemSize(t: MatType): nat
  {
    t.channels * DepthBytes(t.depth)
  }

  /** OpenCV's integer type code, depth + 8 * (channels - 1). */
  function TypeCode(t: MatType): (code: nat)
    ensures code < 4096
    ensures DecodeType(code) == t
  {
    var code := DepthCode(t.depth) + 8 * (t.channels - 1);
    assert code % 8 == DepthCode(t.depth) && code / 8 == t.channels - 1;
    code
  }

  /** Reads a type code back as cv::Mat's header does: it keeps the low 12 bits. */
  function DecodeType(code: int): MatType
  {
    var c := code % 4096;
    MatType(DepthFromCode(c % 8), c / 8 + 1)
  }

  /** The result of the forward lookup: a view type, or the sentinel -1. */
  datatype MatTag = NoMatType | Mapped(t: MatType)

  /**
   * The forward table (convertQImgFormatTag).  Wherever it gives a view
   * type, the element size of that type is exactly the pixel size of the
   * buffer format.
   */
  function ConvertQImgFormatTag(f: QFormat): (r: MatTag)
    ensures r.Mapped? ==> 8 * ElemSize(r.t) == Depth(f)
  {
    match f
    case RGB32 => Mapped(CV_8UC4)
    case ARGB32 => Mapped(CV_8UC4)
    case RGB888 => Mapped(CV_8UC3)
    case Alpha8 => Mapped(CV_8UC1)
    case Grayscale8 => Mapped(CV_8UC1)
    case Grayscale16 => Mapped(CV_16UC1)
    case _ => NoMatType
  }

  /**
   * The reverse table (convertMatFormatTag).  Wherever it gives a format,
   * the forward table maps that format back to the same view type.
   */
  function ConvertMatFormatTag(t: MatType): (f: QFormat)
    ensures f != Invalid ==> ConvertQImgFormatTag(f) == Mapped(t)
  {
    if t == CV_8UC1 then Grayscale8
    else if t == CV_8UC3 then RGB888
    else if t == CV_8UC4 then ARGB32
    else if t == CV_16UC1 then Grayscale16
    else Invalid
  }

  /** The buffer formats QCVimg accepts: exactly the six of the forward table. */
  predicate IsValidQImgFormat(f: QFormat)
    ensures IsValidQImgFormat(f) <==>
      f in {RGB32, ARGB32, RGB888, Alpha8, Grayscale8, Grayscale16}
  {
    ConvertQImgFormatTag(f) != NoMatType
  }

  /** The view types QCVimg accepts: exactly the four of the reverse table. */
  predicate IsValidMatFormat(t: MatType)
    ensures IsValidMatFormat(t) <==> t in {CV_8UC1, CV_8UC3, CV_8UC4, CV_16UC1}
  {
    ConvertMatFormatTag(t) != Invalid
  }

  /** An accepted buffer format is never Invalid and has a whole number of bytes per pixel. */
  lemma ValidQImgFormatHasBytes(f: QFormat)
    requires IsValidQImgFormat(f)
    ensures f != Invalid && Depth(f) % 8 == 0 && Depth(f) > 0
  {
  }

  /**
   * Reverse after forward is the identity except on the two formats that
   * collapse: Alpha8 comes back as Grayscale8, RGB32 as ARGB32.
   */
  lemma ReverseAfterForward(f: QFormat)
    requires IsValidQImgFormat(f)
    ensures ConvertMatFormatTag(ConvertQImgFormatTag(f).t) ==
      (if f == Alpha8 then Grayscale8 else if f == RGB32 then ARGB32 else f)
    ensures ConvertMatFormatTag(ConvertQImgFormatTag(f).t) == f <==> f !in {Alpha8, RGB32}
  {
  }

  /** Every view type of the forward table is one the reverse table accepts. */
  lemma ForwardIsAccepted(f: QFormat)
    requires IsValidQImgFormat(f)
    ensures IsValidMatFormat(ConvertQImgFormatTag(f).t)
  {
  }

  /** Forward after reverse is the identity on every accepted view type. */
  lemma ForwardAfterReverse(t: MatType)
    requires IsValidMatFormat(t)
    ensures ConvertQImgFormatTag(ConvertMatFormatTag(t)) == Mapped(t)
  {
  }
}
