/**
 * The two halves of a QCVimg as values: the owning QImage buffer and the
 * non-owning cv::Mat header.  Both are value types in C++; only their pixel
 * memory has identity, so both are datatypes here whose pixel memory is a
 * (nullable) byte array.  Pointer identity between the two is reference
 * equality of those arrays.
 */
module Images {
  import opened Formats
  import opened Pixels

  /** A QImage: its pixel memory (null for a null image), size, format and bytesPerLine. */
  datatype QImage = QImage(bits: array?<bv8>, width: int, height: int, format: QFormat, stride: nat)

  /** What a default-constructed QImage reports: no data, size 0 x 0, Format_Invalid, 0 bytes per line. */
  const NullImage: QImage := QImage(null, 0, 0, Invalid, 0)

  /**
   * The shape every QImage has: a null one is exactly NullImage; a non-null
   * one has a positive size, a real format, rows at least as long as their
   * pixel bytes and exactly stride * height bytes of memory.
   */
  predicate ImageWf(q: QImage)
  {
    if q.bits == null then q == NullImage
    else
      q.width > 0 && q.height > 0 && q.format != Invalid
      && q.stride >= RowBytes(q.width, q.format)
      && q.bits.Length == q.stride * q.height
  }

  /** The pixel bytes of each scan line of a buffer. */
  function ImageRows(q: QImage): seq<seq<bv8>>
    reads q.bits
    requires ImageWf(q)
  {
    if q.bits == null then []
    else Rows(q.bits[..], q.stride, RowBytes(q.width, q.format), q.height)
  }

  /** Byte 3 of every 4-byte pixel cleared: the undefined alpha byte of Format_RGB32. */
  function MaskAlpha(row: seq<bv8>): seq<bv8>
  {
    seq(|row|, k requires 0 <= k < |row| => if k % 4 == 3 then 0 as bv8 else row[k])
  }

  /** The bytes QImage::operator== compares: all pixel bytes, except the alpha byte of RGB32. */
  function ComparedRows(q: QImage): seq<seq<bv8>>
    reads q.bits
    requires ImageWf(q)
  {
    var rows := ImageRows(q);
    if q.format == RGB32 then seq(|rows|, i requires 0 <= i < |rows| => MaskAlpha(rows[i])) else rows
  }

  /**
   * QImage::operator==: two null images are equal, a null and a non-null one
   * are not, and two non-null ones are equal when size, format and the
   * compared pixel bytes agree (padding bytes are never compared).
   */
  predicate ImageEquals(a: QImage, b: QImage)
    reads a.bits, b.bits
    requires ImageWf(a) && ImageWf(b)
  {
    if a.bits == null || b.bits == null then a.bits == b.bits
    else
      a.width == b.width && a.height == b.height && a.format == b.format
      && ComparedRows(a) == ComparedRows(b)
  }

  /** QImage::operator== is an equivalence: reflexive, symmetric and transitive. */
  lemma ImageEqualsIsEquivalence(a: QImage, b: QImage)
    requires ImageWf(a) && ImageWf(b)
    ensures ImageEquals(a, a)
    ensures ImageEquals(a, b) <==> ImageEquals(b, a)
    ensures forall c :: ImageWf(c) && ImageEquals(a, b) && ImageEquals(b, c) ==> ImageEquals(a, c)
  {
  }

  /** A cv::Mat header: rows, cols, element type, row step in bytes and data pointer. */
  datatype Mat = Mat(rows: int, cols: int, elemType: MatType, step: nat, data: array?<bv8>)

  /** A default-constructed cv::Mat: 0 x 0, null data, type CV_8UC1 (type code 0). */
  const EmptyMat: Mat := Mat(0, 0, CV_8UC1, 0, null)

  /**
   * The headers this model admits: non-negative sizes, null data only for a
   * 0 x 0 header, and otherwise rows of cols elements, step bytes apart,
   * inside the data.
   */
  predicate MatWf(m: Mat)
  {
    m.rows >= 0 && m.cols >= 0
    && (m.data == null ==> m.rows == 0 && m.cols == 0)
    && (m.data != null ==> Fits(m.data.Length, m.step, m.cols * ElemSize(m.elemType), m.rows))
  }

  /** The element bytes of each row of a view. */
  function MatRows(m: Mat): seq<seq<bv8>>
    reads m.data
    requires MatWf(m)
  {
    if m.data == null then [] else Rows(m.data[..], m.step, m.cols * ElemSize(m.elemType), m.rows)
  }

  /** cv::Mat::empty(): no data or no elements. */
  predicate MatIsEmpty(m: Mat)
  {
    m.data == null || m.rows == 0 || m.cols == 0
  }

  /** QCVimg::matIsNull: 0 x 0 and null data. */
  predicate MatIsNull(m: Mat)
    ensures MatIsNull(m) ==> MatIsEmpty(m)
  {
    m.cols == 0 && m.rows == 0 && m.data == null
  }

  /** pointersMatch: the same memory, or both null (the second case is the first one here). */
  predicate PointersMatch(q: QImage, m: Mat)
    ensures PointersMatch(q, m) <==> q.bits == m.data
  {
    q.bits == m.data || (q.bits == null && m.data == null)
  }

  /** sizesMatch: the view has the buffer's height as rows and its width as cols. */
  predicate SizesMatch(q: QImage, m: Mat)
  {
    q.height == m.rows && q.width == m.cols
  }

  /** formatsMatch: the forward table maps the buffer format to the view type (-1 never equals a type). */
  predicate FormatsMatch(q: QImage, m: Mat)
  {
    ConvertQImgFormatTag(q.format) == Mapped(m.elemType)
  }

  /** isMatBound: all three checks at once.  The row step is not compared. */
  predicate Bound(q: QImage, m: Mat)
  {
    PointersMatch(q, m) && SizesMatch(q, m) && FormatsMatch(q, m)
  }

  /** sizesMatch(first, second) && typesMatch(first, second) on two views. */
  predicate SameHeader(a: Mat, b: Mat)
  {
    a.cols == b.cols && a.rows == b.rows && a.elemType == b.elemType
  }

  /** A bound buffer has a supported format, so it is never a null image. */
  lemma BoundMeansSupported(q: QImage, m: Mat)
    requires ImageWf(q) && Bound(q, m)
    ensures IsValidQImgFormat(q.format) && q.bits != null && m.data == q.bits
    ensures m.elemType == ConvertQImgFormatTag(q.format).t
  {
  }

  /** A null buffer is bound to no view at all: Format_Invalid has no view type. */
  lemma NullBufferNeverBound(q: QImage, m: Mat)
    requires ImageWf(q) && q.bits == null
    ensures !Bound(q, m)
  {
  }

  /** The element bytes of a view row are exactly the pixel bytes of a buffer row of a mapped format. */
  lemma MappedRowBytes(width: nat, f: QFormat)
    requires IsValidQImgFormat(f)
    ensures RowBytes(width, f) == width * ElemSize(ConvertQImgFormatTag(f).t)
  {
    var es := ElemSize(ConvertQImgFormatTag(f).t);
    assert width * Depth(f) + 7 == 8 * (width * es) + 7;
  }

  /**
   * A bound view with the buffer's stride shows exactly the buffer's pixel
   * rows: writing through one is writing through the other.
   */
  lemma {:induction false} BoundRowsAgree(q: QImage, m: Mat)
    requires ImageWf(q) && MatWf(m) && Bound(q, m) && m.step == q.stride
    ensures MatRows(m) == ImageRows(q)
  {
    MappedRowBytes(q.width, q.format);
  }

  /**
   * createMatFromQImage, corrected: a header over the buffer's memory with the
   * buffer's size, stride and mapped type; for a buffer whose format has no
   * view type (a null buffer included) the default, empty header.
   */
  function BindView(q: QImage): (m: Mat)
    reads q.bits
    requires ImageWf(q)
    ensures MatWf(m)
    ensures IsValidQImgFormat(q.format) ==> Bound(q, m) && m.step == q.stride && MatRows(m) == ImageRows(q)
    ensures !IsValidQImgFormat(q.format) ==> m == EmptyMat
  {
    match ConvertQImgFormatTag(q.format)
    case NoMatType => EmptyMat
    case Mapped(t) =>
      MappedRowBytes(q.width, q.format);
      var m := Mat(q.height, q.width, t, q.stride, q.bits);
      BoundRowsAgree(q, m);
      m
  }

  /**
   * createMatFromQImage as written: it dereferences the forward table's
   * lookup without checking it, which is only defined for a supported format.
   */
  function BindViewAsWritten(q: QImage): (m: Mat)
    reads q.bits
    requires ImageWf(q) && IsValidQImgFormat(q.format)
    ensures Bound(q, m) && m.step == q.stride
  {
    Mat(q.height, q.width, ConvertQImgFormatTag(q.format).t, q.stride, q.bits)
  }

  /**
   * The lookup's precondition is not met by inputs the class passes to it:
   * the size-and-format constructor accepts RGB888 for a 0 x 0 image, whose
   * buffer is null and reports Format_Invalid.
   */
  lemma ZeroSizeBufferFailsLookup()
    ensures IsValidQImgFormat(RGB888) && AllocatesNull(0, 0, RGB888)
    ensures ImageWf(NullImage) && !IsValidQImgFormat(NullImage.format)
  {
  }

  /** With the corrected binding a null buffer leaves the pair empty. */
  lemma NullBufferBindsNullView(q: QImage)
    requires ImageWf(q) && q.bits == null
    ensures MatIsNull(BindView(q)) && !Bound(q, BindView(q))
  {
  }

  /** QImage(width, height, format) yields a null image for an empty size or Format_Invalid. */
  predicate AllocatesNull(width: int, height: int, f: QFormat)
  {
    width <= 0 || height <= 0 || f == Invalid
  }

  /** QImage(width, height, format): fresh memory with Qt's 32-bit-aligned rows, or a null image. */
  method Allocate(width: int, height: int, f: QFormat) returns (q: QImage)
    ensures ImageWf(q)
    ensures AllocatesNull(width, height, f) ==> q == NullImage
    ensures !AllocatesNull(width, height, f) ==>
      fresh(q.bits) && q.width == width && q.height == height && q.format == f
      && q.stride == BytesPerLine(width, f)
  {
    if AllocatesNull(width, height, f) {
      q := NullImage;
    } else {
      RowBytesFitInLine(width, f);
      var stride := BytesPerLine(width, f);
      var a := new bv8[stride * height];
      q := QImage(a, width, height, f, stride);
    }
  }

  /** QImage::copy(): a new buffer of the same size and format holding the same pixel rows. */
  method DeepCopy(q: QImage) returns (c: QImage)
    requires ImageWf(q)
    ensures ImageWf(c)
    ensures q.bits == null ==> c == NullImage
    ensures q.bits != null ==>
      fresh(c.bits) && c.width == q.width && c.height == q.height && c.format == q.format
      && c.stride == BytesPerLine(q.width, q.format)
    ensures ImageRows(c) == ImageRows(q)
    ensures ImageEquals(c, q)
  {
    if q.bits == null {
      c := NullImage;
    } else {
      c := Allocate(q.width, q.height, q.format);
      CopyRows(q.bits, q.stride, c.bits, c.stride, q.height, RowBytes(q.width, q.format));
    }
  }

  /** Mat::create(rows, cols, type) keeps a header that already has data of that size and type. */
  predicate CreateReuses(m: Mat, rows: int, cols: int, t: MatType)
  {
    m.data != null && m.rows == rows && m.cols == cols && m.elemType == t
  }

  /**
   * cv::Mat::copyTo(dst): an empty source releases the destination (0 x 0,
   * null data, its type kept); otherwise the destination is re-created for
   * the source's size and type, which keeps its memory when these already
   * agree and allocates a continuous buffer otherwise, and the source rows
   * are copied, unless both already share the same memory.
   */
  method MatCopyTo(src: Mat, dst: Mat) returns (r: Mat)
    requires MatWf(src) && MatWf(dst)
    modifies dst.data
    ensures MatWf(r)
    ensures MatIsEmpty(src) ==> r == Mat(0, 0, dst.elemType, 0, null)
    ensures !MatIsEmpty(src) ==> SameHeader(r, src)
    ensures !MatIsEmpty(src) && CreateReuses(dst, src.rows, src.cols, src.elemType) ==> r == dst
    ensures !MatIsEmpty(src) && !CreateReuses(dst, src.rows, src.cols, src.elemType) ==>
      fresh(r.data) && r.step == src.cols * ElemSize(src.elemType)
    ensures !MatIsEmpty(src) && (src.data != r.data || src.step == r.step) ==> MatRows(r) == old(MatRows(src))
    ensures dst.data != null && (r.data != dst.data || src.data == dst.data) ==> unchanged(dst.data)
  {
    if MatIsEmpty(src) {
      r := Mat(0, 0, dst.elemType, 0, null);
      return;
    }
    var width := src.cols * ElemSize(src.elemType);
    if CreateReuses(dst, src.rows, src.cols, src.elemType) {
      r := dst;
      if src.data != dst.data {
        CopyRows(src.data, src.step, dst.data, dst.step, src.rows, width);
      }
    } else {
      var a := new bv8[src.rows * width];
      r := Mat(src.rows, src.cols, src.elemType, width, a);
      CopyRows(src.data, src.step, a, width, src.rows, width);
    }
  }

  /** QImage::convertToFormat(f), pixel conversion aside: a null image or Format_Invalid gives a null image. */
  method ConvertToFormat(q: QImage, f: QFormat) returns (c: QImage)
    requires ImageWf(q)
    ensures ImageWf(c)
    ensures q.bits == null || f == Invalid ==> c == NullImage
    ensures q.bits != null && f != Invalid ==>
      fresh(c.bits) && c.width == q.width && c.height == q.height && c.format == f
    ensures q.bits != null && f == q.format ==> ImageRows(c) == ImageRows(q)
  {
    if q.bits == null || f == Invalid {
      c := NullImage;
    } else if f == q.format {
      c := DeepCopy(q);
    } else {
      c := Allocate(q.width, q.height, f);
    }
  }

  /** QImage::convertTo(f): a no-op on a null image, for Format_Invalid and for the image's own format. */
  method ConvertTo(q: QImage, f: QFormat) returns (c: QImage)
    requires ImageWf(q)
    ensures ImageWf(c)
    ensures q.bits == null || f == Invalid || f == q.format ==> c == q
    ensures q.bits != null && f != Invalid && f != q.format ==>
      (c.bits == q.bits || fresh(c.bits)) && c.width == q.width && c.height == q.height && c.format == f
  {
    if q.bits == null || f == Invalid || f == q.format {
      c := q;
    } else {
      c := ConvertToFormat(q, f);
    }
  }
}
