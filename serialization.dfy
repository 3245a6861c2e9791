/**
 * QDataStream framing of a QCVimg: operator<< writes the buffer format, the
 * view's rows, cols and type as qint32 values and then the buffer itself;
 * operator>> reads them back, forces the decoded buffer into the stored
 * format and rebuilds the view header from the stored values over the new
 * buffer's memory and stride.
 */
module Serialization {
  import opened Formats
  import opened Images
  import opened QCV

  /** What QImage's own stream operators carry, taken as exact: a null image, or a whole buffer. */
  datatype ImageBlob =
    | NullBlob
    | Blob(width: int, height: int, format: QFormat, stride: nat, bytes: seq<bv8>)

  /** One value on the stream: a qint32 or an image. */
  datatype StreamItem = Int32(v: int) | Image(blob: ImageBlob)

  /** QImage's operator<<: a null image is written as such, any other one with all of its bytes. */
  function EncodeImage(q: QImage): (b: ImageBlob)
    reads q.bits
    requires ImageWf(q)
    ensures b.NullBlob? <==> q.bits == null
    ensures BlobWf(b)
  {
    if q.bits == null then NullBlob else Blob(q.width, q.height, q.format, q.stride, q.bits[..])
  }

  /** A blob that describes a real buffer. */
  predicate BlobWf(b: ImageBlob)
  {
    b.NullBlob?
    || (b.width > 0 && b.height > 0 && b.format != Invalid
        && b.stride >= RowBytes(b.width, b.format) && |b.bytes| == b.stride * b.height)
  }

  /** The format a blob decodes to (Format_Invalid for a null image). */
  function BlobFormat(b: ImageBlob): QFormat
  {
    if b.NullBlob? then Invalid else b.format
  }

  /** Two buffers with the same encoding compare equal. */
  lemma SameEncodingSameImage(a: QImage, b: QImage)
    requires ImageWf(a) && ImageWf(b) && EncodeImage(a) == EncodeImage(b)
    ensures ImageEquals(a, b) && ImageRows(a) == ImageRows(b)
  {
  }

  /** QImage's operator>>: a new buffer holding the blob's bytes; an unreadable blob gives a null image. */
  method DecodeImage(b: ImageBlob) returns (q: QImage)
    ensures ImageWf(q)
    ensures q.bits == null || fresh(q.bits)
    ensures BlobWf(b) ==> EncodeImage(q) == b
    ensures !BlobWf(b) ==> q == NullImage
  {
    if b.NullBlob? || !BlobWf(b) {
      q := NullImage;
    } else {
      var a := new bv8[|b.bytes|](i requires 0 <= i < |b.bytes| => b.bytes[i]);
      assert a[..] == b.bytes;
      q := QImage(a, b.width, b.height, b.format, b.stride);
    }
  }

  /** operator<<. */
  function Write(x: QCVimg): (s: seq<StreamItem>)
    reads x, x.qImg.bits
    requires x.Valid()
    ensures |s| == 5 && IntAt(s, 1) == x.mat.rows && IntAt(s, 2) == x.mat.cols
    ensures FormatFromCode(IntAt(s, 0)) == x.qImg.format
    ensures DecodeType(IntAt(s, 3)) == x.mat.elemType
    ensures BlobAt(s, 4) == EncodeImage(x.qImg)
  {
    [ Int32(FormatCode(x.qImg.format)),
      Int32(x.mat.rows),
      Int32(x.mat.cols),
      Int32(TypeCode(x.mat.elemType)),
      Image(EncodeImage(x.qImg)) ]
  }

  /** The qint32 at position k; a missing or unreadable value reads as 0. */
  function IntAt(s: seq<StreamItem>, k: nat): int
  {
    if k < |s| && s[k].Int32? then s[k].v else 0
  }

  /** The image at position k; a missing or unreadable one reads as a null image. */
  function BlobAt(s: seq<StreamItem>, k: nat): ImageBlob
  {
    if k < |s| && s[k].Image? then s[k].blob else NullBlob
  }

  /** The view header operator>> builds: the stored rows, cols and type over the buffer's memory and stride. */
  function RebuiltView(s: seq<StreamItem>, q: QImage): Mat
  {
    Mat(IntAt(s, 1), IntAt(s, 2), DecodeType(IntAt(s, 3)), q.stride, q.bits)
  }

  /**
   * The header rebuilt from the stream of x over a buffer of x's size and
   * format always shares that buffer's memory, so it is bound exactly when
   * x's own view had x's size and format.
   */
  lemma RebuiltViewBinding(x: QCVimg, q: QImage)
    requires x.Valid() && ImageWf(q)
    requires q.width == x.qImg.width && q.height == x.qImg.height && q.format == x.qImg.format
    ensures PointersMatch(q, RebuiltView(Write(x), q))
    ensures Bound(q, RebuiltView(Write(x), q)) <==> SizesMatch(x.qImg, x.mat) && FormatsMatch(x.qImg, x.mat)
  {
  }

  /** For a bound or an empty x that header is one OpenCV accepts over the new buffer. */
  lemma RebuiltViewFits(x: QCVimg, q: QImage)
    requires x.Valid() && ImageWf(q) && (x.IsMatBound() || x.Empty())
    requires q.width == x.qImg.width && q.height == x.qImg.height && q.format == x.qImg.format
    ensures MatWf(RebuiltView(Write(x), q))
  {
    if x.IsMatBound() {
      BoundMeansSupported(x.qImg, x.mat);
      MappedRowBytes(q.width, q.format);
    }
  }

  /**
   * operator>>.  The buffer is replaced by the decoded one and, when the
   * stored format is a real one that differs from what was decoded,
   * converted into it.  The view is the header rebuilt from the stored
   * values; `ok` is false when OpenCV could not accept that header over the
   * new buffer, and the view is then left as it was.
   */
  method Read(s: seq<StreamItem>, img: QCVimg) returns (ok: bool)
    requires img.Valid()
    modifies img
    ensures img.Valid()
    ensures img.qImg.bits == null || fresh(img.qImg.bits)
    ensures img.qImg.bits != null && FormatFromCode(IntAt(s, 0)) != Invalid ==>
      img.qImg.format == FormatFromCode(IntAt(s, 0))
    ensures BlobWf(BlobAt(s, 4)) && BlobFormat(BlobAt(s, 4)) == FormatFromCode(IntAt(s, 0)) ==>
      EncodeImage(img.qImg) == BlobAt(s, 4)
    ensures ok == MatWf(RebuiltView(s, img.qImg))
    ensures ok ==> img.mat == RebuiltView(s, img.qImg)
    ensures !ok ==> img.mat == old(img.mat)
  {
    var origQImgFormat, matRows, matCols, matType := IntAt(s, 0), IntAt(s, 1), IntAt(s, 2), IntAt(s, 3);
    var q := DecodeImage(BlobAt(s, 4));
    if q.format != FormatFromCode(origQImgFormat) {
      q := ConvertTo(q, FormatFromCode(origQImgFormat));
    }
    img.qImg := q;
    var view := Mat(matRows, matCols, DecodeType(matType), q.stride, q.bits);
    ok := MatWf(view);
    if ok {
      img.mat := view;
    }
  }

  /**
   * Writing x and reading the stream into a new object gives a buffer equal
   * to x's, in new memory, and a view that is bound exactly when x's view had
   * x's size and format.  So a bound or an empty x comes back equal to itself.
   */
  method RoundTrip(x: QCVimg) returns (y: QCVimg, ok: bool)
    requires x.Valid()
    ensures fresh(y) && y.Valid()
    ensures y.qImg.bits == null || fresh(y.qImg.bits)
    ensures ImageEquals(y.qImg, x.qImg) && ImageRows(y.qImg) == ImageRows(x.qImg)
    ensures ok ==> y.IsMatBound() == (SizesMatch(x.qImg, x.mat) && FormatsMatch(x.qImg, x.mat))
    ensures x.IsMatBound() || x.Empty() ==> ok && y.Equals(x)
  {
    var s := Write(x);
    y := new QCVimg.Default();
    ok := Read(s, y);
    SameEncodingSameImage(y.qImg, x.qImg);
    RebuiltViewBinding(x, y.qImg);
    if x.IsMatBound() || x.Empty() {
      RebuiltViewFits(x, y.qImg);
    }
  }
}
