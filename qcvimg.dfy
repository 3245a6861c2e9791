/**
 * The QCVimg class: an owning QImage buffer and a cv::Mat view over the same
 * bytes, kept consistent by the class's own operations.
 */
module QCV {
  import opened Formats
  import opened Pixels
  import opened Images
  import opened ColorOrder

  /** DataPrio: which member keeps its data when a rebind meets an unsupported format. */
  datatype DataPrio = Low | Hi

  class QCVimg {
    /** mQImg, the owning buffer (what qImg() hands out). */
    var qImg: QImage
    /** mMImg, the view (what cvMat() hands out). */
    var mat: Mat

    /** Both members have the shape of a real QImage and cv::Mat header. */
    ghost predicate Valid()
      reads this
    {
      ImageWf(qImg) && MatWf(mat)
    }

    /** isMatBound(). */
    predicate IsMatBound()
      reads this
    {
      Bound(qImg, mat)
    }

    /** empty(): a null buffer and a null 0 x 0 view. */
    predicate Empty()
      reads this
    {
      qImg.bits == null && MatIsNull(mat)
    }

    /**
     * operator==: the buffers compare equal and the two objects are either
     * both bound or both not bound.
     */
    predicate Equals(other: QCVimg)
      reads this, other, qImg.bits, other.qImg.bits
      requires Valid() && other.Valid()
    {
      ImageEquals(qImg, other.qImg) && IsMatBound() == other.IsMatBound()
    }

    /** The default constructor: both members default-constructed. */
    constructor Default()
      ensures Valid() && Empty() && qImg == NullImage && mat == EmptyMat
    {
      qImg := NullImage;
      mat := EmptyMat;
    }

    /** setMembersEmpty(). */
    method SetMembersEmpty()
      modifies this
      ensures Valid() && Empty() && qImg == NullImage && mat == EmptyMat
    {
      mat := EmptyMat;
      qImg := NullImage;
    }

    /** createMatFromQImage(mQImg, mMImg), with the corrected binding. */
    method CreateMatFromQImage()
      requires Valid()
      modifies this
      ensures Valid() && qImg == old(qImg) && mat == BindView(qImg)
    {
      mat := BindView(qImg);
    }

    /** copyFrom(const QImage&): a deep copy of the buffer, then the view bound to it. */
    method CopyFromQImage(src: QImage)
      requires Valid() && ImageWf(src)
      modifies this
      ensures Valid()
      ensures src.bits != null ==> fresh(qImg.bits)
      ensures qImg.width == src.width && qImg.height == src.height && qImg.format == src.format
      ensures ImageEquals(qImg, src) && ImageRows(qImg) == ImageRows(src)
      ensures mat == BindView(qImg)
      ensures IsValidQImgFormat(src.format) ==> IsMatBound() && mat.step == qImg.stride
    {
      qImg := DeepCopy(src);
      CreateMatFromQImage();
    }

    /**
     * copyFrom(const cv::Mat&, format) in the order the C++ runs it: a new
     * buffer of the source's size in the given format, the view bound to it,
     * then the source copied in through the view.  Assigning the new QImage
     * releases the old buffer before copyTo reads the source, so the copy is
     * defined only for a source that is not a header over that old buffer.
     */
    method CopyFromMatAsWritten(src: Mat, fmt: QFormat)
      requires Valid() && MatWf(src)
      requires IsValidMatFormat(src.elemType) && fmt == ConvertMatFormatTag(src.elemType)
      requires src.data == null || src.data != qImg.bits
      modifies this
      ensures Valid()
      ensures MatIsEmpty(src) ==> Empty()
      ensures !MatIsEmpty(src) ==>
        fresh(qImg.bits) && qImg.format == fmt && qImg.width == src.cols && qImg.height == src.rows
        && IsMatBound() && mat.step == qImg.stride && ImageRows(qImg) == old(MatRows(src))
    {
      qImg := Allocate(src.cols, src.rows, fmt);
      CreateMatFromQImage();
      ForwardAfterReverse(src.elemType);
      mat := MatCopyTo(src, mat);
      if !MatIsEmpty(src) {
        BoundRowsAgree(qImg, mat);
      }
    }

    /**
     * copyFrom(const cv::Mat&, format), corrected: the old buffer is kept
     * until the source has been copied, so a source that is a header over it
     * (the view itself, in rebindQImg) is read before it is released.  Every
     * caller passes the reverse-mapped format of the source's type.
     */
    method CopyFromMat(src: Mat, fmt: QFormat)
      requires Valid() && MatWf(src)
      requires IsValidMatFormat(src.elemType) && fmt == ConvertMatFormatTag(src.elemType)
      modifies this
      ensures Valid()
      ensures MatIsEmpty(src) ==> Empty()
      ensures !MatIsEmpty(src) ==>
        fresh(qImg.bits) && qImg.format == fmt && qImg.width == src.cols && qImg.height == src.rows
        && IsMatBound() && mat.step == qImg.stride && ImageRows(qImg) == old(MatRows(src))
    {
      var former := qImg;
      qImg := Allocate(src.cols, src.rows, fmt);
      CreateMatFromQImage();
      ForwardAfterReverse(src.elemType);
      mat := MatCopyTo(src, mat);
      if !MatIsEmpty(src) {
        BoundRowsAgree(qImg, mat);
      }
      former := NullImage;
    }

    /**
     * QCVimg(width, height, format): a supported format allocates the buffer
     * and binds the view; an unsupported one gives an empty object, and so
     * does an empty size, for which QImage allocates nothing.
     */
    constructor FromSize(width: int, height: int, format: QFormat)
      ensures Valid()
      ensures !IsValidQImgFormat(format) || AllocatesNull(width, height, format) ==> Empty()
      ensures IsValidQImgFormat(format) && !AllocatesNull(width, height, format) ==>
        fresh(qImg.bits) && qImg.width == width && qImg.height == height && qImg.format == format
        && IsMatBound() && mat.step == qImg.stride
    {
      qImg := NullImage;
      mat := EmptyMat;
      new;
      if IsValidQImgFormat(format) {
        qImg := Allocate(width, height, format);
        CreateMatFromQImage();
      }
    }

    /** QCVimg(const QImage&): a deep copy of a supported buffer, bound; otherwise empty. */
    constructor FromQImage(img: QImage)
      requires ImageWf(img)
      ensures Valid()
      ensures !IsValidQImgFormat(img.format) ==> Empty()
      ensures IsValidQImgFormat(img.format) ==>
        fresh(qImg.bits) && ImageEquals(qImg, img) && ImageRows(qImg) == ImageRows(img)
        && IsMatBound() && mat.step == qImg.stride
    {
      qImg := NullImage;
      mat := EmptyMat;
      new;
      if IsValidQImgFormat(img.format) {
        CopyFromQImage(img);
      }
    }

    /**
     * QCVimg(QImage&&): a supported buffer is taken over without a copy (the
     * caller's QImage is left null) and bound; otherwise the object is empty
     * and the caller's QImage is not touched.  `rest` is what the caller's
     * QImage holds afterwards.
     */
    static method FromQImageMove(img: QImage) returns (o: QCVimg, rest: QImage)
      requires ImageWf(img)
      ensures fresh(o) && o.Valid()
      ensures !IsValidQImgFormat(img.format) ==> o.Empty() && rest == img
      ensures IsValidQImgFormat(img.format) ==>
        o.qImg == img && o.IsMatBound() && o.mat.step == img.stride && rest == NullImage
    {
      o := new QCVimg.Default();
      rest := img;
      if IsValidQImgFormat(img.format) {
        o.qImg, rest := img, NullImage;
        o.CreateMatFromQImage();
      }
    }

    /**
     * QCVimg(const cv::Mat&, order): a source of a supported type is copied,
     * red and blue exchanged for a BGR 3-channel source, into a new buffer of
     * the reverse-mapped format, and bound; otherwise the object is empty.
     */
    constructor FromMat(img: Mat, order: MatColorOrder := RGB)
      requires MatWf(img)
      ensures Valid()
      ensures !IsValidMatFormat(img.elemType) || MatIsEmpty(img) ==> Empty()
      ensures IsValidMatFormat(img.elemType) && !MatIsEmpty(img) ==>
        fresh(qImg.bits) && qImg.format == ConvertMatFormatTag(img.elemType)
        && qImg.width == img.cols && qImg.height == img.rows
        && IsMatBound() && mat.step == qImg.stride
        && ImageRows(qImg) == RgbRows(order, img.elemType, old(MatRows(img)))
    {
      qImg := NullImage;
      mat := EmptyMat;
      new;
      if IsValidMatFormat(img.elemType) {
        var fmt := ConvertMatFormatTag(img.elemType);
        var rgb := GetRgbMat(img, EmptyMat, order);
        CopyFromMat(rgb, fmt);
      }
    }

    /** The copy constructor: a deep copy of the other buffer, then the view bound to it. */
    constructor CopyOf(other: QCVimg)
      requires other.Valid()
      ensures Valid()
      ensures other.qImg.bits != null ==> fresh(qImg.bits)
      ensures ImageEquals(qImg, other.qImg) && ImageRows(qImg) == ImageRows(other.qImg)
      ensures mat == BindView(qImg)
      ensures IsValidQImgFormat(other.qImg.format) ==> IsMatBound()
    {
      qImg := NullImage;
      mat := EmptyMat;
      new;
      qImg := DeepCopy(other.qImg);
      CreateMatFromQImage();
    }

    /** The move constructor: both members taken over, the source's view reset to an empty Mat. */
    constructor MoveFrom(other: QCVimg)
      requires other.Valid()
      modifies other
      ensures Valid() && other.Valid()
      ensures qImg == old(other.qImg) && mat == old(other.mat)
      ensures IsMatBound() == old(other.IsMatBound())
      ensures other.qImg == NullImage && other.mat == EmptyMat && other.Empty()
    {
      qImg := other.qImg;
      mat := other.mat;
      new;
      other.qImg := NullImage;
      other.mat := EmptyMat;
    }

    /** Copy assignment: copyFrom(other.qImg()). */
    method CopyAssign(other: QCVimg)
      requires Valid() && other.Valid()
      modifies this
      ensures Valid()
      ensures old(other.qImg).bits != null ==> fresh(qImg.bits)
      ensures ImageEquals(qImg, old(other.qImg)) && ImageRows(qImg) == ImageRows(old(other.qImg))
      ensures mat == BindView(qImg)
      ensures IsValidQImgFormat(old(other.qImg).format) ==> IsMatBound()
    {
      CopyFromQImage(other.qImg);
    }

    /**
     * Move assignment.  QImage's move assignment swaps the two buffers, so
     * the source is left holding this object's former buffer; the view is
     * taken over and the source's view reset.  Moving an object into itself
     * keeps its buffer and empties its view.
     */
    method MoveAssign(other: QCVimg)
      requires Valid() && other.Valid()
      modifies this, other
      ensures Valid() && other.Valid()
      ensures other != this ==>
        qImg == old(other.qImg) && mat == old(other.mat)
        && other.qImg == old(qImg) && other.mat == EmptyMat
      ensures other != this ==> IsMatBound() == old(other.IsMatBound())
      ensures other == this ==> qImg == old(qImg) && mat == EmptyMat
    {
      var mine := qImg;
      qImg := other.qImg;
      other.qImg := mine;
      mat := other.mat;
      other.mat := EmptyMat;
    }

    /** swap(other): both members exchanged, so each object keeps the other's binding state. */
    method Swap(other: QCVimg)
      requires Valid() && other.Valid()
      modifies this, other
      ensures Valid() && other.Valid()
      ensures qImg == old(other.qImg) && mat == old(other.mat)
      ensures other.qImg == old(qImg) && other.mat == old(mat)
      ensures IsMatBound() == old(other.IsMatBound()) && other.IsMatBound() == old(IsMatBound())
    {
      var q, m := qImg, mat;
      qImg, mat := other.qImg, other.mat;
      other.qImg, other.mat := q, m;
    }

    /** copy(const QImage&): -1 and nothing changed for an unsupported format; otherwise a bound deep copy and 0. */
    method CopyQImage(src: QImage) returns (res: int)
      requires Valid() && ImageWf(src)
      modifies this
      ensures Valid()
      ensures res == (if IsValidQImgFormat(src.format) then 0 else -1)
      ensures res == -1 ==> qImg == old(qImg) && mat == old(mat)
      ensures res == 0 ==>
        fresh(qImg.bits) && ImageEquals(qImg, src) && ImageRows(qImg) == ImageRows(src)
        && IsMatBound() && mat.step == qImg.stride
    {
      if IsValidQImgFormat(src.format) {
        CopyFromQImage(src);
        res := 0;
      } else {
        res := -1;
      }
    }

    /**
     * copy(const cv::Mat&, order), three tiers tried in this order:
     * 1. the (colour-normalised) source has the view's rows, cols and type:
     *    it is copied through the view into the existing memory, 0;
     * 2. otherwise its type reverse-maps: a new buffer is allocated, bound and
     *    filled, 0;
     * 3. otherwise -1 and nothing changes.
     * The first test runs before any format check.
     */
    method CopyMat(src: Mat, order: MatColorOrder := RGB) returns (res: int)
      requires Valid() && MatWf(src)
      modifies this, mat.data
      ensures Valid()
      ensures res == (if SameHeader(src, old(mat)) || IsValidMatFormat(src.elemType) then 0 else -1)
      ensures SameHeader(src, old(mat)) && !MatIsEmpty(src) ==> qImg == old(qImg) && mat == old(mat)
      ensures SameHeader(src, old(mat)) && !MatIsEmpty(src) && !AliasesView(src, old(mat), order) ==>
        MatRows(mat) == RgbRows(order, src.elemType, old(MatRows(src)))
      ensures SameHeader(src, old(mat)) && !MatIsEmpty(src) && old(IsMatBound()) && old(mat.step) == qImg.stride ==>
        IsMatBound() && ImageRows(qImg) == MatRows(mat)
      ensures !SameHeader(src, old(mat)) && IsValidMatFormat(src.elemType) && !MatIsEmpty(src) ==>
        fresh(qImg.bits) && qImg.format == ConvertMatFormatTag(src.elemType)
        && qImg.width == src.cols && qImg.height == src.rows
        && IsMatBound() && mat.step == qImg.stride
        && ImageRows(qImg) == RgbRows(order, src.elemType, old(MatRows(src)))
      ensures MatIsEmpty(src) && res == 0 ==> MatIsNull(mat)
      ensures SameHeader(src, old(mat)) && !SwapsChannels(order, src.elemType) ==> qImg == old(qImg)
      ensures !SameHeader(src, old(mat)) && IsValidMatFormat(src.elemType) && MatIsEmpty(src) && !SwapsChannels(order, src.elemType) ==>
        Empty()
      ensures res == -1 ==> qImg == old(qImg) && mat == old(mat)
      ensures !SameHeader(src, old(mat)) && old(mat.data) != null ==> unchanged(old(mat.data))
    {
      var fmt := ConvertMatFormatTag(src.elemType);
      var rgb := GetRgbMat(src, EmptyMat, order);
      if SameHeader(rgb, mat) {
        ghost var wasBound := IsMatBound();
        mat := MatCopyTo(rgb, mat);
        if wasBound && !MatIsEmpty(src) && mat.step == qImg.stride {
          BoundRowsAgree(qImg, mat);
        }
        res := 0;
      } else if fmt != Invalid {
        CopyFromMat(rgb, fmt);
        res := 0;
      } else {
        res := -1;
      }
    }

    /**
     * rebindMat(priority): a supported buffer format rebinds the view (no
     * data copied), 0; otherwise -1, and Hi keeps the buffer and empties the
     * view while Low empties both.
     */
    method RebindMat(priority: DataPrio := Low) returns (res: int)
      requires Valid()
      modifies this
      ensures Valid()
      ensures res == (if IsValidQImgFormat(old(qImg.format)) then 0 else -1)
      ensures res == 0 ==>
        qImg == old(qImg) && IsMatBound() && mat.step == qImg.stride && MatRows(mat) == ImageRows(qImg)
      ensures res == -1 && priority == Hi ==> qImg == old(qImg) && mat == EmptyMat
      ensures res == -1 && priority == Low ==> Empty()
    {
      var qImgFormatValid := IsValidQImgFormat(qImg.format);
      if !qImgFormatValid && priority == Low {
        SetMembersEmpty();
        return -1;
      } else if !qImgFormatValid && priority == Hi {
        mat := EmptyMat;
        return -1;
      } else {
        CreateMatFromQImage();
        return 0;
      }
    }

    /**
     * rebindQImg(priority, order): a view of a supported type is copied, red
     * and blue exchanged for a BGR 3-channel view, into a new buffer of the
     * reverse-mapped format, and the view is bound to it, 0; otherwise -1,
     * and Hi keeps the view (its memory untouched) and empties the buffer
     * while Low empties both.  The exchange happens in the view's own memory.
     */
    method RebindQImg(priority: DataPrio := Low, order: MatColorOrder := RGB) returns (res: int)
      requires Valid()
      modifies this, mat.data
      ensures Valid()
      ensures res == (if IsValidMatFormat(old(mat.elemType)) then 0 else -1)
      ensures res == -1 && priority == Hi ==> mat == old(mat) && qImg == NullImage
      ensures res == -1 && priority == Low ==> Empty()
      ensures res == -1 && old(mat.data) != null ==> unchanged(old(mat.data))
      ensures res == 0 && MatIsEmpty(old(mat)) ==> Empty()
      ensures res == 0 && !MatIsEmpty(old(mat)) ==>
        fresh(qImg.bits) && qImg.format == ConvertMatFormatTag(old(mat.elemType))
        && qImg.width == old(mat.cols) && qImg.height == old(mat.rows)
        && IsMatBound() && mat.step == qImg.stride
        && ImageRows(qImg) == RgbRows(order, old(mat.elemType), old(MatRows(mat)))
    {
      var qImgFormat := ConvertMatFormatTag(mat.elemType);
      var matFormatValid := qImgFormat != Invalid;
      var rgb := mat;
      if !matFormatValid && priority == Low {
        SetMembersEmpty();
        return -1;
      } else if !matFormatValid && priority == Hi {
        qImg := NullImage;
        return -1;
      } else {
        rgb := GetRgbMat(mat, rgb, order);
        CopyFromMat(rgb, qImgFormat);
        return 0;
      }
    }

    /**
     * convertToFormat(format): for a supported format, a new bound object
     * holding the buffer converted to that format; otherwise an empty object.
     * This object is left as it is.
     */
    method ConvertToFormat(format: QFormat) returns (o: QCVimg)
      requires Valid()
      ensures fresh(o) && o.Valid()
      ensures !IsValidQImgFormat(format) || qImg.bits == null ==> o.Empty()
      ensures IsValidQImgFormat(format) && qImg.bits != null ==>
        fresh(o.qImg.bits) && o.qImg.format == format
        && o.qImg.width == qImg.width && o.qImg.height == qImg.height && o.IsMatBound()
      ensures IsValidQImgFormat(format) && format == qImg.format ==>
        ImageRows(o.qImg) == ImageRows(qImg) && ImageEquals(o.qImg, qImg)
    {
      if IsValidQImgFormat(format) {
        var converted := Images.ConvertToFormat(qImg, format);
        var rest;
        o, rest := FromQImageMove(converted);
      } else {
        o := new QCVimg.Default();
      }
    }
  }

  /**
   * A source that is copied as it is (no colour swap) through a header that
   * shares the view's memory with a different row step: copyTo then sees the
   * same data pointer and copies nothing.
   */
  predicate AliasesView(src: Mat, view: Mat, order: MatColorOrder)
  {
    !SwapsChannels(order, src.elemType) && src.data == view.data && src.step != view.step
  }

  /**
   * rebindQImg hands copyFrom the view itself: rgbMat starts as a header over
   * the view's memory, and a colour swap into it is done in place, because
   * cvtColor keeps a destination of the right size and type.  For a bound
   * object that memory is the buffer, so the source breaks the requirement
   * of copyFrom as written.
   */
  lemma BoundViewFeedsReleasedBuffer(x: QCVimg, order: MatColorOrder)
    requires x.Valid() && x.IsMatBound()
    ensures !MatIsEmpty(x.mat) && IsValidMatFormat(x.mat.elemType)
    ensures SwapsChannels(order, x.mat.elemType) ==> CreateReuses(x.mat, x.mat.rows, x.mat.cols, CV_8UC3)
    ensures !(x.mat.data == null || x.mat.data != x.qImg.bits)
  {
    BoundMeansSupported(x.qImg, x.mat);
    ForwardIsAccepted(x.qImg.format);
  }

  /** cv::Mat::rowRange(0, k): the first k rows of a view, over the same memory with the same step. */
  function TopRows(m: Mat, k: int): (r: Mat)
    reads m.data
    requires MatWf(m) && 0 <= k <= m.rows
    ensures MatWf(r) && r.data == m.data && r.cols == m.cols && r.elemType == m.elemType
    ensures r.data != null ==> MatRows(r) == MatRows(m)[..k]
  {
    if m.data == null then m
    else
      var r := Mat(k, m.cols, m.elemType, m.step, m.data);
      assert Fits(m.data.Length, m.step, m.cols * ElemSize(m.elemType), k) by {
        if k > 0 {
          MulMono(k, m.rows, m.step);
        }
      }
      SubRaster(m.data[..], m.step, m.cols * ElemSize(m.elemType), m.rows, k);
      r
  }

  /**
   * copy(Mat) with a source made of the first row of a bound view of at
   * least two rows takes the slow path (the header differs from the view's),
   * needs no colour swap, and hands copyFrom a header over the buffer it
   * releases: copyFrom as written reads released memory there too.
   */
  lemma SubViewFeedsReleasedBuffer(x: QCVimg)
    requires x.Valid() && x.IsMatBound() && x.mat.rows >= 2
    ensures !SameHeader(TopRows(x.mat, 1), x.mat) && IsValidMatFormat(TopRows(x.mat, 1).elemType)
    ensures !MatIsEmpty(TopRows(x.mat, 1)) && !SwapsChannels(RGB, TopRows(x.mat, 1).elemType)
    ensures !(TopRows(x.mat, 1).data == null || TopRows(x.mat, 1).data != x.qImg.bits)
  {
    BoundMeansSupported(x.qImg, x.mat);
    ForwardIsAccepted(x.qImg.format);
  }

  /** operator== is reflexive: every object equals itself, bound or not. */
  lemma EqualsIsReflexive(x: QCVimg)
    requires x.Valid()
    ensures x.Equals(x)
  {
    ImageEqualsIsEquivalence(x.qImg, x.qImg);
  }

  /** An empty object is never bound: Format_Invalid has no view type. */
  lemma EmptyIsNeverBound(x: QCVimg)
    requires x.Valid() && x.Empty()
    ensures x.qImg == NullImage && !x.IsMatBound()
  {
  }

  /** empty() holds exactly when both members have no data and a zero size. */
  lemma EmptyMeansNoData(x: QCVimg)
    requires x.Valid()
    ensures x.Empty() <==>
      x.qImg.bits == null && x.qImg.width == 0 && x.qImg.height == 0
      && x.mat.data == null && x.mat.rows == 0 && x.mat.cols == 0
  {
  }

  /** Any two empty objects compare equal. */
  lemma EmptyObjectsAreEqual(a: QCVimg, b: QCVimg)
    requires a.Valid() && b.Valid() && a.Empty() && b.Empty()
    ensures a.Equals(b)
  {
  }

  /**
   * Two objects of which neither is bound compare equal exactly when their
   * buffers do: equality compares the two binding states with each other,
   * it does not demand that both are bound.
   */
  lemma UnboundObjectsCompareBuffers(a: QCVimg, b: QCVimg)
    requires a.Valid() && b.Valid() && !a.IsMatBound() && !b.IsMatBound()
    ensures a.Equals(b) <==> ImageEquals(a.qImg, b.qImg)
  {
  }

  /** A bound and an unbound object never compare equal, whatever their buffers hold. */
  lemma BindingStateSeparates(a: QCVimg, b: QCVimg)
    requires a.Valid() && b.Valid() && a.IsMatBound() && !b.IsMatBound()
    ensures !a.Equals(b) && !b.Equals(a)
  {
  }
}
