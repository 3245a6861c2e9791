/**
 * Colour-order helpers: OpenCV keeps 3-channel images in BGR order, QImage's
 * RGB888 in RGB order.  The only reordering the class performs is the swap of
 * channels 0 and 2 of 3-channel 8-bit data; 1- and 4-channel data is never
 * reordered.
 */
module ColorOrder {
  import opened Formats
  import opened Pixels
  import opened Images

  /** MatColorOrder: the channel order a cv::Mat argument is declared to have. */
  datatype MatColorOrder = RGB | BGR

  /** getRgbMat exchanges red and blue exactly for a BGR source of type CV_8UC3. */
  predicate SwapsChannels(order: MatColorOrder, t: MatType)
  {
    order == BGR && t == CV_8UC3
  }

  /** The rows an RGB copy of a view of type t, declared in the given order, holds. */
  function RgbRows(order: MatColorOrder, t: MatType, rows: seq<seq<bv8>>): seq<seq<bv8>>
  {
    if SwapsChannels(order, t) then SwapAll(rows) else rows
  }

  /** The swap is its own inverse, so an RGB copy declared BGR and swapped again is the original. */
  lemma RgbRowsTwice(rows: seq<seq<bv8>>)
    ensures RgbRows(BGR, CV_8UC3, RgbRows(BGR, CV_8UC3, rows)) == rows
  {
    forall i | 0 <= i < |rows|
      ensures SwapAll(SwapAll(rows))[i] == rows[i]
    {
      SwapRedBlueInvolution(rows[i]);
    }
  }

  /**
   * cv::cvtColor(src, dst, COLOR_BGR2RGB) (or RGB2BGR, the same permutation)
   * on a CV_8UC3 source.  The destination is re-created for the source's size
   * and type, which keeps its memory when it already has data of that size
   * and type (so a destination that shares the source's memory is swapped in
   * place) and allocates a continuous buffer otherwise.
   */
  method CvtSwapRedBlue(src: Mat, dst: Mat) returns (r: Mat)
    requires MatWf(src) && MatWf(dst) && src.elemType == CV_8UC3
    requires src.data != null && src.data == dst.data ==> src.step == dst.step
    modifies dst.data
    ensures MatWf(r)
    ensures MatIsEmpty(src) ==> r == Mat(0, 0, CV_8UC3, 0, null)
    ensures !MatIsEmpty(src) ==> SameHeader(r, src) && MatRows(r) == SwapAll(old(MatRows(src)))
    ensures !MatIsEmpty(src) && CreateReuses(dst, src.rows, src.cols, CV_8UC3) ==> r == dst
    ensures !MatIsEmpty(src) && !CreateReuses(dst, src.rows, src.cols, CV_8UC3) ==> fresh(r.data)
    ensures dst.data != null && r.data != dst.data ==> unchanged(dst.data)
  {
    if MatIsEmpty(src) {
      r := Mat(0, 0, CV_8UC3, 0, null);
      return;
    }
    var width := src.cols * 3;
    if CreateReuses(dst, src.rows, src.cols, CV_8UC3) {
      r := dst;
    } else {
      var a := new bv8[src.rows * width];
      r := Mat(src.rows, src.cols, CV_8UC3, width, a);
    }
    SwapRows(src.data, src.step, r.data, r.step, src.rows, width);
  }

  /**
   * getRgbMat(src, rgb, order): a BGR source of type CV_8UC3 has its red and
   * blue channels exchanged into `init` (re-created as cvtColor does); any
   * other source is shared as it is (a shallow cv::Mat copy).
   */
  method GetRgbMat(src: Mat, init: Mat, order: MatColorOrder) returns (rgb: Mat)
    requires MatWf(src) && MatWf(init)
    requires src.data != null && src.data == init.data ==> src.step == init.step
    modifies init.data
    ensures MatWf(rgb) && rgb.elemType == src.elemType
    ensures !SwapsChannels(order, src.elemType) ==> rgb == src
    ensures !MatIsEmpty(src) ==> SameHeader(rgb, src)
    ensures !MatIsEmpty(src) ==> MatRows(rgb) == RgbRows(order, src.elemType, old(MatRows(src)))
    ensures MatIsEmpty(src) ==> MatIsEmpty(rgb)
    ensures SwapsChannels(order, src.elemType) && !MatIsEmpty(src) && CreateReuses(init, src.rows, src.cols, CV_8UC3) ==>
      rgb == init
    ensures SwapsChannels(order, src.elemType) && !MatIsEmpty(src) && !CreateReuses(init, src.rows, src.cols, CV_8UC3) ==>
      fresh(rgb.data)
    ensures init.data != null && (!SwapsChannels(order, src.elemType) || rgb.data != init.data) ==> unchanged(init.data)
  {
    if order == BGR && src.elemType == CV_8UC3 {
      rgb := CvtSwapRedBlue(src, init);
    } else {
      rgb := src;
    }
  }

  /**
   * swapMatRedBlue: -1 and the destination untouched for anything but a
   * CV_8UC3 source; otherwise 0 and the destination holds the source with
   * channels 0 and 2 exchanged, whichever order the source is declared in.
   * The source's memory is left alone unless the destination shares it.
   */
  method SwapMatRedBlue(src: Mat, dst: Mat, order: MatColorOrder := RGB) returns (res: int, out: Mat)
    requires MatWf(src) && MatWf(dst)
    requires src.data != null && src.data == dst.data ==> src.step == dst.step
    modifies dst.data
    ensures MatWf(out)
    ensures res == (if src.elemType == CV_8UC3 then 0 else -1)
    ensures res == -1 ==> out == dst && (dst.data != null ==> unchanged(dst.data))
    ensures res == 0 && !MatIsEmpty(src) ==> SameHeader(out, src) && MatRows(out) == SwapAll(old(MatRows(src)))
    ensures src.data != null && src.data != dst.data ==> unchanged(src.data)
  {
    if src.elemType != CV_8UC3 {
      return -1, dst;
    }
    if order == BGR {
      out := CvtSwapRedBlue(src, dst);
    } else {
      out := CvtSwapRedBlue(src, dst);
    }
    res := 0;
  }

  /** A colour channel value as QColor reports it. */
  type Channel = c: int | 0 <= c <= 255

  /** The red, green and blue components of a QColor (its alpha plays no part here). */
  datatype QColor = QColor(red: Channel, green: Channel, blue: Channel, alpha: Channel)

  /** A cv::Scalar of four values. */
  datatype Scalar = Scalar(v0: int, v1: int, v2: int, v3: int)

  /**
   * convertQColorToScalar: red, green, blue in the requested order, and the
   * fourth value 0 (alpha is never carried over).
   */
  function ConvertQColorToScalar(c: QColor, order: MatColorOrder): (s: Scalar)
    ensures s.v1 == c.green && s.v3 == 0
    ensures {s.v0, s.v2} == {c.red, c.blue}
  {
    if order == RGB then Scalar(c.red, c.green, c.blue, 0) else Scalar(c.blue, c.green, c.red, 0)
  }

  /** The first three values of a scalar as one 3-channel 8-bit pixel. */
  function ScalarPixel(s: Scalar): seq<bv8>
    requires 0 <= s.v0 <= 255 && 0 <= s.v1 <= 255 && 0 <= s.v2 <= 255
  {
    [s.v0 as bv8, s.v1 as bv8, s.v2 as bv8]
  }

  /**
   * The two orders give pixels that differ exactly by the red/blue swap, so
   * a colour converted for a BGR image is the colour converted for an RGB
   * image, seen through cvtColor.
   */
  lemma ScalarOrdersSwapped(c: QColor)
    ensures ScalarPixel(ConvertQColorToScalar(c, BGR)) == SwapRedBlue(ScalarPixel(ConvertQColorToScalar(c, RGB)))
    ensures ConvertQColorToScalar(c, RGB).v0 == c.red && ConvertQColorToScalar(c, BGR).v0 == c.blue
  {
    var p := ScalarPixel(ConvertQColorToScalar(c, RGB));
    assert SwapRedBlue(p)[0] == p[2];
  }
}
