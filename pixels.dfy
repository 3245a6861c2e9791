/**
 * Raw raster bytes: rows laid out with a stride inside one flat byte array,
 * the red/blue channel swap of 3-channel 8-bit data (cv::cvtColor with
 * COLOR_BGR2RGB or COLOR_RGB2BGR), and the row-by-row copies that OpenCV
 * performs in cv::Mat::copyTo and cvtColor.
 */
module Pixels {

  /** n rows of `width` bytes, `step` bytes apart, lie inside `len` bytes. */
  predicate Fits(len: nat, step: nat, width: nat, n: nat)
  {
    n == 0 || (width <= step && n * step <= len)
  }

  lemma MulMono(a: nat, b: nat, c: nat)
    requires a <= b
    ensures a * c <= b * c
  {
  }

  /** Row i ends no later than where row i + 1 begins. */
  lemma RowInside(i: nat, n: nat, step: nat, width: nat)
    requires i < n && width <= step
    ensures i * step + width <= n * step
  {
    MulMono(i + 1, n, step);
  }

  /** The pixel bytes of each of n rows (the bytes between a row's end and the next row are padding). */
  function Rows(s: seq<bv8>, step: nat, width: nat, n: nat): (r: seq<seq<bv8>>)
    requires Fits(|s|, step, width, n)
    ensures |r| == n
  {
    seq(n, i requires 0 <= i < n => RowInside(i, n, step, width); s[i * step .. i * step + width])
  }

  /** Row i, written out: the `width` bytes from offset i * step. */
  lemma RowAt(s: seq<bv8>, step: nat, width: nat, n: nat, i: nat)
    requires Fits(|s|, step, width, n) && i < n
    ensures i * step + width <= |s|
    ensures Rows(s, step, width, n)[i] == s[i * step .. i * step + width]
  {
    RowInside(i, n, step, width);
  }

  /** The first k rows of a raster are the rows of the raster cut to k rows. */
  lemma SubRaster(s: seq<bv8>, step: nat, width: nat, n: nat, k: nat)
    requires Fits(|s|, step, width, n) && k <= n && Fits(|s|, step, width, k)
    ensures Rows(s, step, width, k) == Rows(s, step, width, n)[..k]
  {
    forall i | 0 <= i < k
      ensures Rows(s, step, width, k)[i] == Rows(s, step, width, n)[i]
    {
      RowAt(s, step, width, k, i);
      RowAt(s, step, width, n, i);
    }
  }

  /**
   * Writing only inside [lo, lo + width) of row r leaves every other row as
   * it was: rows before r end by r * step, rows after it begin at
   * (r + 1) * step or later.
   */
  lemma OtherRowsUntouched(a: seq<bv8>, b: seq<bv8>, step: nat, width: nat, n: nat, r: nat, i: nat)
    requires |a| == |b| && Fits(|a|, step, width, n) && r < n && i < n && i != r
    requires forall j :: 0 <= j < |a| && !(r * step <= j < r * step + width) ==> a[j] == b[j]
    ensures Rows(a, step, width, n)[i] == Rows(b, step, width, n)[i]
  {
    RowAt(a, step, width, n, i);
    RowAt(b, step, width, n, i);
    if i < r {
      RowInside(i, r, step, width);
    } else {
      MulMono(r + 1, i, step);
    }
    assert a[i * step .. i * step + width] == b[i * step .. i * step + width];
  }

  /**
   * Position k of a 3-channel row takes its value from position
   * Partner(k, len): channels 0 and 2 of every whole pixel trade places; a
   * trailing partial pixel (never present in a 3-channel row) stays put.
   */
  function Partner(k: nat, len: nat): nat
  {
    if k % 3 == 0 && k + 2 < len then k + 2 else if k % 3 == 2 then k - 2 else k
  }

  lemma PartnerInRow(k: nat, len: nat)
    requires k < len
    ensures Partner(k, len) < len && Partner(Partner(k, len), len) == k
  {
  }

  /** A row of 3-channel 8-bit pixels with its first and third channel exchanged in every pixel. */
  function SwapRedBlue(row: seq<bv8>): (r: seq<bv8>)
    ensures |r| == |row|
    ensures forall p :: 0 <= p < |row| / 3 ==>
      r[3 * p] == row[3 * p + 2] && r[3 * p + 1] == row[3 * p + 1] && r[3 * p + 2] == row[3 * p]
  {
    seq(|row|, k requires 0 <= k < |row| => PartnerInRow(k, |row|); row[Partner(k, |row|)])
  }

  /** Swapping twice gives the row back: BGR -> RGB -> BGR. */
  lemma {:induction false} SwapRedBlueInvolution(row: seq<bv8>)
    ensures SwapRedBlue(SwapRedBlue(row)) == row
  {
    var once := SwapRedBlue(row);
    forall k | 0 <= k < |row|
      ensures SwapRedBlue(once)[k] == row[k]
    {
      PartnerInRow(k, |row|);
      PartnerInRow(Partner(k, |row|), |row|);
    }
  }

  /** Every row of a raster swapped: the specification map that the cvtColor row loop (SwapRows) is proved equal to. */
  function SwapAll(rows: seq<seq<bv8>>): (r: seq<seq<bv8>>)
    ensures |r| == |rows|
    ensures forall i :: 0 <= i < |rows| ==> r[i] == SwapRedBlue(rows[i])
  {
    seq(|rows|, i requires 0 <= i < |rows| => SwapRedBlue(rows[i]))
  }

  /** memcpy of one row between two distinct arrays. */
  method CopyRow(src: array<bv8>, soff: nat, dst: array<bv8>, doff: nat, width: nat)
    requires src != dst
    requires soff + width <= src.Length && doff + width <= dst.Length
    modifies dst
    ensures dst[doff .. doff + width] == src[soff .. soff + width]
    ensures forall j :: 0 <= j < dst.Length && !(doff <= j < doff + width) ==> dst[j] == old(dst[j])
  {
    var k := 0;
    while k < width
      invariant 0 <= k <= width
      invariant forall j :: doff <= j < doff + k ==> dst[j] == src[j - doff + soff]
      invariant forall j :: 0 <= j < dst.Length && !(doff <= j < doff + k) ==> dst[j] == old(dst[j])
    {
      dst[doff + k] := src[soff + k];
      k := k + 1;
    }
  }

  /**
   * The row loop of cv::Mat::copyTo between two distinct arrays: afterwards
   * the destination's rows are the source's rows.
   */
  method CopyRows(src: array<bv8>, sStep: nat, dst: array<bv8>, dStep: nat, n: nat, width: nat)
    requires src != dst
    requires Fits(src.Length, sStep, width, n) && Fits(dst.Length, dStep, width, n)
    modifies dst
    ensures Rows(dst[..], dStep, width, n) == Rows(src[..], sStep, width, n)
  {
    var r := 0;
    while r < n
      invariant 0 <= r <= n
      invariant forall i :: 0 <= i < r ==> Rows(dst[..], dStep, width, n)[i] == Rows(src[..], sStep, width, n)[i]
    {
      ghost var before := dst[..];
      RowInside(r, n, sStep, width);
      RowInside(r, n, dStep, width);
      CopyRow(src, r * sStep, dst, r * dStep, width);
      RowAt(dst[..], dStep, width, n, r);
      RowAt(src[..], sStep, width, n, r);
      forall i | 0 <= i < r
        ensures Rows(dst[..], dStep, width, n)[i] == Rows(src[..], sStep, width, n)[i]
      {
        OtherRowsUntouched(dst[..], before, dStep, width, n, r, i);
      }
      r := r + 1;
    }
  }

  /**
   * One row of cvtColor's red/blue swap.  Source and destination may be the
   * same array at the same offset (the in-place case): each pixel is read in
   * full before it is written.
   */
  method SwapRow(src: array<bv8>, soff: nat, dst: array<bv8>, doff: nat, width: nat)
    requires width % 3 == 0
    requires src == dst ==> soff == doff
    requires soff + width <= src.Length && doff + width <= dst.Length
    modifies dst
    ensures dst[doff .. doff + width] == SwapRedBlue(old(src[soff .. soff + width]))
    ensures forall j :: 0 <= j < dst.Length && !(doff <= j < doff + width) ==> dst[j] == old(dst[j])
  {
    ghost var row := src[soff .. soff + width];
    var p := 0;
    while p < width / 3
      invariant 0 <= p <= width / 3
      invariant forall j :: doff <= j < doff + 3 * p ==> dst[j] == row[Partner(j - doff, width)]
      invariant forall j :: soff + 3 * p <= j < soff + width ==> src[j] == row[j - soff]
      invariant forall j :: 0 <= j < dst.Length && !(doff <= j < doff + 3 * p) ==> dst[j] == old(dst[j])
    {
      var b0, b1, b2 := src[soff + 3 * p], src[soff + 3 * p + 1], src[soff + 3 * p + 2];
      PixelPartners(p, width);
      dst[doff + 3 * p] := b2;
      dst[doff + 3 * p + 1] := b1;
      dst[doff + 3 * p + 2] := b0;
      p := p + 1;
    }
  }

  lemma PixelPartners(p: nat, len: nat)
    requires 3 * p + 2 < len
    ensures Partner(3 * p, len) == 3 * p + 2 && Partner(3 * p + 1, len) == 3 * p + 1 && Partner(3 * p + 2, len) == 3 * p
  {
  }

  /**
   * The row loop of cvtColor's red/blue swap.  Source and destination may be
   * the same array with the same stride: rows not yet processed are still
   * the original ones.
   */
  method SwapRows(src: array<bv8>, sStep: nat, dst: array<bv8>, dStep: nat, n: nat, width: nat)
    requires width % 3 == 0
    requires src == dst ==> sStep == dStep
    requires Fits(src.Length, sStep, width, n) && Fits(dst.Length, dStep, width, n)
    modifies dst
    ensures Rows(dst[..], dStep, width, n) == SwapAll(Rows(old(src[..]), sStep, width, n))
  {
    ghost var orig := src[..];
    ghost var origRows := Rows(orig, sStep, width, n);
    ghost var swapped := SwapAll(origRows);
    var r := 0;
    while r < n
      invariant 0 <= r <= n
      invariant src != dst ==> src[..] == orig
      invariant src == dst ==> forall i :: r <= i < n ==> Rows(dst[..], dStep, width, n)[i] == origRows[i]
      invariant forall i :: 0 <= i < r ==> Rows(dst[..], dStep, width, n)[i] == swapped[i]
    {
      ghost var before := dst[..];
      RowInside(r, n, sStep, width);
      RowInside(r, n, dStep, width);
      assert src[r * sStep .. r * sStep + width] == origRows[r] by {
        RowAt(orig, sStep, width, n, r);
        RowAt(before, dStep, width, n, r);
      }
      SwapRow(src, r * sStep, dst, r * dStep, width);
      ghost var after := dst[..];
      assert Rows(after, dStep, width, n)[r] == swapped[r] by {
        RowAt(after, dStep, width, n, r);
      }
      forall i | 0 <= i < n && i != r
        ensures Rows(after, dStep, width, n)[i] == Rows(before, dStep, width, n)[i]
      {
        OtherRowsUntouched(after, before, dStep, width, n, r, i);
      }
      r := r + 1;
    }
    assert old(src[..]) == orig;
    assert Rows(dst[..], dStep, width, n) == swapped;
  }
}
