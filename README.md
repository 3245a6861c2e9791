# QCVimg in Dafny

QCVimg is a C++ class that lets one image be used both as a Qt `QImage` and
as an OpenCV `cv::Mat`. It owns the pixels in a QImage buffer (`mQImg`). Over
the same bytes it keeps a cv::Mat header (`mMImg`), the *view*, which owns
nothing. This project models the class and proves what it promises:

- the two format tables and their validity predicates;
- when the view counts as bound to the buffer (`isMatBound`);
- what every constructor, copy, move, swap, rebind and `copy` overload leaves
  in the two members;
- the red/blue channel swap on 3-channel 8-bit data;
- the QDataStream framing, and its round trip.

Modules, in dependency order:

- `Formats` (`formats.dfy`) holds the two format taxonomies as datatypes:
  - Qt 5.15's `QImage::Format`, with its depth table and wire codes;
  - OpenCV element types, as a depth and a channel count.

  It also holds the forward table (`convertQImgFormatTag`), the reverse
  table (`convertMatFormatTag`) and the `isValid*` predicates.
- `Pixels` (`pixels.dfy`) covers strided rows inside a flat byte array. It
  has the row loops of `cv::Mat::copyTo` and of `cv::cvtColor`'s BGR↔RGB
  swap. The swap also works in place on one array.
- `Images` (`images.dfy`) has two value types whose pixel memory is an
  `array?<bv8>`:
  - `QImage` (bits, width, height, format, stride);
  - `Mat` (rows, cols, element type, step, data).

  Pointer identity is reference equality. The module defines the three
  binding checks, `createMatFromQImage`, QImage allocation and deep copy,
  `Mat::copyTo` with its reuse-or-allocate rule, and QImage format
  conversion.
- `ColorOrder` (`color_order.dfy`) has `MatColorOrder`, `getRgbMat`,
  `swapMatRedBlue` and `convertQColorToScalar`.
- `QCV` (`qcvimg.dfy`) has the class `QCVimg` with fields `qImg` (`mQImg`)
  and `mat` (`mMImg`), and its constructors and mutators as methods
  that change those fields.
- `Serialization` (`serialization.dfy`) has `operator<<` and `operator>>`
  over a stream of qint32 values and image blobs.

Modelling choices that hold throughout:

- A QImage with null bits is always Qt's null image: 0 x 0 with
  `Format_Invalid`.
- A default `cv::Mat` is 0 x 0, of type CV_8UC1, with null data.
- The QImage of a QCVimg is never shared with another live QImage. So Qt's
  implicit sharing and detach never move the buffer, and `bits()` is the
  buffer's identity.
- QImage's move assignment swaps the two images, as it does in Qt 5. Moving
  a QCVimg into another object therefore leaves the source holding the
  destination's former buffer.
- The red/blue swap is the permutation `cv::cvtColor` applies for
  COLOR_BGR2RGB and COLOR_RGB2BGR.
- The destination of `cvtColor` and of `copyTo` is re-created as OpenCV's
  `Mat::create` does:
  - memory is kept when it already has data of the same rows, cols and type;
  - otherwise a continuous buffer is allocated.

  Because memory is kept, the colour swap in `rebindQImg` runs in the view's
  own memory, because `rgbMat` starts as `mMImg`.
- Memory is never released in Dafny. Where the C++ releases a buffer and then
  reads it, the model keeps a member that only accepts inputs without that
  alias, and a corrected member that the rest of the model uses (see
  "Findings").

## Model

| member | source | states |
|---|---|---|
| Formats.FormatCode | src/qcvimg.cpp:452 | the wire code of a buffer format is below 30 and reads back as the same format |
| Formats.TypeCode | src/qcvimg.cpp:455 | the integer type code of a view type is below 4096 and decodes back to the same type |
| Formats.RowBytesFitInLine | src/qcvimg.cpp:374 | the pixel bytes of a row never exceed Qt's 32-bit aligned row stride |
| Formats.ConvertQImgFormatTag | src/qcvimg.cpp:263-268 | the forward table; wherever it maps a format, the element size of the view type equals the format's pixel size |
| Formats.ConvertMatFormatTag | src/qcvimg.cpp:270-275 | the reverse table; every format it returns is mapped back by the forward table to the same view type |
| Formats.IsValidQImgFormat | src/qcvimg.cpp:277-280 | a buffer format is accepted exactly when it is RGB32, ARGB32, RGB888, Alpha8, Grayscale8 or Grayscale16 |
| Formats.IsValidMatFormat | src/qcvimg.cpp:282-285 | a view type is accepted exactly when it is CV_8UC1, CV_8UC3, CV_8UC4 or CV_16UC1 |
| Formats.ValidQImgFormatHasBytes | src/qcvimg.cpp:331-342 | every accepted buffer format is a real format with a whole number of bytes per pixel |
| Formats.ReverseAfterForward | src/qcvimg.cpp:331-353 | reverse after forward is the identity, except that Alpha8 returns as Grayscale8 and RGB32 as ARGB32 (both directions) |
| Formats.ForwardIsAccepted | src/qcvimg.cpp:331-353 | every view type the forward table produces is accepted by the reverse table |
| Formats.ForwardAfterReverse | src/qcvimg.cpp:331-353 | forward after reverse is the identity on the four accepted view types |
| Pixels.Rows | src/qcvimg.cpp:370-374 | a strided raster of n rows yields n rows |
| Pixels.RowAt | src/qcvimg.cpp:370-374 | row i of a strided raster is the width bytes from offset i*step, and these lie inside the array |
| Pixels.SubRaster | src/qcvimg.cpp:370-374 | the first k rows of a raster, read as a raster of k rows, are its first k rows |
| Pixels.OtherRowsUntouched | src/qcvimg.cpp:386 | writing inside one row leaves every other row of the raster unchanged |
| Pixels.SwapRedBlue | src/qcvimg.cpp:398 | the swapped row has the same length, and in every pixel channels 0 and 2 are exchanged while channel 1 stays |
| Pixels.SwapRedBlueInvolution | src/qcvimg.cpp:293-295 | BGR2RGB followed by RGB2BGR gives the original row back |
| Pixels.SwapAll | src/qcvimg.cpp:398 | each row of the result is the corresponding source row swapped |
| Pixels.CopyRow | src/qcvimg.cpp:386 | one row is copied between two arrays and nothing outside it changes |
| Pixels.CopyRows | src/qcvimg.cpp:386 | after the row loop the destination's rows are the source's rows |
| Pixels.SwapRow | src/qcvimg.cpp:398 | one row is swapped, in place or between arrays, and nothing outside it changes |
| Pixels.SwapRows | src/qcvimg.cpp:293-295 | the destination's rows are the original source rows swapped, even when source and destination are the same memory |
| Images.ImageEquals | src/qcvimg.cpp:179 | QImage equality: null images equal only each other; otherwise the same size and format and equal compared pixel rows |
| Images.ImageEqualsIsEquivalence | src/qcvimg.cpp:179 | QImage equality is reflexive, symmetric and transitive |
| Images.MatIsNull | src/qcvimg.cpp:444-448 | matIsNull means 0 x 0 with null data, and such a header is also empty in OpenCV's sense |
| Images.PointersMatch | src/qcvimg.cpp:410-420 | the check accepts the same pointer or two null pointers, which holds exactly when the two pointers are equal |
| Images.SizesMatch | src/qcvimg.cpp:422-425 | the view's rows are the buffer's height and its cols the buffer's width |
| Images.FormatsMatch | src/qcvimg.cpp:432-437 | the forward table maps the buffer format to the view's type; the sentinel -1 matches no type |
| Images.Bound | src/qcvimg.cpp:162-165 | isMatBound is the conjunction of the pointer, size and format checks; the row step is not compared |
| Images.SameHeader | src/qcvimg.cpp:427-442 | two views have the same cols, rows and type (sizesMatch and typesMatch on two views) |
| Images.BoundMeansSupported | src/qcvimg.cpp:162-165 | a bound buffer has an accepted format and non-null bits, and the view's type is that format's mapped type |
| Images.NullBufferNeverBound | src/qcvimg.cpp:410-437 | a null buffer is bound to no view, because Format_Invalid has no view type |
| Images.MappedRowBytes | src/qcvimg.cpp:370-374 | for an accepted format, a row of view elements has exactly the row's pixel bytes |
| Images.BoundRowsAgree | src/qcvimg.cpp:162-165 | a bound view with the buffer's stride shows exactly the buffer's pixel rows |
| Images.BindView | src/qcvimg.cpp:368-375 | corrected binding: for an accepted format the view is bound, has the buffer's stride and shows its rows; otherwise it is the default empty header |
| Images.BindViewAsWritten | src/qcvimg.cpp:368-375 | binding as written, defined only where the table lookup succeeds, where it gives a bound view |
| Images.ZeroSizeBufferFailsLookup | src/qcvimg.cpp:41-47 | RGB888 is accepted for a 0 x 0 size, yet yields a null buffer whose format has no table entry |
| Images.NullBufferBindsNullView | src/qcvimg.cpp:404-408 | with the corrected binding, a null buffer leaves the view null and unbound |
| Images.Allocate | src/qcvimg.cpp:377-380 | QImage(w, h, f) gives fresh memory of the requested size and format, or a null image for an empty size or Format_Invalid |
| Images.DeepCopy | src/qcvimg.cpp:389-393 | QImage::copy gives a new buffer equal to the source, holding the same pixel rows |
| Images.MatCopyTo | src/qcvimg.cpp:386 | copyTo releases on an empty source; otherwise it reuses or allocates the destination, which then has the source's header and rows |
| Images.ConvertToFormat | src/qcvimg.cpp:79-86 | conversion gives a fresh buffer of the same size in the requested format, or a null image for a null source or Format_Invalid |
| Images.ConvertTo | src/qcvimg.cpp:473-475 | in-place conversion is a no-op on a null image, for Format_Invalid and for the image's own format |
| ColorOrder.RgbRowsTwice | src/qcvimg.cpp:395-402 | normalising BGR data to RGB twice gives the data back |
| ColorOrder.CvtSwapRedBlue | src/qcvimg.cpp:293-295 | cvtColor's result has the source's header and the source rows swapped; it keeps the destination's memory when create reuses it and allocates otherwise |
| ColorOrder.GetRgbMat | src/qcvimg.cpp:395-402 | channels 0 and 2 are swapped exactly for a BGR CV_8UC3 source; any other source is returned as it is |
| ColorOrder.SwapMatRedBlue | src/qcvimg.cpp:287-300 | -1 with the destination untouched for any non-CV_8UC3 source; otherwise 0 and the swapped rows, whichever order is declared; unshared source memory is untouched; the order defaults to RGB |
| ColorOrder.ConvertQColorToScalar | src/qcvimg.cpp:302-313 | green is in the middle, the fourth value is 0, and the outer two values are red and blue |
| ColorOrder.ScalarOrdersSwapped | src/qcvimg.cpp:302-313 | RGB order puts red first and BGR order blue first; the two pixels differ exactly by the red/blue swap |
| QCV.QCVimg.IsMatBound | src/qcvimg.cpp:162-165 | isMatBound of the object: its buffer and its view pass all three checks |
| QCV.QCVimg.Empty | src/qcvimg.cpp:137-140 | empty(): a null buffer and a 0 x 0 view with null data |
| QCV.QCVimg.Equals | src/qcvimg.cpp:177-180 | operator==: the buffers compare equal and the two isMatBound results agree |
| QCV.QCVimg.Default | src/qcvimg.h:95-96 | the default object has a null buffer and the default view, and is empty |
| QCV.QCVimg.SetMembersEmpty | src/qcvimg.cpp:404-408 | both members are reset, and the object is empty |
| QCV.QCVimg.CreateMatFromQImage | src/qcvimg.cpp:368-375 | the view becomes the corrected binding of the unchanged buffer |
| QCV.QCVimg.CopyFromQImage | src/qcvimg.cpp:389-393 | the buffer becomes a deep copy equal to the source; the view is bound whenever the format is accepted |
| QCV.QCVimg.CopyFromMatAsWritten | src/qcvimg.cpp:382-387 | copyFrom(Mat) in the code's order: defined only for a source that is not a header over the buffer the new QImage releases; it then gives a fresh bound buffer holding the source's rows |
| QCV.QCVimg.CopyFromMat | src/qcvimg.cpp:382-387 | corrected copyFrom(Mat): the old buffer is kept until the copy is done, so any source, an alias of the view included, gives a fresh bound buffer of the source's size in the given format holding the source's rows; an empty source gives an empty object |
| QCV.QCVimg.FromSize | src/qcvimg.cpp:41-47 | an accepted format and real size gives fresh memory, bound; otherwise the object is empty |
| QCV.QCVimg.FromQImage | src/qcvimg.cpp:49-54 | an accepted format gives a bound deep copy equal to the source; otherwise the object is empty |
| QCV.QCVimg.FromQImageMove | src/qcvimg.cpp:56-62 | an accepted buffer is taken over without a copy, bound, and the caller's image is left null; otherwise empty, and the caller's image is untouched |
| QCV.QCVimg.FromMat | src/qcvimg.cpp:64-72 | an accepted, non-empty source gives a fresh bound buffer of the reverse-mapped format holding the RGB-normalised rows; otherwise empty |
| QCV.QCVimg.CopyOf | src/qcvimg.cpp:10-14 | the copy constructor gives a deep copy equal to the other buffer, bound whenever its format is accepted |
| QCV.QCVimg.MoveFrom | src/qcvimg.cpp:24-29 | both members are taken over along with the binding state; the source ends with a null buffer and an empty view |
| QCV.QCVimg.CopyAssign | src/qcvimg.cpp:16-22 | the buffer becomes a deep copy equal to the other's; the view is bound whenever the format is accepted |
| QCV.QCVimg.MoveAssign | src/qcvimg.cpp:31-39 | the buffer, view and binding state are taken over; the source gets this object's former buffer and an empty view; a self-move keeps the buffer and empties the view |
| QCV.QCVimg.Swap | src/qcvimg.cpp:247-251 | both members are exchanged, so each object keeps the other's binding state |
| QCV.QCVimg.CopyQImage | src/qcvimg.cpp:88-96 | -1 with nothing changed for an unsupported format; otherwise 0 and a fresh, bound deep copy equal to the source |
| QCV.QCVimg.CopyMat | src/qcvimg.cpp:98-115 | the order defaults to RGB; fast path: same header, so the existing memory is written with the RGB-normalised rows and stays bound; slow path: a fresh bound buffer; an empty source that is not colour-swapped keeps the buffer on the fast path and empties the object on the slow path; otherwise -1 with nothing changed |
| QCV.QCVimg.RebindMat | src/qcvimg.cpp:207-221 | the priority defaults to Low; an accepted format gives 0 and a bound view over the unchanged buffer; otherwise -1, Hi keeps the buffer and empties the view, Low empties both |
| QCV.QCVimg.RebindQImg | src/qcvimg.cpp:223-240 | with the corrected copyFrom; the priority defaults to Low and the order to RGB; an accepted view type gives 0 and a fresh bound buffer holding the RGB-normalised view rows; otherwise -1, Hi keeps the view and empties the buffer, Low empties both |
| QCV.QCVimg.ConvertToFormat | src/qcvimg.cpp:79-86 | an accepted target gives a new bound object of that format and size; an unsupported target gives an empty object |
| QCV.BoundViewFeedsReleasedBuffer | src/qcvimg.cpp:223-240 | for a bound object, rebindQImg passes copyFrom the view itself (kept as it is, or swapped in place), and that view's memory is the buffer copyFrom releases |
| QCV.TopRows | src/qcvimg.cpp:98-115 | cv::Mat::rowRange(0, k) is a well-formed header over the same memory showing the first k rows |
| QCV.SubViewFeedsReleasedBuffer | src/qcvimg.cpp:98-115 | the first row of a bound view with two or more rows takes the slow path of copy(Mat) without a swap, and is a header over the buffer copyFrom releases |
| QCV.EqualsIsReflexive | src/qcvimg.cpp:177-180 | every object equals itself, bound or not |
| QCV.EmptyIsNeverBound | src/qcvimg.cpp:137-140 | an empty object holds the null image and is not bound |
| QCV.EmptyMeansNoData | src/qcvimg.h:289-307 | empty() holds exactly when both members have null data and zero width and height |
| QCV.EmptyObjectsAreEqual | src/qcvimg.cpp:177-180 | any two empty objects compare equal |
| QCV.UnboundObjectsCompareBuffers | test/tst_qcvimg.cpp:745-753 | of two unbound objects, == compares only the buffers, so two equal unbound buffers compare equal |
| QCV.BindingStateSeparates | src/qcvimg.cpp:177-180 | a bound and an unbound object never compare equal |
| Serialization.EncodeImage | src/qcvimg.cpp:456 | a null buffer becomes a null blob, and every encoding is well formed |
| Serialization.SameEncodingSameImage | src/qcvimg.cpp:467 | two buffers with the same encoding are equal and hold the same rows |
| Serialization.DecodeImage | src/qcvimg.cpp:467 | a readable blob decodes into fresh memory that encodes back to the blob; an unreadable one gives a null image |
| Serialization.Write | src/qcvimg.cpp:450-457 | the stream holds the format code, the view's rows, cols and type code, then the buffer, and each reads back as written |
| Serialization.RebuiltViewBinding | src/qcvimg.cpp:477-481 | the rebuilt header shares the new buffer's memory; over a buffer of the original size and format it is bound exactly when the original view had that size and format |
| Serialization.RebuiltViewFits | src/qcvimg.cpp:477-481 | for a bound or empty original, the rebuilt header is one OpenCV accepts over the new buffer |
| Serialization.Read | src/qcvimg.cpp:459-484 | the buffer is decoded and forced back into the stored format; the view is the header rebuilt from the stored values over the new bits and stride |
| Serialization.RoundTrip | src/qcvimg.cpp:450-484 | write then read gives an equal buffer with the same pixel rows in new memory; the binding comes back exactly when size and format matched; a bound or empty object comes back equal |

## Left out

- Qt and OpenCV internals are replaced by models stated in the modules' own comments.
  - Reference counting and copy-on-write are not modelled, nor is `QObject` parenting (`setParent` in the copy and move operators).
  - Allocation failure and `qsizetype`/`int` overflow of sizes are not modelled. All sizes are unbounded integers.
  - `cv::Mat` regions of interest and non-zero offsets are not modelled. A view always starts at its array's first byte.
- Images.ConvertToFormat: the pixel conversion of `QImage::convertToFormat` and `convertTo` between two different formats is not modelled. The result has the requested format and size, and unspecified contents.
- Images.ConvertTo: for a real conversion the result is either the same buffer (Qt 5 may convert in place) or new memory; which one is not modelled.
- Serialization.DecodeImage: QImage's own stream codec (PNG) is modelled as an exact encode/decode pair. Qt's habit of decoding into a different format is covered only by `Read`'s forced conversion. A stored code outside Qt 5.15's 30 formats reads back as `Format_Invalid`.
- Serialization.Read: a stored header that OpenCV would refuse or that would overrun the new buffer (`ok` false) leaves the view as it was. OpenCV would throw or build an overrunning header.
- ColorOrder.CvtSwapRedBlue: `cv::cvtColor` throws on an empty source. The model returns an empty CV_8UC3 header instead.
- ColorOrder.SwapMatRedBlue: an empty CV_8UC3 source, in either order, reaches `cvtColor` and throws. The model returns 0 with an empty CV_8UC3 result instead.
- ColorOrder.GetRgbMat: an empty CV_8UC3 source declared BGR reaches `cvtColor` and throws. The model returns an empty header, which `FromMat`, `CopyMat` and `RebindQImg` then handle as an empty source.
- ColorOrder.CvtSwapRedBlue: source and destination may share memory only with the same row step. A shared array with a different step is excluded rather than modelled as OpenCV's overlapping copy.
- ColorOrder.SwapMatRedBlue: inherits the same-step requirement of `CvtSwapRedBlue` when source and destination share memory.
- ColorOrder.GetRgbMat: inherits the same-step requirement of `CvtSwapRedBlue` when source and destination share memory.
- ColorOrder.SwapMatRedBlue: the destination's RGB/BGR order is not tracked. Both branches perform the same permutation, which the contract states.
- QCV.QCVimg.CopyMat: when the source is not colour-swapped and shares the view's memory with a different row step, `copyTo` copies nothing. The contract then says only that the header is kept, not which rows the view shows.
- QCV.QCVimg.RebindQImg: the contract is that of the corrected `copyFrom` (`QCV.QCVimg.CopyFromMat`). As written, for every bound view the C++ reads the released old buffer (see "Findings").
- QCV.QCVimg.CopyMat: the slow path uses the corrected `copyFrom`. As written, a source header over the current buffer that is not colour-swapped (for example the view's `rowRange(0, 1)`) is read after that buffer is released (see "Findings").
- Images.ImageEquals: `QImage::operator==` also compares matching colour tables of indexed formats. No accepted format is indexed, so colour tables are not modelled. For RGB32 the unused alpha byte is masked, as Qt does.
- A cv::Mat header with null data always has zero rows and cols here. A header with null data and non-zero size is not modelled.
- Thin wrappers with no logic of their own are not modelled: `bytes`, `width`, `height`, `fill`, `pixelColor`, `valid`, `qPix`, `resize`, `cvMat`, `qImg`, `matFormat`, `qFormat`, both `copyTo` overloads, and `operator!=` (the negation of `Equals`).
- The format-label table (`supportedQImgFormats`, `convertFormatTextToQImgFormat`) is an isolated string lookup and is not modelled.
- No reordering of 4-channel data is modelled, because the class documents it as impossible.
- Three documented promises differ from the code, and the model follows the code:
  - `==` is documented as requiring both views bound. The code compares the two binding states, so two unbound objects with equal buffers compare equal (`QCV.UnboundObjectsCompareBuffers`).
  - `copy(Mat)` is documented as doing nothing for an incompatible type. The code takes its fast path before the format check, so a source of an unsupported type with the view's header is copied and 0 is returned.
  - The move assignment is documented as doing the same as the move constructor. QImage's move assignment swaps, so the source keeps the destination's former buffer.

## Findings

| source | as written | input that shows it | evidently intended | confidence | as-written member | corrected member |
|---|---|---|---|---|---|---|
| src/qcvimg.cpp:382-387 | `copyFrom(Mat)` assigns the new QImage (line 379) before `sourceMat.copyTo(mMImg)` (line 386). The assignment releases the old buffer, and `rebindQImg` (line 227) passes a header over that buffer as the source | `QCVimg q(4, 6, QImage::Format_RGB888); q.rebindQImg();`, or `q.copy(q.cvMat().rowRange(0, 1));` | the source is read before the old buffer is released, so the new buffer holds the view's former rows | not executed | QCV.QCVimg.CopyFromMatAsWritten (with QCV.BoundViewFeedsReleasedBuffer and QCV.SubViewFeedsReleasedBuffer) | QCV.QCVimg.CopyFromMat |
| src/qcvimg.cpp:368-375 | the view type is `*scmQtToCvFormatMap.find(format)`, dereferenced without comparing it with `end()` | `QCVimg(0, 0, QImage::Format_RGB888)`: RGB888 passes the format check, but Qt returns a null image whose format, Format_Invalid, has no table entry | a buffer without a view type leaves the view as a default, empty cv::Mat | not executed | Images.BindViewAsWritten (with Images.ZeroSizeBufferFailsLookup) | Images.BindView |
