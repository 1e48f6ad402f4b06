/**
 Pixel conversions of a loaded image: bottom-up source rows with a pitch become tightly packed
 top-down RGBA rows. A buffer is seen as a sequence of elements of the type the conversion
 works on, bytes or 32-bit words.
 */
module CpuImage {
  import opened Sizes

  /** k * n, the position of the k-th of equally long pieces. */
  function Times(k: nat, n: nat): nat { if k == 0 then 0 else Times(k - 1, n) + n }

  lemma {:induction false} TimesIsProduct(k: nat, n: nat)
    ensures Times(k, n) == k * n
  {
    if k > 0 {
      TimesIsProduct(k - 1, n);
      assert k * n == (k - 1) * n + n;
    }
  }

  lemma {:induction false} TimesGrows(j: nat, k: nat, n: nat)
    requires j < k
    ensures Times(j, n) + n <= Times(k, n)
  {
    if j < k - 1 {
      TimesGrows(j, k - 1, n);
    }
  }

  /** How one source pixel becomes four elements. */
  datatype Layout<T> = Grey(one: T) | Bgr(one: T) | Bgra

  function Elements<T>(l: Layout<T>): (n: nat)
    ensures n > 0
  {
    match l
    case Grey(_) => 1
    case Bgr(_) => 3
    case Bgra => 4
  }

  function Pixel<T>(l: Layout<T>, src: seq<T>, at: nat): (p: seq<T>)
    requires at + Elements(l) <= |src|
    ensures |p| == 4
  {
    match l
    case Grey(one) => [src[at], src[at], src[at], one]
    case Bgr(one) => [src[at + 2], src[at + 1], src[at], one]
    case Bgra => [src[at + 2], src[at + 1], src[at], src[at + 3]]
  }

  /** The first width pixels from at on, converted. */
  function Row<T>(l: Layout<T>, src: seq<T>, at: nat, width: nat): (r: seq<T>)
    requires at + Times(width, Elements(l)) <= |src|
    ensures |r| == Times(width, 4)
  {
    if width == 0 then []
    else Row(l, src, at, width - 1) + Pixel(l, src, at + Times(width - 1, Elements(l)))
  }

  /** The source holds height rows, each starting stride elements after the one before. */
  ghost predicate Fits<T>(l: Layout<T>, size: nat, stride: nat, width: nat, height: nat) {
    height > 0 ==> Times(height - 1, stride) + Times(width, Elements(l)) <= size
  }

  lemma FitsBefore<T>(l: Layout<T>, size: nat, stride: nat, width: nat, height: nat, y: nat)
    requires Fits(l, size, stride, width, height) && y <= height
    ensures Fits(l, size, stride, width, y)
    ensures y < height ==> Times(y, stride) + Times(width, Elements(l)) <= size
  {
    if y + 1 < height {
      TimesGrows(y, height - 1, stride);
    }
    if 0 < y < height {
      TimesGrows(y - 1, height - 1, stride);
    }
  }

  /** The whole image, the last source row first. */
  function Image<T>(l: Layout<T>, src: seq<T>, stride: nat, width: nat, height: nat): (r: seq<T>)
    requires Fits(l, |src|, stride, width, height)
    ensures |r| == Times(height, Times(width, 4))
  {
    if height == 0 then []
    else
      FitsBefore(l, |src|, stride, width, height, height - 1);
      Row(l, src, Times(height - 1, stride), width) + Image(l, src, stride, width, height - 1)
  }

  lemma {:induction false} RowPixel<T>(l: Layout<T>, src: seq<T>, at: nat, width: nat, x: nat, c: nat)
    requires at + Times(width, Elements(l)) <= |src| && x < width && c < 4
    ensures at + Times(x, Elements(l)) + Elements(l) <= |src| && Times(x, 4) + c < Times(width, 4)
    ensures Row(l, src, at, width)[Times(x, 4) + c] == Pixel(l, src, at + Times(x, Elements(l)))[c]
  {
    hide Pixel, Elements;
    TimesGrows(x, width, Elements(l));
    TimesGrows(x, width, 4);
    if x < width - 1 {
      RowPixel(l, src, at, width - 1, x, c);
    }
  }

  lemma ImageSplits<T>(l: Layout<T>, src: seq<T>, stride: nat, width: nat, height: nat)
    requires Fits(l, |src|, stride, width, height) && height > 0
    ensures Fits(l, |src|, stride, width, height - 1)
    ensures Times(height - 1, stride) + Times(width, Elements(l)) <= |src|
    ensures Image(l, src, stride, width, height)
            == Row(l, src, Times(height - 1, stride), width) + Image(l, src, stride, width, height - 1)
  {
    FitsBefore(l, |src|, stride, width, height, height - 1);
  }

  lemma TimesStep(k: nat, n: nat)
    ensures Times(0, n) == 0
    ensures k > 0 ==> Times(k, n) == Times(k - 1, n) + n
  {
  }

  /** Row k of the result is source row height - 1 - k. */
  lemma {:induction false} ImageRow<T>(l: Layout<T>, src: seq<T>, stride: nat, width: nat, height: nat, k: nat,
                                       i: nat, row: nat)
    requires Fits(l, |src|, stride, width, height) && k < height && i < row && row == Times(width, 4)
    ensures Times(height - 1 - k, stride) + Times(width, Elements(l)) <= |src|
    ensures Times(k, row) + i < Times(height, row)
    ensures Image(l, src, stride, width, height)[Times(k, row) + i]
            == Row(l, src, Times(height - 1 - k, stride), width)[i]
  {
    hide Row, Elements, Fits, Image, Times;
    ImageSplits(l, src, stride, width, height);
    TimesStep(k, row);
    TimesGrows(k, height, row);
    if k > 0 {
      ImageRow(l, src, stride, width, height - 1, k - 1, i, row);
      assert height - 1 - 1 - (k - 1) == height - 1 - k;
    }
  }

  /** Element c of pixel (x, k) of the result is that of source pixel (x, height - 1 - k), converted. */
  lemma ImagePixel<T>(l: Layout<T>, src: seq<T>, stride: nat, width: nat, height: nat, x: nat, k: nat, c: nat)
    requires Fits(l, |src|, stride, width, height) && x < width && k < height && c < 4
    ensures Times(height - 1 - k, stride) + Times(x, Elements(l)) + Elements(l) <= |src|
    ensures Times(k, Times(width, 4)) + Times(x, 4) + c < |Image(l, src, stride, width, height)|
    ensures Image(l, src, stride, width, height)[Times(k, Times(width, 4)) + Times(x, 4) + c]
            == Pixel(l, src, Times(height - 1 - k, stride) + Times(x, Elements(l)))[c]
  {
    hide Row, Elements, Fits, Image, Pixel, Times;
    FitsBefore(l, |src|, stride, width, height, height - 1 - k);
    RowPixel(l, src, Times(height - 1 - k, stride), width, x, c);
    ImageRow(l, src, stride, width, height, k, Times(x, 4) + c, Times(width, 4));
  }

  // ---- the tight conversion undoes itself ----

  /** With a tight pitch, exchanging red and blue twice and flipping twice gives the buffer back. */
  lemma SwapTwiceIsIdentity<T>(src: seq<T>, width: nat, height: nat)
    requires |src| == Times(height, Times(width, 4))
    ensures Fits<T>(Bgra, |src|, Times(width, 4), width, height)
    ensures var stride := Times(width, 4);
            Image(Bgra, Image(Bgra, src, stride, width, height), stride, width, height) == src
  {
    hide Image;
    var stride := Times(width, 4);
    var once := Image(Bgra, src, stride, width, height);
    var twice := Image(Bgra, once, stride, width, height);
    forall i | 0 <= i < |src| ensures twice[i] == src[i] {
      var k, r := PieceOf(height, stride, i);
      var x, c := PieceOf(width, 4, r);
      SwapTwiceAt(src, once, stride, width, height, x, k, c);
    }
  }

  /** Element c of pixel (x, k) of the tight conversion is an element of source pixel (x, height - 1 - k). */
  lemma SwapAt<T>(src: seq<T>, image: seq<T>, stride: nat, width: nat, height: nat, x: nat, k: nat, c: nat)
    requires stride == Times(width, 4) && |src| == |image| == Times(height, stride)
    requires Fits<T>(Bgra, |src|, stride, width, height) && image == Image(Bgra, src, stride, width, height)
    requires x < width && k < height && c < 4
    ensures var d := if c < 3 then 2 - c else 3;
            var to, from := Times(k, stride) + Times(x, 4) + c, Times(height - 1 - k, stride) + Times(x, 4) + d;
            to < |src| && from < |src| && image[to] == src[from]
  {
    hide Image, Fits, Times;
    ImagePixel(Bgra, src, stride, width, height, x, k, c);
  }

  lemma SwapTwiceAt<T>(src: seq<T>, once: seq<T>, stride: nat, width: nat, height: nat, x: nat, k: nat, c: nat)
    requires stride == Times(width, 4) && |src| == |once| == Times(height, stride)
    requires Fits<T>(Bgra, |src|, stride, width, height)
    requires once == Image(Bgra, src, stride, width, height)
    requires x < width && k < height && c < 4
    ensures var i := Times(k, stride) + Times(x, 4) + c;
            i < |src| && Image(Bgra, once, stride, width, height)[i] == src[i]
  {
    hide Image, Fits, Times;
    var d, up := if c < 3 then 2 - c else 3, height - 1 - k;
    assert height - 1 - up == k;
    SwapAt(src, once, stride, width, height, x, up, d);
    SwapAt(once, Image(Bgra, once, stride, width, height), stride, width, height, x, k, c);
  }

  /** Every position lies in one of the pieces. */
  lemma {:induction false} PieceOf(count: nat, n: nat, i: nat) returns (k: nat, r: nat)
    requires i < Times(count, n)
    ensures k < count && r < n && i == Times(k, n) + r
  {
    if i < Times(count - 1, n) {
      k, r := PieceOf(count - 1, n, i);
    } else {
      k, r := count - 1, i - Times(count - 1, n);
    }
  }

  // ---- the conversions ----

  /** The last y rows of a destination of height rows hold the first y source rows. */
  ghost predicate RowsDone<T>(l: Layout<T>, src: seq<T>, stride: nat, width: nat, height: nat, dst: seq<T>, y: nat) {
    && y <= height && Fits(l, |src|, stride, width, y)
    && |dst| == Times(height, Times(width, 4)) && Times(height - y, Times(width, 4)) <= |dst|
    && dst[Times(height - y, Times(width, 4))..] == Image(l, src, stride, width, y)
  }

  /** Row height - 1 - y is next: at is where it starts, x of its pixels are written. */
  ghost predicate RowStarted<T>(l: Layout<T>, src: seq<T>, stride: nat, width: nat, height: nat, dst: seq<T>, y: nat,
                                x: nat) {
    var row := Times(width, 4);
    && y < height && x <= width && Fits(l, |src|, stride, width, height)
    && |dst| == Times(height, row)
    && Times(height - 1 - y, row) + row <= |dst| && Times(y, stride) + Times(x, Elements(l)) <= |src|
          && Times(x, 4) <= row
    && dst[Times(height - 1 - y, row)..Times(height - 1 - y, row) + Times(x, 4)] == Row(l, src, Times(y, stride), x)
    && Fits(l, |src|, stride, width, y) && dst[Times(height - 1 - y, row) + row..] == Image(l, src, stride, width, y)
  }

  lemma StartRow<T>(l: Layout<T>, src: seq<T>, stride: nat, width: nat, height: nat, dst: seq<T>, y: nat)
    requires RowsDone(l, src, stride, width, height, dst, y) && y < height && Fits(l, |src|, stride, width, height)
    ensures RowStarted(l, src, stride, width, height, dst, y, 0)
  {
    hide Image, Fits;
    var row := Times(width, 4);
    FitsBefore(l, |src|, stride, width, height, y);
    TimesGrows(height - 1 - y, height, row);
    assert Times(height - y, row) == Times(height - 1 - y, row) + row;
    assert Times(0, 4) == Times(0, Elements(l)) == 0;
  }

  lemma PixelDone<T>(l: Layout<T>, src: seq<T>, stride: nat, width: nat, height: nat, dst: seq<T>, y: nat, x: nat,
                     p: nat)
    requires RowStarted(l, src, stride, width, height, dst, y, x) && x < width
    requires p == Times(height - 1 - y, Times(width, 4)) + Times(x, 4)
    ensures p + 4 <= Times(height - 1 - y, Times(width, 4)) + Times(width, 4) <= |dst|
    ensures Times(y, stride) + Times(x, Elements(l)) + Elements(l) <= |src|
    ensures RowStarted(l, src, stride, width, height,
                       dst[..p] + Pixel(l, src, Times(y, stride) + Times(x, Elements(l))) + dst[p + 4..], y, x + 1)
  {
    hide Image, Fits, Pixel, Elements, Times;
    FitsBefore(l, |src|, stride, width, height, y);
    TimesStep(x + 1, 4);
    TimesStep(x + 1, Elements(l));
    TimesGrows(x, width, 4);
    TimesGrows(x, width, Elements(l));
    var base := Times(height - 1 - y, Times(width, 4));
    var pixel := Pixel(l, src, Times(y, stride) + Times(x, Elements(l)));
    var dst' := dst[..p] + pixel + dst[p + 4..];
    assert dst'[base..p + 4] == dst[base..p] + pixel;
    assert dst'[base + Times(width, 4)..] == dst[base + Times(width, 4)..];
  }

  lemma EndRow<T>(l: Layout<T>, src: seq<T>, stride: nat, width: nat, height: nat, dst: seq<T>, y: nat)
    requires RowStarted(l, src, stride, width, height, dst, y, width)
    ensures RowsDone(l, src, stride, width, height, dst, y + 1)
  {
    hide Row, Times, Elements, Fits, Image;
    var base, row := Times(height - 1 - y, Times(width, 4)), Times(width, 4);
    FitsBefore(l, |src|, stride, width, height, y + 1);
    ImageSplits(l, src, stride, width, y + 1);
    assert dst[base..] == dst[base..base + row] + dst[base + row..];
  }

  lemma NothingDone<T>(l: Layout<T>, src: seq<T>, stride: nat, width: nat, height: nat, dst: seq<T>)
    requires |dst| == Times(height, Times(width, 4))
    ensures RowsDone(l, src, stride, width, height, dst, 0)
  {
    hide Times;
  }

  lemma AllDone<T>(l: Layout<T>, src: seq<T>, stride: nat, width: nat, height: nat, dst: seq<T>)
    requires RowsDone(l, src, stride, width, height, dst, height)
    ensures Fits(l, |src|, stride, width, height) && dst == Image(l, src, stride, width, height)
  {
    hide Image, Fits;
    assert Times(0, Times(width, 4)) == 0;
    assert dst[0..] == dst;
  }

  /** Where source row y goes. */
  function DestinationRow(width: nat, height: nat, y: nat): (at: nat)
    requires y < height
    ensures at == Times(height - 1 - y, Times(width, 4))
  {
    TimesIsProduct(width, 4);
    TimesIsProduct(height - 1 - y, width * 4);
    assert (height - 1 - y) * (width * 4) == (height - y - 1) * width * 4;
    (height - y - 1) * width * 4
  }

  /**
   Elements from the start of one 4-channel source row to the next: the conversion reads a row
   and then skips the padding in bytes, though its cursor counts elements.
   */
  function BgraStride(width: nat, bytesPerRow: nat, size: nat): nat
    requires width * 4 * size <= bytesPerRow
  {
    4 * width + (bytesPerRow - width * 4 * size)
  }

  lemma StridesAgree(row: nat, bytesPerRow: nat, size: nat)
    requires size > 0 && bytesPerRow % size == 0 && row * size <= bytesPerRow
    ensures row + (bytesPerRow - row * size) == bytesPerRow / size <==> size == 1 || bytesPerRow == row * size
  {
    var pitch := bytesPerRow / size;
    assert bytesPerRow == size * pitch;
    assert row * size == size * row;
    StrideIsPitch(row, pitch, size);
    if size * pitch == size * row {
      assert size * (pitch - row) == 0;
    }
  }

  lemma StrideIsPitch(row: nat, pitch: nat, size: nat)
    requires size > 0
    ensures row + (size * pitch - size * row) == pitch <==> size == 1 || pitch == row
  {
    assert (size - 1) * (pitch - row) == row + (size * pitch - size * row) - pitch;
    if size > 1 && pitch != row {
      assert (size - 1) * (pitch - row) != 0;
    }
  }

  // ---- which stride finds the rows ----

  /** A source that tells its positions before and after at apart. */
  function Mark<T>(zero: T, one: T, at: nat, size: nat): (src: seq<T>)
    ensures |src| == size && forall i :: 0 <= i < size ==> src[i] == if i < at then zero else one
  {
    seq(size, i => if i < at then zero else one)
  }

  /** The image does not depend on the stride. */
  ghost predicate SameImages<T(!new)>(l: Layout<T>, a: nat, b: nat, width: nat, height: nat) {
    forall src: seq<T> {:trigger Image(l, src, a, width, height)} ::
      Fits(l, |src|, a, width, height) && Fits(l, |src|, b, width, height) ==>
        Image(l, src, a, width, height) == Image(l, src, b, width, height)
  }

  lemma {:induction false} FewRows<T>(l: Layout<T>, src: seq<T>, a: nat, b: nat, width: nat, height: nat)
    requires Fits(l, |src|, a, width, height) && Fits(l, |src|, b, width, height)
    requires a == b || height <= 1 || width == 0
    ensures Image(l, src, a, width, height) == Image(l, src, b, width, height)
  {
    hide Row, Times, Elements;
    if height > 0 {
      TimesStep(height - 1, a);
      TimesStep(height - 1, b);
      TimesStep(width, 4);
      ImageSplits(l, src, a, width, height);
      ImageSplits(l, src, b, width, height);
      FewRows(l, src, a, b, width, height - 1);
    }
  }

  /** The first pixel of source row 1 is somewhere else under another stride. */
  lemma SecondRowMoves<T>(l: Layout<T>, src: seq<T>, zero: T, one: T, a: nat, b: nat, width: nat, height: nat)
    requires a < b && height > 1 && width > 0 && zero != one
    requires Fits(l, |src|, a, width, height) && Fits(l, |src|, b, width, height) && src == Mark(zero, one, b, |src|)
    ensures Image(l, src, a, width, height) != Image(l, src, b, width, height)
  {
    hide Image, Fits, Row, Times;
    var k := height - 2;
    ImagePixel(l, src, a, width, height, 0, k, 2);
    ImagePixel(l, src, b, width, height, 0, k, 2);
    assert height - 1 - k == 1;
    OneTime(a);
    OneTime(b);
    TimesStep(0, 4);
    TimesStep(0, Elements(l));
  }

  lemma OneTime(n: nat)
    ensures Times(1, n) == n
  {
    assert Times(0, n) == 0;
  }

  /** A stride other than the pitch goes unnoticed exactly when there is no second row or nothing in it. */
  lemma StrideMatters<T(!new)>(l: Layout<T>, zero: T, one: T, a: nat, b: nat, width: nat, height: nat)
    requires zero != one
    ensures SameImages(l, a, b, width, height) <==> a == b || height <= 1 || width == 0
  {
    hide Image, Fits;
    if a == b || height <= 1 || width == 0 {
      forall src: seq<T> | Fits(l, |src|, a, width, height) && Fits(l, |src|, b, width, height)
        ensures Image(l, src, a, width, height) == Image(l, src, b, width, height)
      {
        FewRows(l, src, a, b, width, height);
      }
    } else {
      var low, high := if a < b then a else b, if a < b then b else a;
      var src := EnoughSource(l, zero, one, low, high, width, height);
      SecondRowMoves(l, src, zero, one, low, high, width, height);
    }
  }

  lemma EnoughSource<T>(l: Layout<T>, zero: T, one: T, low: nat, high: nat, width: nat, height: nat)
    returns (src: seq<T>)
    requires low <= high && height > 0
    ensures src == Mark(zero, one, high, |src|)
    ensures Fits(l, |src|, low, width, height) && Fits(l, |src|, high, width, height)
  {
    src := Mark(zero, one, high, Times(height - 1, high) + Times(width, Elements(l)));
    TimesMonotone(height - 1, low, high);
  }

  lemma {:induction false} TimesMonotone(k: nat, low: nat, high: nat)
    requires low <= high
    ensures Times(k, low) <= Times(k, high)
  {
    if k > 0 {
      TimesMonotone(k - 1, low, high);
    }
  }

  /**
   BGRANtoRGBAN converts every padded image as its pitch says exactly when elements are bytes,
   rows have no padding, or there are no two rows with pixels in them.
   */
  lemma BgraRowsAreFound<T(!new)>(zero: T, one: T, width: nat, height: nat, bytesPerRow: nat, size: nat)
    requires zero != one && size > 0 && bytesPerRow % size == 0 && width * 4 * size <= bytesPerRow
    ensures SameImages<T>(Bgra, BgraStride(width, bytesPerRow, size), bytesPerRow / size, width, height)
            <==> size == 1 || bytesPerRow == width * 4 * size || height <= 1 || width == 0
  {
    hide SameImages;
    StridesAgree(4 * width, bytesPerRow, size);
    StrideMatters<T>(Bgra, zero, one, BgraStride(width, bytesPerRow, size), bytesPerRow / size, width, height);
  }

  /** Two rows of one pixel and one word of padding: the row that the pitch puts first is not the one converted. */
  lemma PaddedWordsAreMissed()
    ensures var src := [0, 0, 0, 0, 9, 1, 2, 3, 4, 9, 7, 7];
            && BgraStride(1, 20, 4) == 8
            && Fits<int>(Bgra, |src|, 5, 1, 2) && Image<int>(Bgra, src, 20 / 4, 1, 2) == [3, 2, 1, 4, 0, 0, 0, 0]
            && Fits<int>(Bgra, |src|, 8, 1, 2) && Image<int>(Bgra, src, 8, 1, 2) == [7, 9, 4, 7, 0, 0, 0, 0]
  {
    var src := [0, 0, 0, 0, 9, 1, 2, 3, 4, 9, 7, 7];
    OneTime(4);
    OneTime(5);
    OneTime(8);
    TwoRows(src, 5);
    TwoRows(src, 8);
  }

  lemma TwoRows(src: seq<int>, stride: nat)
    requires 4 <= stride && stride + 4 <= |src|
    ensures Fits<int>(Bgra, |src|, stride, 1, 2)
    ensures Image<int>(Bgra, src, stride, 1, 2) == Pixel(Bgra, src, stride) + Pixel(Bgra, src, 0)
  {
    OneTime(stride);
    OneTime(4);
    assert Row<int>(Bgra, src, stride, 0) == Row<int>(Bgra, src, 0, 0) == [];
    assert Image<int>(Bgra, src, stride, 1, 1) == Row<int>(Bgra, src, 0, 1) + [];
  }

  /** The three-channel float conversion counts the pixels of a pitch, and goes on right behind the last of them. */
  lemma FloatRowsAreFound<T(!new)>(full: T, zero: T, one: T, width: nat, height: nat, bytesPerRow: nat)
    requires zero != one && bytesPerRow % 4 == 0 && bytesPerRow / 4 / 3 == width
    ensures SameImages<T>(Bgr(full), 3 * width, bytesPerRow / 4, width, height)
            <==> bytesPerRow == 12 * width || height <= 1 || width == 0
  {
    hide SameImages;
    StrideMatters<T>(Bgr(full), zero, one, 3 * width, bytesPerRow / 4, width, height);
  }

  // ---- the buffer ----

  /** What the constructor picks: bytes from bitmaps, 32-bit words from float images. */
  function FormatOf(words: bool): PixelFormat { if words then RGBA32_FLOAT else RGBA8_UNORM_SRGB }

  function ElementSize(words: bool): nat { if words then 4 else 1 }

  /** The bytes that are allocated hold the image exactly when their number does not wrap in 64 bits. */
  lemma BufferHoldsImage(width: nat, height: nat, words: bool)
    requires width < WORD && height < WORD
    ensures var bytes := SizeBytes(width, height, 1, 1, FormatOf(words), 4);
            && bytes % ElementSize(words) == 0
            && (bytes == ElementSize(words) * Times(height, Times(width, 4))
                <==> width * height * 4 * ElementSize(words) < LONG)
  {
    hide U64, SizeBytes, BytesPerRow, Times;
    var size, pixels := ElementSize(words), width * height;
    PlainSize(width, height, FormatOf(words));
    RowBytes(width, FormatOf(words));
    TimesIsProduct(width, 4);
    TimesIsProduct(height, width * 4);
    assert height * (width * 4) == 4 * pixels;
    assert width * (4 * size) * height == 4 * size * pixels;
    WrapsAt64(4 * size * pixels);
    WrapKeepsWords(4 * size * pixels, size);
  }

  lemma WrapKeepsWords(x: nat, size: nat)
    requires size == 1 || (size == 4 && x % 4 == 0)
    ensures U64(x) % size == 0
  {
  }

  /** The first row converted is the last of the buffer: the float conversions stay inside it only for a full pitch. */
  lemma FloatWritesFit(width: nat, height: nat, pixels: nat)
    requires height > 0
    ensures Times(height - 1, Times(width, 4)) + Times(pixels, 4) <= Times(height, Times(width, 4)) <==> pixels <= width
  {
    hide Times;
    TimesStep(height, Times(width, 4));
    TimesIsProduct(pixels, 4);
    TimesIsProduct(width, 4);
  }

  // ---- counting writes ----

  function Bump(writes: seq<nat>, at: nat): seq<nat>
    requires at + 4 <= |writes|
    ensures |Bump(writes, at)| == |writes|
  {
    writes[at := writes[at] + 1][at + 1 := writes[at + 1] + 1]
          [at + 2 := writes[at + 2] + 1][at + 3 := writes[at + 3] + 1]
  }

  /** One write to every element from on to at, and to every one from rest on. */
  ghost predicate Counted(writes: seq<nat>, on: nat, at: nat, rest: nat) {
    forall i :: 0 <= i < |writes| ==> writes[i] == if on <= i < at || rest <= i then 1 else 0
  }

  lemma CountPixel(writes: seq<nat>, on: nat, at: nat, rest: nat)
    requires Counted(writes, on, at, rest) && on <= at && at + 4 <= rest <= |writes|
    ensures Counted(Bump(writes, at), on, at + 4, rest)
  {
  }

  /** The rows from on to the end are counted; the next one begins row elements before. */
  lemma CountRow(writes: seq<nat>, on: nat, row: nat)
    ensures Counted(writes, on, on + row, on + row) <==> Counted(writes, on, on, on)
    ensures Counted(writes, on + row, on + row, on + row) <==> Counted(writes, on, on, on + row)
  {
  }

  lemma NoneCounted(writes: seq<nat>)
    requires forall i :: 0 <= i < |writes| ==> writes[i] == 0
    ensures Counted(writes, |writes|, |writes|, |writes|)
  {
  }

  lemma CountAll(writes: seq<nat>)
    requires Counted(writes, 0, 0, 0)
    ensures writes == seq(|writes|, _ => 1)
  {
  }

  // ---- what is written, by position ----

  /** Source pixel (x, y) is destination pixel (x, height - 1 - y), red first and opaque. */
  ghost predicate BgrAt(dst: seq<int>, src: seq<int>, stride: nat, width: nat, height: nat, full: int, x: nat,
                        y: nat)
  {
    var i, j := ((height - 1 - y) * width + x) * 4, y * stride + 3 * x;
    && 0 <= i && i + 4 <= |dst| && j + 3 <= |src|
    && dst[i] == src[j + 2] && dst[i + 1] == src[j + 1] && dst[i + 2] == src[j] && dst[i + 3] == full
  }

  /** The one channel goes to red, green and blue. */
  ghost predicate GreyAt(dst: seq<int>, src: seq<int>, stride: nat, width: nat, height: nat, full: int, x: nat,
                         y: nat)
  {
    var i, j := ((height - 1 - y) * width + x) * 4, y * stride + x;
    && 0 <= i && i + 4 <= |dst| && j < |src|
    && dst[i] == src[j] && dst[i + 1] == src[j] && dst[i + 2] == src[j] && dst[i + 3] == full
  }

  /** Red first, and alpha stays. */
  ghost predicate BgraAt(dst: seq<int>, src: seq<int>, stride: nat, width: nat, height: nat, x: nat, y: nat) {
    var i, j := ((height - 1 - y) * width + x) * 4, y * stride + 4 * x;
    && 0 <= i && i + 4 <= |dst| && j + 4 <= |src|
    && dst[i] == src[j + 2] && dst[i + 1] == src[j + 1] && dst[i + 2] == src[j] && dst[i + 3] == src[j + 3]
  }

  lemma Places(width: nat, k: nat, x: nat, y: nat, stride: nat, n: nat)
    ensures Times(k, Times(width, 4)) + Times(x, 4) == (k * width + x) * 4
    ensures Times(y, stride) + Times(x, n) == y * stride + n * x
  {
    hide Times;
    TimesIsProduct(width, 4);
    TimesIsProduct(k, width * 4);
    TimesIsProduct(x, 4);
    TimesIsProduct(y, stride);
    TimesIsProduct(x, n);
    assert k * (width * 4) == k * width * 4;
  }

  /** The four elements of pixel (x, height - 1 - y) of the result, by position. */
  lemma PixelAt<T>(l: Layout<T>, src: seq<T>, stride: nat, width: nat, height: nat, x: nat, y: nat)
    requires Fits(l, |src|, stride, width, height) && x < width && y < height
    ensures var i, j := ((height - 1 - y) * width + x) * 4, y * stride + Elements(l) * x;
            && 0 <= i && i + 4 <= |Image(l, src, stride, width, height)| && j + Elements(l) <= |src|
            && Image(l, src, stride, width, height)[i..i + 4] == Pixel(l, src, j)
  {
    hide Row, Elements, Fits, Image, Pixel, Times;
    var k := height - 1 - y;
    assert height - 1 - k == y;
    Places(width, k, x, y, stride, Elements(l));
    ImagePixel(l, src, stride, width, height, x, k, 0);
    ImagePixel(l, src, stride, width, height, x, k, 1);
    ImagePixel(l, src, stride, width, height, x, k, 2);
    ImagePixel(l, src, stride, width, height, x, k, 3);
  }

  lemma BgrPlaced(src: seq<int>, stride: nat, width: nat, height: nat, full: int, x: nat, y: nat)
    requires Fits(Bgr(full), |src|, stride, width, height) && x < width && y < height
    ensures BgrAt(Image(Bgr(full), src, stride, width, height), src, stride, width, height, full, x, y)
  {
    hide Row, Fits, Image, Times;
    PixelAt(Bgr(full), src, stride, width, height, x, y);
    FromSlice(Image(Bgr(full), src, stride, width, height), ((height - 1 - y) * width + x) * 4);
  }

  lemma GreyPlaced(src: seq<int>, stride: nat, width: nat, height: nat, full: int, x: nat, y: nat)
    requires Fits(Grey(full), |src|, stride, width, height) && x < width && y < height
    ensures GreyAt(Image(Grey(full), src, stride, width, height), src, stride, width, height, full, x, y)
  {
    hide Row, Fits, Image, Times;
    PixelAt(Grey(full), src, stride, width, height, x, y);
    FromSlice(Image(Grey(full), src, stride, width, height), ((height - 1 - y) * width + x) * 4);
  }

  lemma BgraPlaced(src: seq<int>, stride: nat, width: nat, height: nat, x: nat, y: nat)
    requires Fits<int>(Bgra, |src|, stride, width, height) && x < width && y < height
    ensures BgraAt(Image(Bgra, src, stride, width, height), src, stride, width, height, x, y)
  {
    hide Row, Fits, Image, Times;
    PixelAt(Bgra, src, stride, width, height, x, y);
    FromSlice(Image(Bgra, src, stride, width, height), ((height - 1 - y) * width + x) * 4);
  }

  lemma FromSlice<T>(s: seq<T>, i: nat)
    requires i + 4 <= |s|
    ensures var p := s[i..i + 4]; p[0] == s[i] && p[1] == s[i + 1] && p[2] == s[i + 2] && p[3] == s[i + 3]
  {
  }

  /** One 24-bit pixel. */
  lemma OnePixel()
    ensures Fits(Bgr(255), 3, 3, 1, 1) && Image(Bgr(255), [1, 2, 3], 3, 1, 1) == [3, 2, 1, 255]
  {
    OneTime(3);
    OneTime(4);
    BgrPlaced([1, 2, 3], 3, 1, 1, 255, 0, 0);
  }

  class CpuImage {
    var data: array<int>
    var width: nat
    var height: nat

    /** What malloc returns holds arbitrary elements. */
    constructor (width: nat, height: nat, words: bool, arbitrary: nat -> int)
      requires width < WORD && height < WORD
      ensures fresh(data) && this.width == width && this.height == height
      ensures ElementSize(words) * data.Length == SizeBytes(width, height, 1, 1, FormatOf(words), 4)
      ensures data.Length == Times(height, Times(width, 4)) <==> width * height * 4 * ElementSize(words) < LONG
    {
      BufferHoldsImage(width, height, words);
      data := new int[SizeBytes(width, height, 1, 1, FormatOf(words), 4) / ElementSize(words)](arbitrary);
      this.width := width;
      this.height := height;
    }

    /** Four elements through the destination cursor. */
    method Store(at: nat, first: int, second: int, third: int, fourth: int)
      requires at + 4 <= data.Length
      modifies data
      ensures data[..] == old(data[..at]) + [first, second, third, fourth] + old(data[at + 4..])
    {
      data[at], data[at + 1], data[at + 2], data[at + 3] := first, second, third, fourth;
    }

    /** 24 bits per pixel to 32, with an opaque alpha. */
    method RGB8toRGBA8(src: seq<int>, bytesPerRow: nat) returns (ghost writes: seq<nat>)
      requires data.Length == Times(height, Times(width, 4))
      requires width * 3 <= bytesPerRow && Fits(Bgr(255), |src|, bytesPerRow, width, height)
      modifies data
      ensures data[..] == Image(Bgr(255), src, bytesPerRow, width, height)
      ensures forall x: nat, y: nat :: x < width && y < height ==>
                BgrAt(data[..], src, bytesPerRow, width, height, 255, x, y)
      ensures writes == seq(data.Length, _ => 1)
    {
      hide RowsDone, RowStarted, Image, Fits, Row, Times, DestinationRow, Bump, Counted, BgrAt, GreyAt, BgraAt;
      writes := seq(data.Length, _ => 0);
      NoneCounted(writes);
      var l: Layout<int> := Bgr(255);
      var from := 0;
      NothingDone(l, src, bytesPerRow, width, height, data[..]);
      TimesStep(0, bytesPerRow);
      for y := 0 to height
        invariant from == Times(y, bytesPerRow)
        invariant RowsDone(l, src, bytesPerRow, width, height, data[..], y)
        invariant |writes| == data.Length
        invariant var on := Times(height - y, Times(width, 4)); Counted(writes, on, on, on)
      {
        var at := DestinationRow(width, height, y);
        StartRow(l, src, bytesPerRow, width, height, data[..], y);
        TimesStep(height - y, Times(width, 4));
        CountRow(writes, at, Times(width, 4));
        ghost var on := at;
        TimesStep(0, 3);
        TimesStep(0, 4);
        for x := 0 to width
          invariant from == Times(y, bytesPerRow) + Times(x, 3)
          invariant at == Times(height - 1 - y, Times(width, 4)) + Times(x, 4)
          invariant RowStarted(l, src, bytesPerRow, width, height, data[..], y, x)
          invariant |writes| == data.Length && on <= at && Counted(writes, on, at, on + Times(width, 4))
        {
          ghost var before := data[..];
          PixelDone(l, src, bytesPerRow, width, height, before, y, x, at);
          CountPixel(writes, on, at, on + Times(width, 4));
          writes := Bump(writes, at);
          TimesStep(x + 1, 3);
          TimesStep(x + 1, 4);
          var b, g, r := src[from], src[from + 1], src[from + 2];
          Store(at, r, g, b, 255);
          from, at := from + 3, at + 4;
        }
        EndRow(l, src, bytesPerRow, width, height, data[..], y);
        CountRow(writes, on, Times(width, 4));
        TimesIsProduct(width, 3);
        TimesStep(y + 1, bytesPerRow);
        from := from + (bytesPerRow - width * 3);
      }
      AllDone(l, src, bytesPerRow, width, height, data[..]);
      TimesStep(0, Times(width, 4));
      CountAll(writes);
      forall x: nat, y: nat | x < width && y < height
        ensures BgrAt(data[..], src, bytesPerRow, width, height, 255, x, y)
      {
        BgrPlaced(src, bytesPerRow, width, height, 255, x, y);
      }
    }

    /**
     One 32-bit channel to four, the last 1.0f. The loop runs over the pitch, so that no whole
     pixel of padding fits the buffer.
     */
    method R32toRGBA32(src: seq<int>, bytesPerRow: nat) returns (ghost writes: seq<nat>)
      requires data.Length == Times(height, Times(width, 4))
      requires 4 * width <= bytesPerRow && (height > 0 ==> bytesPerRow / 4 == width)
      requires Fits(Grey(0x3f80_0000), |src|, width, width, height)
      modifies data
      ensures data[..] == Image(Grey(0x3f80_0000), src, width, width, height)
      ensures forall x: nat, y: nat :: x < width && y < height ==>
                GreyAt(data[..], src, width, width, height, 0x3f80_0000, x, y)
      ensures writes == seq(data.Length, _ => 1)
    {
      hide RowsDone, RowStarted, Image, Fits, Row, Times, DestinationRow, Bump, Counted, BgrAt, GreyAt, BgraAt;
      writes := seq(data.Length, _ => 0);
      NoneCounted(writes);
      var l: Layout<int> := Grey(0x3f80_0000);
      var from := 0;
      NothingDone(l, src, width, width, height, data[..]);
      TimesStep(0, width);
      for y := 0 to height
        invariant from == Times(y, width)
        invariant RowsDone(l, src, width, width, height, data[..], y)
        invariant |writes| == data.Length
        invariant var on := Times(height - y, Times(width, 4)); Counted(writes, on, on, on)
      {
        var at := DestinationRow(width, height, y);
        StartRow(l, src, width, width, height, data[..], y);
        TimesStep(height - y, Times(width, 4));
        CountRow(writes, at, Times(width, 4));
        ghost var on := at;
        TimesStep(0, 1);
        TimesStep(0, 4);
        for x := 0 to bytesPerRow / 4
          invariant from == Times(y, width) + Times(x, 1)
          invariant at == Times(height - 1 - y, Times(width, 4)) + Times(x, 4)
          invariant RowStarted(l, src, width, width, height, data[..], y, x)
          invariant |writes| == data.Length && on <= at && Counted(writes, on, at, on + Times(width, 4))
        {
          ghost var before := data[..];
          PixelDone(l, src, width, width, height, before, y, x, at);
          CountPixel(writes, on, at, on + Times(width, 4));
          writes := Bump(writes, at);
          TimesStep(x + 1, 1);
          TimesStep(x + 1, 4);
          var value := src[from];
          Store(at, value, value, value, 0x3f80_0000);
          from, at := from + 1, at + 4;
        }
        EndRow(l, src, width, width, height, data[..], y);
        CountRow(writes, on, Times(width, 4));
        TimesIsProduct(width, 1);
        TimesStep(y + 1, width);
      }
      AllDone(l, src, width, width, height, data[..]);
      TimesStep(0, Times(width, 4));
      CountAll(writes);
      forall x: nat, y: nat | x < width && y < height
        ensures GreyAt(data[..], src, width, width, height, 0x3f80_0000, x, y)
      {
        GreyPlaced(src, width, width, height, 0x3f80_0000, x, y);
      }
    }

    /** Three 32-bit channels to four; likewise. */
    method RGB32toRGBA32(src: seq<int>, bytesPerRow: nat) returns (ghost writes: seq<nat>)
      requires data.Length == Times(height, Times(width, 4))
      requires 12 * width <= bytesPerRow && (height > 0 ==> bytesPerRow / 4 / 3 == width)
      requires Fits(Bgr(0x3f80_0000), |src|, 3 * width, width, height)
      modifies data
      ensures data[..] == Image(Bgr(0x3f80_0000), src, 3 * width, width, height)
      ensures forall x: nat, y: nat :: x < width && y < height ==>
                BgrAt(data[..], src, 3 * width, width, height, 0x3f80_0000, x, y)
      ensures writes == seq(data.Length, _ => 1)
    {
      hide RowsDone, RowStarted, Image, Fits, Row, Times, DestinationRow, Bump, Counted, BgrAt, GreyAt, BgraAt;
      writes := seq(data.Length, _ => 0);
      NoneCounted(writes);
      var l: Layout<int> := Bgr(0x3f80_0000);
      var from := 0;
      NothingDone(l, src, 3 * width, width, height, data[..]);
      TimesStep(0, 3 * width);
      for y := 0 to height
        invariant from == Times(y, 3 * width)
        invariant RowsDone(l, src, 3 * width, width, height, data[..], y)
        invariant |writes| == data.Length
        invariant var on := Times(height - y, Times(width, 4)); Counted(writes, on, on, on)
      {
        var at := DestinationRow(width, height, y);
        StartRow(l, src, 3 * width, width, height, data[..], y);
        TimesStep(height - y, Times(width, 4));
        CountRow(writes, at, Times(width, 4));
        ghost var on := at;
        TimesStep(0, 3);
        TimesStep(0, 4);
        for x := 0 to bytesPerRow / 4 / 3
          invariant from == Times(y, 3 * width) + Times(x, 3)
          invariant at == Times(height - 1 - y, Times(width, 4)) + Times(x, 4)
          invariant RowStarted(l, src, 3 * width, width, height, data[..], y, x)
          invariant |writes| == data.Length && on <= at && Counted(writes, on, at, on + Times(width, 4))
        {
          ghost var before := data[..];
          PixelDone(l, src, 3 * width, width, height, before, y, x, at);
          CountPixel(writes, on, at, on + Times(width, 4));
          writes := Bump(writes, at);
          TimesStep(x + 1, 3);
          TimesStep(x + 1, 4);
          var b, g, r := src[from], src[from + 1], src[from + 2];
          Store(at, r, g, b, 0x3f80_0000);
          from, at := from + 3, at + 4;
        }
        EndRow(l, src, 3 * width, width, height, data[..], y);
        CountRow(writes, on, Times(width, 4));
        TimesIsProduct(width, 3);
        TimesStep(y + 1, 3 * width);
      }
      AllDone(l, src, 3 * width, width, height, data[..]);
      TimesStep(0, Times(width, 4));
      CountAll(writes);
      forall x: nat, y: nat | x < width && y < height
        ensures BgrAt(data[..], src, 3 * width, width, height, 0x3f80_0000, x, y)
      {
        BgrPlaced(src, 3 * width, width, height, 0x3f80_0000, x, y);
      }
    }

    /** Four channels of size bytes each, red and blue exchanged. */
    method BGRANtoRGBAN(src: seq<int>, bytesPerRow: nat, size: nat) returns (ghost writes: seq<nat>)
      requires data.Length == Times(height, Times(width, 4))
      requires width * 4 * size <= bytesPerRow
      requires Fits<int>(Bgra, |src|, BgraStride(width, bytesPerRow, size), width, height)
      modifies data
      ensures data[..] == Image(Bgra, src, BgraStride(width, bytesPerRow, size), width, height)
      ensures var stride: nat := 4 * width + (bytesPerRow - width * 4 * size);
              forall x: nat, y: nat :: x < width && y < height ==>
                BgraAt(data[..], src, stride, width, height, x, y)
      ensures writes == seq(data.Length, _ => 1)
    {
      hide RowsDone, RowStarted, Image, Fits, Row, Times, DestinationRow, Bump, Counted, BgrAt, GreyAt, BgraAt;
      writes := seq(data.Length, _ => 0);
      NoneCounted(writes);
      var l: Layout<int> := Bgra;
      var stride := BgraStride(width, bytesPerRow, size);
      var from := 0;
      NothingDone(l, src, stride, width, height, data[..]);
      TimesStep(0, stride);
      for y := 0 to height
        invariant from == Times(y, stride)
        invariant RowsDone(l, src, stride, width, height, data[..], y)
        invariant |writes| == data.Length
        invariant var on := Times(height - y, Times(width, 4)); Counted(writes, on, on, on)
      {
        var at := DestinationRow(width, height, y);
        StartRow(l, src, stride, width, height, data[..], y);
        TimesStep(height - y, Times(width, 4));
        CountRow(writes, at, Times(width, 4));
        ghost var on := at;
        TimesStep(0, 4);
        for x := 0 to width
          invariant from == Times(y, stride) + Times(x, 4)
          invariant at == Times(height - 1 - y, Times(width, 4)) + Times(x, 4)
          invariant RowStarted(l, src, stride, width, height, data[..], y, x)
          invariant |writes| == data.Length && on <= at && Counted(writes, on, at, on + Times(width, 4))
        {
          ghost var before := data[..];
          PixelDone(l, src, stride, width, height, before, y, x, at);
          CountPixel(writes, on, at, on + Times(width, 4));
          writes := Bump(writes, at);
          TimesStep(x + 1, 4);
          var b, g, r, a := src[from], src[from + 1], src[from + 2], src[from + 3];
          Store(at, r, g, b, a);
          from, at := from + 4, at + 4;
        }
        EndRow(l, src, stride, width, height, data[..], y);
        CountRow(writes, on, Times(width, 4));
        TimesIsProduct(width, 4);
        TimesStep(y + 1, stride);
        from := from + (bytesPerRow - width * 4 * size);
      }
      AllDone(l, src, stride, width, height, data[..]);
      TimesStep(0, Times(width, 4));
      CountAll(writes);
      forall x: nat, y: nat | x < width && y < height
        ensures BgraAt(data[..], src, stride, width, height, x, y)
      {
        BgraPlaced(src, stride, width, height, x, y);
      }
    }
  }
}
