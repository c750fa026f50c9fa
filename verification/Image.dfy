/** The grayscale and Sobel pipeline (examples/image_pipeline/pipeline.mbt, examples/image_worker/main.mbt). */
module Image {
  import opened Arithmetic
  import opened Int32
  import opened Kernels
  import opened DispatchModel
  import opened Wrappers
  import DispatchMemory
  import DispatchRuns

  const IMAGE_MAGIC := 0x4D41594F
  const HEADER_WORDS := 8

  // ---- pixels

  /** `land(0xFF)` keeps the low byte of the two's complement pattern; `>>` rounds down. */
  function Red(pixel: int): int { pixel % 256 }
  function Green(pixel: int): int { pixel / 256 % 256 }
  function Blue(pixel: int): int { pixel / 65536 % 256 }

  function Clamp(value: int): int {
    if value < 0 then 0 else if value > 255 then 255 else value
  }

  function PackRgb(red: int, green: int, blue: int): int {
    Clamp(red) + Clamp(green) * 256 + Clamp(blue) * 65536
  }

  function Weighted(red: int, green: int, blue: int): int {
    (77 * red + 150 * green + 29 * blue + 128) / 256
  }

  function Luma(pixel: int): int {
    Weighted(Red(pixel), Green(pixel), Blue(pixel))
  }

  function Grayscale(pixel: int): int {
    PackRgb(Luma(pixel), Luma(pixel), Luma(pixel))
  }

  function Abs(x: int): int { if x < 0 then -x else x }

  /** The two gradients over the red channels of the eight neighbours, in reading order. */
  function GradientX(n: seq<int>): int
    requires |n| == 8
  {
    -Red(n[0]) + Red(n[2]) - 2 * Red(n[3]) + 2 * Red(n[4]) - Red(n[5]) + Red(n[7])
  }

  function GradientY(n: seq<int>): int
    requires |n| == 8
  {
    -Red(n[0]) - 2 * Red(n[1]) - Red(n[2]) + Red(n[5]) + 2 * Red(n[6]) + Red(n[7])
  }

  function Sobel(n: seq<int>, threshold: int): int
    requires |n| == 8
  {
    Drawn(Abs(GradientX(n)) + Abs(GradientY(n)), threshold)
  }

  function Drawn(sum: int, threshold: int): int {
    GrayOf(Kept(Clamp(sum), threshold))
  }

  function Kept(magnitude: int, threshold: int): int {
    if magnitude >= threshold then magnitude else 0
  }

  function GrayOf(output: int): int {
    PackRgb(output, output, output)
  }

  /** Packing keeps each channel apart: reading one back gives what was packed, clamped to a byte. */
  lemma {:induction false} PackChannels(red: int, green: int, blue: int)
    ensures Red(PackRgb(red, green, blue)) == Clamp(red)
    ensures Green(PackRgb(red, green, blue)) == Clamp(green)
    ensures Blue(PackRgb(red, green, blue)) == Clamp(blue)
    ensures 0 <= PackRgb(red, green, blue) <= 0xFFFFFF
  {
    var r, g, b := Clamp(red), Clamp(green), Clamp(blue);
    var p := r + g * 256 + b * 65536;
    assert p == (g + b * 256) * 256 + r;
    assert p / 256 == g + b * 256;
    assert p / 65536 == b;
  }

  lemma WeightsSum(red: int, green: int, blue: int)
    requires 0 <= red <= 255 && 0 <= green <= 255 && 0 <= blue <= 255
    ensures 0 <= Weighted(red, green, blue) <= 255 && Weighted(red, red, red) == red
  {}

  /** The luma coefficients add up to 256, so the clamp never acts and each channel is the luma. */
  lemma {:induction false} LumaNeedsNoClamp(pixel: int)
    ensures 0 <= Luma(pixel) <= 255
    ensures Red(Grayscale(pixel)) == Green(Grayscale(pixel)) == Blue(Grayscale(pixel)) == Luma(pixel)
  {
    WeightsSum(Red(pixel), Green(pixel), Blue(pixel));
    PackChannels(Luma(pixel), Luma(pixel), Luma(pixel));
  }

  /** Luma differs by less than one level from the weights 0.299, 0.587 and 0.114 of Rec. 601. */
  lemma {:induction false} LumaIsRec601(pixel: int)
    ensures -1000 < 1000 * Luma(pixel) - (299 * Red(pixel) + 587 * Green(pixel) + 114 * Blue(pixel)) < 1000
  {
    Rec601(Red(pixel), Green(pixel), Blue(pixel));
  }

  lemma {:induction false} Rec601(red: int, green: int, blue: int)
    requires 0 <= red <= 255 && 0 <= green <= 255 && 0 <= blue <= 255
    ensures -1000 < 1000 * Weighted(red, green, blue) - (299 * red + 587 * green + 114 * blue) < 1000
  {
    var sum, level := 77 * red + 150 * green + 29 * blue + 128, Weighted(red, green, blue);
    assert level * 256 <= sum < level * 256 + 256;
  }

  lemma {:induction false} GrayOfChannels(pixel: int, red: int, green: int, blue: int, level: int)
    requires Red(pixel) == red && Green(pixel) == green && Blue(pixel) == blue
    requires 0 <= level <= 255 && Weighted(red, green, blue) == level
    ensures Grayscale(pixel) == level * 0x010101
  {}

  /** Red is the lowest byte and blue the highest, and the pure colours have these levels. */
  lemma {:induction false} KnownPixels()
    ensures PackRgb(0x12, 0x34, 0x56) == 0x563412
    ensures Grayscale(0x0000FF) == 77 * 0x010101
    ensures Grayscale(0x00FF00) == 149 * 0x010101
    ensures Grayscale(0xFF0000) == 29 * 0x010101
  {
    GrayOfChannels(0x0000FF, 255, 0, 0, 77);
    GrayOfChannels(0x00FF00, 0, 255, 0, 149);
    GrayOfChannels(0xFF0000, 0, 0, 255, 29);
  }

  /** A gray image stays as it is. */
  lemma {:induction false} GrayscaleIdempotent(pixel: int)
    ensures Grayscale(Grayscale(pixel)) == Grayscale(pixel)
  {
    LumaNeedsNoClamp(pixel);
    WeightsSum(Luma(pixel), Luma(pixel), Luma(pixel));
  }

  /** The neighbourhood with rows and columns exchanged. */
  function Transposed(n: seq<int>): (t: seq<int>)
    requires |n| == 8
    ensures |t| == 8
  {
    [n[0], n[3], n[5], n[1], n[6], n[2], n[4], n[7]]
  }

  /**
   The two gradients are one operator: the vertical one is the horizontal one of the transposed
   neighbourhood. Mirroring negates it, and a flat neighbourhood has none.
   */
  lemma {:induction false} GradientSymmetry(n: seq<int>)
    requires |n| == 8
    ensures GradientY(n) == GradientX(Transposed(n))
    ensures GradientX([n[2], n[1], n[0], n[4], n[3], n[7], n[6], n[5]]) == -GradientX(n)
    ensures (forall j :: 0 <= j < 8 ==> Red(n[j]) == Red(n[0])) ==> GradientX(n) == GradientY(n) == 0
  {}

  /** Only the difference of opposite columns counts, the middle row twice. */
  lemma {:induction false} GradientOfStep(n: seq<int>, left: int, right: int)
    requires |n| == 8 && 0 <= left <= 255 && 0 <= right <= 255
    requires Red(n[0]) == Red(n[3]) == Red(n[5]) == left && Red(n[2]) == Red(n[4]) == Red(n[7]) == right
    ensures GradientX(n) == 4 * (right - left)
  {}

  /** A gray pixel of this brightness, black below the threshold and white at most. */
  function Shown(brightness: int, threshold: int): int {
    var level := if brightness > 255 then 255 else brightness;
    if level >= threshold then level * 0x010101 else 0
  }

  /** Horizontal and vertical edges count alike. */
  lemma {:induction false} SobelTransposed(n: seq<int>, threshold: int)
    requires |n| == 8
    ensures Sobel(Transposed(n), threshold) == Sobel(n, threshold)
  {
    var t := Transposed(n);
    Exchanged(n, t);
    Exchanged(t, n);
  }

  lemma {:induction false} Exchanged(n: seq<int>, t: seq<int>)
    requires |n| == |t| == 8 && t[0] == n[0] && t[1] == n[3] && t[2] == n[5] && t[3] == n[1]
    requires t[4] == n[6] && t[5] == n[2] && t[6] == n[4] && t[7] == n[7]
    ensures GradientX(t) == GradientY(n)
  {}

  /** An edge between two flat columns shows with four times its height, from the threshold on. */
  lemma {:induction false} SobelOfColumns(n: seq<int>, left: int, right: int, threshold: int)
    requires |n| == 8 && 0 <= left <= 255 && 0 <= right <= 255 && Red(n[1]) == Red(n[6])
    requires Red(n[0]) == Red(n[3]) == Red(n[5]) == left && Red(n[2]) == Red(n[4]) == Red(n[7]) == right
    ensures Sobel(n, threshold) == Shown(4 * (if left < right then right - left else left - right), threshold)
  {
    GradientOfStep(n, left, right);
    Rendered(n, 4 * (if left < right then right - left else left - right), threshold);
  }

  /** So does an edge between two flat rows. */
  lemma {:induction false} SobelOfRows(n: seq<int>, top: int, bottom: int, threshold: int)
    requires |n| == 8 && 0 <= top <= 255 && 0 <= bottom <= 255 && Red(n[3]) == Red(n[4])
    requires Red(n[0]) == Red(n[1]) == Red(n[2]) == top && Red(n[5]) == Red(n[6]) == Red(n[7]) == bottom
    ensures Sobel(n, threshold) == Shown(4 * (if top < bottom then bottom - top else top - bottom), threshold)
  {
    SobelOfColumns(Transposed(n), top, bottom, threshold);
    SobelTransposed(n, threshold);
  }

  /** A single bright corner shows with twice its level: both gradients count. */
  lemma {:induction false} SobelOfCorner(n: seq<int>, level: int, threshold: int)
    requires |n| == 8 && 0 <= level <= 255 && Red(n[0]) == level && forall j :: 1 <= j < 8 ==> Red(n[j]) == 0
    ensures Sobel(n, threshold) == Shown(2 * level, threshold)
  {
    Rendered(n, 2 * level, threshold);
  }

  lemma {:induction false} Rendered(n: seq<int>, brightness: int, threshold: int)
    requires |n| == 8 && 0 <= brightness && Abs(GradientX(n)) + Abs(GradientY(n)) == brightness
    ensures Sobel(n, threshold) == Shown(brightness, threshold)
  {
    DrawnIsShown(brightness, threshold);
  }

  lemma {:induction false} DrawnIsShown(brightness: int, threshold: int)
    requires 0 <= brightness
    ensures Drawn(brightness, threshold) == Shown(brightness, threshold)
  {
    GrayPixel(Kept(Clamp(brightness), threshold));
  }

  lemma {:induction false} GrayPixel(level: int)
    requires 0 <= level <= 255
    ensures GrayOf(level) == level * 0x010101
  {}

  /** Every intermediate value of the Sobel operator is far inside Int32. */
  lemma {:induction false} SobelFits(n: seq<int>)
    requires |n| == 8
    ensures -1020 <= GradientX(n) <= 1020 && -1020 <= GradientY(n) <= 1020
  {}

  /** The result is gray and is either 0 or at least the threshold. */
  lemma {:induction false} SobelThreshold(n: seq<int>, threshold: int)
    requires |n| == 8 && 0 <= threshold
    ensures var red := Red(Sobel(n, threshold));
      Green(Sobel(n, threshold)) == Blue(Sobel(n, threshold)) == red && (red == 0 || threshold <= red)
  {
    var output := Kept(Clamp(Abs(GradientX(n)) + Abs(GradientY(n))), threshold);
    PackChannels(output, output, output);
  }

  // ---- layout

  function CheckedPixelCount(width: int, height: int): Option<int> {
    if width <= 0 || height <= 0 then None
    else if width > (MAX - HEADER_WORDS) / 2 / height then None
    else Some(width * height)
  }

  /** The check accepts exactly the sizes whose double buffer fits Int32. */
  lemma {:induction false} PixelCountExact(width: int, height: int)
    ensures CheckedPixelCount(width, height).Some? <==>
      0 < width && 0 < height && HEADER_WORDS + 2 * (width * height) <= MAX
  {
    if 0 < width && 0 < height {
      QuotientAtLeast((MAX - HEADER_WORDS) / 2, width, height);
    }
  }

  datatype Layout = Layout(width: int, height: int, pixels: int) {
    function Source(): int { HEADER_WORDS }
    function Scratch(): int { HEADER_WORDS + pixels }
    function Capacity(): int { HEADER_WORDS + pixels + pixels }
  }

  /** None stands for the abort. */
  function ImageLayout(width: int, height: int): Option<Layout> {
    match CheckedPixelCount(width, height)
    case None => None
    case Some(count) => Some(Layout(width, height, count))
  }

  predicate Proper(l: Layout) {
    0 < l.width && 0 < l.height && l.pixels == l.width * l.height && l.Capacity() <= MAX
  }

  lemma LayoutProper(width: int, height: int)
    ensures var r := ImageLayout(width, height); r.Some? ==>
        Proper(r.value) && r.value.width == width && r.value.height == height
  {
    PixelCountExact(width, height);
  }

  function HeaderOf(l: Layout): seq<int> {
    [IMAGE_MAGIC, l.width, l.height, l.Source(), l.Scratch(), l.pixels, 0, 0]
  }

  /** The layout and header of one small image, written out. */
  lemma {:induction false} KnownLayout()
    ensures ImageLayout(4, 3) == Some(Layout(4, 3, 12)) && Layout(4, 3, 12).Capacity() == 32
    ensures HeaderOf(Layout(4, 3, 12)) == [0x4D41594F, 4, 3, 8, 20, 12, 0, 0]
  {}

  /** The memory after `initialize`, other words unchanged. */
  function Initialized(l: Layout, pixels: seq<int>, values: seq<int>): (r: seq<int>)
    requires Proper(l) && |pixels| == l.pixels && l.Capacity() <= |values|
    ensures |r| == |values|
  {
    seq(|values|, x requires 0 <= x < |values| =>
      if x < HEADER_WORDS then HeaderOf(l)[x]
      else if x < l.Scratch() then pixels[x - HEADER_WORDS]
      else if x < l.Capacity() then 0
      else values[x])
  }

  /** False stands for one of the two aborts, which come before the first store. */
  method Initialize(l: Layout, values: array<int>, pixels: seq<int>) returns (done: bool)
    requires Proper(l)
    modifies values
    ensures done <==> l.Capacity() <= values.Length && |pixels| == l.pixels
    ensures values[..] == if done then Initialized(l, pixels, old(values[..])) else old(values[..])
  {
    if values.Length < l.Capacity() || |pixels| != l.pixels { return false; }
    WriteHeader(l, values);
    for index := 0 to l.pixels
      invariant values[..8] == HeaderOf(l)
      invariant forall j :: 8 <= j < 8 + index ==> values[j] == pixels[j - 8]
      invariant forall j :: l.Scratch() <= j < l.Scratch() + index ==> values[j] == 0
      invariant forall j :: l.Capacity() <= j < values.Length ==> values[j] == old(values[j])
    {
      values[l.Source() + index] := pixels[index];
      values[l.Scratch() + index] := 0;
    }
    assert forall j :: 0 <= j < 8 ==> values[j] == values[..8][j];
    done := true;
  }

  method WriteHeader(l: Layout, values: array<int>)
    requires 8 <= values.Length
    modifies values
    ensures values[..8] == HeaderOf(l)
    ensures forall j :: 8 <= j < values.Length ==> values[j] == old(values[j])
  {
    values[0], values[1], values[2], values[3] := IMAGE_MAGIC, l.width, l.height, l.Source();
    values[4], values[5], values[6], values[7] := l.Scratch(), l.pixels, 0, 0;
  }

  /** None stands for an abort of the worker. */
  function LoadGuestLayout(shared: seq<int>): Option<Layout> {
    if |shared| < HEADER_WORDS || Load(shared, 0) != IMAGE_MAGIC then None
    else
      var r := ImageLayout(Load(shared, 1), Load(shared, 2));
      if r.None? then None
      else if Load(shared, 3) != r.value.Source() || Load(shared, 4) != r.value.Scratch()
              || Load(shared, 5) != r.value.pixels || Load(shared, 6) != 0 || Load(shared, 7) != 0
              || |shared| < r.value.Capacity() then None
      else r
  }

  /** A worker accepts a memory exactly when it begins with the header of a layout that fits it. */
  lemma {:induction false} AcceptsExactlyHeaders(shared: seq<int>, l: Layout)
    requires Proper(l) && l.Capacity() <= |shared|
    ensures LoadGuestLayout(shared) == Some(l) <==> shared[..HEADER_WORDS] == HeaderOf(l)
  {
    PixelCountExact(l.width, l.height);
    assert forall j :: 0 <= j < 8 ==> shared[..HEADER_WORDS][j] == Load(shared, j);
  }

  // ---- the kernels

  /** The layout behind a header that a worker has accepted. */
  function LayoutOf(header: seq<int>): Layout {
    Layout(Load(header, 1), Load(header, 2), Load(header, 5))
  }

  predicate Border(l: Layout, index: int)
    requires 0 < l.width
  {
    var x, y := index % l.width, index / l.width;
    x == 0 || y == 0 || x == l.width - 1 || y == l.height - 1
  }

  function PlaneIndex(width: int, x: int, y: int): int {
    y * width + x
  }

  /** The plane indices of the eight positions around column x and row y, in reading order. */
  function Around(width: int, x: int, y: int): (n: seq<int>)
    ensures |n| == 8
  {
    [PlaneIndex(width, x - 1, y - 1), PlaneIndex(width, x, y - 1), PlaneIndex(width, x + 1, y - 1),
     PlaneIndex(width, x - 1, y), PlaneIndex(width, x + 1, y),
     PlaneIndex(width, x - 1, y + 1), PlaneIndex(width, x, y + 1), PlaneIndex(width, x + 1, y + 1)]
  }

  function Neighbours(l: Layout, index: int): (n: seq<int>)
    requires 0 < l.width
    ensures |n| == 8
  {
    Around(l.width, index % l.width, index / l.width)
  }

  function ScratchAround(l: Layout, x: int, y: int): (s: seq<int>)
    ensures |s| == 8
    ensures forall j :: 0 <= j < 8 ==> s[j] == l.Scratch() + Around(l.width, x, y)[j]
  {
    seq(8, j requires 0 <= j < 8 => l.Scratch() + Around(l.width, x, y)[j])
  }

  /** `scratch_at` of every neighbour, or no load on the border. */
  function SobelSources(l: Layout, index: int): (s: seq<int>)
    ensures |s| == 0 || |s| == 8
  {
    if l.width <= 0 || Border(l, index) then []
    else ScratchAround(l, index % l.width, index / l.width)
  }

  function GrayKernel(): Kernel {
    Kernel(8, true,
           (argument, header) => LayoutOf(header).Scratch(),
           (argument, header, i) => [LayoutOf(header).Source() + i],
           (argument, header, i, buffer: seq<int>) => Grayscale(Load(buffer, 0)),
           (acc, buffer) => 0)
  }

  function SobelKernel(): Kernel {
    Kernel(8, true,
           (argument, header) => LayoutOf(header).Source(),
           (argument, header, i) => SobelSources(LayoutOf(header), i),
           (argument, header, i, buffer: seq<int>) => if |buffer| == 8 then Sobel(buffer, argument) else 0,
           (acc, buffer) => 0)
  }

  lemma InPlane(x: int, y: int, width: int, height: int)
    requires 0 <= x < width && 0 <= y < height
    ensures 0 <= y * width + x < width * height
  {
    MulOrder(0, y, width);
    MulOrder(y + 1, height, width);
    assert (y + 1) * width == y * width + width;
  }

  /** An index of the plane lies in a real row and column. */
  lemma {:induction false} RowInside(index: nat, width: nat, height: nat)
    requires 0 < width && index < width * height
    ensures 0 <= index % width < width && 0 <= index / width < height
  {
    QuotientAtLeast(index, height, width);
  }

  /** Neighbours of an inner pixel never leave the plane. */
  lemma {:induction false} NeighboursInside(l: Layout, index: int, j: nat)
    requires Proper(l) && 0 <= index < l.pixels && !Border(l, index) && j < 8
    ensures 0 <= Neighbours(l, index)[j] < l.pixels
  {
    RowInside(index, l.width, l.height);
    var x, y := index % l.width, index / l.width;
    var dx := if j == 0 || j == 3 || j == 5 then -1 else if j == 1 || j == 6 then 0 else 1;
    var dy := if j < 3 then -1 else if j < 5 then 0 else 1;
    InPlane(x + dx, y + dy, l.width, l.height);
    assert Neighbours(l, index)[j] == (y + dy) * l.width + (x + dx);
  }

  lemma LayoutOfHeader(l: Layout)
    ensures LayoutOf(HeaderOf(l)) == l
  {}

  /** Neither kernel reads a word that another index writes, or writes a header word. */
  lemma {:induction false} KernelsRaceFree(l: Layout, lo: int, hi: int, argument: int)
    requires Proper(l) && 0 <= lo <= hi <= l.pixels
    ensures RaceFree(GrayKernel(), argument, HeaderOf(l), lo, hi)
    ensures RaceFree(SobelKernel(), argument, HeaderOf(l), lo, hi)
  {
    LayoutOfHeader(l);
    forall i, a | lo <= i < hi && a in SobelSources(l, i) ensures hi + l.Source() <= a {
      var j :| 0 <= j < 8 && SobelSources(l, i)[j] == a;
      NeighboursInside(l, i, j);
    }
    assert forall i :: SobelKernel().sources(argument, HeaderOf(l), i) == SobelSources(l, i);
  }

  /** The word index of a shared array, which the layout keeps in bounds. */
  lemma AcceptedFits(shared: seq<int>, l: Layout)
    requires LoadGuestLayout(shared) == Some(l)
    ensures Proper(l) && l.Capacity() <= |shared| && shared[..HEADER_WORDS] == HeaderOf(l)
  {
    LayoutProper(Load(shared, 1), Load(shared, 2));
    AcceptsExactlyHeaders(shared, l);
  }

  // A range may end beyond the image. An index sum that leaves Int32 there turns negative and so misses
  // the array, as the unbounded sum does.

  /** `SharedSlice::load`. */
  method LoadAt(shared: array<int>, index: int) returns (word: int)
    ensures word == Load(shared[..], index)
  {
    word := if 0 <= index < shared.Length then shared[index] else 0;
  }

  /** `SharedSlice::store`. */
  method StoreAt(shared: array<int>, index: int, word: int)
    modifies shared
    ensures shared[..] == Store(old(shared[..]), index, word)
  {
    if 0 <= index < shared.Length { shared[index] := word; }
  }

  /** False stands for the abort of a worker that does not accept the header. */
  method GrayscaleRange(shared: array<int>, start: int, end: int, argument: int) returns (ok: bool)
    requires 0 <= start <= end
    modifies shared
    ensures ok == LoadGuestLayout(old(shared[..])).Some?
    ensures shared[..] == if !ok then old(shared[..]) else
      Run(GrayKernel(), argument, HeaderOf(LoadGuestLayout(old(shared[..])).value), old(shared[..]), start, end)
  {
    var loaded := LoadGuestLayout(shared[..]);
    if loaded.None? { return false; }
    var l := loaded.value;
    LayoutOfHeader(l);
    for index := start to end
      invariant shared[..] == Run(GrayKernel(), argument, HeaderOf(l), old(shared[..]), start, index)
    {
      ghost var before := shared[..];
      var source := LoadAt(shared, l.Source() + index);
      GrayOutput(l, before, index, argument);
      StoreAt(shared, l.Scratch() + index, Grayscale(source));
    }
    ok := true;
  }

  /** Three neighbouring pixels of one row of the scratch plane. */
  function RowOf(data: seq<int>, l: Layout, x: int, y: int): seq<int> {
    [PixelOf(data, l, x - 1, y), PixelOf(data, l, x, y), PixelOf(data, l, x + 1, y)]
  }

  function PixelOf(data: seq<int>, l: Layout, x: int, y: int): int { Load(data, l.Scratch() + PlaneIndex(l.width, x,
                   y)) }

  method ScratchAt(shared: array<int>, l: Layout, x: int, y: int) returns (pixel: int)
    ensures pixel == PixelOf(shared[..], l, x, y)
  {
    pixel := LoadAt(shared, l.Scratch() + (y * l.width + x));
  }

  method LoadRow(shared: array<int>, l: Layout, x: int, y: int) returns (n: seq<int>)
    ensures n == RowOf(shared[..], l, x, y)
  {
    var a := ScratchAt(shared, l, x - 1, y);
    var b := ScratchAt(shared, l, x, y);
    var c := ScratchAt(shared, l, x + 1, y);
    n := [a, b, c];
  }

  /** The `scratch_at` calls of the row above, the two sides and the row below. */
  method LoadAround(shared: array<int>, l: Layout, x: int, y: int) returns (n: seq<int>)
    ensures n == RowOf(shared[..], l, x, y - 1) + [PixelOf(shared[..], l, x - 1, y), PixelOf(shared[..], l, x + 1, y)]
      + RowOf(shared[..], l, x, y + 1)
  {
    var above := LoadRow(shared, l, x, y - 1);
    var left := ScratchAt(shared, l, x - 1, y);
    var right := ScratchAt(shared, l, x + 1, y);
    var below := LoadRow(shared, l, x, y + 1);
    n := above + [left, right] + below;
  }

  lemma {:induction false} InReadingOrder(data: seq<int>, l: Layout, x: int, y: int)
    ensures Loaded(data, ScratchAround(l, x, y)) ==
      RowOf(data, l, x, y - 1) + [PixelOf(data, l, x - 1, y), PixelOf(data, l, x + 1, y)] + RowOf(data, l, x, y + 1)
  {}

  /** What the kernel stores for one pixel. */
  function SobelOf(l: Layout, data: seq<int>, index: int, threshold: int): int
    requires 0 < l.width
  {
    if Border(l, index) then 0 else Sobel(Loaded(data, ScratchAround(l, index % l.width, index / l.width)), threshold)
  }

  /** The loop body of `sobel_range` up to its store. */
  method SobelAt(shared: array<int>, l: Layout, index: int, threshold: int) returns (output: int)
    requires 0 < l.width && 0 <= index
    ensures output == SobelOf(l, shared[..], index, threshold)
  {
    if Border(l, index) { return 0; }
    var x, y := index % l.width, index / l.width;
    var n := LoadAround(shared, l, x, y);
    InReadingOrder(shared[..], l, x, y);
    output := Sobel(n, threshold);
  }

  method SobelRange(shared: array<int>, start: int, end: int, threshold: int) returns (ok: bool)
    requires 0 <= start <= end
    modifies shared
    ensures ok == LoadGuestLayout(old(shared[..])).Some?
    ensures shared[..] == if !ok then old(shared[..]) else
      Run(SobelKernel(), threshold, HeaderOf(LoadGuestLayout(old(shared[..])).value), old(shared[..]), start, end)
  {
    var loaded := LoadGuestLayout(shared[..]);
    if loaded.None? { return false; }
    var l := loaded.value;
    AcceptedFits(shared[..], l);
    SobelShift(l, threshold);
    for index := start to end
      invariant shared[..] == Run(SobelKernel(), threshold, HeaderOf(l), old(shared[..]), start, index)
    {
      ghost var before := shared[..];
      var output := SobelAt(shared, l, index, threshold);
      SobelOutput(l, before, index, threshold);
      StoreAt(shared, l.Source() + index, output);
    }
    ok := true;
  }

  lemma {:induction false} SobelOutput(l: Layout, data: seq<int>, index: int, threshold: int)
    requires Proper(l)
    ensures Output(SobelKernel(), threshold, HeaderOf(l), data, index) == SobelOf(l, data, index, threshold)
  {
    LayoutOfHeader(l);
  }

  // ---- the reference

  function ReferenceGray(pixels: seq<int>): (gray: seq<int>)
    ensures |gray| == |pixels|
    ensures forall i :: 0 <= i < |pixels| ==> gray[i] == Grayscale(pixels[i])
  {
    seq(|pixels|, i requires 0 <= i < |pixels| => Grayscale(pixels[i]))
  }

  /** Edge detection of a whole image, without offsets or header. */
  function ReferenceEdges(l: Layout, gray: seq<int>, threshold: int): (edges: seq<int>)
    requires Proper(l)
    ensures |edges| == l.pixels
    ensures forall i :: 0 <= i < l.pixels ==>
      edges[i] == if Border(l, i) then 0 else Sobel(Loaded(gray, Neighbours(l, i)), threshold)
  {
    seq(l.pixels, i requires 0 <= i < l.pixels =>
      if Border(l, i) then 0 else Sobel(Loaded(gray, Neighbours(l, i)), threshold))
  }

  /** The 3 by 3 square around column x and row y without its centre, row by row. */
  function Square(gray: seq<int>, width: int, x: int, y: int): (n: seq<int>)
    ensures |n| == 8
  {
    [Load(gray, (y - 1) * width + (x - 1)), Load(gray, (y - 1) * width + x), Load(gray, (y - 1) * width + (x + 1)),
     Load(gray, y * width + (x - 1)), Load(gray, y * width + (x + 1)),
     Load(gray, (y + 1) * width + (x - 1)), Load(gray, (y + 1) * width + x), Load(gray, (y + 1) * width + (x + 1))]
  }

  /** By coordinates: the outermost rows and columns are black, all others look at the square around them. */
  lemma {:induction false} EdgesByCoordinates(l: Layout, gray: seq<int>, threshold: int, x: int, y: int, index: int)
    requires Proper(l) && |gray| == l.pixels && 0 <= x < l.width && 0 <= y < l.height && index == y * l.width + x
    ensures 0 <= index < l.pixels
    ensures ReferenceEdges(l, gray, threshold)[index] ==
      if x == 0 || y == 0 || x == l.width - 1 || y == l.height - 1 then 0
      else Sobel(Square(gray, l.width, x, y), threshold)
  {
    InPlane(x, y, l.width, l.height);
    RowMajor(x, y, l.width);
    EdgeAt(l, gray, threshold, x, y, index);
    SquareLoaded(gray, l.width, x, y);
  }

  lemma {:induction false} SquareLoaded(gray: seq<int>, width: int, x: int, y: int)
    ensures Loaded(gray, Around(width, x, y)) == Square(gray, width, x, y)
  {}

  lemma {:induction false} EdgeAt(l: Layout, gray: seq<int>, threshold: int, x: int, y: int, index: int)
    requires Proper(l) && |gray| == l.pixels && 0 <= index < l.pixels
    requires index % l.width == x && index / l.width == y
    ensures ReferenceEdges(l, gray, threshold)[index] ==
      if x == 0 || y == 0 || x == l.width - 1 || y == l.height - 1 then 0
      else Sobel(Loaded(gray, Around(l.width, x, y)), threshold)
  {}

  /** The memory holds the header of l and these two planes. */
  predicate Planes(l: Layout, data: seq<int>, source: seq<int>, scratch: seq<int>) {
    && Proper(l) && |source| == |scratch| == l.pixels && l.Capacity() <= |data|
    && data[..HEADER_WORDS] == HeaderOf(l)
    && data[l.Source()..l.Scratch()] == source && data[l.Scratch()..l.Capacity()] == scratch
  }

  /** The word of an image memory with these planes. */
  function PlaneWord(l: Layout, source: seq<int>, scratch: seq<int>, x: nat): int
    requires Proper(l) && |source| == |scratch| == l.pixels && x < l.Capacity()
  {
    if x < 8 then HeaderOf(l)[x] else if x < l.Scratch() then source[x - 8] else scratch[x - l.Scratch()]
  }

  lemma {:induction false} PlaneWordOf(l: Layout, data: seq<int>, source: seq<int>, scratch: seq<int>, x: nat)
    requires Planes(l, data, source, scratch) && x < l.Capacity()
    ensures data[x] == PlaneWord(l, source, scratch, x)
  {
    if x < 8 { assert data[..8][x] == data[x]; }
    else if x < l.Scratch() { assert data[l.Source()..l.Scratch()][x - 8] == data[x]; }
    else { assert data[l.Scratch()..l.Capacity()][x - l.Scratch()] == data[x]; }
  }

  lemma {:induction false} PlanesFromWords(l: Layout, data: seq<int>, source: seq<int>, scratch: seq<int>)
    requires Proper(l) && |source| == |scratch| == l.pixels && l.Capacity() <= |data|
    requires forall x: nat :: x < l.Capacity() ==> data[x] == PlaneWord(l, source, scratch, x)
    ensures Planes(l, data, source, scratch)
  {
    assert data[..8] == HeaderOf(l);
    assert data[l.Source()..l.Scratch()] == source;
    assert data[l.Scratch()..l.Capacity()] == scratch;
  }

  lemma InitializedPlanes(l: Layout, pixels: seq<int>, values: seq<int>)
    requires Proper(l) && |pixels| == l.pixels && l.Capacity() <= |values|
    ensures Planes(l, Initialized(l, pixels, values), pixels, seq(l.pixels, _ => 0))
    ensures LoadGuestLayout(Initialized(l, pixels, values)) == Some(l)
    ensures Initialized(l, pixels, values)[l.Capacity()..] == values[l.Capacity()..]
  {
    AcceptsExactlyHeaders(Initialized(l, pixels, values), l);
  }

  lemma HeaderWordsLoaded(l: Layout, data: seq<int>, k: Kernel)
    requires Proper(l) && l.Capacity() <= |data| && data[..HEADER_WORDS] == HeaderOf(l) && k.header == 8
    ensures Header(k, data) == HeaderOf(l)
  {
    forall j | 0 <= j < 8 ensures Header(k, data)[j] == HeaderOf(l)[j] {
      assert data[..8][j] == data[j];
    }
  }

  lemma GrayOutput(l: Layout, data: seq<int>, index: int, argument: int)
    ensures Output(GrayKernel(), argument, HeaderOf(l), data, index) == Grayscale(Load(data, l.Source() + index))
  {
    LayoutOfHeader(l);
    assert Loaded(data, [l.Source() + index]) == [Load(data, l.Source() + index)];
  }

  /** The kernel's output for every pixel of this memory. */
  ghost predicate Outputs(k: Kernel, argument: int, l: Layout, data: seq<int>, plane: seq<int>) {
    |plane| == l.pixels && forall i: nat :: i < |plane| ==> Output(k, argument, HeaderOf(l), data, i) == plane[i]
  }

  /** A race-free call over the image replaces the plane it writes and nothing else. */
  lemma {:induction false} PlanePass(k: Kernel, argument: int, l: Layout, data: seq<int>, source: seq<int>,
                                     scratch: seq<int>,
                                     plane: seq<int>, toScratch: bool)
    requires Planes(l, data, source, scratch) && Outputs(k, argument, l, data, plane)
    requires k.writes && RaceFree(k, argument, HeaderOf(l), 0, l.pixels)
    requires k.shift(argument, HeaderOf(l)) == if toScratch then l.Scratch() else l.Source()
    ensures Planes(l, Run(k, argument, HeaderOf(l), data, 0, l.pixels),
                   if toScratch then source else plane, if toScratch then plane else scratch)
  {
    var r := Run(k, argument, HeaderOf(l), data, 0, l.pixels);
    var first, second := if toScratch then source else plane, if toScratch then plane else scratch;
    forall x: nat | x < l.Capacity() ensures r[x] == PlaneWord(l, first, second, x) {
      RunAt(k, argument, HeaderOf(l), data, 0, l.pixels, x);
      PlaneWordOf(l, data, source, scratch, x);
    }
    PlanesFromWords(l, r, first, second);
  }

  /** One grayscale call over the image leaves the gray plane in scratch and everything else alone. */
  lemma {:induction false} GrayPass(l: Layout, data: seq<int>, source: seq<int>, scratch: seq<int>, argument: int)
    requires Planes(l, data, source, scratch)
    ensures Planes(l, Run(GrayKernel(), argument, HeaderOf(l), data, 0, l.pixels), source, ReferenceGray(source))
  {
    var gray := ReferenceGray(source);
    LayoutOfHeader(l);
    KernelsRaceFree(l, 0, l.pixels, argument);
    forall i: nat | i < l.pixels ensures Output(GrayKernel(), argument, HeaderOf(l), data, i) == gray[i] {
      GrayOutput(l, data, i, argument);
      PlaneWordOf(l, data, source, scratch, l.Source() + i);
    }
    PlanePass(GrayKernel(), argument, l, data, source, scratch, gray, true);
  }

  /** The neighbours loaded through the layout are the neighbours in the plane. */
  lemma NeighboursLoaded(l: Layout, data: seq<int>, source: seq<int>, scratch: seq<int>, index: int)
    requires Planes(l, data, source, scratch) && 0 <= index < l.pixels && !Border(l, index)
    ensures Loaded(data, SobelSources(l, index)) == Loaded(scratch, Neighbours(l, index))
  {
    forall j | 0 <= j < 8
      ensures Loaded(data, SobelSources(l, index))[j] == Loaded(scratch, Neighbours(l, index))[j]
    {
      NeighboursInside(l, index, j);
      PlaneWordOf(l, data, source, scratch, l.Scratch() + Neighbours(l, index)[j]);
      assert Loaded(data, SobelSources(l, index))[j] == Load(data, SobelSources(l, index)[j]);
    }
  }

  lemma {:induction false} SobelShift(l: Layout, threshold: int)
    ensures SobelKernel().writes && SobelKernel().shift(threshold, HeaderOf(l)) == l.Source()
  {
    LayoutOfHeader(l);
  }

  lemma {:induction false} SobelReference(l: Layout, data: seq<int>, source: seq<int>, scratch: seq<int>,
                                          threshold: int, index: int)
    requires Planes(l, data, source, scratch) && 0 <= index < l.pixels
    ensures Output(SobelKernel(), threshold, HeaderOf(l), data, index) == ReferenceEdges(l, scratch, threshold)[index]
  {
    SobelOutput(l, data, index, threshold);
    if !Border(l, index) { NeighboursLoaded(l, data, source, scratch, index); }
  }

  /** One Sobel call over the image leaves the edges of the scratch plane in the source plane. */
  lemma {:induction false} SobelPass(l: Layout, data: seq<int>, source: seq<int>, scratch: seq<int>, threshold: int)
    requires Planes(l, data, source, scratch)
    ensures Planes(l, Run(SobelKernel(), threshold, HeaderOf(l), data, 0, l.pixels),
                   ReferenceEdges(l, scratch, threshold), scratch)
  {
    var edges := ReferenceEdges(l, scratch, threshold);
    SobelShift(l, threshold);
    KernelsRaceFree(l, 0, l.pixels, threshold);
    assert Outputs(SobelKernel(), threshold, l, data, edges) by {
      forall i: nat | i < l.pixels ensures Output(SobelKernel(), threshold, HeaderOf(l), data, i) == edges[i] {
        SobelReference(l, data, source, scratch, threshold, i);
      }
    }
    PlanePass(SobelKernel(), threshold, l, data, source, scratch, edges, false);
  }

  // ---- over the dispatch protocol

  /** A dispatch of kernel k over the whole image. */
  ghost predicate ImageJob(c: Config, job: Job, k: Kernel, l: Layout) {
    && c.lookup(job.kernelId, job.layoutHash) == Found(k)
    && |job.bounds| > 0 && job.bounds[0] == 0 && job.bounds[|job.bounds| - 1] == l.pixels
  }

  /** Grayscale or Sobel over the whole image. */
  ghost predicate ImagePass(c: Config, job: Job, l: Layout) {
    ImageJob(c, job, GrayKernel(), l) || ImageJob(c, job, SobelKernel(), l)
  }

  ghost predicate ImagePasses(c: Config, jobs: seq<Job>, l: Layout) {
    forall i :: 0 <= i < |jobs| ==> ImagePass(c, jobs[i], l)
  }

  /** The image kernels are race free on every memory with the planes. */
  lemma {:induction false} ImageJobsRaceFree(c: Config, job: Job, l: Layout, data: seq<int>, source: seq<int>,
                                             scratch: seq<int>)
    requires Planes(l, data, source, scratch) && ImagePass(c, job, l)
    ensures Resolves(c, job) && |job.bounds| > 0 && JobRaceFree(c, job, data) && KernelOf(c, job).header == HEADER_WORDS
  {
    HeaderWordsLoaded(l, data, KernelOf(c, job));
    KernelsRaceFree(l, 0, l.pixels, job.argument);
  }

  /** The two planes as pictures. */
  datatype Pictures = Pictures(source: seq<int>, scratch: seq<int>)

  /** What a job is to do to them. */
  ghost function Pass(c: Config, l: Layout, job: Job, p: Pictures): (r: Pictures)
    requires Proper(l) && |p.source| == |p.scratch| == l.pixels
    ensures |r.source| == |r.scratch| == l.pixels
  {
    if ImageJob(c, job, GrayKernel(), l) then p.(scratch := ReferenceGray(p.source))
    else p.(source := ReferenceEdges(l, p.scratch, job.argument))
  }

  ghost function Passes(c: Config, l: Layout, jobs: seq<Job>, p: Pictures): (r: Pictures)
    requires Proper(l) && |p.source| == |p.scratch| == l.pixels
    ensures |r.source| == |r.scratch| == l.pixels
  {
    if jobs == [] then p else Pass(c, l, jobs[|jobs| - 1], Passes(c, l, jobs[..|jobs| - 1], p))
  }

  lemma {:induction false} OnePass(c: Config, l: Layout, job: Job, data: seq<int>, p: Pictures)
    requires Planes(l, data, p.source, p.scratch) && ImagePass(c, job, l)
    ensures Resolves(c, job) && |job.bounds| > 0
    ensures var q := Pass(c, l, job, p); Planes(l, RunJob(c, job, data), q.source, q.scratch)
  {
    HeaderWordsLoaded(l, data, KernelOf(c, job));
    if ImageJob(c, job, GrayKernel(), l) {
      GrayPass(l, data, p.source, p.scratch, job.argument);
    } else {
      SobelPass(l, data, p.source, p.scratch, job.argument);
    }
  }

  /** As a sequential program, image passes in any order are race free and draw the reference pictures. */
  lemma {:induction false} PassesDraw(c: Config, l: Layout, jobs: seq<Job>, data: seq<int>, p: Pictures)
    requires Planes(l, data, p.source, p.scratch) && ImagePasses(c, jobs, l)
    ensures DispatchRuns.FreeJobs(c, data, jobs)
    ensures var q := Passes(c, l, jobs, p); Planes(l, DispatchRuns.RunJobs(c, data, jobs), q.source, q.scratch)
    decreases |jobs|
  {
    if jobs != [] {
      var before, last := jobs[..|jobs| - 1], jobs[|jobs| - 1];
      PassesDraw(c, l, before, data, p);
      assert ImagePass(c, last, l);
      var q := Passes(c, l, before, p);
      ImageJobsRaceFree(c, last, l, DispatchRuns.RunJobs(c, data, before), q.source, q.scratch);
      OnePass(c, l, last, DispatchRuns.RunJobs(c, data, before), q);
    }
  }

  /** On every schedule, OK and harmless image passes in any order leave the reference pictures. */
  lemma {:induction false} ImageProgram(c: Config, data: seq<int>, schedule: seq<Action>, l: Layout, p: Pictures)
    requires ValidConfig(c) && |data| == c.capacity && Planes(l, data, p.source, p.scratch)
    ensures
      var s := After(c, data, schedule);
      s.host.Ready? && DispatchRuns.AllFine(s.hist.reports) && ImagePasses(c, s.hist.jobs, l) ==>
        var q := Passes(c, l, s.hist.jobs, p);
        Planes(l, s.data, q.source, q.scratch)
  {
    var s := After(c, data, schedule);
    if s.host.Ready? && DispatchRuns.AllFine(s.hist.reports) && ImagePasses(c, s.hist.jobs, l) {
      PassesDraw(c, l, s.hist.jobs, data, p);
      DispatchRuns.RunsRefineSequence(c, data, schedule);
    }
  }

  /**
   On every schedule, OK and harmless dispatches of grayscale and then Sobel over an initialized image
   end with the reference edges in the source plane, the reference gray image in the scratch plane and
   the header intact.
   */
  lemma {:induction false} PipelineEqualsReference(c: Config, l: Layout, pixels: seq<int>, values: seq<int>,
                                                   schedule: seq<Action>, gray: Job, edges: Job)
    requires ValidConfig(c) && Proper(l) && |pixels| == l.pixels && l.Capacity() <= |values| == c.capacity
    requires ImageJob(c, gray, GrayKernel(), l) && ImageJob(c, edges, SobelKernel(), l)
    ensures
      var s := After(c, Initialized(l, pixels, values), schedule);
      s.host.Ready? && s.hist.jobs == [gray, edges] && DispatchRuns.AllFine(s.hist.reports) ==>
        Planes(l, s.data, ReferenceEdges(l, ReferenceGray(pixels), edges.argument), ReferenceGray(pixels))
  {
    var start, p := Initialized(l, pixels, values), Pictures(pixels, seq(l.pixels, _ => 0));
    InitializedPlanes(l, pixels, values);
    ImageProgram(c, start, schedule, l, p);
    GrayThenEdges(c, l, gray, edges, p);
  }

  lemma {:induction false} GrayThenEdges(c: Config, l: Layout, gray: Job, edges: Job, p: Pictures)
    requires Proper(l) && |p.source| == |p.scratch| == l.pixels
    requires ImageJob(c, gray, GrayKernel(), l) && ImageJob(c, edges, SobelKernel(), l)
    ensures ImagePasses(c, [gray, edges], l)
    ensures Passes(c, l, [gray, edges], p) ==
      Pictures(ReferenceEdges(l, ReferenceGray(p.source), edges.argument), ReferenceGray(p.source))
  {
    LayoutOfHeader(l);
    assert GrayKernel().shift(0, HeaderOf(l)) != SobelKernel().shift(0, HeaderOf(l));
    assert [gray, edges][..1] == [gray] && [gray][..0] == [];
    assert Passes(c, l, [gray], p) == Pass(c, l, gray, Passes(c, l, [], p));
  }

  /**
   As long as the finished dispatches were OK and harmless image passes, a worker accepts the header
   between dispatches, and also at every moment of a further harmless one.
   */
  lemma {:induction false} HeaderStaysValid(c: Config, data: seq<int>, schedule: seq<Action>, l: Layout, p: Pictures)
    requires ValidConfig(c) && |data| == c.capacity && Planes(l, data, p.source, p.scratch)
    ensures
      var s := After(c, data, schedule);
      && DispatchRuns.AllFine(s.hist.reports) && ImagePasses(c, s.hist.jobs, l)
      && (s.host.Ready? || (ImagePass(c, s.job, l) && Harmless(s)))
      ==> LoadGuestLayout(s.data) == Some(l)
  {
    var s := After(c, data, schedule);
    if DispatchRuns.AllFine(s.hist.reports) && ImagePasses(c, s.hist.jobs, l) {
      var q := Passes(c, l, s.hist.jobs, p);
      PassesDraw(c, l, s.hist.jobs, data, p);
      if s.host.Ready? {
        ImageProgram(c, data, schedule, l, p);
        AcceptsExactlyHeaders(s.data, l);
      } else if ImagePass(c, s.job, l) && Harmless(s) {
        DispatchRuns.BaseRefinesSequence(c, data, schedule);
        ImageJobsRaceFree(c, s.job, l, s.hist.base, q.source, q.scratch);
        HeaderDuringDispatch(c, data, schedule, l, q);
      }
    }
  }

  lemma {:induction false} HeaderDuringDispatch(c: Config, data: seq<int>, schedule: seq<Action>, l: Layout,
                                                q: Pictures)
    requires ValidConfig(c) && |data| == c.capacity
    requires var s := After(c, data, schedule);
      DispatchRuns.Orderly(c, s) && KernelOf(c, s.job).header == HEADER_WORDS
          && Planes(l, s.hist.base, q.source, q.scratch)
    ensures LoadGuestLayout(After(c, data, schedule).data) == Some(l)
  {
    var s := After(c, data, schedule);
    DispatchRuns.WordsDuringDispatch(c, data, schedule, 0);
    forall x | 0 <= x < HEADER_WORDS ensures s.data[x] == s.hist.base[x] {
      DispatchRuns.WordsDuringDispatch(c, data, schedule, x);
    }
    assert s.data[..HEADER_WORDS] == s.hist.base[..HEADER_WORDS];
    AcceptsExactlyHeaders(s.data, l);
  }
}
