/** Choosing the points a plane is fitted to (`_select_plane_fit_points` in
    app/Base/tools/FlattenSurface.py). Values are exact numbers. */
module PlanePoints {
  import opened Counting

  datatype Point = Point(y: nat, x: nat)

  type Mask = seq<seq<bool>>

  /** A rectangular array. */
  ghost predicate Shaped<T>(a: seq<seq<T>>, height: nat, width: nat) {
    |a| == height && forall y :: 0 <= y < height ==> |a[y]| == width
  }

  function ValidMask(data: seq<seq<real>>, mask: Mask, low: real, high: real, height: nat, width: nat): (r: Mask)
    requires Shaped(data, height, width) && Shaped(mask, height, width)
    ensures Shaped(r, height, width)
  {
    seq(height, y requires 0 <= y < height =>
      seq(width, x requires 0 <= x < width => mask[y][x] && low < data[y][x] < high))
  }

  /** The cell is inside the image and the mask, and its value is inside the open range. */
  predicate Usable(p: Point, data: seq<seq<real>>, mask: Mask, low: real, high: real) {
    && p.y < |data| && p.y < |mask| && p.x < |data[p.y]| && p.x < |mask[p.y]|
    && mask[p.y][p.x] && data[p.y][p.x] > low && data[p.y][p.x] < high
  }

  // ----- the true cells of a mask -----

  predicate Marked(valid: Mask, p: Point) {
    p.y < |valid| && p.x < |valid[p.y]| && valid[p.y][p.x]
  }

  predicate Before(p: Point, q: Point) {
    p.y < q.y || (p.y == q.y && p.x < q.x)
  }

  /** Row by row, left to right, no point twice. */
  ghost predicate RowMajor(points: seq<Point>) {
    forall i, j :: 0 <= i < j < |points| ==> Before(points[i], points[j])
  }

  function RowCells(row: seq<bool>, y: nat, x: nat): (r: seq<Point>)
    requires x <= |row|
    ensures forall p :: p in r <==> p.y == y && x <= p.x < |row| && row[p.x]
    ensures RowMajor(r)
    decreases |row| - x
  {
    if x == |row| then [] else (if row[x] then [Point(y, x)] else []) + RowCells(row, y, x + 1)
  }

  /** The true cells from row `y` on, as `np.nonzero` lists them. */
  function CellsFrom(valid: Mask, y: nat): (r: seq<Point>)
    requires y <= |valid|
    ensures forall p :: p in r <==> y <= p.y && Marked(valid, p)
    ensures RowMajor(r)
    decreases |valid| - y
  {
    if y == |valid| then []
    else
      var row, below := RowCells(valid[y], y, 0), CellsFrom(valid, y + 1);
      assert forall p :: p in row + below <==> p in row || p in below;
      RowsInOrder(row, below);
      row + below
  }

  lemma RowsInOrder(a: seq<Point>, b: seq<Point>)
    requires RowMajor(a) && RowMajor(b) && forall p, q :: p in a && q in b ==> p.y < q.y
    ensures RowMajor(a + b)
  {
    var s := a + b;
    forall i, j | 0 <= i < j < |s|
      ensures Before(s[i], s[j])
    {
      if i < |a| <= j {
        assert s[i] in a && s[j] in b;
      }
    }
  }

  function NonZero(valid: Mask): (r: seq<Point>)
    ensures forall p :: p in r <==> Marked(valid, p)
    ensures RowMajor(r)
  {
    CellsFrom(valid, 0)
  }

  /** The true cells of the mask, as a set. */
  function Cells(valid: Mask): (r: set<Point>)
    ensures forall p :: p in r <==> Marked(valid, p)
  {
    set p | p in NonZero(valid)
  }

  lemma {:induction false} RowMajorCounts(points: seq<Point>, cells: set<Point>)
    requires RowMajor(points) && forall p :: p in points <==> p in cells
    ensures |points| == |cells|
    decreases |points|
  {
    if points == [] {
      assert cells == {};
    } else {
      var p, init := points[|points| - 1], points[..|points| - 1];
      assert points == init + [p];
      assert p !in init;
      RowMajorCounts(init, cells - {p});
    }
  }

  /** The points are these cells, row by row, none twice. */
  ghost predicate Lists(points: seq<Point>, cells: set<Point>) {
    RowMajor(points) && forall p :: p in points <==> p in cells
  }

  // ----- every stride-th row and column -----

  function StridedLength(n: nat, stride: nat): nat
    requires stride >= 1
  {
    (n + stride - 1) / stride
  }

  lemma StrideInside(k: nat, n: nat, stride: nat)
    requires stride >= 1 && k < StridedLength(n, stride)
    ensures k * stride < n
  {
    var m := StridedLength(n, stride);
    assert m * stride <= n + stride - 1;
    assert (k + 1) * stride <= m * stride;
    assert (k + 1) * stride == k * stride + stride;
  }

  function StridedRow(row: seq<bool>, stride: nat): seq<bool>
    requires stride >= 1
  {
    seq(StridedLength(|row|, stride), k requires 0 <= k < StridedLength(|row|, stride) =>
      StrideInside(k, |row|, stride); row[k * stride])
  }

  function Strided(valid: Mask, stride: nat): Mask
    requires stride >= 1
  {
    seq(StridedLength(|valid|, stride), k requires 0 <= k < StridedLength(|valid|, stride) =>
      StrideInside(k, |valid|, stride); StridedRow(valid[k * stride], stride))
  }

  function Scaled(points: seq<Point>, stride: nat): seq<Point> {
    seq(|points|, i requires 0 <= i < |points| => Point(points[i].y * stride, points[i].x * stride))
  }

  lemma ScaledOrder(p: Point, q: Point, stride: nat)
    requires stride >= 1 && Before(p, q)
    ensures Before(Point(p.y * stride, p.x * stride), Point(q.y * stride, q.x * stride))
  {
    if p.y < q.y {
      assert (q.y - p.y) * stride >= 1;
    } else {
      assert (q.x - p.x) * stride >= 1;
    }
  }

  /** The points found on the strided mask are true cells of the whole mask, in order. */
  lemma StridedCells(valid: Mask, stride: nat)
    requires stride >= 1
    ensures var r := Scaled(NonZero(Strided(valid, stride)), stride);
            RowMajor(r) && forall i :: 0 <= i < |r| ==> Marked(valid, r[i])
  {
    var sample := NonZero(Strided(valid, stride));
    var r := Scaled(sample, stride);
    forall i | 0 <= i < |r|
      ensures Marked(valid, r[i])
    {
      var p := sample[i];
      assert p in sample;
      StrideInside(p.y, |valid|, stride);
      StrideInside(p.x, |valid[p.y * stride]|, stride);
    }
    forall i, j | 0 <= i < j < |r|
      ensures Before(r[i], r[j])
    {
      ScaledOrder(sample[i], sample[j], stride);
    }
  }

  /** The true cells on the grid of every `stride`-th row and column. */
  function GridCells(valid: Mask, stride: nat): set<Point>
    requires stride >= 1
  {
    set p | p in Cells(valid) && p.y % stride == 0 && p.x % stride == 0
  }

  lemma StrideReaches(k: nat, n: nat, stride: nat)
    requires stride >= 1 && k * stride < n
    ensures k < StridedLength(n, stride)
  {
    QuotientAtLeast(n + stride - 1, stride, k + 1);
  }

  lemma OnGrid(k: nat, stride: nat)
    requires stride >= 1
    ensures (k * stride) % stride == 0 && k * stride / stride == k
  {
    Euclid(k * stride, stride, k);
  }

  lemma Euclid(a: nat, d: nat, q: nat)
    requires d >= 1 && a == q * d
    ensures a / d == q && a % d == 0
  {
    QuotientAtLeast(a, d, q);
    QuotientBound(a, d, q);
  }

  lemma Multiple(a: nat, d: nat)
    requires d >= 1 && a % d == 0
    ensures a / d * d == a
  {
  }

  lemma StridedMarked(valid: Mask, stride: nat, q: Point)
    requires stride >= 1 && Marked(valid, Point(q.y * stride, q.x * stride))
    ensures Marked(Strided(valid, stride), q)
  {
    StrideReaches(q.y, |valid|, stride);
    StrideReaches(q.x, |valid[q.y * stride]|, stride);
  }

  /** A true cell on the grid is found on the strided mask. */
  lemma GridCellFound(valid: Mask, stride: nat, p: Point)
    requires stride >= 1 && p in GridCells(valid, stride)
    ensures p in Scaled(NonZero(Strided(valid, stride)), stride)
  {
    var q := Point(p.y / stride, p.x / stride);
    Multiple(p.y, stride);
    Multiple(p.x, stride);
    StridedMarked(valid, stride, q);
    var sample := NonZero(Strided(valid, stride));
    var i :| 0 <= i < |sample| && sample[i] == q;
    assert Scaled(sample, stride)[i] == p;
  }

  lemma GridListed(valid: Mask, stride: nat)
    requires stride >= 1
    ensures Lists(Scaled(NonZero(Strided(valid, stride)), stride), GridCells(valid, stride))
    ensures |Scaled(NonZero(Strided(valid, stride)), stride)| == |GridCells(valid, stride)|
  {
    var sample := NonZero(Strided(valid, stride));
    var r := Scaled(sample, stride);
    StridedCells(valid, stride);
    forall p
      ensures p in r <==> p in GridCells(valid, stride)
    {
      if p in r {
        var i :| 0 <= i < |r| && r[i] == p;
        OnGrid(sample[i].y, stride);
        OnGrid(sample[i].x, stride);
        assert Marked(valid, r[i]);
      }
      if p in GridCells(valid, stride) {
        GridCellFound(valid, stride, p);
      }
    }
    RowMajorCounts(r, GridCells(valid, stride));
  }

  // ----- halving the stride -----

  /** The series of strides. */
  function Stride(first: nat, k: nat): nat {
    if k == 0 then first else Stride(first, k - 1) / 2
  }

  lemma {:induction false} StrideLater(first: nat, k: nat)
    ensures Stride(first, k + 1) == Stride(first / 2, k)
  {
    if k > 0 {
      StrideLater(first, k - 1);
    }
  }

  /** The `k`-th stride is the first whose grid has enough true cells, or it is 1. */
  ghost predicate EnoughAt(valid: Mask, first: nat, enough: nat, k: nat) {
    && Stride(first, k) >= 1
    && (Stride(first, k) == 1 || |GridCells(valid, Stride(first, k))| >= enough)
    && forall j :: 0 <= j < k ==> Stride(first, j) > 1 && |GridCells(valid, Stride(first, j))| < enough
  }

  lemma EnoughLater(valid: Mask, first: nat, enough: nat, k: nat)
    requires first > 1 && |GridCells(valid, first)| < enough && EnoughAt(valid, first / 2, enough, k)
    ensures Stride(first, k + 1) == Stride(first / 2, k) && EnoughAt(valid, first, enough, k + 1)
  {
    StrideLater(first, k);
    forall j | 0 <= j < k + 1
      ensures Stride(first, j) > 1 && |GridCells(valid, Stride(first, j))| < enough
    {
      if j > 0 {
        StrideLater(first, j - 1);
      }
    }
  }

  lemma {:induction false} SampledIsGrid(valid: Mask, first: nat, enough: nat) returns (k: nat)
    requires first >= 1
    ensures EnoughAt(valid, first, enough, k)
    ensures Lists(Sampled(valid, first, enough), GridCells(valid, Stride(first, k)))
    decreases first
  {
    if first == 1 {
      assert GridCells(valid, 1) == Cells(valid);
      return 0;
    }
    GridListed(valid, first);
    if |GridCells(valid, first)| >= enough {
      return 0;
    }
    k := SampledIsGrid(valid, first / 2, enough);
    EnoughLater(valid, first, enough, k);
    k := k + 1;
  }

  /** Halving the stride until the sample is large enough; the whole mask in the end. */
  function Sampled(valid: Mask, stride: nat, enough: nat): seq<Point>
    decreases stride
  {
    if stride <= 1 then NonZero(valid)
    else
      var sample := Scaled(NonZero(Strided(valid, stride)), stride);
      if |sample| >= enough then sample else Sampled(valid, stride / 2, enough)
  }

  lemma {:induction false} SampledCells(valid: Mask, stride: nat, enough: nat)
    requires enough <= |NonZero(valid)|
    ensures var r := Sampled(valid, stride, enough);
            RowMajor(r) && |r| >= enough && forall i :: 0 <= i < |r| ==> Marked(valid, r[i])
    decreases stride
  {
    if stride <= 1 {
      forall i | 0 <= i < |NonZero(valid)|
        ensures Marked(valid, NonZero(valid)[i])
      {
        assert NonZero(valid)[i] in NonZero(valid);
      }
    } else {
      StridedCells(valid, stride);
      SampledCells(valid, stride / 2, enough);
    }
  }

  /** The largest root whose square, `maxPoints` times, stays within `size`. */
  function RootBelow(size: nat, maxPoints: nat, k: nat): (r: nat)
    requires maxPoints >= 1
    ensures r * r * maxPoints <= size
    ensures r == k || size < (r + 1) * (r + 1) * maxPoints
    decreases k
  {
    if k * k * maxPoints <= size then k else RootBelow(size, maxPoints, k - 1)
  }

  function FirstStride(size: nat, maxPoints: nat): nat
    requires maxPoints >= 1
  {
    var root := RootBelow(size, maxPoints, size);
    if root >= 1 then root else 1
  }

  /** The square root of `size / maxPoints` rounded down, but at least 1. */
  predicate IsFirstStride(stride: nat, size: nat, maxPoints: nat) {
    && stride >= 1
    && (stride > 1 ==> stride * stride * maxPoints <= size)
    && size < (stride + 1) * (stride + 1) * maxPoints
  }

  lemma FirstStrideIsRoot(size: nat, maxPoints: nat)
    requires maxPoints >= 1
    ensures IsFirstStride(FirstStride(size, maxPoints), size, maxPoints)
  {
    var root := RootBelow(size, maxPoints, size);
    if root == size {
      SquareAbove(size, maxPoints);
    }
    if root == 0 {
      SquareAbove(0, maxPoints);
      SquareOfTwo(maxPoints);
    }
  }

  lemma SquareAbove(n: nat, k: nat)
    requires k >= 1
    ensures n < (n + 1) * (n + 1) * k
  {
    Times(1, n + 1, n + 1);
    Times(1, k, (n + 1) * (n + 1));
    assert k * ((n + 1) * (n + 1)) == (n + 1) * (n + 1) * k;
  }

  lemma SquareOfTwo(k: nat)
    ensures (0 + 1) * (0 + 1) * k == k && (1 + 1) * (1 + 1) * k == 4 * k
  {
  }

  // ----- thinning to an exact number -----

  /** The `i`-th of `m` places spread evenly over `n`, rounded down. */
  function Place(i: nat, n: nat, m: nat): nat
    requires i < m && n >= 1
  {
    if m == 1 then 0 else i * (n - 1) / (m - 1)
  }

  lemma PlacesIncrease(i: nat, j: nat, n: nat, m: nat)
    requires i < j < m <= n
    ensures Place(i, n, m) < Place(j, n, m) < n
  {
    ProductsDiffer(i, j, n - 1, m - 1);
    QuotientsDiffer(i * (n - 1), j * (n - 1), m - 1);
    QuotientBound(j * (n - 1), m - 1, n - 1);
  }

  lemma ProductsDiffer(i: nat, j: nat, k: nat, d: nat)
    requires i < j <= d <= k
    ensures j * k >= i * k + d && j * k <= d * k
  {
    Times(i + 1, j, k);
    Times(j, d, k);
  }

  lemma QuotientAtLeast(b: nat, d: nat, q: nat)
    requires d >= 1 && b >= q * d
    ensures b / d >= q
  {
    if b / d < q {
      Times(b / d + 1, q, d);
      assert false;
    }
  }

  lemma QuotientsDiffer(a: nat, b: nat, d: nat)
    requires d >= 1 && b >= a + d
    ensures a / d < b / d
  {
    assert (a / d + 1) * d == (a / d) * d + d;
    QuotientAtLeast(b, d, a / d + 1);
  }

  lemma QuotientBound(b: nat, d: nat, n: nat)
    requires d >= 1 && b <= d * n
    ensures b / d <= n
  {
    if b / d > n {
      Times(n + 1, b / d, d);
      assert false;
    }
  }

  function Thinned(points: seq<Point>, m: nat): seq<Point>
    requires 1 <= m <= |points|
  {
    seq(m, i requires 0 <= i < m => PlaceInside(i, |points|, m); points[Place(i, |points|, m)])
  }

  lemma PlaceInside(i: nat, n: nat, m: nat)
    requires i < m <= n
    ensures Place(i, n, m) < n
  {
    if i > 0 {
      PlacesIncrease(0, i, n, m);
    }
  }

  lemma ThinnedOrder(points: seq<Point>, m: nat)
    requires 1 <= m <= |points| && RowMajor(points)
    ensures RowMajor(Thinned(points, m))
  {
    forall i, j | 0 <= i < j < m
      ensures Before(Thinned(points, m)[i], Thinned(points, m)[j])
    {
      PlacesIncrease(i, j, |points|, m);
    }
  }

  /** Place `q` of `n` is the `i`-th of `m` places spread evenly, rounded down. */
  predicate Spread(i: nat, q: nat, n: nat, m: nat) {
    q < n && if m == 1 then q == 0 else q * (m - 1) <= i * (n - 1) < (q + 1) * (m - 1)
  }

  ghost predicate TakenAt(p: Point, i: nat, sample: seq<Point>, m: nat) {
    exists q :: 0 <= q < |sample| && p == sample[q] && Spread(i, q, |sample|, m)
  }

  ghost predicate EvenlySpread(points: seq<Point>, sample: seq<Point>, m: nat) {
    |points| == m && forall i :: 0 <= i < m ==> TakenAt(points[i], i, sample, m)
  }

  lemma QuotientBetween(a: nat, d: nat)
    requires d >= 1
    ensures a / d * d <= a < (a / d + 1) * d
  {
    assert (a / d + 1) * d == a / d * d + d;
  }

  lemma PlaceSpread(i: nat, n: nat, m: nat)
    requires i < m <= n
    ensures Spread(i, Place(i, n, m), n, m)
  {
    PlaceInside(i, n, m);
    if m > 1 {
      QuotientBetween(i * (n - 1), m - 1);
    }
  }

  lemma ThinnedSpread(sample: seq<Point>, m: nat)
    requires 1 <= m <= |sample|
    ensures EvenlySpread(Thinned(sample, m), sample, m)
  {
    forall i | 0 <= i < m
      ensures TakenAt(Thinned(sample, m)[i], i, sample, m)
    {
      PlaceSpread(i, |sample|, m);
      assert Thinned(sample, m)[i] == sample[Place(i, |sample|, m)];
    }
  }

  lemma Distribute(a: nat, b: nat, d: nat)
    ensures (a + b) * d == a * d + b * d
  {
  }

  lemma GapAtLeast(q: nat, r: nat, d: nat, a: nat, g: nat, step: nat)
    requires q * d <= a && a + step < (r + 1) * d && g * d <= step
    ensures g <= r - q
  {
    Distribute(q, g, d);
    if r + 1 <= q + g {
      Times(r + 1, q + g, d);
    }
  }

  lemma GapAtMost(q: nat, r: nat, d: nat, a: nat, g: nat, step: nat)
    requires a < (q + 1) * d && r * d <= a + step && step < (g + 1) * d
    ensures r - q <= g + 1
  {
    Distribute(q + 1, g + 1, d);
    if q + 1 + (g + 1) <= r {
      Times(q + 1 + (g + 1), r, d);
    }
  }

  /** Neighbouring places are `(n - 1) / (m - 1)` apart or one more. */
  lemma SpreadGaps(i: nat, q: nat, r: nat, n: nat, m: nat)
    requires 2 <= m <= n && i + 1 < m && Spread(i, q, n, m) && Spread(i + 1, r, n, m)
    ensures (n - 1) / (m - 1) <= r - q <= (n - 1) / (m - 1) + 1
  {
    var g := (n - 1) / (m - 1);
    QuotientBetween(n - 1, m - 1);
    GapBetween(i, q, r, n - 1, m - 1, g);
  }

  lemma GapBetween(i: nat, q: nat, r: nat, n: nat, d: nat, g: nat)
    requires q * d <= i * n < (q + 1) * d && r * d <= (i + 1) * n < (r + 1) * d
    requires g * d <= n < (g + 1) * d
    ensures g <= r - q <= g + 1
  {
    Distribute(i, 1, n);
    GapAtLeast(q, r, d, i * n, g, n);
    GapAtMost(q, r, d, i * n, g, n);
  }

  lemma EndPlaces(q: nat, r: nat, n: nat, m: nat)
    requires 2 <= m <= n && Spread(0, q, n, m) && Spread(m - 1, r, n, m)
    ensures q == 0 && r == n - 1
  {
    if q > 0 {
      Times(1, q, m - 1);
    }
    if r + 1 <= n - 1 {
      Times(r + 1, n - 1, m - 1);
    }
  }

  /** The first and the last of the sample are kept. */
  lemma SpreadEnds(points: seq<Point>, sample: seq<Point>, m: nat)
    requires 2 <= m <= |sample| && EvenlySpread(points, sample, m)
    ensures points[0] == sample[0] && points[m - 1] == sample[|sample| - 1]
  {
    var n := |sample|;
    assert TakenAt(points[0], 0, sample, m) && TakenAt(points[m - 1], m - 1, sample, m);
    var q :| 0 <= q < n && points[0] == sample[q] && Spread(0, q, n, m);
    var r :| 0 <= r < n && points[m - 1] == sample[r] && Spread(m - 1, r, n, m);
    EndPlaces(q, r, n, m);
  }

  // ----- the whole selection -----

  /** What the selection owes: so many valid cells, no cell twice, in row-major order. */
  ghost predicate Selection(points: seq<Point>, valid: Mask, maxPoints: nat) {
    && |points| == (if |Cells(valid)| <= maxPoints then |Cells(valid)| else maxPoints)
    && RowMajor(points)
    && forall i :: 0 <= i < |points| ==> Marked(valid, points[i])
  }

  /** The points chosen from the mask of valid cells. */
  function Chosen(valid: Mask, size: nat, maxPoints: nat): seq<Point>
    requires maxPoints >= 1
  {
    var all := NonZero(valid);
    if |all| <= maxPoints then all
    else
      var points := Sampled(valid, FirstStride(size, maxPoints), maxPoints);
      if |points| > maxPoints then Thinned(points, maxPoints) else points
  }

  lemma ChosenIsSelection(valid: Mask, size: nat, maxPoints: nat)
    requires maxPoints >= 1
    ensures Selection(Chosen(valid, size, maxPoints), valid, maxPoints)
  {
    var all := NonZero(valid);
    RowMajorCounts(all, Cells(valid));
    if |all| <= maxPoints {
      forall i | 0 <= i < |all|
        ensures Marked(valid, all[i])
      {
        assert all[i] in all;
      }
    } else {
      var stride := FirstStride(size, maxPoints);
      SampledCells(valid, stride, maxPoints);
      var points := Sampled(valid, stride, maxPoints);
      if |points| > maxPoints {
        ThinnedOrder(points, maxPoints);
        forall i | 0 <= i < maxPoints
          ensures Marked(valid, Thinned(points, maxPoints)[i])
        {
          PlaceInside(i, |points|, maxPoints);
        }
      }
    }
  }

  /** Which cells the selection takes: all of them if they fit; otherwise the cells of the first
      grid with enough of them, thinned evenly if they are too many. */
  ghost predicate Picked(points: seq<Point>, valid: Mask, size: nat, maxPoints: nat) {
    if |Cells(valid)| <= maxPoints then Lists(points, Cells(valid))
    else exists first, k, sample :: IsFirstStride(first, size, maxPoints) && PickedFrom(points, sample, valid, first, k, maxPoints)
  }

  ghost predicate PickedFrom(points: seq<Point>, sample: seq<Point>, valid: Mask, first: nat, k: nat, maxPoints: nat) {
    && EnoughAt(valid, first, maxPoints, k) && Lists(sample, GridCells(valid, Stride(first, k)))
    && if |sample| > maxPoints then EvenlySpread(points, sample, maxPoints) else points == sample
  }

  lemma ChosenIsPicked(valid: Mask, size: nat, maxPoints: nat)
    requires maxPoints >= 1
    ensures Picked(Chosen(valid, size, maxPoints), valid, size, maxPoints)
  {
    RowMajorCounts(NonZero(valid), Cells(valid));
    if |Cells(valid)| > maxPoints {
      var first := FirstStride(size, maxPoints);
      var sample := Sampled(valid, first, maxPoints);
      FirstStrideIsRoot(size, maxPoints);
      var k := SampledIsGrid(valid, first, maxPoints);
      if |sample| > maxPoints {
        ThinnedSpread(sample, maxPoints);
      }
      assert PickedFrom(Chosen(valid, size, maxPoints), sample, valid, first, k, maxPoints);
    }
  }

  lemma MarkedIffUsable(data: seq<seq<real>>, mask: Mask, low: real, high: real, height: nat, width: nat)
    requires Shaped(data, height, width) && Shaped(mask, height, width)
    ensures forall p :: p in Cells(ValidMask(data, mask, low, high, height, width)) <==> Usable(p, data, mask, low, high)
  {
  }

  lemma MarkedIsValid(data: seq<seq<real>>, mask: Mask, low: real, high: real, height: nat, width: nat,
                      points: seq<Point>)
    requires Shaped(data, height, width) && Shaped(mask, height, width)
    requires forall i :: 0 <= i < |points| ==> Marked(ValidMask(data, mask, low, high, height, width), points[i])
    ensures forall i :: 0 <= i < |points| ==>
      var p := points[i];
      p.y < height && p.x < width && mask[p.y][p.x] && low < data[p.y][p.x] < high
  {
  }

  method SelectPlaneFitPoints(data: seq<seq<real>>, mask: Mask, low: real, high: real, maxPoints: nat,
                              height: nat, width: nat)
      returns (points: seq<Point>, values: seq<real>, filteredCount: nat)
    requires Shaped(data, height, width) && Shaped(mask, height, width) && maxPoints >= 1
    ensures var valid := ValidMask(data, mask, low, high, height, width);
            && filteredCount == |Cells(valid)|
            && Selection(points, valid, maxPoints) && Picked(points, valid, height * width, maxPoints)
            && points == Chosen(valid, height * width, maxPoints)
    ensures |values| == |points|
    ensures forall i :: 0 <= i < |points| ==>
      var p := points[i];
      p.y < height && p.x < width && mask[p.y][p.x] && low < data[p.y][p.x] < high && values[i] == data[p.y][p.x]
  {
    var valid := ValidMask(data, mask, low, high, height, width);
    var all := NonZero(valid);
    RowMajorCounts(all, Cells(valid));
    ChosenIsSelection(valid, height * width, maxPoints);
    ChosenIsPicked(valid, height * width, maxPoints);
    filteredCount := |all|;
    if filteredCount == 0 {
      return [], [], 0;
    }
    if filteredCount <= maxPoints {
      points := all;
    } else {
      points := SampleHalving(valid, FirstStride(height * width, maxPoints), maxPoints);
      if |points| > maxPoints {
        points := Thinned(points, maxPoints);
      }
    }
    MarkedIsValid(data, mask, low, high, height, width, points);
    values := seq(|points|, i requires 0 <= i < |points| => data[points[i].y][points[i].x]);
  }

  /** The loop that halves the stride. */
  method SampleHalving(valid: Mask, firstStride: nat, enough: nat) returns (points: seq<Point>)
    ensures points == Sampled(valid, firstStride, enough)
  {
    var stride := firstStride;
    while stride > 1
      invariant Sampled(valid, stride, enough) == Sampled(valid, firstStride, enough)
    {
      var sample := NonZero(Strided(valid, stride));
      if |sample| >= enough {
        return Scaled(sample, stride);
      }
      stride := stride / 2;
    }
    return NonZero(valid);
  }
}
