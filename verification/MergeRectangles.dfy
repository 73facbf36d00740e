/** Merging overlapping detections (`merge_rectangles` in app/Base/alg/detection.py). */
module MergeRectangles {

  /** A detection: its box, its class label and its score. */
  datatype Rect = Rect(x1: int, y1: int, x2: int, y2: int, label_: int, score: real)

  function Min(a: int, b: int): int {
    if a <= b then a else b
  }

  function Max(a: int, b: int): int {
    if a >= b then a else b
  }

  /** Boxes that share a border count as overlapping. */
  predicate Overlap(a: Rect, b: Rect) {
    !(a.x2 < b.x1 || b.x2 < a.x1 || a.y2 < b.y1 || b.y2 < a.y1)
  }

  function Merge(a: Rect, b: Rect): Rect {
    Rect(Min(a.x1, b.x1), Min(a.y1, b.y1), Max(a.x2, b.x2), Max(a.y2, b.y2), a.label_,
         if a.score >= b.score then a.score else b.score)
  }

  predicate Contains(r: Rect, x: int, y: int) {
    r.x1 <= x <= r.x2 && r.y1 <= y <= r.y2
  }

  /** Two boxes overlap exactly when a point lies in both, borders included. */
  lemma OverlapIffPointShared(a: Rect, b: Rect)
    requires a.x1 <= a.x2 && a.y1 <= a.y2 && b.x1 <= b.x2 && b.y1 <= b.y2
    ensures Overlap(a, b) <==> exists x, y :: Contains(a, x, y) && Contains(b, x, y)
  {
    if Overlap(a, b) {
      assert Contains(a, Max(a.x1, b.x1), Max(a.y1, b.y1)) && Contains(b, Max(a.x1, b.x1), Max(a.y1, b.y1));
    }
  }

  /** The box of `a` lies in that of `b`. */
  predicate Inside(a: Rect, b: Rect) {
    b.x1 <= a.x1 && a.x2 <= b.x2 && b.y1 <= a.y1 && a.y2 <= b.y2
  }

  /** Merging gives the least box around both, the greater score, and the label of the first
      argument: the new rectangle's when it is taken in, the later slot's in the pass. */
  lemma MergeIsJoin(a: Rect, b: Rect, c: Rect)
    ensures Inside(a, Merge(a, b)) && Inside(b, Merge(a, b))
    ensures Inside(a, c) && Inside(b, c) ==> Inside(Merge(a, b), c)
    ensures Merge(a, b).label_ == a.label_
    ensures Merge(a, b).score >= a.score && Merge(a, b).score >= b.score
    ensures Merge(a, b).score == a.score || Merge(a, b).score == b.score
  {
  }

  /** Whose label a slot bears: a rectangle taken into a slot gives it its own label and
      leaves the others alone; a fold gives the earlier slot the label of the later one. */
  lemma LabelsOf(slots: seq<Rect>, r: Rect, i: nat, j: nat)
    requires j < i < |slots|
    ensures var k, after := FirstOverlap(r, slots, |slots|), Absorb(slots, r);
            && after[k].label_ == r.label_
            && forall m :: 0 <= m < |slots| && m != k ==> after[m] == slots[m]
    ensures Fold(slots, i, j)[j].label_ == slots[i].label_
    ensures forall m :: 0 <= m < |slots| - 1 && m != j ==> Fold(slots, i, j)[m] == slots[if m < i then m else m + 1]
  {
  }

  /** The first slot before `end` that overlaps `r`, or `end`. */
  function FirstOverlap(r: Rect, slots: seq<Rect>, end: nat): (k: nat)
    requires end <= |slots|
    ensures k <= end && (k < end ==> Overlap(r, slots[k]))
    ensures forall j :: 0 <= j < k ==> !Overlap(r, slots[j])
  {
    if end == 0 then 0
    else
      var k := FirstOverlap(r, slots, end - 1);
      if k < end - 1 || Overlap(r, slots[end - 1]) then k else end
  }

  /** Put a new rectangle in: merged into the first slot it overlaps, or at the end. */
  function Absorb(slots: seq<Rect>, r: Rect): seq<Rect> {
    var k := FirstOverlap(r, slots, |slots|);
    if k < |slots| then slots[k := Merge(r, slots[k])] else slots + [r]
  }

  /** Merge slot `i` into the slot `j` before it. */
  function Fold(slots: seq<Rect>, i: nat, j: nat): (r: seq<Rect>)
    requires j < i < |slots|
    ensures |r| == |slots| - 1
  {
    var s := slots[j := Merge(slots[i], slots[j])];
    s[..i] + s[i + 1..]
  }

  /** The one descending pass, with `n` slots still to look at. */
  function Sweep(slots: seq<Rect>, n: nat): seq<Rect>
    requires n <= |slots|
    decreases n
  {
    if n == 0 then slots
    else
      var j := FirstOverlap(slots[n - 1], slots, n - 1);
      if j < n - 1 then Sweep(Fold(slots, n - 1, j), n - 1) else Sweep(slots, n - 1)
  }

  function Insert(slots: seq<Rect>, r: Rect): seq<Rect> {
    var s := Absorb(slots, r);
    Sweep(s, |s|)
  }

  /** What taking in the first `n` rectangles one after another leads to. */
  function TakenIn(insert: (seq<Rect>, Rect) -> seq<Rect>, rects: seq<Rect>, n: nat): seq<Rect>
    requires n <= |rects|
  {
    if n == 0 then [] else insert(TakenIn(insert, rects, n - 1), rects[n - 1])
  }

  function MergeFirst(rects: seq<Rect>, n: nat): seq<Rect>
    requires n <= |rects|
  {
    TakenIn(Insert, rects, n)
  }

  function MergeAll(rects: seq<Rect>): seq<Rect> {
    MergeFirst(rects, |rects|)
  }

  lemma {:induction false} TakenInSame(insert: (seq<Rect>, Rect) -> seq<Rect>, a: seq<Rect>, b: seq<Rect>, n: nat)
    requires n <= |a| && n <= |b| && forall i :: 0 <= i < n ==> a[i] == b[i]
    ensures TakenIn(insert, a, n) == TakenIn(insert, b, n)
  {
    if n > 0 {
      TakenInSame(insert, a, b, n - 1);
    }
  }

  lemma {:induction false} TakenInShrinks(insert: (seq<Rect>, Rect) -> seq<Rect>, rects: seq<Rect>, n: nat)
    requires n <= |rects| && forall s, r :: |insert(s, r)| <= |s| + 1
    ensures |TakenIn(insert, rects, n)| <= n
  {
    if n > 0 {
      TakenInShrinks(insert, rects, n - 1);
    }
  }

  lemma LastMerged(init: seq<Rect>, r: Rect)
    ensures MergeAll(init + [r]) == Insert(MergeAll(init), r)
  {
    TakenInSame(Insert, init + [r], init, |init|);
  }

  // ----- what a slot stands for -----

  ghost predicate LeastOf(v: int, values: seq<int>, block: set<nat>) {
    && (forall i :: i in block ==> i < |values| && v <= values[i])
    && (exists i :: i in block && i < |values| && v == values[i])
  }

  ghost predicate GreatestOf(v: int, values: seq<int>, block: set<nat>) {
    && (forall i :: i in block ==> i < |values| && v >= values[i])
    && (exists i :: i in block && i < |values| && v == values[i])
  }

  ghost predicate BestOf(v: real, values: seq<real>, block: set<nat>) {
    && (forall i :: i in block ==> i < |values| && v >= values[i])
    && (exists i :: i in block && i < |values| && v == values[i])
  }

  ghost predicate OneOf(v: int, values: seq<int>, block: set<nat>) {
    exists i :: i in block && i < |values| && v == values[i]
  }

  function Column<T>(rects: seq<Rect>, f: Rect -> T): seq<T> {
    seq(|rects|, i requires 0 <= i < |rects| => f(rects[i]))
  }

  const X1: Rect -> int := (r: Rect) => r.x1
  const Y1: Rect -> int := (r: Rect) => r.y1
  const X2: Rect -> int := (r: Rect) => r.x2
  const Y2: Rect -> int := (r: Rect) => r.y2
  const LABEL: Rect -> int := (r: Rect) => r.label_
  const SCORE: Rect -> real := (r: Rect) => r.score

  /** `r` is the bounding box of the chosen rectangles, with their best score and one of
      their labels. */
  ghost predicate Summary(r: Rect, rects: seq<Rect>, block: set<nat>) {
    && LeastOf(r.x1, Column(rects, X1), block)
    && LeastOf(r.y1, Column(rects, Y1), block)
    && GreatestOf(r.x2, Column(rects, X2), block)
    && GreatestOf(r.y2, Column(rects, Y2), block)
    && BestOf(r.score, Column(rects, SCORE), block)
    && OneOf(r.label_, Column(rects, LABEL), block)
  }

  lemma LeastUnion(v: int, w: int, values: seq<int>, p: set<nat>, q: set<nat>)
    requires LeastOf(v, values, p) && LeastOf(w, values, q)
    ensures LeastOf(Min(v, w), values, p + q)
  {
    var i :| i in p && i < |values| && v == values[i];
    var j :| j in q && j < |values| && w == values[j];
    assert i in p + q && j in p + q;
  }

  lemma GreatestUnion(v: int, w: int, values: seq<int>, p: set<nat>, q: set<nat>)
    requires GreatestOf(v, values, p) && GreatestOf(w, values, q)
    ensures GreatestOf(Max(v, w), values, p + q)
  {
    var i :| i in p && i < |values| && v == values[i];
    var j :| j in q && j < |values| && w == values[j];
    assert i in p + q && j in p + q;
  }

  lemma BestUnion(v: real, w: real, values: seq<real>, p: set<nat>, q: set<nat>)
    requires BestOf(v, values, p) && BestOf(w, values, q)
    ensures BestOf(if v >= w then v else w, values, p + q)
  {
    var i :| i in p && i < |values| && v == values[i];
    var j :| j in q && j < |values| && w == values[j];
    assert i in p + q && j in p + q;
  }

  lemma OneUnion(v: int, values: seq<int>, p: set<nat>, q: set<nat>)
    requires OneOf(v, values, p)
    ensures OneOf(v, values, p + q)
  {
    var i :| i in p && i < |values| && v == values[i];
    assert i in p + q;
  }

  lemma MergeSummary(a: Rect, b: Rect, rects: seq<Rect>, p: set<nat>, q: set<nat>)
    requires Summary(a, rects, p) && Summary(b, rects, q)
    ensures Summary(Merge(a, b), rects, p + q)
  {
    LeastUnion(a.x1, b.x1, Column(rects, X1), p, q);
    LeastUnion(a.y1, b.y1, Column(rects, Y1), p, q);
    GreatestUnion(a.x2, b.x2, Column(rects, X2), p, q);
    GreatestUnion(a.y2, b.y2, Column(rects, Y2), p, q);
    BestUnion(a.score, b.score, Column(rects, SCORE), p, q);
    OneUnion(a.label_, Column(rects, LABEL), p, q);
  }

  lemma SummaryOfOne(rects: seq<Rect>, i: nat)
    requires i < |rects|
    ensures Summary(rects[i], rects, {i})
  {
    assert i in {i};
  }

  // ----- slots against blocks, for anything that merging respects -----

  /** A slot stands for a block of input positions. */
  type Stands = (Rect, set<nat>) -> bool

  ghost predicate Respects(stands: Stands) {
    forall a, b, p, q :: stands(a, p) && stands(b, q) && Overlap(a, b) ==> stands(Merge(a, b), p + q)
  }

  ghost predicate Within(blocks: seq<set<nat>>, n: nat) {
    forall k, i :: 0 <= k < |blocks| && i in blocks[k] ==> i < n
  }

  ghost predicate Disjoint(blocks: seq<set<nat>>) {
    forall k, l :: 0 <= k < l < |blocks| ==> blocks[k] !! blocks[l]
  }

  ghost predicate InSome(blocks: seq<set<nat>>, i: nat) {
    exists k :: 0 <= k < |blocks| && i in blocks[k]
  }

  /** The blocks partition the first `n` positions, and each slot stands for its block. */
  ghost predicate Partitioned(slots: seq<Rect>, n: nat, blocks: seq<set<nat>>, stands: Stands) {
    && |slots| == |blocks|
    && (forall k :: 0 <= k < |slots| ==> stands(slots[k], blocks[k]))
    && Within(blocks, n) && Disjoint(blocks)
    && (forall i: nat :: i < n ==> InSome(blocks, i))
  }

  /** Taking in a further rectangle. */
  lemma AbsorbPartitioned(slots: seq<Rect>, n: nat, blocks: seq<set<nat>>, r: Rect, stands: Stands)
      returns (after: seq<set<nat>>)
    requires Respects(stands) && Partitioned(slots, n, blocks, stands) && stands(r, {n})
    ensures Partitioned(Absorb(slots, r), n + 1, after, stands)
  {
    var k := FirstOverlap(r, slots, |slots|);
    if k < |slots| {
      after := blocks[k := {n} + blocks[k]];
      assert stands(slots[k], blocks[k]);
      forall i: nat | i < n + 1
        ensures InSome(after, i)
      {
        if i == n {
          assert i in after[k];
        } else {
          assert InSome(blocks, i);
          var l :| 0 <= l < |blocks| && i in blocks[l];
          assert i in after[l];
        }
      }
    } else {
      after := blocks + [{n}];
      forall i: nat | i < n + 1
        ensures InSome(after, i)
      {
        if i == n {
          assert i in after[|blocks|];
        } else {
          assert InSome(blocks, i);
          var l :| 0 <= l < |blocks| && i in blocks[l];
          assert i in after[l];
        }
      }
    }
  }

  function FoldBlocks(blocks: seq<set<nat>>, i: nat, j: nat): (r: seq<set<nat>>)
    requires j < i < |blocks|
    ensures |r| == |blocks| - 1
  {
    var s := blocks[j := blocks[i] + blocks[j]];
    s[..i] + s[i + 1..]
  }

  lemma FoldCovers(blocks: seq<set<nat>>, i: nat, j: nat, x: nat)
    requires j < i < |blocks| && InSome(blocks, x)
    ensures InSome(FoldBlocks(blocks, i, j), x)
  {
    var l :| 0 <= l < |blocks| && x in blocks[l];
    var r := FoldBlocks(blocks, i, j);
    var m := if l == i then j else if l < i then l else l - 1;
    assert x in r[m];
  }

  lemma FoldApart(blocks: seq<set<nat>>, i: nat, j: nat, n: nat)
    requires j < i < |blocks| && Disjoint(blocks) && Within(blocks, n)
    ensures Disjoint(FoldBlocks(blocks, i, j)) && Within(FoldBlocks(blocks, i, j), n)
  {
    var r := FoldBlocks(blocks, i, j);
    assert forall k :: 0 <= k < |r| ==> r[k] == if k == j then blocks[i] + blocks[j] else if k < i then blocks[k] else blocks[k + 1];
  }

  /** Merging two slots unites their blocks. */
  lemma FoldPartitioned(slots: seq<Rect>, n: nat, blocks: seq<set<nat>>, i: nat, j: nat, stands: Stands)
    requires Respects(stands) && Partitioned(slots, n, blocks, stands)
    requires j < i < |slots| && Overlap(slots[i], slots[j])
    ensures Partitioned(Fold(slots, i, j), n, FoldBlocks(blocks, i, j), stands)
  {
    var s, b := Fold(slots, i, j), FoldBlocks(blocks, i, j);
    assert stands(slots[i], blocks[i]) && stands(slots[j], blocks[j]);
    forall k | 0 <= k < |s|
      ensures stands(s[k], b[k])
    {
      if k >= i {
        assert s[k] == slots[k + 1] && b[k] == blocks[k + 1];
      }
    }
    FoldApart(blocks, i, j, n);
    forall x: nat | x < n
      ensures InSome(b, x)
    {
      FoldCovers(blocks, i, j, x);
    }
  }

  lemma {:induction false} SweepPartitioned(slots: seq<Rect>, n: nat, blocks: seq<set<nat>>, left: nat, stands: Stands)
      returns (after: seq<set<nat>>)
    requires Respects(stands) && Partitioned(slots, n, blocks, stands) && left <= |slots|
    ensures Partitioned(Sweep(slots, left), n, after, stands)
    decreases left
  {
    if left == 0 {
      return blocks;
    }
    var j := FirstOverlap(slots[left - 1], slots, left - 1);
    if j < left - 1 {
      FoldPartitioned(slots, n, blocks, left - 1, j, stands);
      after := SweepPartitioned(Fold(slots, left - 1, j), n, FoldBlocks(blocks, left - 1, j), left - 1, stands);
    } else {
      after := SweepPartitioned(slots, n, blocks, left - 1, stands);
    }
  }

  lemma {:induction false} MergedPartitions(rects: seq<Rect>, n: nat, stands: Stands) returns (blocks: seq<set<nat>>)
    requires n <= |rects| && Respects(stands)
    requires forall i: nat :: i < n ==> stands(rects[i], {i})
    ensures Partitioned(MergeFirst(rects, n), n, blocks, stands)
  {
    if n == 0 {
      return [];
    }
    blocks := MergedPartitions(rects, n - 1, stands);
    assert stands(rects[n - 1], {n - 1});
    var slots := MergeFirst(rects, n - 1);
    blocks := AbsorbPartitioned(slots, n - 1, blocks, rects[n - 1], stands);
    var s := Absorb(slots, rects[n - 1]);
    blocks := SweepPartitioned(s, n, blocks, |s|, stands);
  }

  /** The result stands one-to-one for the blocks of a partition of the inputs; each
      rectangle is exactly the bounding box of its block, with the block's best score and
      the label of one of its members. */
  ghost predicate Summarised(slots: seq<Rect>, rects: seq<Rect>, blocks: seq<set<nat>>) {
    Partitioned(slots, |rects|, blocks, (r, block) => Summary(r, rects, block))
  }

  lemma MergedSummarisesPartition(rects: seq<Rect>)
    ensures exists blocks :: Summarised(MergeAll(rects), rects, blocks)
  {
    var stands: Stands := (r, block) => Summary(r, rects, block);
    forall a, b, p, q | stands(a, p) && stands(b, q) && Overlap(a, b)
      ensures stands(Merge(a, b), p + q)
    {
      MergeSummary(a, b, rects, p, q);
    }
    forall i: nat | i < |rects|
      ensures stands(rects[i], {i})
    {
      SummaryOfOne(rects, i);
    }
    var blocks := MergedPartitions(rects, |rects|, stands);
    assert Partitioned(MergeAll(rects), |rects|, blocks, stands);
    assert Summarised(MergeAll(rects), rects, blocks);
  }

  // ----- when nothing is merged -----

  ghost predicate Apart(rects: seq<Rect>) {
    forall i, j :: 0 <= i < j < |rects| ==> !Overlap(rects[i], rects[j])
  }

  lemma {:induction false} SweepLength(slots: seq<Rect>, n: nat)
    requires n <= |slots|
    ensures |Sweep(slots, n)| <= |slots|
    decreases n
  {
    if n > 0 {
      var j := FirstOverlap(slots[n - 1], slots, n - 1);
      SweepLength(if j < n - 1 then Fold(slots, n - 1, j) else slots, n - 1);
    }
  }

  /** Slots that are apart have no earlier slot to merge into. */
  lemma ApartFirst(slots: seq<Rect>, i: nat)
    requires Apart(slots) && i < |slots|
    ensures FirstOverlap(slots[i], slots, i) == i
  {
    forall k | 0 <= k < i
      ensures !Overlap(slots[i], slots[k])
    {
      assert !Overlap(slots[k], slots[i]);
    }
  }

  lemma {:induction false} ApartSwept(slots: seq<Rect>, n: nat)
    requires Apart(slots) && n <= |slots|
    ensures Sweep(slots, n) == slots
  {
    if n > 0 {
      ApartFirst(slots, n - 1);
      ApartSwept(slots, n - 1);
    }
  }

  lemma SweepShrinks(slots: seq<Rect>, n: nat)
    requires n <= |slots|
    ensures |Sweep(slots, n)| <= |slots|
    ensures Apart(slots) ==> Sweep(slots, n) == slots
  {
    SweepLength(slots, n);
    if Apart(slots) {
      ApartSwept(slots, n);
    }
  }

  lemma InsertShrinks(slots: seq<Rect>, r: Rect)
    ensures |Insert(slots, r)| <= |slots| + 1
  {
    var s := Absorb(slots, r);
    SweepShrinks(s, |s|);
  }

  lemma MergeShrinks(rects: seq<Rect>)
    ensures |MergeAll(rects)| <= |rects|
  {
    forall s, r
      ensures |Insert(s, r)| <= |s| + 1
    {
      InsertShrinks(s, r);
    }
    TakenInShrinks(Insert, rects, |rects|);
  }

  lemma {:induction false} ApartUnchanged(rects: seq<Rect>)
    requires Apart(rects)
    ensures MergeAll(rects) == rects
  {
    if rects != [] {
      var init, r := rects[..|rects| - 1], rects[|rects| - 1];
      assert rects == init + [r];
      LastMerged(init, r);
      ApartUnchanged(init);
      forall k | 0 <= k < |init|
        ensures !Overlap(r, init[k])
      {
        assert !Overlap(rects[k], rects[|init|]);
      }
      SweepShrinks(rects, |rects|);
    }
  }

  /** If the last rectangle adds a slot to slots that are apart, it overlaps none. */
  lemma InsertAdds(slots: seq<Rect>, r: Rect)
    requires |Insert(slots, r)| == |slots| + 1
    ensures forall k :: 0 <= k < |slots| ==> !Overlap(r, slots[k])
  {
    var s := Absorb(slots, r);
    SweepShrinks(s, |s|);
  }

  lemma {:induction false} SameCountApart(rects: seq<Rect>)
    requires |MergeAll(rects)| == |rects|
    ensures Apart(rects)
  {
    if rects != [] {
      var init, r := rects[..|rects| - 1], rects[|rects| - 1];
      assert rects == init + [r];
      LastMerged(init, r);
      MergeShrinks(init);
      InsertShrinks(MergeAll(init), r);
      InsertAdds(MergeAll(init), r);
      SameCountApart(init);
      ApartUnchanged(init);
      ApartMore(init, r);
    }
  }

  lemma ApartMore(init: seq<Rect>, r: Rect)
    requires Apart(init) && forall k :: 0 <= k < |init| ==> !Overlap(r, init[k])
    ensures Apart(init + [r])
  {
  }

  /** Rectangles are merged if and only if two of them overlap; otherwise the list comes
      back unchanged and in order. */
  lemma UnchangedIffApart(rects: seq<Rect>)
    ensures |MergeAll(rects)| == |rects| <==> Apart(rects)
    ensures Apart(rects) ==> MergeAll(rects) == rects
  {
    if |MergeAll(rects)| == |rects| {
      SameCountApart(rects);
    }
    if Apart(rects) {
      ApartUnchanged(rects);
    }
  }

  /** A second merge changes nothing if and only if the first left no overlap. */
  lemma StableIffApart(rects: seq<Rect>)
    ensures MergeAll(MergeAll(rects)) == MergeAll(rects) <==> Apart(MergeAll(rects))
  {
    UnchangedIffApart(MergeAll(rects));
  }

  const LEFT := Rect(0, 2, 3, 2, 0, 1.0)
  const LOW := Rect(2, 5, 5, 6, 0, 1.0)
  const RIGHT := Rect(5, 2, 7, 3, 0, 1.0)
  const BRIDGE := Rect(3, 2, 4, 5, 0, 1.0)
  const GROWN := Rect(0, 2, 5, 6, 0, 1.0)

  lemma BridgeIsAbsorbed()
    ensures Absorb([LEFT, LOW, RIGHT], BRIDGE) == [Rect(0, 2, 4, 5, 0, 1.0), LOW, RIGHT]
  {
    var three := [LEFT, LOW, RIGHT];
    assert Overlap(BRIDGE, three[0]);
    assert FirstOverlap(BRIDGE, three, 3) == 0;
  }

  lemma BridgeIsSwept()
    ensures Sweep([Rect(0, 2, 4, 5, 0, 1.0), LOW, RIGHT], 3) == [GROWN, RIGHT]
  {
    var slots := [Rect(0, 2, 4, 5, 0, 1.0), LOW, RIGHT];
    assert !Overlap(slots[2], slots[0]) && !Overlap(slots[2], slots[1]);
    assert FirstOverlap(slots[2], slots, 2) == 2;
    assert Overlap(slots[1], slots[0]);
    assert FirstOverlap(slots[1], slots, 1) == 0;
    var folded := Fold(slots, 1, 0);
    assert folded == [GROWN, RIGHT];
    assert FirstOverlap(folded[0], folded, 0) == 0;
    assert Sweep(folded, 0) == folded && Sweep(folded, 1) == folded;
    assert Sweep(slots, 2) == folded;
  }

  lemma ThreeApart()
    ensures Apart([LEFT, LOW, RIGHT])
  {
  }

  /** The result itself may still overlap: the last rectangle bridges the first two slots,
      and the box that grows from that reaches the third, which was already looked at. */
  lemma ResultMayOverlap()
    ensures exists rects :: !Apart(MergeAll(rects))
  {
    ThreeApart();
    ApartUnchanged([LEFT, LOW, RIGHT]);
    BridgeIsAbsorbed();
    BridgeIsSwept();
    LastMerged([LEFT, LOW, RIGHT], BRIDGE);
    assert !Apart([GROWN, RIGHT]) by {
      assert Overlap([GROWN, RIGHT][0], [GROWN, RIGHT][1]);
    }
  }

  // ----- the list algorithm -----

  /** A mutable list, as the caller passes it in. */
  class RectList {
    var items: seq<Rect>

    constructor (items: seq<Rect>)
      ensures this.items == items
    {
      this.items := items;
    }
  }

  /** Takes the rectangles out of the caller's list one by one. */
  method MergeRects(rectangles: RectList) returns (merged: seq<Rect>)
    modifies rectangles
    ensures rectangles.items == []
    ensures merged == MergeAll(old(rectangles.items))
    ensures exists blocks :: Summarised(merged, old(rectangles.items), blocks)
  {
    ghost var all := rectangles.items;
    merged := [];
    ghost var taken := 0;
    while rectangles.items != []
      invariant taken <= |all| && rectangles.items == all[taken..]
      invariant merged == MergeFirst(all, taken)
      decreases |all| - taken
    {
      var rect := PopFirst(rectangles, all, taken);
      NextMerged(all, taken);
      merged := InsertOne(merged, rect);
      taken := taken + 1;
    }
    MergedSummarisesPartition(all);
  }

  lemma NextMerged(rects: seq<Rect>, n: nat)
    requires n < |rects|
    ensures MergeFirst(rects, n + 1) == Insert(MergeFirst(rects, n), rects[n])
  {
  }

  method PopFirst(rectangles: RectList, ghost all: seq<Rect>, ghost taken: nat) returns (rect: Rect)
    requires taken < |all| && rectangles.items == all[taken..]
    modifies rectangles
    ensures rect == all[taken] && rectangles.items == all[taken + 1..]
  {
    rect := rectangles.items[0];
    rectangles.items := rectangles.items[1..];
  }

  method InsertOne(slots: seq<Rect>, rect: Rect) returns (r: seq<Rect>)
    ensures r == Insert(slots, rect)
  {
    r := TakeIn(slots, rect);
    r := MergeDown(r);
  }

  /** `r` is the slots with the rectangle merged into the first that it overlaps, at `k`. */
  ghost predicate MergedAt(slots: seq<Rect>, rect: Rect, k: nat, r: seq<Rect>)
    requires k < |slots|
  {
    && Overlap(rect, slots[k]) && (forall j :: 0 <= j < k ==> !Overlap(rect, slots[j]))
    && r == slots[k := Merge(rect, slots[k])]
  }

  method TakeIn(slots: seq<Rect>, rect: Rect) returns (r: seq<Rect>)
    ensures r == Absorb(slots, rect)
    ensures |r| == |slots| ==> exists k :: 0 <= k < |slots| && MergedAt(slots, rect, k, r)
    ensures |r| > |slots| ==> r == slots + [rect] && forall k :: 0 <= k < |slots| ==> !Overlap(rect, slots[k])
  {
    for i := 0 to |slots|
      invariant forall j :: 0 <= j < i ==> !Overlap(rect, slots[j])
    {
      if Overlap(rect, slots[i]) {
        r := slots[i := Merge(rect, slots[i])];
        assert MergedAt(slots, rect, i, r);
        return;
      }
    }
    return slots + [rect];
  }

  method MergeDown(slots: seq<Rect>) returns (r: seq<Rect>)
    ensures r == Sweep(slots, |slots|)
  {
    r := slots;
    for i := |slots| downto 0
      invariant i <= |r| && Sweep(r, i) == Sweep(slots, |slots|)
    {
      ghost var before := r;
      var j := 0;
      while j < i
        invariant j <= i && r == before && forall k :: 0 <= k < j ==> !Overlap(r[i], r[k])
      {
        if Overlap(r[i], r[j]) {
          r := r[j := Merge(r[i], r[j])];
          r := r[..i] + r[i + 1..];
          break;
        }
        j := j + 1;
      }
    }
  }
}
