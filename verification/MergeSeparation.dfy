/** When merging leaves no overlap: exactly for one insertion, and on the input for a whole
    list. */
module MergeSeparation {
  import opened MergeRectangles

  // ----- one insertion, exactly -----

  /** What the pass does to slots that are apart, seen from the one slot that grows: it stands
      at `g` with this box, and `n` slots are still to look at. The box the pass ends with,
      and the slots it takes in. */
  function Pass(slots: seq<Rect>, g: nat, box: Rect, n: nat): (r: (Rect, set<nat>))
    requires g < |slots| && n <= |slots|
    ensures forall i :: i in r.1 ==> i < n
    decreases n
  {
    if n == 0 then (box, {})
    else
      var i := n - 1;
      if i == g then
        var j := FirstOverlap(box, slots, g);
        if j < g then
          var (b, taken) := Pass(slots, j, Merge(box, slots[j]), i);
          (b, taken + {j})
        else Pass(slots, g, box, i)
      else if i > g && Overlap(slots[i], box) then
        var (b, taken) := Pass(slots, g, Merge(slots[i], box), i);
        (b, taken + {i})
      else Pass(slots, g, box, i)
  }

  /** All pairs of slots other than those with the slot at `g` are apart. */
  ghost predicate ApartBut(slots: seq<Rect>, g: nat) {
    forall i, j :: 0 <= i < j < |slots| && i != g && j != g ==> !Overlap(slots[i], slots[j])
  }

  /** The list in the middle of the pass, against the slots the pass began with. */
  ghost predicate MidPass(slots: seq<Rect>, cur: seq<Rect>, g: nat, box: Rect, n: nat) {
    && g < |slots| && n <= |cur| <= |slots| && g < |cur| && cur[g] == box
    && ApartBut(cur, g)
    && forall k :: 0 <= k < n && k != g ==> cur[k] == slots[k]
  }

  /** Neither a slot already looked at nor one the pass will not take in touches its last box. */
  ghost predicate Untouched(slots: seq<Rect>, cur: seq<Rect>, g: nat, n: nat, b: Rect, taken: set<nat>) {
    && (forall k :: n <= k < |cur| && k != g ==> !Overlap(cur[k], b))
    && (forall i: nat :: i < n && i < |slots| && i != g && i !in taken ==> !Overlap(slots[i], b))
  }

  lemma OverlapSymmetric(a: Rect, b: Rect)
    ensures Overlap(a, b) <==> Overlap(b, a)
  {
  }

  lemma FoldSlots(cur: seq<Rect>, i: nat, j: nat)
    requires j < i < |cur|
    ensures forall k :: 0 <= k < |cur| - 1 ==>
      Fold(cur, i, j)[k] == if k == j then Merge(cur[i], cur[j]) else if k < i then cur[k] else cur[k + 1]
  {
    var s := cur[j := Merge(cur[i], cur[j])];
    assert Fold(cur, i, j) == s[..i] + s[i + 1..];
  }

  /** A slot already known to the pass overlaps no earlier slot but the growing one. */
  lemma ApartFromEarlier(cur: seq<Rect>, g: nat, i: nat)
    requires ApartBut(cur, g) && i < |cur| && i != g
    ensures forall k :: 0 <= k < i && k != g ==> !Overlap(cur[i], cur[k])
  {
    forall k | 0 <= k < i && k != g
      ensures !Overlap(cur[i], cur[k])
    {
      OverlapSymmetric(cur[k], cur[i]);
    }
  }

  lemma {:induction false} FirstOverlapSame(r: Rect, a: seq<Rect>, b: seq<Rect>, end: nat)
    requires end <= |a| && end <= |b| && forall k :: 0 <= k < end ==> a[k] == b[k]
    ensures FirstOverlap(r, a, end) == FirstOverlap(r, b, end)
  {
    if end > 0 {
      FirstOverlapSame(r, a, b, end - 1);
    }
  }

  /** The pass merges slot `i` into slot `j`, one of them the growing one. */
  lemma PassTakes(slots: seq<Rect>, cur: seq<Rect>, g: nat, i: nat, j: nat, x: nat, box: Rect)
    requires MidPass(slots, cur, g, box, i + 1) && j < i && (i == g || j == g) && x == i + j - g
    ensures MidPass(slots, Fold(cur, i, j), j, Merge(cur[i], cur[j]), i)
  {
    FoldSlots(cur, i, j);
  }

  lemma TakesUntouched(slots: seq<Rect>, cur: seq<Rect>, g: nat, i: nat, j: nat, x: nat, b: Rect, taken: set<nat>)
    requires j < i < |cur| && i < |slots| && (i == g || j == g) && x == i + j - g
    ensures Untouched(slots, Fold(cur, i, j), j, i, b, taken) <==> Untouched(slots, cur, g, i + 1, b, taken + {x})
  {
    FoldSlots(cur, i, j);
    var after := Fold(cur, i, j);
    assert forall k :: i <= k < |after| ==> after[k] == cur[k + 1];
    assert forall k :: i + 1 <= k < |cur| ==> cur[k] == after[k - 1];
  }

  /** The pass goes on without merging. */
  lemma SkipUntouched(slots: seq<Rect>, cur: seq<Rect>, g: nat, i: nat, b: Rect, taken: set<nat>)
    requires i < |cur| && i < |slots| && (i != g ==> cur[i] == slots[i] && i !in taken)
    ensures Untouched(slots, cur, g, i, b, taken) <==> Untouched(slots, cur, g, i + 1, b, taken)
  {
  }

  lemma TakesIff(slots: seq<Rect>, cur: seq<Rect>, g: nat, i: nat, j: nat, x: nat, b: Rect, taken: set<nat>)
    requires j < i < |cur| && i < |slots| && (i == g || j == g) && x == i + j - g
    requires j == FirstOverlap(cur[i], cur, i)
    requires Apart(Sweep(Fold(cur, i, j), i)) <==> Untouched(slots, Fold(cur, i, j), j, i, b, taken)
    ensures Apart(Sweep(cur, i + 1)) <==> Untouched(slots, cur, g, i + 1, b, taken + {x})
  {
    TakesUntouched(slots, cur, g, i, j, x, b, taken);
  }

  lemma SkipsIff(slots: seq<Rect>, cur: seq<Rect>, g: nat, i: nat, b: Rect, taken: set<nat>)
    requires i < |cur| && i < |slots| && (i != g ==> cur[i] == slots[i] && i !in taken)
    requires FirstOverlap(cur[i], cur, i) == i
    requires Apart(Sweep(cur, i)) <==> Untouched(slots, cur, g, i, b, taken)
    ensures Apart(Sweep(cur, i + 1)) <==> Untouched(slots, cur, g, i + 1, b, taken)
  {
    SkipUntouched(slots, cur, g, i, b, taken);
  }

  lemma {:induction false} PassIsSweep(slots: seq<Rect>, cur: seq<Rect>, g: nat, box: Rect, n: nat)
      returns (b: Rect, taken: set<nat>)
    requires MidPass(slots, cur, g, box, n)
    ensures (b, taken) == Pass(slots, g, box, n)
    ensures Apart(Sweep(cur, n)) <==> Untouched(slots, cur, g, n, b, taken)
    decreases n
  {
    if n == 0 {
      PassFinished(slots, cur, g, box);
      return box, {};
    }
    var i := n - 1;
    var j := PassTarget(slots, cur, g, box, i);
    if j < i {
      PassTakes(slots, cur, g, i, j, i + j - g, box);
      b, taken := PassIsSweep(slots, Fold(cur, i, j), j, Merge(cur[i], cur[j]), i);
      TakesIff(slots, cur, g, i, j, i + j - g, b, taken);
      taken := taken + {i + j - g};
    } else {
      b, taken := PassIsSweep(slots, cur, g, box, i);
      SkipsIff(slots, cur, g, i, b, taken);
    }
  }

  lemma PassFinished(slots: seq<Rect>, cur: seq<Rect>, g: nat, box: Rect)
    requires MidPass(slots, cur, g, box, 0)
    ensures (box, {}) == Pass(slots, g, box, 0)
    ensures Apart(Sweep(cur, 0)) <==> Untouched(slots, cur, g, 0, box, {})
  {
    PassEnds(cur, g);
  }

  /** Where the pass merges slot `i`, in the list and as the pass sees it. */
  lemma PassTarget(slots: seq<Rect>, cur: seq<Rect>, g: nat, box: Rect, i: nat) returns (j: nat)
    requires MidPass(slots, cur, g, box, i + 1)
    ensures j == FirstOverlap(cur[i], cur, i)
    ensures j < i ==> i == g || j == g
    ensures var p := Pass(slots, g, box, i + 1);
            if j < i
            then var q := Pass(slots, j, Merge(cur[i], cur[j]), i); p == (q.0, q.1 + {i + j - g})
            else p == Pass(slots, g, box, i)
  {
    j := FirstOverlap(cur[i], cur, i);
    if i == g {
      FirstOverlapSame(box, cur, slots, g);
    } else {
      ApartFromEarlier(cur, g, i);
    }
  }

  lemma PassEnds(cur: seq<Rect>, g: nat)
    requires g < |cur| && ApartBut(cur, g)
    ensures Apart(cur) <==> forall k :: 0 <= k < |cur| && k != g ==> !Overlap(cur[k], cur[g])
  {
    if forall k :: 0 <= k < |cur| && k != g ==> !Overlap(cur[k], cur[g]) {
      forall i, j | 0 <= i < j < |cur|
        ensures !Overlap(cur[i], cur[j])
      {
        if i == g {
          OverlapSymmetric(cur[g], cur[j]);
        }
      }
    }
    if Apart(cur) {
      forall k | 0 <= k < |cur| && k != g
        ensures !Overlap(cur[k], cur[g])
      {
        OverlapSymmetric(cur[g], cur[k]);
      }
    }
  }

  /** No slot is passed by: one that the pass does not take in when it gets there stays clear
      of the box the pass ends with. */
  predicate NonePassedBy(slots: seq<Rect>, r: Rect) {
    var k := FirstOverlap(r, slots, |slots|);
    k < |slots| ==>
      var (b, taken) := Pass(slots, k, Merge(r, slots[k]), |slots|);
      forall i: nat :: i < |slots| && i != k && i !in taken ==> !Overlap(slots[i], b)
  }

  /** Into slots that are apart, inserting leaves no overlap if and only if the new rectangle
      makes the pass go by no slot that its box reaches later. */
  lemma InsertApartIff(slots: seq<Rect>, r: Rect)
    requires Apart(slots)
    ensures Apart(Insert(slots, r)) <==> NonePassedBy(slots, r)
  {
    var k := FirstOverlap(r, slots, |slots|);
    var s := Absorb(slots, r);
    if k < |slots| {
      var _, _ := PassIsSweep(slots, s, k, Merge(r, slots[k]), |slots|);
    } else {
      forall i, j | 0 <= i < j < |s|
        ensures !Overlap(s[i], s[j])
      {
        OverlapSymmetric(r, s[i]);
      }
      SweepShrinks(s, |s|);
    }
  }

  /** A property of the slots that each insertion keeps exactly where `right` says so. */
  ghost predicate KeptExactly(insert: (seq<Rect>, Rect) -> seq<Rect>, good: seq<Rect> -> bool,
                              right: (seq<Rect>, Rect) -> bool) {
    good([]) && forall slots, r {:trigger right(slots, r)} ::
      good(slots) ==> (good(insert(slots, r)) <==> right(slots, r))
  }

  lemma {:induction false} GoodThroughout(insert: (seq<Rect>, Rect) -> seq<Rect>, good: seq<Rect> -> bool,
                                          right: (seq<Rect>, Rect) -> bool, rects: seq<Rect>, n: nat)
    requires KeptExactly(insert, good, right) && n <= |rects|
    requires forall m: nat :: m < n ==> right(TakenIn(insert, rects, m), rects[m])
    ensures good(TakenIn(insert, rects, n))
  {
    if n > 0 {
      GoodThroughout(insert, good, right, rects, n - 1);
      assert right(TakenIn(insert, rects, n - 1), rects[n - 1]);
    }
  }

  lemma RightThroughout(insert: (seq<Rect>, Rect) -> seq<Rect>, good: seq<Rect> -> bool,
                        right: (seq<Rect>, Rect) -> bool, rects: seq<Rect>, n: nat)
    requires KeptExactly(insert, good, right) && n < |rects|
    requires good(TakenIn(insert, rects, n)) && good(TakenIn(insert, rects, n + 1))
    ensures right(TakenIn(insert, rects, n), rects[n])
  {
  }

  lemma ApartKeptExactly()
    ensures KeptExactly(Insert, Apart, NonePassedBy)
  {
    forall slots, r | Apart(slots)
      ensures Apart(Insert(slots, r)) <==> NonePassedBy(slots, r)
    {
      InsertApartIff(slots, r);
    }
  }

  /** The slots after the first `n` rectangles are apart. */
  ghost predicate ApartAfter(rects: seq<Rect>, n: nat) {
    n <= |rects| && Apart(MergeFirst(rects, n))
  }

  /** Inserting rectangle `n` goes by no slot. */
  ghost predicate NonePassedAt(rects: seq<Rect>, n: nat) {
    n < |rects| && NonePassedBy(MergeFirst(rects, n), rects[n])
  }

  lemma ApartThenNonePassed(rects: seq<Rect>, n: nat)
    requires n < |rects| && ApartAfter(rects, n) && ApartAfter(rects, n + 1)
    ensures NonePassedAt(rects, n)
  {
    ApartKeptExactly();
    RightThroughout(Insert, Apart, NonePassedBy, rects, n);
  }

  lemma NonePassedThenApart(rects: seq<Rect>, n: nat)
    requires n <= |rects| && forall m: nat :: m < n ==> NonePassedBy(TakenIn(Insert, rects, m), rects[m])
    ensures ApartAfter(rects, n)
  {
    ApartKeptExactly();
    GoodThroughout(Insert, Apart, NonePassedBy, rects, n);
  }

  /** Overlaps never show up in the list, not even in between, exactly when no insertion goes
      by a slot. */
  lemma AlwaysApartIff(rects: seq<Rect>)
    ensures (forall n: nat :: n <= |rects| ==> ApartAfter(rects, n))
       <==> (forall n: nat :: n < |rects| ==> NonePassedAt(rects, n))
  {
    if forall n: nat :: n <= |rects| ==> ApartAfter(rects, n) {
      forall n: nat | n < |rects|
        ensures NonePassedAt(rects, n)
      {
        assert ApartAfter(rects, n + 1);
        ApartThenNonePassed(rects, n);
      }
    } else if forall n: nat :: n < |rects| ==> NonePassedAt(rects, n) {
      forall n: nat | n <= |rects|
        ensures ApartAfter(rects, n)
      {
        forall m: nat | m < n
          ensures NonePassedBy(TakenIn(Insert, rects, m), rects[m])
        {
          assert NonePassedAt(rects, m);
        }
        NonePassedThenApart(rects, n);
      }
    }
  }

  // ----- one insertion, from what the new rectangle touches -----

  lemma InsideOverlaps(a: Rect, b: Rect, c: Rect, d: Rect)
    requires Inside(a, b) && Inside(c, d) && Overlap(a, c)
    ensures Overlap(b, d)
  {
  }

  lemma MergeInside(a: Rect, b: Rect)
    ensures Inside(a, Merge(a, b)) && Inside(b, Merge(a, b))
    ensures forall c :: Inside(a, c) && Inside(b, c) ==> Inside(Merge(a, b), c)
  {
  }

  /** The area holds the new rectangle and every slot it overlaps, and touches no other. */
  ghost predicate Encloses(area: Rect, slots: seq<Rect>, r: Rect) {
    && Inside(r, area)
    && forall s :: s in slots ==>
         && (Overlap(s, r) ==> Inside(s, area))
         && (Overlap(s, area) ==> Overlap(s, r))
  }

  /** The box of the new rectangle and the slots it overlaps. */
  function Hull(slots: seq<Rect>, r: Rect): Rect {
    if slots == [] then r
    else
      var rest := Hull(slots[1..], r);
      if Overlap(slots[0], r) then Merge(slots[0], rest) else rest
  }

  lemma {:induction false} HullHolds(slots: seq<Rect>, r: Rect)
    ensures Inside(r, Hull(slots, r))
    ensures forall s :: s in slots && Overlap(s, r) ==> Inside(s, Hull(slots, r))
    ensures forall area :: Inside(r, area) && (forall s :: s in slots && Overlap(s, r) ==> Inside(s, area)) ==>
              Inside(Hull(slots, r), area)
  {
    if slots != [] {
      HullHolds(slots[1..], r);
      MergeInside(slots[0], Hull(slots[1..], r));
      assert forall s :: s in slots <==> s == slots[0] || s in slots[1..];
    }
  }

  /** An enclosing area exists exactly when that box is one. */
  lemma HullEncloses(slots: seq<Rect>, r: Rect)
    ensures (exists area :: Encloses(area, slots, r)) <==> Encloses(Hull(slots, r), slots, r)
  {
    HullHolds(slots, r);
    if area :| Encloses(area, slots, r) {
      assert Inside(Hull(slots, r), area);
      forall s | s in slots && Overlap(s, Hull(slots, r))
        ensures Overlap(s, r)
      {
        InsideOverlaps(s, s, Hull(slots, r), area);
      }
    }
  }

  /** What the pass keeps inside the area. */
  lemma {:induction false} PassInside(slots: seq<Rect>, g: nat, box: Rect, n: nat, r: Rect, area: Rect)
    requires Encloses(area, slots, r) && Inside(r, box) && Inside(box, area)
    requires n <= |slots| && g < |slots| && forall j :: 0 <= j < g ==> !Overlap(slots[j], r)
    ensures Inside(Pass(slots, g, box, n).0, area)
    ensures forall i :: g < i < n && Overlap(slots[i], area) ==> i in Pass(slots, g, box, n).1
    decreases n
  {
    if n > 0 {
      var i := n - 1;
      assert slots[i] in slots;
      if i == g {
        NothingBelow(slots, g, box, r, area);
        PassInside(slots, g, box, i, r, area);
      } else if i > g && Overlap(slots[i], box) {
        InsideOverlaps(slots[i], slots[i], box, area);
        MergeInside(slots[i], box);
        PassInside(slots, g, Merge(slots[i], box), i, r, area);
      } else {
        if Overlap(slots[i], r) {
          InsideOverlaps(slots[i], slots[i], r, box);
        }
        PassInside(slots, g, box, i, r, area);
      }
    }
  }

  lemma NothingBelow(slots: seq<Rect>, g: nat, box: Rect, r: Rect, area: Rect)
    requires Encloses(area, slots, r) && Inside(box, area) && g < |slots|
    requires forall j :: 0 <= j < g ==> !Overlap(slots[j], r)
    ensures FirstOverlap(box, slots, g) == g
  {
    var j := FirstOverlap(box, slots, g);
    if j < g {
      assert slots[j] in slots;
      InsideOverlaps(box, area, slots[j], slots[j]);
      OverlapSymmetric(area, slots[j]);
      assert false;
    }
  }

  /** An insertion leaves no overlap when some area holds the new rectangle and the slots it
      overlaps and touches no other slot. */
  lemma EnclosedInsertApart(slots: seq<Rect>, r: Rect, area: Rect)
    requires Apart(slots) && Encloses(area, slots, r)
    ensures Apart(Insert(slots, r))
  {
    var k := FirstOverlap(r, slots, |slots|);
    if k < |slots| {
      FirstInside(slots, r, area, k);
      PassInside(slots, k, Merge(r, slots[k]), |slots|, r, area);
      var (b, taken) := Pass(slots, k, Merge(r, slots[k]), |slots|);
      forall i: nat | i < |slots| && i != k && i !in taken
        ensures !Overlap(slots[i], b)
      {
        StaysClear(slots, r, area, k, i, b);
      }
    }
    InsertApartIff(slots, r);
  }

  lemma FirstInside(slots: seq<Rect>, r: Rect, area: Rect, k: nat)
    requires Encloses(area, slots, r) && k < |slots| && k == FirstOverlap(r, slots, |slots|)
    ensures Inside(r, Merge(r, slots[k])) && Inside(Merge(r, slots[k]), area)
    ensures forall j :: 0 <= j < k ==> !Overlap(slots[j], r)
  {
    assert slots[k] in slots;
    OverlapSymmetric(r, slots[k]);
    MergeInside(r, slots[k]);
    forall j | 0 <= j < k
      ensures !Overlap(slots[j], r)
    {
      OverlapSymmetric(r, slots[j]);
    }
  }

  lemma StaysClear(slots: seq<Rect>, r: Rect, area: Rect, k: nat, i: nat, b: Rect)
    requires Encloses(area, slots, r) && i < |slots| && i != k && Inside(b, area)
    requires i < k ==> !Overlap(slots[i], r)
    requires i > k ==> !Overlap(slots[i], area)
    ensures !Overlap(slots[i], b)
  {
    assert slots[i] in slots;
    if Overlap(slots[i], b) {
      InsideOverlaps(slots[i], slots[i], b, area);
      assert false;
    }
  }

  // ----- nothing is merged that need not be -----

  ghost predicate InOne(areas: seq<Rect>, r: Rect) {
    exists k :: 0 <= k < |areas| && Inside(r, areas[k])
  }

  /** Areas that are apart, with each of the first `n` rectangles inside one of them. */
  ghost predicate Separates(areas: seq<Rect>, rects: seq<Rect>, n: nat) {
    n <= |rects| && Apart(areas) && forall i :: 0 <= i < n ==> InOne(areas, rects[i])
  }

  /** A slot and the inputs it stands for lie inside one area, the inputs inside the slot. */
  ghost predicate Kept(areas: seq<Rect>, rects: seq<Rect>, r: Rect, block: set<nat>, k: nat) {
    && k < |areas| && Inside(r, areas[k]) && block != {}
    && forall i :: i in block ==> i < |rects| && Inside(rects[i], r)
  }

  ghost predicate KeptInOne(areas: seq<Rect>, rects: seq<Rect>, r: Rect, block: set<nat>) {
    exists k: nat :: Kept(areas, rects, r, block, k)
  }

  lemma SameArea(areas: seq<Rect>, a: Rect, b: Rect, k: nat, l: nat)
    requires Apart(areas) && k < |areas| && l < |areas|
    requires Inside(a, areas[k]) && Inside(b, areas[l]) && Overlap(a, b)
    ensures k == l
  {
    InsideOverlaps(a, areas[k], b, areas[l]);
    OverlapSymmetric(areas[k], areas[l]);
    if k < l {
      assert false;
    }
    if l < k {
      assert false;
    }
  }

  lemma KeptMerges(areas: seq<Rect>, rects: seq<Rect>, a: Rect, b: Rect, p: set<nat>, q: set<nat>)
    requires Apart(areas) && KeptInOne(areas, rects, a, p) && KeptInOne(areas, rects, b, q) && Overlap(a, b)
    ensures KeptInOne(areas, rects, Merge(a, b), p + q)
  {
    var k: nat :| Kept(areas, rects, a, p, k);
    var l: nat :| Kept(areas, rects, b, q, l);
    SameArea(areas, a, b, k, l);
    MergeInside(a, b);
    assert Kept(areas, rects, Merge(a, b), p + q, k);
  }

  /** The merge of a part of the list, with the blocks that separating areas keep apart. */
  ghost predicate KeptSlots(areas: seq<Rect>, rects: seq<Rect>, slots: seq<Rect>, n: nat, blocks: seq<set<nat>>) {
    Partitioned(slots, n, blocks, (r, block) => KeptInOne(areas, rects, r, block))
  }

  lemma MergedKept(areas: seq<Rect>, rects: seq<Rect>, n: nat) returns (blocks: seq<set<nat>>)
    requires Separates(areas, rects, n)
    ensures KeptSlots(areas, rects, MergeFirst(rects, n), n, blocks)
  {
    var stands: Stands := (r, block) => KeptInOne(areas, rects, r, block);
    forall a, b, p, q | stands(a, p) && stands(b, q) && Overlap(a, b)
      ensures stands(Merge(a, b), p + q)
    {
      KeptMerges(areas, rects, a, b, p, q);
    }
    forall i: nat | i < n
      ensures stands(rects[i], {i})
    {
      assert InOne(areas, rects[i]);
      var k :| 0 <= k < |areas| && Inside(rects[i], areas[k]);
      assert Kept(areas, rects, rects[i], {i}, k);
    }
    blocks := MergedPartitions(rects, n, stands);
  }

  /** Rectangles that areas keep apart are never merged: each result lies in one area. */
  lemma NeverMergesAcross(areas: seq<Rect>, rects: seq<Rect>)
    requires Separates(areas, rects, |rects|)
    ensures forall r :: r in MergeAll(rects) ==> InOne(areas, r)
  {
    var blocks := MergedKept(areas, rects, |rects|);
    var slots := MergeAll(rects);
    forall r | r in slots
      ensures InOne(areas, r)
    {
      var i :| 0 <= i < |slots| && slots[i] == r;
      assert KeptInOne(areas, rects, slots[i], blocks[i]);
      var k: nat :| Kept(areas, rects, r, blocks[i], k);
    }
  }

  // ----- a whole list, on the input -----

  /** The chosen rectangles hang together: they do not fall into two parts that do not overlap. */
  ghost predicate Linked(rects: seq<Rect>, members: set<nat>) {
    forall part: set<nat> :: part < members && part != {} ==>
      exists x, y :: x in part && y in members - part && x < |rects| && y < |rects| && Overlap(rects[x], rects[y])
  }

  function Members(rects: seq<Rect>, n: nat, area: Rect): set<nat> {
    set i: nat | i < n && i < |rects| && Inside(rects[i], area)
  }

  ghost predicate Groups(areas: seq<Rect>, rects: seq<Rect>, n: nat) {
    Separates(areas, rects, n) && forall k :: 0 <= k < |areas| ==> Linked(rects, Members(rects, n, areas[k]))
  }

  /** Of the first `n` rectangles, the groups that hang together through overlaps have
      bounding boxes that are apart. */
  ghost predicate GroupsApart(rects: seq<Rect>, n: nat) {
    exists areas :: Groups(areas, rects, n)
  }

  /** The member `i` is the rectangle `r` itself or stands behind a slot that overlaps it. */
  ghost predicate ReachedBy(i: nat, n: nat, slots: seq<Rect>, blocks: seq<set<nat>>, r: Rect) {
    i == n || exists d :: 0 <= d < |slots| && d < |blocks| && i in blocks[d] && Overlap(slots[d], r)
  }

  /** The slots of the rectangles before `n`, and the area `k` in which rectangle `n` lies. */
  ghost predicate Arrival(areas: seq<Rect>, rects: seq<Rect>, n: nat, slots: seq<Rect>, blocks: seq<set<nat>>, k: nat) {
    && n < |rects| && Separates(areas, rects, n + 1) && Apart(slots) && KeptSlots(areas, rects, slots, n, blocks)
    && k < |areas| && Inside(rects[n], areas[k]) && Linked(rects, Members(rects, n + 1, areas[k]))
  }

  lemma BlockOf(areas: seq<Rect>, rects: seq<Rect>, n: nat, slots: seq<Rect>, blocks: seq<set<nat>>, i: nat) returns (e: nat)
    requires KeptSlots(areas, rects, slots, n, blocks) && i < n
    ensures e < |slots| && e < |blocks| && i in blocks[e] && i < |rects| && Inside(rects[i], slots[e])
  {
    assert InSome(blocks, i);
    e :| 0 <= e < |blocks| && i in blocks[e];
    assert KeptInOne(areas, rects, slots[e], blocks[e]);
  }

  /** A link leads from what is reached only to what is reached. */
  lemma LinkReaches(areas: seq<Rect>, rects: seq<Rect>, n: nat, slots: seq<Rect>, blocks: seq<set<nat>>, k: nat,
                    x: nat, y: nat)
    requires Arrival(areas, rects, n, slots, blocks, k) && x <= n && y <= n && Overlap(rects[x], rects[y])
    requires ReachedBy(x, n, slots, blocks, rects[n])
    ensures ReachedBy(y, n, slots, blocks, rects[n])
  {
    var r := rects[n];
    if y < n {
      var f := BlockOf(areas, rects, n, slots, blocks, y);
      if x == n {
        InsideOverlaps(r, r, rects[y], slots[f]);
        OverlapSymmetric(r, slots[f]);
      } else {
        var d :| 0 <= d < |slots| && d < |blocks| && x in blocks[d] && Overlap(slots[d], r);
        assert KeptInOne(areas, rects, slots[d], blocks[d]);
        InsideOverlaps(rects[x], slots[d], rects[y], slots[f]);
        OverlapSymmetric(slots[d], slots[f]);
        assert d == f;
      }
    }
  }

  /** Every slot in the area of the new rectangle overlaps it. */
  lemma SlotReached(areas: seq<Rect>, rects: seq<Rect>, n: nat, slots: seq<Rect>, blocks: seq<set<nat>>, k: nat, e: nat)
    requires Arrival(areas, rects, n, slots, blocks, k)
    requires e < |slots| && e < |blocks| && Kept(areas, rects, slots[e], blocks[e], k)
    ensures Overlap(slots[e], rects[n])
  {
    var members := Members(rects, n + 1, areas[k]);
    var part := set i | i in members && ReachedBy(i, n, slots, blocks, rects[n]);
    var y :| y in blocks[e];
    assert y in members;
    assert n in part;
    if part < members {
      var x, z :| x in part && z in members - part && x < |rects| && z < |rects| && Overlap(rects[x], rects[z]);
      LinkReaches(areas, rects, n, slots, blocks, k, x, z);
      assert false;
    }
    assert y in part;
    assert y < n;
    var d :| 0 <= d < |slots| && d < |blocks| && y in blocks[d] && Overlap(slots[d], rects[n]);
    assert d == e;
  }

  lemma ArrivalEncloses(areas: seq<Rect>, rects: seq<Rect>, n: nat, slots: seq<Rect>, blocks: seq<set<nat>>, k: nat)
    requires Arrival(areas, rects, n, slots, blocks, k)
    ensures Encloses(areas[k], slots, rects[n])
  {
    forall s | s in slots
      ensures Overlap(s, rects[n]) ==> Inside(s, areas[k])
      ensures Overlap(s, areas[k]) ==> Overlap(s, rects[n])
    {
      var e :| 0 <= e < |slots| && slots[e] == s;
      assert KeptInOne(areas, rects, slots[e], blocks[e]);
      var l: nat :| Kept(areas, rects, s, blocks[e], l);
      if Overlap(s, rects[n]) {
        SameArea(areas, s, rects[n], l, k);
      }
      if Overlap(s, areas[k]) {
        SameArea(areas, s, areas[k], l, k);
        SlotReached(areas, rects, n, slots, blocks, k, e);
      }
    }
  }

  lemma GroupsApartStep(rects: seq<Rect>, n: nat)
    requires n < |rects| && ApartAfter(rects, n) && GroupsApart(rects, n + 1)
    ensures ApartAfter(rects, n + 1)
  {
    var areas :| Groups(areas, rects, n + 1);
    var blocks := MergedKept(areas, rects, n);
    assert InOne(areas, rects[n]);
    var k :| 0 <= k < |areas| && Inside(rects[n], areas[k]);
    ArrivalEncloses(areas, rects, n, MergeFirst(rects, n), blocks, k);
    EnclosedInsertApart(MergeFirst(rects, n), rects[n], areas[k]);
  }

  /** Up to `end`, what holds goes on to hold where the step is right. */
  ghost predicate Leads(end: nat, holds: nat -> bool, step: nat -> bool) {
    forall m: nat {:trigger step(m)} :: m < end && step(m) && holds(m) ==> holds(m + 1)
  }

  lemma {:induction false} Climbs(end: nat, n: nat, holds: nat -> bool, step: nat -> bool)
    requires n <= end && holds(0) && Leads(end, holds, step)
    requires forall m: nat :: m < n ==> step(m)
    ensures holds(n)
  {
    if n > 0 {
      Climbs(end, n - 1, holds, step);
      assert step(n - 1);
      assert holds((n - 1) + 1);
    }
  }

  /** On the input alone: no overlap is left if, after each rectangle, the groups that hang
      together through overlaps have bounding boxes that are apart. */
  lemma GroupsApartMerged(rects: seq<Rect>)
    requires forall n: nat :: n <= |rects| ==> GroupsApart(rects, n)
    ensures Apart(MergeAll(rects))
  {
    var holds, step := (n: nat) => ApartAfter(rects, n), (n: nat) => GroupsApart(rects, n + 1);
    forall n: nat {:trigger step(n)} | n < |rects| && step(n) && holds(n)
      ensures holds(n + 1)
    {
      GroupsApartStep(rects, n);
    }
    Climbs(|rects|, |rects|, holds, step);
  }

  // ----- where the conditions on the input stop short -----

  const WIDE := Rect(0, 0, 4, 1, 0, 1.0)
  const TALL := Rect(0, 0, 1, 4, 0, 1.0)
  const CORNER := Rect(3, 3, 4, 4, 0, 1.0)
  const SQUARE := Rect(0, 0, 4, 4, 0, 1.0)

  /** A rectangle in the corner of a group's box hangs together with nothing, yet it is
      merged: the groups' boxes overlap and still no overlap is left. */
  lemma CornerIsMergedAnyway()
    ensures Apart(MergeAll([WIDE, TALL, CORNER])) && !GroupsApart([WIDE, TALL, CORNER], 3)
  {
    CornerMerged();
    CornerNotSeparate();
  }

  lemma InsertOnly(slot: Rect, r: Rect)
    requires Overlap(r, slot)
    ensures Insert([slot], r) == [Merge(r, slot)]
  {
    assert Overlap(r, [slot][0]);
    assert FirstOverlap(r, [slot], 1) == 0;
    assert Sweep([Merge(r, slot)], 1) == [Merge(r, slot)];
  }

  lemma CornerMerged()
    ensures MergeAll([WIDE, TALL, CORNER]) == [SQUARE]
  {
    WideMerged();
    LastMerged([WIDE], TALL);
    InsertOnly(WIDE, TALL);
    LastMerged([WIDE] + [TALL], CORNER);
    InsertOnly(SQUARE, CORNER);
    assert [WIDE] + [TALL] + [CORNER] == [WIDE, TALL, CORNER];
  }

  lemma WideMerged()
    ensures MergeAll([WIDE]) == [WIDE]
  {
    ApartUnchanged([WIDE]);
  }

  lemma CornerNotSeparate()
    ensures !GroupsApart([WIDE, TALL, CORNER], 3)
  {
    var rects := [WIDE, TALL, CORNER];
    forall areas | Groups(areas, rects, 3)
      ensures false
    {
      NotLinked(areas, rects);
    }
  }

  lemma NotLinked(areas: seq<Rect>, rects: seq<Rect>)
    requires rects == [WIDE, TALL, CORNER] && Separates(areas, rects, 3)
    ensures exists k :: 0 <= k < |areas| && !Linked(rects, Members(rects, 3, areas[k]))
  {
    assert WIDE == rects[0] && TALL == rects[1] && CORNER == rects[2];
    assert InOne(areas, rects[0]) && InOne(areas, rects[1]) && InOne(areas, rects[2]);
    var k :| 0 <= k < |areas| && Inside(WIDE, areas[k]);
    var l :| 0 <= l < |areas| && Inside(TALL, areas[l]);
    SameArea(areas, WIDE, TALL, k, l);
    var m :| 0 <= m < |areas| && Inside(CORNER, areas[m]);
    assert Inside(SQUARE, areas[k]);
    SameArea(areas, SQUARE, CORNER, k, m);
    var members, part := Members(rects, 3, areas[k]), {2 as nat};
    assert 0 in members && 2 in members;
    assert part < members;
    assert forall y: nat :: y in members - part ==> y == 0 || y == 1;
    assert !Overlap(CORNER, WIDE) && !Overlap(CORNER, TALL);
  }
}
