/** Nearest same-size negative box (annotation/geometric_nearby.py, lines 13-52). */
module NearestBox {
  import opened Basics

  datatype Box = Box(x1: int, y1: int, x2: int, y2: int)

  datatype Result<+T> = Ok(value: T) | ValueError

  function Intersection(a: Box, b: Box): int {
    Max(0, Min(a.x2, b.x2) - Max(a.x1, b.x1)) * Max(0, Min(a.y2, b.y2) - Max(a.y1, b.y1))
  }

  /** The image and the positive box the choice is made for. */
  datatype Task = Task(width: int, height: int, positive: Box)

  predicate TaskOk(t: Task) {
    && 0 <= t.positive.x1 < t.positive.x2 <= t.width
    && 0 <= t.positive.y1 < t.positive.y2 <= t.height
  }

  function W(t: Task): int { t.positive.x2 - t.positive.x1 }

  function H(t: Task): int { t.positive.y2 - t.positive.y1 }

  function At(t: Task, x: int, y: int): Box { Box(x, y, x + W(t), y + H(t)) }

  /** Squared distance of the box at (x, y) from the positive box. */
  function Dist(t: Task, x: int, y: int): int {
    (x - t.positive.x1) * (x - t.positive.x1) + (y - t.positive.y1) * (y - t.positive.y1)
  }

  /** The box at (x, y) lies in the image and meets the positive box in at most `cap` pixels. */
  predicate Allowed(t: Task, cap: int, x: int, y: int) {
    && 0 <= x <= t.width - W(t) && 0 <= y <= t.height - H(t)
    && Intersection(t.positive, At(t, x, y)) <= cap
  }

  /** No allowed box in the columns below `bound` is nearer than the one at (x, y). */
  ghost predicate NearestBelow(t: Task, cap: int, bound: int, x: int, y: int) {
    && Allowed(t, cap, x, y)
    && forall u, v :: u < bound && Allowed(t, cap, u, v) ==> Dist(t, x, y) <= Dist(t, u, v)
  }

  /** The box is an optimum over all positions in the image. */
  ghost predicate Nearest(t: Task, cap: int, b: Box) {
    && b == At(t, b.x1, b.y1) && Allowed(t, cap, b.x1, b.y1)
    && forall u, v :: Allowed(t, cap, u, v) ==> Dist(t, b.x1, b.y1) <= Dist(t, u, v)
  }

  ghost predicate Exists(t: Task, cap: int) { exists x, y :: Allowed(t, cap, x, y) }

  // ---------- one column ----------

  function Overlap(size: int, delta: int): int { Max(0, size - (if delta >= 0 then delta else -delta)) }

  /** Horizontal and vertical overlap depend only on the displacement. */
  lemma IntersectionIs(t: Task, x: int, y: int)
    requires TaskOk(t)
    ensures Intersection(t.positive, At(t, x, y)) == Overlap(W(t), x - t.positive.x1) * Overlap(H(t), y - t.positive.y1)
  {
  }

  /** The vertical overlap that column `x` permits (line 32). */
  function Limit(t: Task, cap: int, x: int): int {
    var ix := Overlap(W(t), x - t.positive.x1);
    if ix == 0 then H(t) else Min(H(t), cap / ix)
  }

  lemma DivBound(a: int, b: int, c: int)
    requires b > 0
    ensures b * a <= c <==> a <= c / b
  {
    var q, r := c / b, c % b;
    assert c == q * b + r && 0 <= r < b;
    if a <= q {
      assert b * a <= b * q;
    } else {
      assert b * a >= b * (q + 1);
    }
  }

  /** A position in the column is allowed exactly when its vertical overlap is within the
      column's limit. */
  lemma ColumnLimit(t: Task, cap: int, x: int, y: int)
    requires TaskOk(t) && 0 <= cap
    ensures Intersection(t.positive, At(t, x, y)) <= cap <==> Overlap(H(t), y - t.positive.y1) <= Limit(t, cap, x)
    ensures 0 <= Limit(t, cap, x) <= H(t)
  {
    var ix, iy := Overlap(W(t), x - t.positive.x1), Overlap(H(t), y - t.positive.y1);
    IntersectionIs(t, x, y);
    if ix > 0 {
      DivBound(iy, ix, cap);
      DivBound(0, ix, cap);
    }
  }

  /** The candidates of a column: the row of the positive box if the column allows it,
      otherwise the nearest rows above and below that the column allows (lines 33-42). */
  function Candidates(t: Task, cap: int, x: int): seq<int> {
    var py, h, allowed := t.positive.y1, H(t), Limit(t, cap, x);
    if allowed >= h then [py]
    else
      var upper := Min(t.height - h, py - h + allowed);
      var lower := Max(0, py + h - allowed);
      (if upper >= 0 then [Min(py, upper)] else [])
      + (if lower <= t.height - h then [Max(py, lower)] else [])
  }

  lemma SquareOrder(a: int, b: int)
    requires 0 <= a < b || b < a <= 0
    ensures a * a < b * b
  {
  }

  /** Every candidate is allowed, so the re-check of line 45 never skips one. */
  lemma CandidatesAllowed(t: Task, cap: int, x: int, y: int)
    requires TaskOk(t) && 0 <= cap
    requires 0 <= x <= t.width - W(t) && y in Candidates(t, cap, x)
    ensures Allowed(t, cap, x, y)
  {
    hide Intersection, Limit;
    ColumnLimit(t, cap, x, y);
  }

  /** Every allowed position of the column is a candidate, or farther away than one. */
  lemma CandidatesSuffice(t: Task, cap: int, x: int, y: int)
    requires TaskOk(t) && 0 <= cap
    requires Allowed(t, cap, x, y)
    ensures y in Candidates(t, cap, x) || exists c :: c in Candidates(t, cap, x) && Dist(t, x, c) < Dist(t, x, y)
  {
    hide Intersection, Limit;
    ColumnLimit(t, cap, x, y);
    var py, h, allowed := t.positive.y1, H(t), Limit(t, cap, x);
    if allowed >= h {
      assert py in Candidates(t, cap, x);
      if y != py { SquareOrder(0, y - py); }
    } else if y <= py {
      var c := py - h + allowed;
      assert c in Candidates(t, cap, x);
      if y != c { SquareOrder(c - py, y - py); }
    } else {
      var c := py + h - allowed;
      assert c in Candidates(t, cap, x);
      if y != c { SquareOrder(c - py, y - py); }
    }
  }

  /** Every optimum is examined: no nearest box is missing from its column's candidates. */
  lemma OptimaAreCandidates(t: Task, cap: int, x: int, y: int)
    requires TaskOk(t) && 0 <= cap && Nearest(t, cap, At(t, x, y))
    ensures y in Candidates(t, cap, x)
  {
    assert Allowed(t, cap, x, y);
    CandidatesSuffice(t, cap, x, y);
    if y !in Candidates(t, cap, x) {
      var c :| c in Candidates(t, cap, x) && Dist(t, x, c) < Dist(t, x, y);
      CandidatesAllowed(t, cap, x, c);
    }
  }

  // ---------- the search ----------

  /** The best candidate so far, its squared distance and the random number drawn for it. */
  datatype Best = Best(box: Box, dist: int, draw: int)

  /** One stage of the search; the draws that break ties are arbitrary. */
  method Stage(t: Task, cap: int) returns (best: Option<Best>)
    requires TaskOk(t) && 0 <= cap
    ensures best.None? ==> !Exists(t, cap)
    ensures best.Some? ==> Nearest(t, cap, best.value.box)
  {
    var px, py, w, h := t.positive.x1, t.positive.y1, W(t), H(t);
    best := None;
    var x := 0;
    while x < t.width - w + 1
      invariant 0 <= x <= t.width - w + 1
      invariant best.None? ==> forall u, v :: u < x ==> !Allowed(t, cap, u, v)
      invariant best.Some? ==>
        && best.value.box == At(t, best.value.box.x1, best.value.box.y1)
        && best.value.dist == Dist(t, best.value.box.x1, best.value.box.y1)
        && NearestBelow(t, cap, x, best.value.box.x1, best.value.box.y1)
    {
      hide Intersection, Limit, Overlap, Allowed, Candidates;
      var ys := ColumnRows(t, cap, x);
      ghost var before := best;
      var i := 0;
      while i < |ys|
        invariant 0 <= i <= |ys|
        invariant before.Some? ==> best.Some? && best.value.dist <= before.value.dist
        invariant forall k :: 0 <= k < i ==> best.Some? && best.value.dist <= Dist(t, x, ys[k])
        invariant best.Some? ==>
          && best.value.box == At(t, best.value.box.x1, best.value.box.y1)
          && best.value.dist == Dist(t, best.value.box.x1, best.value.box.y1)
          && Allowed(t, cap, best.value.box.x1, best.value.box.y1)
      {
        var y := ys[i];
        var box := At(t, x, y);
        CandidatesAllowed(t, cap, x, y);
        AllowedMeets(t, cap, x, y);
        if Intersection(t.positive, box) <= cap {
          var draw: int := *;
          var key := Dist(t, x, y);
          if best.None? || key < best.value.dist || (key == best.value.dist && draw < best.value.draw) {
            best := Some(Best(box, key, draw));
          }
        }
        i := i + 1;
      }
      forall v | Allowed(t, cap, x, v)
        ensures best.Some? && best.value.dist <= Dist(t, x, v)
      {
        CandidatesSuffice(t, cap, x, v);
        var c :| c in ys && Dist(t, x, c) <= Dist(t, x, v);
      }
      x := x + 1;
    }
    AllowedColumns(t, cap);
  }

  lemma AllowedMeets(t: Task, cap: int, x: int, y: int)
    requires Allowed(t, cap, x, y)
    ensures Intersection(t.positive, At(t, x, y)) <= cap
  {
  }

  lemma AllowedColumns(t: Task, cap: int)
    ensures forall u, v :: Allowed(t, cap, u, v) ==> 0 <= u < t.width - W(t) + 1
  {
  }

  /** Lines 31-42 as the loop body computes them. */
  method ColumnRows(t: Task, cap: int, x: int) returns (ys: seq<int>)
    requires TaskOk(t) && 0 <= cap
    ensures ys == Candidates(t, cap, x)
  {
    var px, py, x2, w, h := t.positive.x1, t.positive.y1, t.positive.x2, W(t), H(t);
    var ix := Max(0, Min(x + w, x2) - Max(x, px));
    assert ix == Overlap(w, x - px);
    var allowed := if ix == 0 then h else Min(h, cap / ix);
    if allowed >= h {
      ys := [py];
    } else {
      var upper := Min(t.height - h, py - h + allowed);
      var lower := Max(0, py + h - allowed);
      ys := [];
      if upper >= 0 { ys := ys + [Min(py, upper)]; }
      if lower <= t.height - h { ys := ys + [Max(py, lower)]; }
    }
  }

  /** An intersection over union of at most 1/20, for two boxes of equal area. */
  predicate SmallIoU(t: Task, b: Box) {
    var i := Intersection(t.positive, b);
    20 * i <= 2 * (W(t) * H(t)) - i
  }

  function SmallCap(t: Task): int { (2 * (W(t) * H(t))) / 21 }

  /** The second stage's cap is exactly the IoU bound (line 26). */
  lemma CapIsIoU(t: Task, x: int, y: int)
    requires TaskOk(t)
    ensures SmallIoU(t, At(t, x, y)) <==> Intersection(t.positive, At(t, x, y)) <= SmallCap(t)
    ensures 0 <= SmallCap(t)
  {
    var i, a := Intersection(t.positive, At(t, x, y)), W(t) * H(t);
    assert a > 0;
    DivBound(i, 21, 2 * a);
  }

  /** Two boxes of the same size are disjoint exactly when they are displaced by a whole
      width or a whole height. */
  lemma DisjointAt(t: Task, x: int, y: int)
    requires TaskOk(t)
    ensures Intersection(t.positive, At(t, x, y)) <= 0 <==>
      || x - t.positive.x1 >= W(t) || t.positive.x1 - x >= W(t)
      || y - t.positive.y1 >= H(t) || t.positive.y1 - y >= H(t)
  {
    var ix, iy := Overlap(W(t), x - t.positive.x1), Overlap(H(t), y - t.positive.y1);
    IntersectionIs(t, x, y);
    assert ix > 0 && iy > 0 ==> ix * iy > 0;
  }

  /** A disjoint box fits exactly when some margin around the positive box holds one. */
  lemma DisjointFitsIff(t: Task)
    requires TaskOk(t)
    ensures Exists(t, 0) <==>
      || t.positive.x1 >= W(t) || t.width - t.positive.x2 >= W(t)
      || t.positive.y1 >= H(t) || t.height - t.positive.y2 >= H(t)
  {
    hide Intersection;
    var p, w, h := t.positive, W(t), H(t);
    forall x, y ensures DisjointAndInside(t, x, y) <==> Allowed(t, 0, x, y) { DisjointAt(t, x, y); }
    if p.x1 >= w { assert DisjointAndInside(t, p.x1 - w, p.y1); }
    if t.width - p.x2 >= w { assert DisjointAndInside(t, p.x2, p.y1); }
    if p.y1 >= h { assert DisjointAndInside(t, p.x1, p.y1 - h); }
    if t.height - p.y2 >= h { assert DisjointAndInside(t, p.x1, p.y2); }
  }

  predicate DisjointAndInside(t: Task, x: int, y: int) {
    && 0 <= x <= t.width - W(t) && 0 <= y <= t.height - H(t)
    && (|| x - t.positive.x1 >= W(t) || t.positive.x1 - x >= W(t)
        || y - t.positive.y1 >= H(t) || t.positive.y1 - y >= H(t))
  }

  // ---------- counted in pixels ----------

  /** The pixels of a box; its right and lower edges lie outside. */
  function Pixels(b: Box): set<(int, int)> { set x, y | b.x1 <= x < b.x2 && b.y1 <= y < b.y2 :: (x, y) }

  lemma {:induction false} ColumnPixels(x: int, y1: int, y2: int)
    requires y1 <= y2
    ensures |Pixels(Box(x, y1, x + 1, y2))| == y2 - y1
    decreases y2 - y1
  {
    if y1 == y2 {
      assert Pixels(Box(x, y1, x + 1, y2)) == {};
    } else {
      ColumnPixels(x, y1, y2 - 1);
      assert Pixels(Box(x, y1, x + 1, y2)) == Pixels(Box(x, y1, x + 1, y2 - 1)) + {(x, y2 - 1)};
    }
  }

  lemma {:induction false} BoxPixels(b: Box)
    requires b.x1 <= b.x2 && b.y1 <= b.y2
    ensures |Pixels(b)| == (b.x2 - b.x1) * (b.y2 - b.y1)
    decreases b.x2 - b.x1
  {
    if b.x1 == b.x2 {
      assert Pixels(b) == {};
    } else {
      var rest, column := b.(x2 := b.x2 - 1), Box(b.x2 - 1, b.y1, b.x2, b.y2);
      BoxPixels(rest);
      ColumnPixels(b.x2 - 1, b.y1, b.y2);
      assert Pixels(b) == Pixels(rest) + Pixels(column) && Pixels(rest) !! Pixels(column);
      assert (b.x2 - b.x1) * (b.y2 - b.y1) == (b.x2 - 1 - b.x1) * (b.y2 - b.y1) + (b.y2 - b.y1);
    }
  }

  /** The box that two boxes have in common, if any. */
  function Common(a: Box, b: Box): Box { Box(Max(a.x1, b.x1), Max(a.y1, b.y1), Min(a.x2, b.x2), Min(a.y2, b.y2)) }

  lemma CommonPixels(a: Box, b: Box)
    ensures Pixels(a) * Pixels(b) == Pixels(Common(a, b))
  {
    forall x: int, y: int ensures (x, y) in Pixels(a) * Pixels(b) <==> (x, y) in Pixels(Common(a, b)) {
    }
  }

  lemma EmptyBox(b: Box)
    requires b.x1 >= b.x2 || b.y1 >= b.y2
    ensures Pixels(b) == {}
  {
  }

  lemma CommonArea(a: Box, b: Box)
    ensures var c := Common(a, b);
      Intersection(a, b) == if c.x1 <= c.x2 && c.y1 <= c.y2 then (c.x2 - c.x1) * (c.y2 - c.y1) else 0
  {
  }

  /** `intersection` counts the pixels that two boxes have in common. */
  lemma IntersectionCounts(a: Box, b: Box)
    ensures |Pixels(a) * Pixels(b)| == Intersection(a, b)
  {
    var c := Common(a, b);
    CommonPixels(a, b);
    CommonArea(a, b);
    if c.x1 <= c.x2 && c.y1 <= c.y2 { BoxPixels(c); } else { EmptyBox(c); }
    hide Pixels, Intersection, Common;
  }

  /** A box of the positive box's size within the image. */
  ghost predicate IsNegative(t: Task, c: Box) {
    && c.x2 - c.x1 == t.positive.x2 - t.positive.x1 && c.y2 - c.y1 == t.positive.y2 - t.positive.y1
    && 0 <= c.x1 && c.x2 <= t.width && 0 <= c.y1 && c.y2 <= t.height
  }

  ghost predicate Disjoint(a: Box, b: Box) { Pixels(a) !! Pixels(b) }

  /** The pixels in common are at most a twentieth of all pixels of the two boxes. */
  ghost predicate Little(a: Box, b: Box) { 20 * |Pixels(a) * Pixels(b)| <= |Pixels(a) + Pixels(b)| }

  /** What the search's terms mean in pixels. */
  lemma InPixels(t: Task, c: Box)
    requires TaskOk(t)
    ensures IsNegative(t, c) && Disjoint(t.positive, c) <==> c == At(t, c.x1, c.y1) && Allowed(t, 0, c.x1, c.y1)
    ensures IsNegative(t, c) && Little(t.positive, c) <==>
      c == At(t, c.x1, c.y1) && Allowed(t, SmallCap(t), c.x1, c.y1)
  {
    IntersectionCounts(t.positive, c);
    assert Disjoint(t.positive, c) <==> Pixels(t.positive) * Pixels(c) == {};
    assert Disjoint(t.positive, c) <==> Intersection(t.positive, c) <= 0;
    if IsNegative(t, c) || c == At(t, c.x1, c.y1) {
      BoxPixels(t.positive);
      BoxPixels(c);
      assert |Pixels(t.positive)| == |Pixels(c)| == W(t) * H(t);
      CapIsIoU(t, c.x1, c.y1);
      hide Pixels, Intersection, SmallCap;
      assert c == At(t, c.x1, c.y1);
      assert Little(t.positive, c) <==> SmallIoU(t, c);
    }
  }

  /** No box that qualifies has its corner nearer to the positive box's, nor its centre, as
      the boxes have one size. */
  ghost predicate NearestOf(t: Task, b: Box, little: bool) {
    forall c :: IsNegative(t, c) && (if little then Little(t.positive, c) else Disjoint(t.positive, c)) ==>
      (b.x1 - t.positive.x1) * (b.x1 - t.positive.x1) + (b.y1 - t.positive.y1) * (b.y1 - t.positive.y1)
      <= (c.x1 - t.positive.x1) * (c.x1 - t.positive.x1) + (c.y1 - t.positive.y1) * (c.y1 - t.positive.y1)
  }

  lemma NearestInPixels(t: Task, b: Box, little: bool)
    requires TaskOk(t) && Nearest(t, if little then SmallCap(t) else 0, b)
    ensures IsNegative(t, b) && (if little then Little(t.positive, b) else Disjoint(t.positive, b))
    ensures NearestOf(t, b, little)
  {
    InPixels(t, b);
    forall c | IsNegative(t, c) && (if little then Little(t.positive, c) else Disjoint(t.positive, c))
      ensures Dist(t, b.x1, b.y1) <= Dist(t, c.x1, c.y1)
    {
      InPixels(t, c);
    }
    hide IsNegative, Little, Disjoint, Nearest, Allowed, TaskOk, SmallCap;
  }

  lemma ExistsInPixels(t: Task)
    requires TaskOk(t)
    ensures Exists(t, 0) <==> exists c :: IsNegative(t, c) && Disjoint(t.positive, c)
    ensures Exists(t, SmallCap(t)) <==> exists c :: IsNegative(t, c) && Little(t.positive, c)
  {
    hide IsNegative, Little, Disjoint, TaskOk, SmallCap, Allowed;
    forall x, y
      ensures Allowed(t, 0, x, y) ==> IsNegative(t, At(t, x, y)) && Disjoint(t.positive, At(t, x, y))
      ensures Allowed(t, SmallCap(t), x, y) ==> IsNegative(t, At(t, x, y)) && Little(t.positive, At(t, x, y))
    {
      InPixels(t, At(t, x, y));
    }
    forall c
      ensures IsNegative(t, c) && Disjoint(t.positive, c) ==> Allowed(t, 0, c.x1, c.y1)
      ensures IsNegative(t, c) && Little(t.positive, c) ==> Allowed(t, SmallCap(t), c.x1, c.y1)
    {
      InPixels(t, c);
    }
  }

  /** `b` is the positive box moved by its own width or height, straight to one side. */
  predicate IsSlide(t: Task, b: Box) {
    || (b.y1 == t.positive.y1 && (b.x1 == t.positive.x2 || b.x2 == t.positive.x1))
    || (b.x1 == t.positive.x1 && (b.y1 == t.positive.y2 || b.y2 == t.positive.y1))
  }

  lemma SquareAtLeast(a: int, b: int)
    requires 0 <= b && (a >= b || -a >= b)
    ensures a * a >= b * b && (a * a == b * b ==> a == b || -a == b)
  {
    if a > b || -a > b { assert a * a > b * b by { SquareOrder(if a > 0 then b else -b, a); } }
  }

  /** The nearest disjoint box is the positive box moved straight to one side, by its width
      or by its height, whichever is smaller of those for which there is room. */
  lemma DisjointIsSlide(t: Task, b: Box)
    requires TaskOk(t) && Nearest(t, 0, b)
    ensures IsSlide(t, b)
    ensures b.x1 == t.positive.x1 && (t.positive.x1 >= W(t) || t.width - t.positive.x2 >= W(t)) ==> H(t) <= W(t)
    ensures b.y1 == t.positive.y1 && (t.positive.y1 >= H(t) || t.height - t.positive.y2 >= H(t)) ==> W(t) <= H(t)
  {
    hide Intersection;
    var p, w, h := t.positive, W(t), H(t);
    forall x, y ensures DisjointAndInside(t, x, y) <==> Allowed(t, 0, x, y) { DisjointAt(t, x, y); }
    var dx, dy := b.x1 - p.x1, b.y1 - p.y1;
    assert DisjointAndInside(t, b.x1, b.y1);
    hide Allowed;
    if p.x1 >= w { assert DisjointAndInside(t, p.x1 - w, p.y1); assert Dist(t, p.x1 - w, p.y1) == w * w; }
    if t.width - p.x2 >= w { assert DisjointAndInside(t, p.x2, p.y1); assert Dist(t, p.x2, p.y1) == w * w; }
    if p.y1 >= h { assert DisjointAndInside(t, p.x1, p.y1 - h); assert Dist(t, p.x1, p.y1 - h) == h * h; }
    if t.height - p.y2 >= h { assert DisjointAndInside(t, p.x1, p.y2); assert Dist(t, p.x1, p.y2) == h * h; }
    SlideBySquares(dx, dy, w, h, Dist(t, b.x1, b.y1));
    if dx >= w || -dx >= w { assert Dist(t, b.x1, b.y1) <= w * w; }
    if dy >= h || -dy >= h { assert Dist(t, b.x1, b.y1) <= h * h; }
  }

  lemma SlideBySquares(dx: int, dy: int, w: int, h: int, dist: int)
    requires w > 0 && h > 0 && dist == dx * dx + dy * dy
    ensures (dx >= w || -dx >= w) && dist <= w * w ==> dy == 0 && (dx == w || -dx == w)
    ensures (dy >= h || -dy >= h) && dist <= h * h ==> dx == 0 && (dy == h || -dy == h)
    ensures dx == 0 && (dy == h || -dy == h) && dist <= w * w ==> h <= w
    ensures dy == 0 && (dx == w || -dx == w) && dist <= h * h ==> w <= h
  {
    if dx >= w || -dx >= w { SquareAtLeast(dx, w); }
    if dy >= h || -dy >= h { SquareAtLeast(dy, h); }
    if dx != 0 { SquareAtLeast(dx, 1); }
    if dy != 0 { SquareAtLeast(dy, 1); }
    if h > w { SquareOrder(w, h); }
    if w > h { SquareOrder(h, w); }
  }

  /** The choice: a nearest disjoint box if one fits, otherwise a nearest box of IoU at
      most 1/20 if there is one, otherwise an error; malformed input is an error too. */
  method Choose(t: Task) returns (r: Result<Box>)
    ensures !TaskOk(t) ==> r == ValueError
    ensures TaskOk(t) && Exists(t, 0) ==> r.Ok? && Nearest(t, 0, r.value)
    ensures TaskOk(t) && !Exists(t, 0) && Exists(t, SmallCap(t)) ==>
              r.Ok? && Nearest(t, SmallCap(t), r.value) && SmallIoU(t, r.value)
    ensures TaskOk(t) && !Exists(t, 0) && !Exists(t, SmallCap(t)) ==> r == ValueError
    ensures r.Ok? <==>
      && 0 <= t.positive.x1 < t.positive.x2 <= t.width && 0 <= t.positive.y1 < t.positive.y2 <= t.height
      && exists c :: IsNegative(t, c) && (Disjoint(t.positive, c) || Little(t.positive, c))
    ensures r.Ok? ==> IsNegative(t, r.value)
    ensures r.Ok? && (exists c :: IsNegative(t, c) && Disjoint(t.positive, c)) ==>
      Disjoint(t.positive, r.value) && NearestOf(t, r.value, false) && IsSlide(t, r.value)
    ensures r.Ok? && (forall c :: IsNegative(t, c) ==> !Disjoint(t.positive, c)) ==>
      Little(t.positive, r.value) && NearestOf(t, r.value, true)
  {
    if !TaskOk(t) { return ValueError; }
    ExistsInPixels(t);
    hide Exists, Nearest, SmallIoU, SmallCap, TaskOk, Allowed, Intersection, IsNegative, Disjoint, Little, NearestOf,
      IsSlide;
    CapIsIoU(t, 0, 0);
    var caps := [0, SmallCap(t)];
    var i := 0;
    while i < 2
      invariant 0 <= i <= 2
      invariant forall k :: 0 <= k < i ==> !Exists(t, caps[k])
    {
      assert if i == 0 then caps[i] == 0 else caps[i] == SmallCap(t) && !Exists(t, caps[0]);
      var best := Stage(t, caps[i]);
      if best.Some? {
        NearestExists(t, caps[i], best.value.box);
        NearestInPixels(t, best.value.box, i == 1);
        if i == 0 { DisjointIsSlide(t, best.value.box); }
        return Ok(best.value.box);
      }
      i := i + 1;
    }
    assert !Exists(t, caps[0]) && !Exists(t, caps[1]);
    return ValueError;
  }

  lemma NearestExists(t: Task, cap: int, b: Box)
    requires TaskOk(t) && Nearest(t, cap, b)
    ensures Exists(t, cap)
    ensures cap == SmallCap(t) ==> SmallIoU(t, b)
  {
    assert Allowed(t, cap, b.x1, b.y1);
    CapIsIoU(t, b.x1, b.y1);
  }
}
