/** Greedy non-maximum suppression of TinyCTX/modules/comfyui/filter.py. */
module Suppression {
  /** Pixels; a detector may report a negative size. */
  datatype Box = Box(left: int, top: int, width: int, height: int)

  datatype Detection = Detection(classId: nat, score: real, box: Box)

  /** One row of the detector's output: centre and size in the padded square, and a score per class. */
  datatype Row = Row(x: real, y: real, width: real, height: real, scores: seq<real>)

  /** How the image was fitted into that square. */
  datatype Fit = Fit(factor: real, padLeft: int, padTop: int)

  const THRESHOLD := 0.45

  // ----- From a row to a detection -----

  /** Python's `round`: to the nearest integer, and halfway to the even one. */
  function Round(x: real): (n: int)
    ensures -0.5 <= x - n as real <= 0.5
    ensures x - n as real == 0.5 || x - n as real == -0.5 ==> n % 2 == 0
  {
    var below := x.Floor;
    var rest := x - below as real;
    if rest < 0.5 || (rest == 0.5 && below % 2 == 0) then below else below + 1
  }

  lemma RoundKeepsOrder(x: real, y: real)
    requires x <= y
    ensures Round(x) <= Round(y)
  {}

  /** The first class with the highest score. */
  function Best(scores: seq<real>): (k: nat)
    requires scores != []
    ensures k < |scores| && forall j | 0 <= j < |scores| :: scores[j] <= scores[k] && (j < k ==> scores[j] < scores[k])
  {
    var last := |scores| - 1;
    if last == 0 then 0
    else
      var k := Best(scores[..last]);
      if scores[last] > scores[k] then last else k
  }

  /** Where a box begins on one axis of the image, and how long it is there. */
  function Edge(centre: real, size: real, pad: int, factor: real): int {
    Round((centre - size * 0.5 - pad as real) * factor)
  }

  function Length(size: real, factor: real): int {
    Round(size * factor)
  }

  function Detect(row: Row, fit: Fit): Detection
    requires row.scores != []
  {
    var best := Best(row.scores);
    var left := Edge(row.x, row.width, fit.padLeft, fit.factor);
    var top := Edge(row.y, row.height, fit.padTop, fit.factor);
    Detection(best, row.scores[best], Box(left, top, Length(row.width, fit.factor), Length(row.height, fit.factor)))
  }

  /** On one axis: a stretch of pixels of the right length around the right centre, up to rounding. */
  predicate UndoesFit(from: int, length: int, centre: real, size: real, pad: int, factor: real) {
    -0.5 <= length as real - size * factor <= 0.5
    && -0.75 <= from as real + length as real * 0.5 - (centre - pad as real) * factor <= 0.75
  }

  lemma AxisUndoesFit(centre: real, size: real, pad: int, factor: real)
    ensures UndoesFit(Edge(centre, size, pad, factor), Length(size, factor), centre, size, pad, factor)
  {
    hide Round;
    assert (centre - size * 0.5 - pad as real) * factor == (centre - pad as real) * factor - size * factor * 0.5;
  }

  /** A detection undoes the fit: its box has the row's size and centre in pixels of the image. */
  lemma DetectUndoesFit(row: Row, fit: Fit)
    requires row.scores != []
    ensures var box := Detect(row, fit).box;
            UndoesFit(box.left, box.width, row.x, row.width, fit.padLeft, fit.factor)
            && UndoesFit(box.top, box.height, row.y, row.height, fit.padTop, fit.factor)
  {
    hide Edge, Length, UndoesFit, Best;
    AxisUndoesFit(row.x, row.width, fit.padLeft, fit.factor);
    AxisUndoesFit(row.y, row.height, fit.padTop, fit.factor);
  }

  /** It has the first class with the highest score. */
  lemma DetectTakesBestClass(row: Row, fit: Fit)
    requires row.scores != []
    ensures var d := Detect(row, fit);
            d.classId < |row.scores| && d.score == row.scores[d.classId]
            && forall j | 0 <= j < |row.scores| ::
                 row.scores[j] <= d.score && (j < d.classId ==> row.scores[j] < d.score)
  {
    hide Edge, Length;
  }

  // ----- Overlap -----

  function Min(a: int, b: int): int { if a < b then a else b }

  function Max(a: int, b: int): int { if a > b then a else b }

  /** The length two intervals share. */
  function Shared(a: int, aSize: int, b: int, bSize: int): nat {
    Max(0, Min(a + aSize, b + bSize) - Max(a, b))
  }

  function Intersection(a: Box, b: Box): nat {
    Shared(a.left, a.width, b.left, b.width) * Shared(a.top, a.height, b.top, b.height)
  }

  function Union(a: Box, b: Box): int {
    a.width * a.height + b.width * b.height - Intersection(a, b)
  }

  /** `_iou`. */
  function Overlap(a: Box, b: Box): real {
    if Union(a, b) > 0 then Intersection(a, b) as real / Union(a, b) as real else 0.0
  }

  /** No more is shared than either box has; boxes of negative size share nothing. */
  lemma IntersectionIsPart(a: Box, b: Box)
    ensures Intersection(a, b) == 0 || (a.width >= 0 && a.height >= 0 && Intersection(a, b) <= a.width * a.height)
  {}

  /** The overlap ratio is symmetric and lies in [0, 1], for any two boxes. */
  lemma OverlapIsARatio(a: Box, b: Box)
    ensures Overlap(a, b) == Overlap(b, a)
    ensures 0.0 <= Overlap(a, b) <= 1.0
  {
    IntersectionIsPart(a, b);
    IntersectionIsPart(b, a);
    assert Intersection(a, b) == Intersection(b, a);
    if Union(a, b) > 0 {
      assert Intersection(a, b) <= Union(a, b);
      RatioIsAtMostOne(Intersection(a, b) as real, Union(a, b) as real);
    }
  }

  lemma RatioIsAtMostOne(x: real, y: real)
    requires 0.0 <= x <= y && y > 0.0
    ensures 0.0 <= x / y <= 1.0
  {}

  // ----- Pixels -----

  predicate Covers(a: Box, x: int, y: int) {
    a.left <= x < a.left + a.width && a.top <= y < a.top + a.height
  }

  function Stretch(from: int, size: int): (xs: set<int>)
    ensures forall x :: x in xs <==> from <= x < from + size
    decreases if size > 0 then size else 0
  {
    if size <= 0 then {} else Stretch(from, size - 1) + {from + size - 1}
  }

  function Grid(xs: set<int>, ys: set<int>): set<(int, int)> {
    set x, y | x in xs && y in ys :: (x, y)
  }

  lemma {:induction false} ColumnSize(x: int, from: int, size: nat)
    ensures |Grid({x}, Stretch(from, size))| == size
  {
    if size == 0 {
      assert Grid({x}, Stretch(from, size)) == {};
    } else {
      ColumnSize(x, from, size - 1);
      ColumnGrows(x, Stretch(from, size - 1), from + size - 1);
    }
  }

  lemma ColumnGrows(x: int, ys: set<int>, y: int)
    requires y !in ys
    ensures |Grid({x}, ys + {y})| == |Grid({x}, ys)| + 1
  {
    assert Grid({x}, ys + {y}) == Grid({x}, ys) + {(x, y)};
  }

  lemma {:induction false} GridSize(a: int, m: nat, b: int, n: nat)
    ensures |Grid(Stretch(a, m), Stretch(b, n))| == m * n
  {
    var xs, ys := Stretch(a, m), Stretch(b, n);
    if m == 0 {
      assert Grid(xs, ys) == {};
    } else {
      GridSize(a, m - 1, b, n);
      ColumnSize(a + m - 1, b, n);
      GridGrows(Stretch(a, m - 1), a + m - 1, ys);
      assert (m - 1) * n + n == m * n;
    }
  }

  lemma GridGrows(xs: set<int>, x: int, ys: set<int>)
    requires x !in xs
    ensures |Grid(xs + {x}, ys)| == |Grid(xs, ys)| + |Grid({x}, ys)|
  {
    assert Grid(xs + {x}, ys) == Grid(xs, ys) + Grid({x}, ys);
    assert Grid(xs, ys) !! Grid({x}, ys);
  }

  /** The pixels of a box; none if a size is not positive. */
  function Pixels(a: Box): (pixels: set<(int, int)>)
    ensures forall x, y :: (x, y) in pixels <==> Covers(a, x, y)
  {
    Grid(Stretch(a.left, a.width), Stretch(a.top, a.height))
  }

  lemma SharedStretch(a: int, aSize: int, b: int, bSize: int)
    ensures Stretch(a, aSize) * Stretch(b, bSize) == Stretch(Max(a, b), Shared(a, aSize, b, bSize))
  {}

  /** The shared area counts the pixels that lie in both boxes. */
  lemma IntersectionCountsPixels(a: Box, b: Box)
    ensures Intersection(a, b) == |Pixels(a) * Pixels(b)|
  {
    var xs := Stretch(a.left, a.width) * Stretch(b.left, b.width);
    var ys := Stretch(a.top, a.height) * Stretch(b.top, b.height);
    SharedStretch(a.left, a.width, b.left, b.width);
    SharedStretch(a.top, a.height, b.top, b.height);
    GridSize(Max(a.left, b.left), Shared(a.left, a.width, b.left, b.width),
             Max(a.top, b.top), Shared(a.top, a.height, b.top, b.height));
    assert Pixels(a) * Pixels(b) == Grid(xs, ys);
  }

  lemma AreaCountsPixels(a: Box)
    requires a.width >= 0 && a.height >= 0
    ensures a.width * a.height == |Pixels(a)|
  {
    GridSize(a.left, a.width, a.top, a.height);
  }

  /** The overlap is the share of the pixels of either box that lie in both. */
  lemma OverlapIsShareOfPixels(a: Box, b: Box)
    requires a.width >= 0 && a.height >= 0 && b.width >= 0 && b.height >= 0
    ensures var all := |Pixels(a) + Pixels(b)|;
            Overlap(a, b) == if all > 0 then |Pixels(a) * Pixels(b)| as real / all as real else 0.0
  {
    IntersectionCountsPixels(a, b);
    AreaCountsPixels(a);
    AreaCountsPixels(b);
    assert |Pixels(a) + Pixels(b)| == |Pixels(a)| + |Pixels(b)| - |Pixels(a) * Pixels(b)|;
  }

  predicate Clashes(ds: seq<Detection>, i: nat, j: nat)
    requires i < |ds| && j < |ds|
  {
    Overlap(ds[i].box, ds[j].box) >= THRESHOLD
  }

  predicate Indices(order: seq<nat>, n: nat) {
    forall k | 0 <= k < |order| :: order[k] < n
  }

  predicate ClashesWithAny(ds: seq<Detection>, kept: seq<nat>, j: nat)
    requires Indices(kept, |ds|) && j < |ds|
  {
    exists k :: 0 <= k < |kept| && Clashes(ds, kept[k], j)
  }

  /** One pass: an index is kept unless one kept before it clashes with it. */
  function Greedy(ds: seq<Detection>, kept: seq<nat>, order: seq<nat>): (r: seq<nat>)
    requires Indices(kept, |ds|) && Indices(order, |ds|)
    ensures Indices(r, |ds|)
    decreases |order|
  {
    if order == [] then kept
    else if ClashesWithAny(ds, kept, order[0]) then Greedy(ds, kept, order[1..])
    else Greedy(ds, kept + [order[0]], order[1..])
  }

  /** The indices of `order` that do not clash with `i`. */
  function Rest(ds: seq<Detection>, i: nat, order: seq<nat>): (rest: seq<nat>)
    requires i < |ds| && Indices(order, |ds|)
    ensures Indices(rest, |ds|) && |rest| <= |order|
  {
    if order == [] then []
    else (if Clashes(ds, i, order[0]) then [] else [order[0]]) + Rest(ds, i, order[1..])
  }

  /** Striking out what clashes with a kept index does not change what the pass keeps. */
  lemma {:induction false} StrikingOutIsSafe(ds: seq<Detection>, kept: seq<nat>, i: nat, order: seq<nat>)
    requires Indices(kept, |ds|) && Indices(order, |ds|) && i < |ds| && i in kept
    ensures Greedy(ds, kept, Rest(ds, i, order)) == Greedy(ds, kept, order)
    decreases |order|
  {
    hide Clashes;
    if order != [] {
      if Clashes(ds, i, order[0]) {
        var k :| 0 <= k < |kept| && kept[k] == i;
        assert ClashesWithAny(ds, kept, order[0]);
        assert Rest(ds, i, order) == Rest(ds, i, order[1..]);
        StrikingOutIsSafe(ds, kept, i, order[1..]);
      } else {
        var rest := Rest(ds, i, order);
        assert rest[1..] == Rest(ds, i, order[1..]);
        StrikingOutIsSafe(ds, kept, i, order[1..]);
        StrikingOutIsSafe(ds, kept + [order[0]], i, order[1..]);
      }
    }
  }

  /** Nothing left to visit clashes with anything kept. */
  predicate Clear(ds: seq<Detection>, kept: seq<nat>, order: seq<nat>)
    requires Indices(kept, |ds|) && Indices(order, |ds|)
  {
    forall k, j | 0 <= k < |kept| && 0 <= j < |order| :: !Clashes(ds, kept[k], order[j])
  }

  lemma {:induction false} RestIsClear(ds: seq<Detection>, i: nat, order: seq<nat>)
    requires i < |ds| && Indices(order, |ds|)
    ensures forall j | 0 <= j < |Rest(ds, i, order)| ::
              Rest(ds, i, order)[j] in order && !Clashes(ds, i, Rest(ds, i, order)[j])
  {
    if order != [] {
      RestIsClear(ds, i, order[1..]);
    }
  }

  /** The loop of `_postprocess`: keep the first, strike out what clashes with it, repeat. */
  method Suppress(ds: seq<Detection>, byScore: seq<nat>) returns (keep: seq<nat>)
    requires Indices(byScore, |ds|)
    ensures Indices(keep, |ds|) && keep == Greedy(ds, [], byScore)
  {
    var order := byScore;
    keep := [];
    while order != []
      invariant Indices(keep, |ds|) && Indices(order, |ds|) && Clear(ds, keep, order)
      invariant Greedy(ds, keep, order) == Greedy(ds, [], byScore)
      decreases |order|
    {
      var i := order[0];
      RestIsClear(ds, i, order[1..]);
      StrikingOutIsSafe(ds, keep + [i], i, order[1..]);
      keep := keep + [i];
      order := Rest(ds, i, order[1..]);
    }
  }

  // ----- What is kept -----

  predicate Distinct(order: seq<nat>) {
    forall p, q | 0 <= p < q < |order| :: order[p] != order[q]
  }

  /** The elements of `order` that are in `chosen`, in order. */
  function Among(order: seq<nat>, chosen: seq<nat>): (r: seq<nat>)
    ensures forall x: nat :: x in r <==> x in order && x in chosen
  {
    if order == [] then []
    else (if order[0] in chosen then [order[0]] else []) + Among(order[1..], chosen)
  }

  lemma TailIsDistinct(order: seq<nat>)
    requires Distinct(order) && order != []
    ensures Distinct(order[1..]) && order[0] !in order[1..]
  {}

  lemma {:induction false} GreedyKeepsOrder(ds: seq<Detection>, kept: seq<nat>, order: seq<nat>)
    requires Indices(kept, |ds|) && Indices(order, |ds|)
    requires Distinct(order) && forall p | 0 <= p < |order| :: order[p] !in kept
    ensures Indices(Greedy(ds, kept, order), |ds|)
    ensures Greedy(ds, kept, order) == kept + Among(order, Greedy(ds, kept, order))
    decreases |order|
  {
    hide ClashesWithAny, Distinct;
    if order != [] {
      var i, rest, r := order[0], order[1..], Greedy(ds, kept, order);
      TailIsDistinct(order);
      if ClashesWithAny(ds, kept, i) {
        GreedyKeepsOrder(ds, kept, rest);
      } else {
        GreedyKeepsOrder(ds, kept + [i], rest);
        hide Greedy;
        assert kept + [i] + Among(rest, r) == kept + ([i] + Among(rest, r));
      }
    }
  }

  /** No element before position `p` that is in `kept` clashes with the one there. */
  predicate Unopposed(ds: seq<Detection>, order: seq<nat>, kept: seq<nat>, p: nat)
    requires Indices(order, |ds|) && p < |order|
  {
    forall q | 0 <= q < p && order[q] in kept :: !Clashes(ds, order[q], order[p])
  }

  lemma {:induction false} GreedyDecides(ds: seq<Detection>, kept: seq<nat>, order: seq<nat>, p: nat)
    requires Indices(kept, |ds|) && Indices(order, |ds|) && p < |order|
    requires Distinct(order) && forall p | 0 <= p < |order| :: order[p] !in kept
    ensures order[p] in Greedy(ds, kept, order) <==>
              !ClashesWithAny(ds, kept, order[p]) && Unopposed(ds, order, Greedy(ds, kept, order), p)
    decreases |order|
  {
    hide Clashes, ClashesWithAny, Unopposed, Distinct;
    var i, rest, r := order[0], order[1..], Greedy(ds, kept, order);
    if p == 0 {
      FirstIsDecided(ds, kept, order);
    } else {
      FirstIsDecided(ds, kept, order);
      TailIsDistinct(order);
      GreedyDecides(ds, if i in r then kept + [i] else kept, rest, p - 1);
      OneMoreKept(ds, kept, i, order[p]);
      UnopposedTail(ds, order, r, p);
    }
  }

  lemma FirstIsDecided(ds: seq<Detection>, kept: seq<nat>, order: seq<nat>)
    requires Indices(kept, |ds|) && Indices(order, |ds|) && order != []
    requires Distinct(order) && forall p | 0 <= p < |order| :: order[p] !in kept
    ensures Unopposed(ds, order, Greedy(ds, kept, order), 0)
    ensures order[0] in Greedy(ds, kept, order) <==> !ClashesWithAny(ds, kept, order[0])
  {
    hide ClashesWithAny;
    TailIsDistinct(order);
    GreedyKeepsOrder(ds, if ClashesWithAny(ds, kept, order[0]) then kept else kept + [order[0]], order[1..]);
  }

  lemma UnopposedTail(ds: seq<Detection>, order: seq<nat>, kept: seq<nat>, p: nat)
    requires Indices(order, |ds|) && 0 < p < |order|
    ensures Unopposed(ds, order, kept, p) <==>
              (order[0] in kept ==> !Clashes(ds, order[0], order[p])) && Unopposed(ds, order[1..], kept, p - 1)
  {}

  lemma OneMoreKept(ds: seq<Detection>, kept: seq<nat>, i: nat, j: nat)
    requires Indices(kept, |ds|) && i < |ds| && j < |ds|
    ensures ClashesWithAny(ds, kept + [i], j) <==> ClashesWithAny(ds, kept, j) || Clashes(ds, i, j)
  {
    if ClashesWithAny(ds, kept, j) {
      var k :| 0 <= k < |kept| && Clashes(ds, kept[k], j);
      assert Clashes(ds, (kept + [i])[k], j);
    } else if Clashes(ds, i, j) {
      assert Clashes(ds, (kept + [i])[|kept|], j);
    }
  }

  // ----- The whole step -----

  /** Higher score first; equal scores in the order they were detected. */
  predicate Precedes(ds: seq<Detection>, i: nat, j: nat)
    requires i < |ds| && j < |ds|
  {
    ds[i].score > ds[j].score || (ds[i].score == ds[j].score && i < j)
  }

  predicate Ranked(ds: seq<Detection>, order: seq<nat>)
    requires Indices(order, |ds|)
  {
    forall p, q | 0 <= p < q < |order| :: Precedes(ds, order[p], order[q])
  }

  function Place(ds: seq<Detection>, order: seq<nat>, i: nat): (r: seq<nat>)
    requires Indices(order, |ds|) && i < |ds|
    ensures Indices(r, |ds|) && forall x: nat :: x in r <==> x in order || x == i
  {
    if order == [] then [i]
    else if Precedes(ds, i, order[0]) then [i] + order
    else [order[0]] + Place(ds, order[1..], i)
  }

  lemma {:induction false} PlaceKeepsRanks(ds: seq<Detection>, order: seq<nat>, i: nat)
    requires Indices(order, |ds|) && i < |ds| && Ranked(ds, order) && i !in order
    ensures Ranked(ds, Place(ds, order, i))
  {
    if order != [] && !Precedes(ds, i, order[0]) {
      var rest := Place(ds, order[1..], i);
      PlaceKeepsRanks(ds, order[1..], i);
      forall q | 0 <= q < |rest|
        ensures Precedes(ds, order[0], rest[q])
      {
        assert rest[q] in rest;
      }
    }
  }

  /** `sorted(range(n), key=score, reverse=True)` over the first `n` detections. */
  function ByScore(ds: seq<Detection>, n: nat): (order: seq<nat>)
    requires n <= |ds|
    ensures Indices(order, |ds|) && forall x: nat :: x in order <==> x < n
  {
    if n == 0 then [] else Place(ds, ByScore(ds, n - 1), n - 1)
  }

  lemma {:induction false} ByScoreRanks(ds: seq<Detection>, n: nat)
    requires n <= |ds|
    ensures Ranked(ds, ByScore(ds, n)) && Distinct(ByScore(ds, n))
  {
    if n > 0 {
      ByScoreRanks(ds, n - 1);
      PlaceKeepsRanks(ds, ByScore(ds, n - 1), n - 1);
    }
  }

  function At(ds: seq<Detection>, keep: seq<nat>): seq<Detection>
    requires Indices(keep, |ds|)
  {
    seq(|keep|, k requires 0 <= k < |keep| => ds[keep[k]])
  }

  predicate HaveScores(rows: seq<Row>) {
    forall row <- rows :: row.scores != []
  }

  /** The detections whose best class scores enough. */
  function Candidates(rows: seq<Row>, fit: Fit, minScore: real): (ds: seq<Detection>)
    requires HaveScores(rows)
    ensures forall d :: d in ds <==> d.score >= minScore && exists row <- rows :: d == Detect(row, fit)
  {
    if rows == [] then []
    else
      var last := |rows| - 1;
      var d := Detect(rows[last], fit);
      assert rows == rows[..last] + [rows[last]];
      Candidates(rows[..last], fit, minScore) + if d.score < minScore then [] else [d]
  }

  /** `i` is kept exactly when nothing kept that ranks before it clashes with it. */
  predicate Decided(ds: seq<Detection>, keep: seq<nat>, i: nat)
    requires Indices(keep, |ds|) && i < |ds|
  {
    i in keep <==> forall p | 0 <= p < |keep| && Precedes(ds, keep[p], i) :: !Clashes(ds, keep[p], i)
  }

  /** What the kept boxes are: ranked, pairwise apart, and each candidate is kept or clashes with a
      kept one that ranks before it. */
  lemma KeptBoxes(ds: seq<Detection>, keep: seq<nat>)
    requires keep == Greedy(ds, [], ByScore(ds, |ds|))
    ensures Indices(keep, |ds|)
    ensures forall k, l | 0 <= k < l < |keep| :: Precedes(ds, keep[k], keep[l]) && !Clashes(ds, keep[k], keep[l])
    ensures forall i | 0 <= i < |ds| :: Decided(ds, keep, i)
  {
    hide Decided;
    hide Clashes, Greedy, ByScore, Ranked, Distinct, Precedes, Among;
    var order := ByScore(ds, |ds|);
    ByScoreRanks(ds, |ds|);
    GreedyKeepsOrder(ds, [], order);
    assert keep == Among(order, keep);
    AmongIsRanked(ds, order, keep);
    forall i | 0 <= i < |ds|
      ensures Decided(ds, keep, i)
    {
      DecidedByBefore(ds, order, keep, i);
    }
    RankedApart(ds, keep);
  }

  lemma RankedApart(ds: seq<Detection>, keep: seq<nat>)
    requires Indices(keep, |ds|) && Ranked(ds, keep)
    requires forall i | 0 <= i < |ds| :: Decided(ds, keep, i)
    ensures forall k, l | 0 <= k < l < |keep| :: Precedes(ds, keep[k], keep[l]) && !Clashes(ds, keep[k], keep[l])
  {
    hide Clashes, Precedes;
    forall k, l | 0 <= k < l < |keep|
      ensures !Clashes(ds, keep[k], keep[l])
    {
      assert Decided(ds, keep, keep[l]);
    }
  }

  lemma DecidedByBefore(ds: seq<Detection>, order: seq<nat>, keep: seq<nat>, i: nat)
    requires Indices(order, |ds|) && Ranked(ds, order) && Distinct(order) && keep == Greedy(ds, [], order)
    requires i < |ds| && i in order && forall k <- keep :: k in order
    ensures Decided(ds, keep, i)
  {
    hide Clashes, Precedes, Greedy, Distinct, Ranked;
    var p :| 0 <= p < |order| && order[p] == i;
    GreedyDecides(ds, [], order, p);
    if Unopposed(ds, order, keep, p) {
      forall k | 0 <= k < |keep| && Precedes(ds, keep[k], i)
        ensures !Clashes(ds, keep[k], i)
      {
        assert keep[k] in order;
        var q :| 0 <= q < |order| && order[q] == keep[k];
        EarlierPrecedes(ds, order, p, q);
      }
    } else {
      var q :| 0 <= q < p && order[q] in keep && Clashes(ds, order[q], i);
      var k :| 0 <= k < |keep| && keep[k] == order[q];
      EarlierPrecedes(ds, order, p, q);
    }
  }

  lemma EarlierPrecedes(ds: seq<Detection>, order: seq<nat>, p: nat, q: nat)
    requires Indices(order, |ds|) && Ranked(ds, order) && p < |order| && q < |order|
    ensures Precedes(ds, order[q], order[p]) <==> q < p
  {
    assert q < p ==> Precedes(ds, order[q], order[p]);
    assert p < q ==> Precedes(ds, order[p], order[q]);
  }

  lemma {:induction false} AmongIsRanked(ds: seq<Detection>, order: seq<nat>, chosen: seq<nat>)
    requires Indices(order, |ds|) && Ranked(ds, order)
    ensures Indices(Among(order, chosen), |ds|) && Ranked(ds, Among(order, chosen))
  {
    if order != [] {
      var rest := Among(order[1..], chosen);
      AmongIsRanked(ds, order[1..], chosen);
      forall q | 0 <= q < |rest|
        ensures rest[q] < |ds| && Precedes(ds, order[0], rest[q])
      {
        assert rest[q] in rest && rest[q] in order[1..];
      }
    }
  }

  function Found(ds: seq<Detection>): seq<Detection> {
    At(ds, Greedy(ds, [], ByScore(ds, |ds|)))
  }

  lemma NothingFound()
    ensures Found([]) == []
  {}

  /** Every detection is kept, or overlaps a kept one of at least its score too much. */
  predicate Covered(ds: seq<Detection>, found: seq<Detection>) {
    forall d <- ds :: d in found || exists e <- found :: e.score >= d.score && Overlap(e.box, d.box) >= THRESHOLD
  }

  /** Scores fall, and no two boxes overlap too much. */
  predicate Apart(found: seq<Detection>) {
    forall a, b | 0 <= a < b < |found| ::
      found[a].score >= found[b].score && Overlap(found[a].box, found[b].box) < THRESHOLD
  }

  lemma FoundIsApart(ds: seq<Detection>)
    ensures (forall d <- Found(ds) :: d in ds) && Apart(Found(ds))
  {
    hide Greedy, ByScore, Overlap, Decided;
    var keep := Greedy(ds, [], ByScore(ds, |ds|));
    KeptBoxes(ds, keep);
  }

  lemma FoundCovers(ds: seq<Detection>)
    ensures Covered(ds, Found(ds))
  {
    hide Greedy, ByScore, Overlap, Decided;
    var keep := Greedy(ds, [], ByScore(ds, |ds|));
    var found := At(ds, keep);
    KeptBoxes(ds, keep);
    forall d | d in ds && d !in found
      ensures exists e <- found :: e.score >= d.score && Overlap(e.box, d.box) >= THRESHOLD
    {
      var i :| 0 <= i < |ds| && ds[i] == d;
      assert i !in keep by {
        assert forall k | 0 <= k < |keep| :: found[k] == ds[keep[k]];
      }
      var k := StruckOut(ds, keep, i);
      assert found[k] == ds[keep[k]];
    }
  }

  lemma StruckOut(ds: seq<Detection>, keep: seq<nat>, i: nat) returns (k: nat)
    requires Indices(keep, |ds|) && i < |ds| && Decided(ds, keep, i) && i !in keep
    ensures k < |keep| && Precedes(ds, keep[k], i) && Clashes(ds, keep[k], i)
  {
    k :| 0 <= k < |keep| && Precedes(ds, keep[k], i) && Clashes(ds, keep[k], i);
  }

  /** A detection as it is reported: its score to two decimals. */
  function Reported(d: Detection): (r: Detection)
    ensures r.classId == d.classId && r.box == d.box && -0.005 <= d.score - r.score <= 0.005
  {
    d.(score := Round(d.score * 100.0) as real / 100.0)
  }

  /** A reported score is a whole number of hundredths. */
  lemma ScoresAreHundredths(d: Detection)
    ensures Reported(d).score * 100.0 == (Reported(d).score * 100.0).Floor as real
  {}

  lemma ReportKeepsOrder(d: Detection, e: Detection)
    requires d.score <= e.score
    ensures Reported(d).score <= Reported(e).score
  {
    RoundKeepsOrder(d.score * 100.0, e.score * 100.0);
  }

  function Reports(ds: seq<Detection>): seq<Detection> {
    seq(|ds|, k requires 0 <= k < |ds| => Reported(ds[k]))
  }

  lemma ReportsAreApart(found: seq<Detection>)
    requires Apart(found)
    ensures Apart(Reports(found))
  {
    hide Overlap, Reported;
    forall a, b | 0 <= a < b < |found|
      ensures Reports(found)[a].score >= Reports(found)[b].score
    {
      ReportKeepsOrder(found[b], found[a]);
    }
  }

  lemma ReportsCover(ds: seq<Detection>, found: seq<Detection>)
    requires Covered(ds, found)
    ensures Covered(Reports(ds), Reports(found))
  {
    hide Overlap, Reported;
    var reports := Reports(found);
    forall r | r in Reports(ds) && r !in reports
      ensures exists e <- reports :: e.score >= r.score && Overlap(e.box, r.box) >= THRESHOLD
    {
      var i :| 0 <= i < |ds| && Reports(ds)[i] == r;
      assert ds[i] !in found by {
        assert forall k | 0 <= k < |found| :: reports[k] == Reported(found[k]);
      }
      var k :| 0 <= k < |found| && found[k].score >= ds[i].score && Overlap(found[k].box, ds[i].box) >= THRESHOLD;
      ReportKeepsOrder(ds[i], found[k]);
      assert reports[k] in reports;
    }
  }

  /** `_postprocess`. */
  method Postprocess(rows: seq<Row>, fit: Fit, minScore: real) returns (reports: seq<Detection>)
    requires HaveScores(rows)
    ensures reports == Reports(Found(Candidates(rows, fit, minScore)))
    ensures Apart(reports) && Covered(Reports(Candidates(rows, fit, minScore)), reports)
    ensures forall r <- reports :: exists row <- rows ::
              r == Reported(Detect(row, fit)) && Detect(row, fit).score >= minScore
  {
    hide Greedy, ByScore, Apart, Covered, Detect, Reported;
    FoundIsApart(Candidates(rows, fit, minScore));
    FoundCovers(Candidates(rows, fit, minScore));
    ReportsAreApart(Found(Candidates(rows, fit, minScore)));
    ReportsCover(Candidates(rows, fit, minScore), Found(Candidates(rows, fit, minScore)));
    var ds: seq<Detection> := [];
    for i := 0 to |rows|
      invariant ds == Candidates(rows[..i], fit, minScore)
    {
      assert rows[..i + 1][..i] == rows[..i];
      var d := Detect(rows[i], fit);
      if d.score < minScore {
        continue;
      }
      ds := ds + [d];
    }
    assert rows[..|rows|] == rows;
    if ds == [] {
      NothingFound();
      return [];
    }
    var keep := Suppress(ds, ByScore(ds, |ds|));
    reports := Reports(At(ds, keep));
    forall r | r in reports
      ensures exists d <- ds :: r == Reported(d)
    {
      var k :| 0 <= k < |reports| && reports[k] == r;
      assert At(ds, keep)[k] in ds;
    }
  }
}
