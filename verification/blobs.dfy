/** The blob finder of ImageRecognition.cpp: a flood fill on a sampled lattice and a scan over the image. */
module Blobs {
  const SAMPLE_SIZE: int := 4
  const MIN_POINTS: nat := 200
  const MIN_POINTS_PATH: nat := 400

  datatype Point = Point(x: int, y: int)

  type Blob = seq<Point>

  /** The pixels of an image, by position. */
  type Pixels = map<Point, int>

  function PixelsOf(image: array2<int>): Pixels
    reads image
  {
    map i, j | 0 <= i < image.Length0 && 0 <= j < image.Length1 :: Point(j, i) := image[i, j]
  }

  predicate IsObj(px: Pixels, obj: int, p: Point) { p in px && px[p] == obj }

  predicate Adjacent(p: Point, q: Point) {
    || (q.x == p.x && (q.y == p.y + SAMPLE_SIZE || q.y == p.y - SAMPLE_SIZE))
    || (q.y == p.y && (q.x == p.x + SAMPLE_SIZE || q.x == p.x - SAMPLE_SIZE))
  }

  // ---- Components ----

  ghost predicate IsPath(px: Pixels, obj: int, ps: seq<Point>) {
    ps != [] && (forall k :: 0 <= k < |ps| ==> IsObj(px, obj, ps[k])) &&
    forall k :: 0 < k < |ps| ==> Adjacent(ps[k - 1], ps[k])
  }

  ghost predicate PathBetween(px: Pixels, obj: int, ps: seq<Point>, a: Point, b: Point) {
    IsPath(px, obj, ps) && ps[0] == a && ps[|ps| - 1] == b
  }

  ghost predicate Connected(px: Pixels, obj: int, a: Point, b: Point) {
    exists ps :: PathBetween(px, obj, ps, a, b)
  }

  lemma ConnectedSelf(px: Pixels, obj: int, a: Point)
    requires IsObj(px, obj, a)
    ensures Connected(px, obj, a, a)
  {
    assert PathBetween(px, obj, [a], a, a);
  }

  lemma ConnectedStep(px: Pixels, obj: int, a: Point, b: Point, c: Point)
    requires Connected(px, obj, a, b) && Adjacent(b, c) && IsObj(px, obj, c)
    ensures Connected(px, obj, a, c)
  {
    var ps :| PathBetween(px, obj, ps, a, b);
    assert PathBetween(px, obj, ps + [c], a, c);
  }

  /** A set of points that no step over object pixels leaves. */
  ghost predicate Closed(px: Pixels, obj: int, s: set<Point>) {
    forall p, q :: p in s && Adjacent(p, q) && IsObj(px, obj, q) ==> q in s
  }

  lemma {:induction false} PathStays(px: Pixels, obj: int, s: set<Point>, ps: seq<Point>, k: nat)
    requires Closed(px, obj, s) && IsPath(px, obj, ps) && ps[0] in s && k < |ps|
    ensures ps[k] in s
  {
    if k > 0 {
      PathStays(px, obj, s, ps, k - 1);
      assert Adjacent(ps[k - 1], ps[k]);
    }
  }

  lemma ClosedContains(px: Pixels, obj: int, s: set<Point>, a: Point, b: Point)
    requires Closed(px, obj, s) && a in s && Connected(px, obj, a, b)
    ensures b in s
  {
    var ps :| PathBetween(px, obj, ps, a, b);
    PathStays(px, obj, s, ps, |ps| - 1);
  }

  /** The points connected to `a`, listed once each. */
  ghost predicate IsComponent(px: Pixels, obj: int, a: Point, blob: Blob) {
    NoDuplicates(blob) && forall p :: p in blob <==> Connected(px, obj, a, p)
  }

  predicate NoDuplicates(blob: Blob) {
    forall i, j :: 0 <= i < j < |blob| ==> blob[i] != blob[j]
  }

  function Points(blob: Blob): set<Point> { set p | p in blob }

  lemma {:induction false} NoDuplicatesCount(blob: Blob)
    requires NoDuplicates(blob)
    ensures |Points(blob)| == |blob|
  {
    if blob != [] {
      var init, last := blob[..|blob| - 1], blob[|blob| - 1];
      NoDuplicatesCount(init);
      assert Points(blob) == Points(init) + {last};
      assert last !in Points(init);
    } else {
      assert Points(blob) == {};
    }
  }

  lemma {:induction false} SubsetCount(s: set<Point>, t: set<Point>)
    requires s <= t
    ensures |s| <= |t|
  {
    if s != {} {
      var p :| p in s;
      SubsetCount(s - {p}, t - {p});
    }
  }

  // ---- Painting ----

  /** The pixels after the points of `s` were set to `done`. */
  function Painted(px: Pixels, s: set<Point>, done: int): Pixels {
    map p | p in px :: if p in s then done else px[p]
  }

  /** The value that marks a pixel as visited. */
  function Done(obj: int): int { if obj == 1 || obj == 3 then 255 else 0 }

  /** Points visited so far, in the order visited. The neighbours of the first `index` are among them. */
  ghost predicate Filling(px: Pixels, obj: int, start: Point, blob: Blob, index: nat) {
    && blob != [] && blob[0] == start && NoDuplicates(blob)
    && (forall k :: 0 <= k < |blob| ==> Connected(px, obj, start, blob[k]))
    && index <= |blob|
    && (forall k, q :: 0 <= k < index && Adjacent(blob[k], q) && IsObj(px, obj, q) ==> q in blob)
  }

  lemma FillingDone(px: Pixels, obj: int, start: Point, blob: Blob)
    requires Filling(px, obj, start, blob, |blob|)
    ensures IsComponent(px, obj, start, blob)
  {
    forall p, q | p in Points(blob) && Adjacent(p, q) && IsObj(px, obj, q) ensures q in Points(blob) {
      var k :| 0 <= k < |blob| && blob[k] == p;
    }
    forall p | Connected(px, obj, start, p) ensures p in blob {
      ClosedContains(px, obj, Points(blob), start, p);
    }
  }

  lemma ConnectedIsObj(px: Pixels, obj: int, a: Point, b: Point)
    requires Connected(px, obj, a, b)
    ensures IsObj(px, obj, b) && b in px
  {
    var ps :| PathBetween(px, obj, ps, a, b);
  }

  lemma FillingBounded(px: Pixels, obj: int, start: Point, blob: Blob, index: nat)
    requires Filling(px, obj, start, blob, index)
    ensures |blob| <= |px|
  {
    forall p | p in Points(blob) ensures p in px.Keys {
      var k :| 0 <= k < |blob| && blob[k] == p;
      ConnectedIsObj(px, obj, start, p);
    }
    NoDuplicatesCount(blob);
    SubsetCount(Points(blob), px.Keys);
  }

  predicate InImage(image: array2<int>, p: Point) { 0 <= p.y < image.Length0 && 0 <= p.x < image.Length1 }

  /** Marks one pixel as visited. */
  method Mark(image: array2<int>, p: Point, obj: int, ghost px: Pixels, ghost s: set<Point>)
    requires InImage(image, p) && PixelsOf(image) == Painted(px, s, Done(obj))
    modifies image
    ensures PixelsOf(image) == Painted(px, s + {p}, Done(obj))
  {
    image[p.y, p.x] := if obj == 1 || obj == 3 then 255 else 0;
  }

  /** Visits `q` if it is an object pixel not visited before. */
  method Visit(image: array2<int>, obj: int, q: Point, blob: Blob, ghost px: Pixels, ghost start: Point, ghost index: nat)
    returns (blob': Blob)
    requires obj != Done(obj) && Filling(px, obj, start, blob, index) && index < |blob| && Adjacent(blob[index], q)
    requires InImage(image, q)
    requires PixelsOf(image) == Painted(px, Points(blob), Done(obj))
    modifies image
    ensures Filling(px, obj, start, blob', index) && index < |blob'| && blob'[index] == blob[index]
    ensures forall p :: p in blob ==> p in blob'
    ensures PixelsOf(image) == Painted(px, Points(blob'), Done(obj))
    ensures IsObj(px, obj, q) ==> q in blob'
  {
    blob' := blob;
    assert q in PixelsOf(image);
    if image[q.y, q.x] == obj {
      assert PixelsOf(image)[q] == obj;
      ConnectedStep(px, obj, start, blob[index], q);
      blob' := blob + [q];
      assert Points(blob') == Points(blob) + {q};
      Mark(image, q, obj, px, Points(blob));
    }
  }

  lemma NextPoint(px: Pixels, obj: int, start: Point, blob: Blob, index: nat, point: Point)
    requires Filling(px, obj, start, blob, index) && index < |blob| && point == blob[index]
    requires IsObj(px, obj, Point(point.x, point.y + SAMPLE_SIZE)) ==> Point(point.x, point.y + SAMPLE_SIZE) in blob
    requires IsObj(px, obj, Point(point.x, point.y - SAMPLE_SIZE)) ==> Point(point.x, point.y - SAMPLE_SIZE) in blob
    requires IsObj(px, obj, Point(point.x + SAMPLE_SIZE, point.y)) ==> Point(point.x + SAMPLE_SIZE, point.y) in blob
    requires IsObj(px, obj, Point(point.x - SAMPLE_SIZE, point.y)) ==> Point(point.x - SAMPLE_SIZE, point.y) in blob
    ensures Filling(px, obj, start, blob, index + 1)
  {
    forall q | Adjacent(point, q) && IsObj(px, obj, q) ensures q in blob {
      assert q == Point(q.x, q.y);
    }
  }

  lemma FillingIn(px: Pixels, obj: int, start: Point, blob: Blob, index: nat, k: nat)
    requires Filling(px, obj, start, blob, index) && k < |blob|
    ensures blob[k] in px
  {
    ConnectedIsObj(px, obj, start, blob[k]);
  }

  lemma SameDomain(image: array2<int>, px: Pixels, s: set<Point>, done: int, obj: int, point: Point)
    requires PixelsOf(image) == Painted(px, s, done) && point in px
    ensures InImage(image, point) && forall p :: IsObj(px, obj, p) ==> InImage(image, p)
  {
    forall p | p in px || InImage(image, p) ensures p in px <==> InImage(image, p) {
      assert p == Point(p.x, p.y);
      assert p in px <==> p in PixelsOf(image);
    }
  }

  /** Visits the neighbours of `blob[index]` that lie in the image. */
  method VisitNeighbours(image: array2<int>, obj: int, index: nat, blob: Blob, ghost px: Pixels, ghost start: Point)
    returns (blob': Blob)
    requires obj != Done(obj) && Filling(px, obj, start, blob, index) && index < |blob|
    requires PixelsOf(image) == Painted(px, Points(blob), Done(obj))
    modifies image
    ensures Filling(px, obj, start, blob', index + 1)
    ensures PixelsOf(image) == Painted(px, Points(blob'), Done(obj))
  {
    blob' := blob;
    var point := blob[index];
    FillingIn(px, obj, start, blob, index, index);
    SameDomain(image, px, Points(blob), Done(obj), obj, point);
    hide Filling, Points, PixelsOf, Painted, Connected, NoDuplicates, IsObj;
    var i, j := point.y, point.x;
    if i + SAMPLE_SIZE < image.Length0 {
      blob' := Visit(image, obj, Point(j, i + SAMPLE_SIZE), blob', px, start, index);
    }
    if i - SAMPLE_SIZE >= 0 {
      blob' := Visit(image, obj, Point(j, i - SAMPLE_SIZE), blob', px, start, index);
    }
    if j + SAMPLE_SIZE < image.Length1 {
      blob' := Visit(image, obj, Point(j + SAMPLE_SIZE, i), blob', px, start, index);
    }
    if j - SAMPLE_SIZE >= 0 {
      blob' := Visit(image, obj, Point(j - SAMPLE_SIZE, i), blob', px, start, index);
    }
    NextPoint(px, obj, start, blob', index, point);
  }

  method FindBlob(image: array2<int>, i0: int, j0: int, obj: int) returns (blob: Blob)
    requires obj != Done(obj)
    requires InImage(image, Point(j0, i0)) && image[i0, j0] == obj
    modifies image
    ensures IsComponent(old(PixelsOf(image)), obj, Point(j0, i0), blob) && blob != [] && blob[0] == Point(j0, i0)
    ensures PixelsOf(image) == Painted(old(PixelsOf(image)), Points(blob), Done(obj))
  {
    ghost var px := PixelsOf(image);
    var start := Point(j0, i0);
    var index := 0;
    blob := [start];
    assert px == Painted(px, {}, Done(obj)) && Points(blob) == {} + {start};
    Mark(image, start, obj, px, {});
    assert IsObj(px, obj, start);
    ConnectedSelf(px, obj, start);
    assert Filling(px, obj, start, blob, 0);
    hide *;
    while index < |blob|
      invariant Filling(px, obj, start, blob, index)
      invariant PixelsOf(image) == Painted(px, Points(blob), Done(obj))
      decreases |px| - index
    {
      FillingBounded(px, obj, start, blob, index);
      blob := VisitNeighbours(image, obj, index, blob, px, start);
      index := index + 1;
    }
    FillingDone(px, obj, start, blob);
  }

  // ---- A mark that marks nothing ----

  /** The object pixels next to `p`, in the order they are visited. */
  function Neighbours(px: Pixels, obj: int, p: Point): seq<Point> {
    (if IsObj(px, obj, Point(p.x, p.y + SAMPLE_SIZE)) then [Point(p.x, p.y + SAMPLE_SIZE)] else []) +
    (if IsObj(px, obj, Point(p.x, p.y - SAMPLE_SIZE)) then [Point(p.x, p.y - SAMPLE_SIZE)] else []) +
    (if IsObj(px, obj, Point(p.x + SAMPLE_SIZE, p.y)) then [Point(p.x + SAMPLE_SIZE, p.y)] else []) +
    (if IsObj(px, obj, Point(p.x - SAMPLE_SIZE, p.y)) then [Point(p.x - SAMPLE_SIZE, p.y)] else [])
  }

  /** The list of a fill whose marks equal the object value, after `n` turns of its loop. */
  function Unmarked(px: Pixels, obj: int, start: Point, n: nat): seq<Point> {
    if n == 0 then [start] else
      var blob := Unmarked(px, obj, start, n - 1);
      if n - 1 < |blob| then blob + Neighbours(px, obj, blob[n - 1]) else blob
  }

  lemma NeighbourHasNeighbour(px: Pixels, obj: int, p: Point, q: Point)
    requires IsObj(px, obj, p) && q in Neighbours(px, obj, p)
    ensures IsObj(px, obj, q) && p in Neighbours(px, obj, q)
  {
    assert p == Point(p.x, p.y) && q == Point(q.x, q.y);
    assert Point(q.x, q.y + SAMPLE_SIZE) == p || Point(q.x, q.y - SAMPLE_SIZE) == p
        || Point(q.x + SAMPLE_SIZE, q.y) == p || Point(q.x - SAMPLE_SIZE, q.y) == p;
  }

  lemma {:induction false} UnmarkedGrows(px: Pixels, obj: int, start: Point, n: nat)
    requires IsObj(px, obj, start) && Neighbours(px, obj, start) != []
    ensures |Unmarked(px, obj, start, n)| > n
    ensures forall p :: p in Unmarked(px, obj, start, n) ==> IsObj(px, obj, p) && Neighbours(px, obj, p) != []
  {
    hide Neighbours, IsObj;
    if n > 0 {
      UnmarkedGrows(px, obj, start, n - 1);
      var p := Unmarked(px, obj, start, n - 1)[n - 1];
      forall q | q in Neighbours(px, obj, p) ensures IsObj(px, obj, q) && Neighbours(px, obj, q) != [] {
        NeighbourHasNeighbour(px, obj, p, q);
      }
    }
  }

  /** The value of the mark equals the object value only for 0. Then the fill ends if and only if the start has no
      object neighbour: otherwise the list stays longer than the turns made, for ever. */
  lemma MarkMustDiffer(px: Pixels, obj: int, start: Point)
    requires IsObj(px, obj, start)
    ensures Done(obj) == (if obj in {1, 3} then 255 else 0) && (obj == Done(obj) <==> obj == 0)
    ensures (exists n: nat :: |Unmarked(px, obj, start, n)| <= n) <==> Neighbours(px, obj, start) == []
  {
    if Neighbours(px, obj, start) != [] {
      forall n: nat ensures |Unmarked(px, obj, start, n)| > n {
        UnmarkedGrows(px, obj, start, n);
      }
    } else {
      assert Unmarked(px, obj, start, 0) == [start];
      assert |Unmarked(px, obj, start, 1)| <= 1;
    }
  }

  // ---- Components of a partly painted image ----

  lemma AdjacentSymmetric(p: Point, q: Point)
    requires Adjacent(p, q)
    ensures Adjacent(q, p)
  {}

  lemma ComponentClosed(px: Pixels, obj: int, a: Point, blob: Blob)
    requires IsComponent(px, obj, a, blob)
    ensures Closed(px, obj, Points(blob))
  {
    forall p, q | p in Points(blob) && Adjacent(p, q) && IsObj(px, obj, q) ensures q in Points(blob) {
      ConnectedStep(px, obj, a, p, q);
    }
  }

  lemma PathAvoids(px: Pixels, obj: int, done: int, u: set<Point>, ps: seq<Point>)
    requires obj != done && Closed(px, obj, u) && IsPath(px, obj, ps) && ps[0] !in u
    ensures IsPath(Painted(px, u, done), obj, ps)
  {
    var s := set p | p in px && px[p] == obj && p !in u;
    forall p, q | p in s && Adjacent(p, q) && IsObj(px, obj, q) ensures q in s {
      AdjacentSymmetric(p, q);
    }
    forall k | 0 <= k < |ps| ensures IsObj(Painted(px, u, done), obj, ps[k]) {
      PathStays(px, obj, s, ps, k);
    }
  }

  lemma PaintingKeepsConnections(px: Pixels, obj: int, done: int, u: set<Point>, a: Point, b: Point)
    requires obj != done && Closed(px, obj, u) && a !in u
    ensures Connected(Painted(px, u, done), obj, a, b) <==> Connected(px, obj, a, b)
    ensures Connected(px, obj, a, b) ==> b !in u
  {
    if Connected(Painted(px, u, done), obj, a, b) {
      var ps :| PathBetween(Painted(px, u, done), obj, ps, a, b);
      assert forall k :: 0 <= k < |ps| ==> IsObj(px, obj, ps[k]) by {
        assert forall k :: 0 <= k < |ps| ==> IsObj(Painted(px, u, done), obj, ps[k]);
      }
      assert PathBetween(px, obj, ps, a, b);
    }
    if Connected(px, obj, a, b) {
      var ps :| PathBetween(px, obj, ps, a, b);
      PathAvoids(px, obj, done, u, ps);
      assert PathBetween(Painted(px, u, done), obj, ps, a, b);
      assert IsObj(Painted(px, u, done), obj, ps[|ps| - 1]);
    }
  }

  /** Painting whole components over leaves every other component as it was. */
  lemma PaintingKeepsComponents(px: Pixels, obj: int, done: int, u: set<Point>, a: Point, blob: Blob)
    requires obj != done && Closed(px, obj, u) && IsObj(Painted(px, u, done), obj, a)
    ensures IsComponent(Painted(px, u, done), obj, a, blob) <==> IsComponent(px, obj, a, blob)
    ensures IsComponent(px, obj, a, blob) ==> Points(blob) !! u && Closed(px, obj, u + Points(blob))
  {
    assert a !in u;
    forall b ensures Connected(Painted(px, u, done), obj, a, b) <==> Connected(px, obj, a, b)
      ensures Connected(px, obj, a, b) ==> b !in u
    {
      PaintingKeepsConnections(px, obj, done, u, a, b);
    }
    if IsComponent(px, obj, a, blob) {
      ComponentClosed(px, obj, a, blob);
    }
  }

  // ---- Scanning the lattice ----

  /** The positions the scan visits. */
  predicate OnLattice(offset: int, p: Point) {
    p.x >= offset && p.y >= offset && (p.x - offset) % 4 == 0 && (p.y - offset) % 4 == 0
  }

  /** All the points of a list of blobs. */
  function Covered(found: seq<Blob>): set<Point> {
    if found == [] then {} else Covered(found[..|found| - 1]) + Points(found[|found| - 1])
  }

  /** Blobs that are components of the image, no two of which share a point. */
  ghost predicate Components(px: Pixels, obj: int, found: seq<Blob>) {
    && (forall k :: 0 <= k < |found| ==> found[k] != [] && IsComponent(px, obj, found[k][0], found[k]))
    && forall k, l :: 0 <= k < l < |found| ==> Points(found[k]) !! Points(found[l])
  }

  lemma {:induction false} CoveredHas(found: seq<Blob>, p: Point)
    ensures p in Covered(found) <==> exists k :: 0 <= k < |found| && p in Points(found[k])
  {
    if found != [] {
      var init := found[..|found| - 1];
      CoveredHas(init, p);
      if p in Covered(init) {
        var k :| 0 <= k < |init| && p in Points(init[k]);
        assert p in Points(found[k]);
      }
      if k :| 0 <= k < |found| && p in Points(found[k]) {
        assert k < |init| ==> p in Points(init[k]);
      }
    }
  }

  lemma OneMoreComponent(px: Pixels, obj: int, found: seq<Blob>, blob: Blob)
    requires Components(px, obj, found) && blob != [] && IsComponent(px, obj, blob[0], blob)
    requires Points(blob) !! Covered(found)
    ensures Components(px, obj, found + [blob])
    ensures Covered(found + [blob]) == Covered(found) + Points(blob)
  {
    assert (found + [blob])[..|found|] == found;
    assert Covered(found + [blob]) == Covered(found) + Points(blob);
    hide Covered, IsComponent, Points;
    forall k | 0 <= k < |found| ensures Points(found[k]) !! Points(blob) {
      forall p | p in Points(found[k]) ensures p in Covered(found) { CoveredHas(found, p); }
    }
  }

  /** What the scan has established when it stands at row `i`, column `j`. */
  ghost predicate Scanned(px: Pixels, obj: int, offset: int, i: int, j: int, found: seq<Blob>) {
    && Components(px, obj, found) && Closed(px, obj, Covered(found))
    && (forall k :: 0 <= k < |found| ==> OnLattice(offset, found[k][0]))
    && forall p :: IsObj(px, obj, p) && OnLattice(offset, p) && (p.y < i || (p.y == i && p.x < j)) ==> p in Covered(found)
  }

  lemma ScanPast(px: Pixels, obj: int, offset: int, i: int, j: int, found: seq<Blob>)
    requires Scanned(px, obj, offset, i, j, found) && OnLattice(offset, Point(j, i))
    requires IsObj(px, obj, Point(j, i)) ==> Point(j, i) in Covered(found)
    ensures Scanned(px, obj, offset, i, j + SAMPLE_SIZE, found)
  {
    hide Covered, Components, Closed;
    forall p | IsObj(px, obj, p) && OnLattice(offset, p) && (p.y < i || (p.y == i && p.x < j + SAMPLE_SIZE))
      ensures p in Covered(found)
    {
      if p.y == i && p.x >= j {
        assert p == Point(j, i);
      }
    }
  }

  lemma ScanNextRow(px: Pixels, obj: int, offset: int, i: int, j: int, width: int, found: seq<Blob>)
    requires Scanned(px, obj, offset, i, j, found) && width <= j && i >= offset && (i - offset) % 4 == 0
    requires forall p :: p in px ==> p.x < width
    ensures Scanned(px, obj, offset, i + SAMPLE_SIZE, offset, found)
  {
    hide Covered, Components, Closed;
    forall p | IsObj(px, obj, p) && OnLattice(offset, p) && p.y < i + SAMPLE_SIZE ensures p in Covered(found) {
      assert p.y <= i;
    }
  }

  lemma PaintedTwice(px: Pixels, s: set<Point>, t: set<Point>, done: int)
    ensures Painted(Painted(px, s, done), t, done) == Painted(px, s + t, done)
  {}

  lemma ScannedMore(px: Pixels, obj: int, offset: int, i: int, j: int, found: seq<Blob>, blob: Blob)
    requires Scanned(px, obj, offset, i, j, found) && blob != [] && OnLattice(offset, blob[0])
    requires Components(px, obj, found + [blob]) && Closed(px, obj, Covered(found + [blob]))
    requires Covered(found) <= Covered(found + [blob])
    ensures Scanned(px, obj, offset, i, j, found + [blob])
  {
    hide Components, Closed, Covered, IsObj, OnLattice;
  }

  /** The blob filled from an unpainted object pixel joins the components found so far. */
  lemma ScanFinds(px: Pixels, obj: int, offset: int, i: int, j: int, found: seq<Blob>, blob: Blob)
    requires obj != Done(obj) && Scanned(px, obj, offset, i, j, found) && OnLattice(offset, Point(j, i))
    requires IsObj(Painted(px, Covered(found), Done(obj)), obj, Point(j, i))
    requires IsComponent(Painted(px, Covered(found), Done(obj)), obj, Point(j, i), blob)
    requires blob != [] && blob[0] == Point(j, i)
    ensures Scanned(px, obj, offset, i, j + SAMPLE_SIZE, found + [blob])
    ensures Painted(Painted(px, Covered(found), Done(obj)), Points(blob), Done(obj)) ==
            Painted(px, Covered(found + [blob]), Done(obj))
  {
    assert Components(px, obj, found) && Closed(px, obj, Covered(found)) && blob[0] in Points(blob);
    hide *;
    PaintingKeepsComponents(px, obj, Done(obj), Covered(found), Point(j, i), blob);
    OneMoreComponent(px, obj, found, blob);
    PaintedTwice(px, Covered(found), Points(blob), Done(obj));
    ScannedMore(px, obj, offset, i, j, found, blob);
    ScanPast(px, obj, offset, i, j, found + [blob]);
  }

  /** A fill that starts on the lattice stays on it, if the lattice starts within four pixels of the image's corner. */
  lemma LatticeKept(px: Pixels, obj: int, offset: int, a: Point, b: Point)
    requires 0 <= offset < 4 && OnLattice(offset, a) && Connected(px, obj, a, b)
    requires forall p :: p in px ==> p.x >= 0 && p.y >= 0
    ensures OnLattice(offset, b)
  {
    var s := set p | p in px && OnLattice(offset, p);
    forall p, q | p in s && Adjacent(p, q) && IsObj(px, obj, q) ensures q in s {
      assert q in px;
    }
    var ps :| PathBetween(px, obj, ps, a, b);
    assert IsObj(px, obj, ps[0]);
    ClosedContains(px, obj, s, a, b);
  }

  lemma CoveredOnLattice(px: Pixels, obj: int, offset: int, found: seq<Blob>)
    requires 0 <= offset < 4 && Components(px, obj, found)
    requires forall k :: 0 <= k < |found| ==> OnLattice(offset, found[k][0])
    requires forall p :: p in px ==> p.x >= 0 && p.y >= 0
    ensures forall p :: p in Covered(found) ==> OnLattice(offset, p) && IsObj(px, obj, p)
  {
    hide Covered, Connected, OnLattice, IsObj;
    forall p | p in Covered(found) ensures OnLattice(offset, p) && IsObj(px, obj, p) {
      CoveredHas(found, p);
      var k :| 0 <= k < |found| && p in Points(found[k]);
      assert IsComponent(px, obj, found[k][0], found[k]);
      LatticeKept(px, obj, offset, found[k][0], p);
      ConnectedIsObj(px, obj, found[k][0], p);
    }
  }

  function MinPoints(obj: int): nat { if obj == 3 then MIN_POINTS_PATH else MIN_POINTS }

  /** The blobs of at least the minimum size, in the order found. */
  function Qualifying(found: seq<Blob>, obj: int): seq<Blob> {
    if found == [] then [] else
      Qualifying(found[..|found| - 1], obj) +
      if |found[|found| - 1]| >= MinPoints(obj) then [found[|found| - 1]] else []
  }

  lemma {:induction false} QualifyingExactly(found: seq<Blob>, obj: int, blob: Blob)
    ensures blob in Qualifying(found, obj) <==> blob in found && |blob| >= if obj == 3 then 400 else 200
  {
    if found != [] {
      QualifyingExactly(found[..|found| - 1], obj, blob);
      assert found == found[..|found| - 1] + [found[|found| - 1]];
    }
  }

  lemma ScanStarts(px: Pixels, obj: int, offset: int)
    ensures Scanned(px, obj, offset, offset, offset, [])
    ensures px == Painted(px, Covered([]), Done(obj))
  {}

  lemma ScanEnds(px: Pixels, obj: int, offset: int, i: int, height: int, found: seq<Blob>)
    requires Scanned(px, obj, offset, i, offset, found) && height <= i
    requires forall p :: p in px ==> p.y < height
    ensures Components(px, obj, found) && forall k :: 0 <= k < |found| ==> OnLattice(offset, found[k][0])
    ensures forall p :: IsObj(px, obj, p) && OnLattice(offset, p) ==> p in Covered(found)
  {}

  lemma PixelAt(image: array2<int>, i: int, j: int, obj: int)
    requires InImage(image, Point(j, i))
    ensures 0 <= i < image.Length0 && 0 <= j < image.Length1
    ensures Point(j, i) in PixelsOf(image) && PixelsOf(image)[Point(j, i)] == image[i, j]
    ensures image[i, j] == obj <==> IsObj(PixelsOf(image), obj, Point(j, i))
  {}

  lemma UnpaintedNotObj(px: Pixels, obj: int, s: set<Point>, done: int, p: Point)
    requires p in Painted(px, s, done) && Painted(px, s, done)[p] != obj
    ensures IsObj(px, obj, p) ==> p in s
  {}

  lemma ScanSkips(px: Pixels, obj: int, offset: int, i: int, j: int, found: seq<Blob>, now: Pixels)
    requires Scanned(px, obj, offset, i, j, found) && OnLattice(offset, Point(j, i))
    requires now == Painted(px, Covered(found), Done(obj)) && Point(j, i) in now && now[Point(j, i)] != obj
    ensures Scanned(px, obj, offset, i, j + SAMPLE_SIZE, found)
  {
    hide *;
    UnpaintedNotObj(px, obj, Covered(found), Done(obj), Point(j, i));
    ScanPast(px, obj, offset, i, j, found);
  }

  lemma QualifyingGrows(found: seq<Blob>, obj: int, blob: Blob)
    ensures Qualifying(found + [blob], obj) ==
            if |blob| >= MinPoints(obj) then Qualifying(found, obj) + [blob] else Qualifying(found, obj)
  {
    assert (found + [blob])[..|found|] == found;
  }

  lemma WithinImage(image: array2<int>)
    ensures forall p :: p in PixelsOf(image) ==> 0 <= p.x < image.Length1 && 0 <= p.y < image.Length0
  {}

  lemma QualifyingNone(obj: int)
    ensures Qualifying([], obj) == []
  {}

  /** One step of the scan: fills the blob at row `i`, column `j` if there is one. */
  method ScanPixel(image: array2<int>, offset: int, i: int, j: int, obj: int, qualified: seq<Blob>,
                   ghost px: Pixels, ghost found: seq<Blob>)
    returns (qualified': seq<Blob>, ghost found': seq<Blob>)
    requires obj != Done(obj) && InImage(image, Point(j, i)) && OnLattice(offset, Point(j, i))
    requires Scanned(px, obj, offset, i, j, found) && PixelsOf(image) == Painted(px, Covered(found), Done(obj))
    requires qualified == Qualifying(found, obj)
    modifies image
    ensures Scanned(px, obj, offset, i, j + SAMPLE_SIZE, found')
    ensures PixelsOf(image) == Painted(px, Covered(found'), Done(obj))
    ensures qualified' == Qualifying(found', obj)
  {
    hide *;
    qualified', found' := qualified, found;
    PixelAt(image, i, j, obj);
    if image[i, j] == obj {
      var blob := FindBlob(image, i, j, obj);
      ScanFinds(px, obj, offset, i, j, found, blob);
      QualifyingGrows(found, obj, blob);
      found' := found + [blob];
      if |blob| >= MinPoints(obj) {
        qualified' := qualified + [blob];
      }
    } else {
      ScanSkips(px, obj, offset, i, j, found, PixelsOf(image));
    }
  }
}
