/** The search for the best split in DLT.cpp: every attribute in a task of its own, the thresholds of an
    attribute in three chunks. The searches started asynchronously only read, so they are run here one after the other. */
module BestSplit {
  import opened DecisionTrees

  const TOO_HIGH: real := 1000000.0

  /** The cost of splitting on an attribute at a threshold. */
  type Cost = (nat, int) -> real

  /** What a float of the program keeps of a double. */
  type Narrowing = real -> real

  /** A tuple as a search returns it, with the cost narrowed; a default tuple is all zeros. */
  datatype Found = Found(cost: real, id: nat, value: int)

  const DEFAULT: Found := Found(0.0, 0, 0)

  datatype Best = None | Some(found: Found)

  /** The cost a newcomer has to beat. */
  function Bar(b: Best): real { if b.None? then TOO_HIGH else b.found.cost }

  /** `b` if it is strictly cheaper, otherwise `a`. */
  function Better(a: Best, b: Best): Best {
    if b.Some? && b.found.cost < Bar(a) then b else a
  }

  /** The cheapest threshold of attribute `i` in [lo, hi), the first of equals; none if none is below the
      initial bound. */
  function Cheapest(cost: Cost, i: nat, lo: int, hi: int): Best
    decreases hi - lo
  {
    if hi <= lo then None
    else Better(Cheapest(cost, i, lo, hi - 1), Some(Found(cost(i, hi - 1), i, hi - 1)))
  }

  function Narrowed(nar: Narrowing, f: Found): Found { f.(cost := nar(f.cost)) }

  /** What one chunk task returns: inside a chunk costs are compared as they are, but the tuple holds a float. */
  function Chunk(nar: Narrowing, cost: Cost, i: nat, lo: int, hi: int): Found {
    var b := Cheapest(cost, i, lo, hi);
    if b.None? then DEFAULT else Narrowed(nar, b.found)
  }

  /** The three bounds between chunks: j * biggest / 3. */
  function Bound(biggest: nat, j: nat): nat { j * biggest / 3 }

  /** Going through the tuples returned in order. */
  function Collect(tuples: seq<Found>): Best {
    if tuples == [] then None else Better(Collect(tuples[..|tuples| - 1]), Some(tuples[|tuples| - 1]))
  }

  function Chunks(nar: Narrowing, cost: Cost, i: nat, biggest: nat): seq<Found> {
    [Chunk(nar, cost, i, Bound(biggest, 0), Bound(biggest, 1)),
     Chunk(nar, cost, i, Bound(biggest, 1), Bound(biggest, 2)),
     Chunk(nar, cost, i, Bound(biggest, 2), Bound(biggest, 3))]
  }

  /** What the search of attribute `i` returns. */
  function Attribute(nar: Narrowing, cost: Cost, i: nat, biggest: nat): Found {
    var b := Collect(Chunks(nar, cost, i, biggest));
    if b.None? then DEFAULT else b.found
  }

  function Attributes(nar: Narrowing, cost: Cost, biggest: seq<nat>, n: nat): (tuples: seq<Found>)
    requires n <= |biggest|
    ensures |tuples| == n
  {
    if n == 0 then [] else Attributes(nar, cost, biggest, n - 1) + [Attribute(nar, cost, n - 1, biggest[n - 1])]
  }

  /** The split the chunked search ends with. */
  function ChunkedSplit(nar: Narrowing, cost: Cost, biggest: seq<nat>): (nat, int) {
    var b := Collect(Attributes(nar, cost, biggest, |biggest|));
    if b.None? then (0, 0) else (b.found.id, b.found.value)
  }

  // ---- The serial search ----

  /** The cheapest of all thresholds of the first `n` attributes, the first of equals. */
  function CheapestOfAll(cost: Cost, biggest: seq<nat>, n: nat): Best
    requires n <= |biggest|
  {
    if n == 0 then None else Better(CheapestOfAll(cost, biggest, n - 1), Cheapest(cost, n - 1, 0, biggest[n - 1]))
  }

  function SerialSplit(cost: Cost, biggest: seq<nat>): (nat, int) {
    var b := CheapestOfAll(cost, biggest, |biggest|);
    if b.None? then (0, 0) else (b.found.id, b.found.value)
  }

  predicate Candidate(biggest: seq<nat>, i: int, v: int) {
    0 <= i < |biggest| && 0 <= v < biggest[i]
  }

  /** Costs are never negative and always below the initial bound. */
  ghost predicate Bounded(cost: Cost) {
    forall i, v :: 0.0 <= cost(i, v) < TOO_HIGH
  }

  /** Rounding keeps the order, if not always strictly, and the small numbers a float holds. */
  ghost predicate Rounds(nar: Narrowing) {
    (forall x, y :: x <= y ==> nar(x) <= nar(y)) && nar(0.0) == 0.0 && nar(1.0) == 1.0 && nar(2.0) == 2.0
  }

  /** Costs that stay below the initial bound when they are narrowed, as entropies do. */
  ghost predicate Fits(nar: Narrowing, cost: Cost) {
    Bounded(cost) && forall i, v :: nar(cost(i, v)) < TOO_HIGH
  }

  /** Two costs that narrowing makes equal. */
  predicate Merges(nar: Narrowing, x: real, y: real) { 0.0 <= x < y < TOO_HIGH && nar(x) == nar(y) < TOO_HIGH }

  /** No two costs become equal. */
  ghost predicate Exact(nar: Narrowing) { forall x, y :: !Merges(nar, x, y) }

  predicate Before(i: int, v: int, i': int, v': int) { i < i' || (i == i' && v < v') }

  // What the serial search finds.

  lemma {:induction false} CheapestIsFirst(cost: Cost, i: nat, lo: int, hi: int)
    requires Bounded(cost)
    ensures var b := Cheapest(cost, i, lo, hi);
            if hi <= lo then b.None?
            else b.Some? && b.found.id == i && lo <= b.found.value < hi && b.found.cost == cost(i, b.found.value) &&
                 (forall v :: lo <= v < hi ==> b.found.cost <= cost(i, v)) &&
                 forall v :: lo <= v < b.found.value ==> b.found.cost < cost(i, v)
    decreases hi - lo
  {
    if lo < hi { CheapestIsFirst(cost, i, lo, hi - 1); }
  }

  /** The serial search finds the lexicographically first cheapest pair, if there is any pair at all. */
  lemma {:induction false} SerialIsFirst(cost: Cost, biggest: seq<nat>, n: nat)
    requires Bounded(cost) && n <= |biggest|
    ensures var b := CheapestOfAll(cost, biggest, n);
            if b.None? then forall i, v :: Candidate(biggest, i, v) ==> i >= n
            else b.found.id < n && Candidate(biggest, b.found.id, b.found.value) &&
                 b.found.cost == cost(b.found.id, b.found.value) &&
                 (forall i, v :: Candidate(biggest, i, v) && i < n ==> b.found.cost <= cost(i, v)) &&
                 forall i, v :: Candidate(biggest, i, v) && i < n && Before(i, v, b.found.id, b.found.value) ==> b.found.cost < cost(i, v)
  {
    if n > 0 {
      SerialIsFirst(cost, biggest, n - 1);
      CheapestIsFirst(cost, n - 1, 0, biggest[n - 1]);
    }
  }

  // The chunks put together.

  lemma BetterAssociative(a: Best, b: Best, c: Best)
    requires (a.Some? ==> a.found.cost < TOO_HIGH) && (b.Some? ==> b.found.cost < TOO_HIGH)
    ensures Better(Better(a, b), c) == Better(a, Better(b, c))
  {
  }

  lemma {:induction false} CheapestJoins(cost: Cost, i: nat, lo: int, mid: int, hi: int)
    requires Bounded(cost) && lo <= mid <= hi
    ensures Cheapest(cost, i, lo, hi) == Better(Cheapest(cost, i, lo, mid), Cheapest(cost, i, mid, hi))
    decreases hi - mid
  {
    if mid < hi {
      CheapestJoins(cost, i, lo, mid, hi - 1);
      CheapestIsFirst(cost, i, lo, mid);
      CheapestIsFirst(cost, i, mid, hi - 1);
      BetterAssociative(Cheapest(cost, i, lo, mid), Cheapest(cost, i, mid, hi - 1), Some(Found(cost(i, hi - 1), i, hi - 1)));
    }
  }

  /** The three chunks tile the thresholds, and none is empty exactly when there are at least three. */
  lemma ChunksTile(biggest: nat)
    ensures 0 == Bound(biggest, 0) <= Bound(biggest, 1) <= Bound(biggest, 2) <= Bound(biggest, 3) == biggest
    ensures biggest >= 3 <==> Bound(biggest, 0) < Bound(biggest, 1)
    ensures biggest >= 3 ==> Bound(biggest, 1) < Bound(biggest, 2) < Bound(biggest, 3)
  {
  }

  lemma CollectThree(a: Found, b: Found, c: Found)
    ensures Collect([a, b, c]) == Better(Better(Better(None, Some(a)), Some(b)), Some(c))
  {
    assert [a][..0] == [];
    assert Collect([a]) == Better(None, Some(a));
    assert [a, b][..1] == [a];
    assert Collect([a, b]) == Better(Collect([a]), Some(b));
    assert [a, b, c][..2] == [a, b];
  }

  function NarrowedBest(nar: Narrowing, b: Best): Best { if b.None? then None else Some(Narrowed(nar, b.found)) }

  /** Exact narrowing does not change which of two is better. */
  lemma BetterNarrowed(nar: Narrowing, a: Best, b: Best)
    requires Rounds(nar) && Exact(nar)
    requires Ahead(nar, a) && Ahead(nar, b)
    ensures NarrowedBest(nar, Better(a, b)) == Better(NarrowedBest(nar, a), NarrowedBest(nar, b))
  {
    if a.Some? && b.Some? {
      var x, y := a.found.cost, b.found.cost;
      assert !Merges(nar, y, x);
    }
  }

  /** What the three chunks of a wide attribute return. */
  lemma WideChunks(nar: Narrowing, cost: Cost, i: nat, biggest: nat) returns (a: Best, b: Best, c: Best)
    requires Fits(nar, cost) && biggest >= 3
    ensures a.Some? && b.Some? && c.Some?
    ensures var b1, b2 := Bound(biggest, 1), Bound(biggest, 2);
            a == Cheapest(cost, i, 0, b1) && b == Cheapest(cost, i, b1, b2) && c == Cheapest(cost, i, b2, biggest) &&
            Cheapest(cost, i, 0, biggest) == Better(Better(a, b), c)
    ensures Collect(Chunks(nar, cost, i, biggest))
         == Better(Better(NarrowedBest(nar, a), NarrowedBest(nar, b)), NarrowedBest(nar, c))
  {
    ChunksTile(biggest);
    var b1, b2 := Bound(biggest, 1), Bound(biggest, 2);
    a, b, c := Cheapest(cost, i, 0, b1), Cheapest(cost, i, b1, b2), Cheapest(cost, i, b2, biggest);
    CheapestIsFirst(cost, i, 0, b1);
    CheapestIsFirst(cost, i, b1, b2);
    CheapestIsFirst(cost, i, b2, biggest);
    CheapestJoins(cost, i, 0, b1, b2);
    CheapestJoins(cost, i, 0, b2, biggest);
    CollectThree(Narrowed(nar, a.found), Narrowed(nar, b.found), Narrowed(nar, c.found));
    hide Cheapest, Collect;
  }

  lemma WideAttribute(nar: Narrowing, cost: Cost, i: nat, biggest: nat)
    requires Rounds(nar) && Exact(nar) && Fits(nar, cost) && biggest >= 3
    ensures Some(Attribute(nar, cost, i, biggest)) == NarrowedBest(nar, Cheapest(cost, i, 0, biggest))
  {
    var a, b, c := WideChunks(nar, cost, i, biggest);
    ChunksTile(biggest);
    var b1, b2 := Bound(biggest, 1), Bound(biggest, 2);
    CheapestIsFirst(cost, i, 0, b1);
    CheapestIsFirst(cost, i, b1, b2);
    CheapestIsFirst(cost, i, b2, biggest);
    BetterNarrowed(nar, a, b);
    BetterNarrowed(nar, Better(a, b), c);
    hide Cheapest, Chunks, Collect, Rounds, Exact;
  }

  /** With fewer than three thresholds the first chunk is empty and its default tuple wins: the attribute
      reports cost zero for the split (0, 0), whatever the costs are. */
  lemma NarrowAttribute(nar: Narrowing, cost: Cost, i: nat, biggest: nat)
    requires Rounds(nar) && Bounded(cost) && biggest < 3
    ensures Attribute(nar, cost, i, biggest) == DEFAULT
  {
    ChunksTile(biggest);
    var b1, b2 := Bound(biggest, 1), Bound(biggest, 2);
    CheapestIsFirst(cost, i, b1, b2);
    CheapestIsFirst(cost, i, b2, biggest);
    CollectThree(Chunk(nar, cost, i, 0, b1), Chunk(nar, cost, i, b1, b2), Chunk(nar, cost, i, b2, biggest));
  }

  lemma CollectNone(nar: Narrowing, cost: Cost, biggest: seq<nat>)
    ensures Collect(Attributes(nar, cost, biggest, 0)) == None
  {
  }

  lemma CollectLast(nar: Narrowing, cost: Cost, biggest: seq<nat>, n: nat)
    requires 0 < n <= |biggest|
    ensures Collect(Attributes(nar, cost, biggest, n))
         == Better(Collect(Attributes(nar, cost, biggest, n - 1)), Some(Attribute(nar, cost, n - 1, biggest[n - 1])))
  {
    hide Attribute;
    assert Attributes(nar, cost, biggest, n)[..n - 1] == Attributes(nar, cost, biggest, n - 1);
  }

  /** The cost of what was found stays below the initial bound. */
  predicate Ahead(nar: Narrowing, b: Best) {
    b.Some? ==> 0.0 <= b.found.cost < TOO_HIGH && nar(b.found.cost) < TOO_HIGH
  }

  lemma SerialAhead(nar: Narrowing, cost: Cost, biggest: seq<nat>, n: nat)
    requires Fits(nar, cost) && n <= |biggest|
    ensures Ahead(nar, CheapestOfAll(cost, biggest, n))
    ensures n > 0 ==> Ahead(nar, Cheapest(cost, n - 1, 0, biggest[n - 1]))
  {
    SerialIsFirst(cost, biggest, n);
    if n > 0 { CheapestIsFirst(cost, n - 1, 0, biggest[n - 1]); }
    hide CheapestOfAll, Cheapest;
  }

  /** If narrowing is exact, the chunked search finds what the serial search finds. */
  lemma {:induction false} WideAgrees(nar: Narrowing, cost: Cost, biggest: seq<nat>, n: nat)
    requires Rounds(nar) && Exact(nar) && Fits(nar, cost) && n <= |biggest| && forall i :: 0 <= i < n ==> biggest[i] >= 3
    ensures Collect(Attributes(nar, cost, biggest, n)) == NarrowedBest(nar, CheapestOfAll(cost, biggest, n))
  {
    hide Attribute, Collect, Attributes, Cheapest, Exact, Rounds, Fits, Better, Ahead, NarrowedBest;
    if n == 0 {
      CollectNone(nar, cost, biggest);
      NoneNarrowed(nar);
    } else {
      WideAgrees(nar, cost, biggest, n - 1);
      WideAttribute(nar, cost, n - 1, biggest[n - 1]);
      CollectLast(nar, cost, biggest, n);
      SerialAhead(nar, cost, biggest, n - 1);
      SerialAhead(nar, cost, biggest, n);
      BetterNarrowed(nar, CheapestOfAll(cost, biggest, n - 1), Cheapest(cost, n - 1, 0, biggest[n - 1]));
    }
  }

  lemma NoneNarrowed(nar: Narrowing)
    ensures NarrowedBest(nar, None) == None
  {
  }

  // ---- What narrowing costs ----

  /** The best so far is a candidate, and after narrowing none of those seen is cheaper. */
  ghost predicate CheapestNarrowed(nar: Narrowing, cost: Cost, b: Best, seen: (int, int) -> bool) {
    b.Some? && b.found.cost == nar(cost(b.found.id, b.found.value)) && seen(b.found.id, b.found.value) &&
    forall i: nat, v :: seen(i, v) ==> b.found.cost <= nar(cost(i, v))
  }

  lemma BetterCheapest(nar: Narrowing, cost: Cost, a: Best, b: Best, left: (int, int) -> bool, right: (int, int) -> bool)
    requires CheapestNarrowed(nar, cost, a, left) && CheapestNarrowed(nar, cost, b, right)
    ensures CheapestNarrowed(nar, cost, Better(a, b), (i, v) => left(i, v) || right(i, v))
  {
  }

  function Stretch(i: nat, lo: int, hi: int): (int, int) -> bool { (k, v) => k == i && lo <= v < hi }

  lemma ChunkCheapest(nar: Narrowing, cost: Cost, i: nat, lo: int, hi: int)
    requires Rounds(nar) && Fits(nar, cost) && lo < hi
    ensures CheapestNarrowed(nar, cost, NarrowedBest(nar, Cheapest(cost, i, lo, hi)), Stretch(i, lo, hi))
  {
    CheapestIsFirst(cost, i, lo, hi);
  }

  lemma SeenSame(nar: Narrowing, cost: Cost, b: Best, seen: (int, int) -> bool, seen': (int, int) -> bool)
    requires CheapestNarrowed(nar, cost, b, seen) && forall i: nat, v :: seen(i, v) == seen'(i, v)
    ensures CheapestNarrowed(nar, cost, b, seen')
  {
  }

  lemma StretchesJoin(nar: Narrowing, cost: Cost, a: Best, b: Best, i: nat, lo: int, mid: int, hi: int)
    requires lo <= mid <= hi
    requires CheapestNarrowed(nar, cost, a, Stretch(i, lo, mid)) && CheapestNarrowed(nar, cost, b, Stretch(i, mid, hi))
    ensures CheapestNarrowed(nar, cost, Better(a, b), Stretch(i, lo, hi))
  {
    hide CheapestNarrowed, Better;
    var left, right := Stretch(i, lo, mid), Stretch(i, mid, hi);
    BetterCheapest(nar, cost, a, b, left, right);
    SeenSame(nar, cost, Better(a, b), (k, v) => left(k, v) || right(k, v), Stretch(i, lo, hi));
  }

  lemma FoundIsSome(nar: Narrowing, cost: Cost, b: Best, seen: (int, int) -> bool)
    requires CheapestNarrowed(nar, cost, b, seen)
    ensures b.Some?
  {
  }

  lemma AttributeCheapest(nar: Narrowing, cost: Cost, i: nat, biggest: nat)
    requires Rounds(nar) && Fits(nar, cost) && biggest >= 3
    ensures CheapestNarrowed(nar, cost, Some(Attribute(nar, cost, i, biggest)), Stretch(i, 0, biggest))
  {
    hide CheapestNarrowed, Cheapest, Chunks, Collect, Rounds, Fits, Better, NarrowedBest, Stretch;
    var a, b, c := WideChunks(nar, cost, i, biggest);
    ChunksTile(biggest);
    var b1, b2 := Bound(biggest, 1), Bound(biggest, 2);
    ChunkCheapest(nar, cost, i, 0, b1);
    ChunkCheapest(nar, cost, i, b1, b2);
    ChunkCheapest(nar, cost, i, b2, biggest);
    var a', b', c' := NarrowedBest(nar, a), NarrowedBest(nar, b), NarrowedBest(nar, c);
    StretchesJoin(nar, cost, a', b', i, 0, b1, b2);
    StretchesJoin(nar, cost, Better(a', b'), c', i, 0, b2, biggest);
    FoundIsSome(nar, cost, Better(Better(a', b'), c'), Stretch(i, 0, biggest));
  }

  function Below(biggest: seq<nat>, n: nat): (int, int) -> bool { (i, v) => Candidate(biggest, i, v) && i < n }

  lemma {:induction false} CollectCheapest(nar: Narrowing, cost: Cost, biggest: seq<nat>, n: nat)
    requires Rounds(nar) && Fits(nar, cost) && 0 < n <= |biggest| && AllWide(biggest)
    ensures CheapestNarrowed(nar, cost, Collect(Attributes(nar, cost, biggest, n)), Below(biggest, n))
  {
    hide CheapestNarrowed, Attribute, Collect, Attributes, Fits, Rounds;
    var last, new' := Some(Attribute(nar, cost, n - 1, biggest[n - 1])), Stretch(n - 1, 0, biggest[n - 1]);
    CollectLast(nar, cost, biggest, n);
    AttributeCheapest(nar, cost, n - 1, biggest[n - 1]);
    if n == 1 {
      CollectNone(nar, cost, biggest);
      FirstTaken(nar, cost, last, new');
      SeenSame(nar, cost, last, new', Below(biggest, 1));
    } else {
      CollectCheapest(nar, cost, biggest, n - 1);
      JoinLast(nar, cost, biggest, n, Collect(Attributes(nar, cost, biggest, n - 1)), last);
    }
  }

  lemma FirstTaken(nar: Narrowing, cost: Cost, b: Best, seen: (int, int) -> bool)
    requires Fits(nar, cost) && CheapestNarrowed(nar, cost, b, seen)
    ensures Better(None, b) == b
  {
  }

  lemma JoinLast(nar: Narrowing, cost: Cost, biggest: seq<nat>, n: nat, before: Best, last: Best)
    requires 0 < n <= |biggest| && CheapestNarrowed(nar, cost, before, Below(biggest, n - 1))
    requires CheapestNarrowed(nar, cost, last, Stretch(n - 1, 0, biggest[n - 1]))
    ensures CheapestNarrowed(nar, cost, Better(before, last), Below(biggest, n))
  {
    var seen, new' := Below(biggest, n - 1), Stretch(n - 1, 0, biggest[n - 1]);
    var both: (int, int) -> bool := (i, v) => seen(i, v) || new'(i, v);
    BetterCheapest(nar, cost, before, last, seen, new');
    SeenSame(nar, cost, Better(before, last), both, Below(biggest, n));
  }

  /** Whatever narrowing does, with three thresholds everywhere the split chosen is one whose narrowed cost is the least. */
  lemma WithinRounding(nar: Narrowing, cost: Cost, biggest: seq<nat>)
    requires Rounds(nar) && Fits(nar, cost) && AllWide(biggest) && biggest != []
    ensures var (id, value) := ChunkedSplit(nar, cost, biggest);
            Candidate(biggest, id, value) &&
            forall i, v :: Candidate(biggest, i, v) ==> nar(cost(id, value)) <= nar(cost(i, v))
  {
    CollectCheapest(nar, cost, biggest, |biggest|);
    var b, seen := Collect(Attributes(nar, cost, biggest, |biggest|)), Below(biggest, |biggest|);
    forall i, v | Candidate(biggest, i, v) ensures b.found.cost <= nar(cost(i, v)) { assert seen(i, v); }
  }

  // ---- When the two searches agree ----

  predicate AllWide(biggest: seq<nat>) {
    forall i :: 0 <= i < |biggest| ==> biggest[i] >= 3
  }

  /** (0, 0) is the only candidate there can be. */
  predicate OnlyDefault(biggest: seq<nat>) {
    forall i :: 0 <= i < |biggest| ==> biggest[i] <= if i == 0 then 1 else 0
  }

  lemma {:induction false} OnlyDefaultChunked(nar: Narrowing, cost: Cost, biggest: seq<nat>, n: nat)
    requires Rounds(nar) && Bounded(cost) && n <= |biggest| && OnlyDefault(biggest)
    ensures Collect(Attributes(nar, cost, biggest, n)) == if n == 0 then None else Some(DEFAULT)
  {
    hide Attribute, Collect, Attributes, Bounded;
    if n == 0 {
      CollectNone(nar, cost, biggest);
    } else {
      OnlyDefaultChunked(nar, cost, biggest, n - 1);
      NarrowAttribute(nar, cost, n - 1, biggest[n - 1]);
      CollectLast(nar, cost, biggest, n);
    }
  }

  lemma OnlyDefaultAgrees(nar: Narrowing, cost: Cost, biggest: seq<nat>)
    requires Rounds(nar) && Bounded(cost) && OnlyDefault(biggest)
    ensures ChunkedSplit(nar, cost, biggest) == SerialSplit(cost, biggest) == (0, 0)
  {
    OnlyDefaultChunked(nar, cost, biggest, |biggest|);
    SerialIsFirst(cost, biggest, |biggest|);
  }

  /** One candidate made cheaper than all others. */
  function Favour(i: nat, v: int, low: real, high: real): Cost { (x, y) => if x == i && y == v then low else high }

  /** Costs that stay ahead of zero when narrowed. */
  ghost predicate AtLeastOne(cost: Cost) { forall i, v :: cost(i, v) >= 1.0 }

  /** Once a narrow attribute has been collected, the default tuple is ahead of every positive cost. */
  lemma {:induction false} NarrowWins(nar: Narrowing, cost: Cost, biggest: seq<nat>, n: nat, narrow: nat)
    requires Rounds(nar) && Fits(nar, cost) && AtLeastOne(cost) && n <= |biggest|
    requires narrow < n && biggest[narrow] < 3
    ensures Collect(Attributes(nar, cost, biggest, n)) == Some(DEFAULT)
  {
    hide Attribute, Collect, Attributes, Fits, AtLeastOne, Rounds;
    CollectLast(nar, cost, biggest, n);
    AttributePositiveOrDefault(nar, cost, n - 1, biggest[n - 1]);
    if biggest[n - 1] >= 3 {
      NarrowWins(nar, cost, biggest, n - 1, narrow);
    } else {
      FitsBounded(nar, cost);
      NarrowAttribute(nar, cost, n - 1, biggest[n - 1]);
      CollectPositiveOrDefault(nar, cost, biggest, n - 1);
    }
  }

  lemma FitsBounded(nar: Narrowing, cost: Cost)
    requires Fits(nar, cost)
    ensures Bounded(cost)
  {
  }

  /** An attribute reports either the default or a positive cost. */
  lemma AttributePositiveOrDefault(nar: Narrowing, cost: Cost, i: nat, biggest: nat)
    requires Rounds(nar) && Fits(nar, cost) && AtLeastOne(cost)
    ensures var f := Attribute(nar, cost, i, biggest); f == DEFAULT || f.cost > 0.0
  {
    hide Attribute, Cheapest;
    if biggest >= 3 {
      AttributeCheapest(nar, cost, i, biggest);
      var f := Attribute(nar, cost, i, biggest);
      assert f.cost == nar(cost(f.id, f.value)) >= nar(1.0);
    } else {
      NarrowAttribute(nar, cost, i, biggest);
    }
  }

  lemma {:induction false} CollectPositiveOrDefault(nar: Narrowing, cost: Cost, biggest: seq<nat>, n: nat)
    requires Rounds(nar) && Fits(nar, cost) && AtLeastOne(cost) && n <= |biggest|
    ensures var b := Collect(Attributes(nar, cost, biggest, n)); b.None? || b.found == DEFAULT || b.found.cost > 0.0
  {
    hide Attribute, Collect, Attributes, Fits, AtLeastOne, Rounds;
    if n == 0 {
      CollectNone(nar, cost, biggest);
    } else {
      CollectLast(nar, cost, biggest, n);
      CollectPositiveOrDefault(nar, cost, biggest, n - 1);
      AttributePositiveOrDefault(nar, cost, n - 1, biggest[n - 1]);
    }
  }

  /** A narrow attribute and a candidate other than (0, 0): the searches disagree on some costs. */
  lemma NarrowDisagrees(nar: Narrowing, biggest: seq<nat>, narrow: nat, i: nat, v: int)
    requires Rounds(nar) && narrow < |biggest| && biggest[narrow] < 3
    requires Candidate(biggest, i, v) && (i, v) != (0, 0)
    ensures var cost := Favour(i, v, 1.0, 2.0);
            Fits(nar, cost) && ChunkedSplit(nar, cost, biggest) == (0, 0) && SerialSplit(cost, biggest) == (i, v)
  {
    var cost := Favour(i, v, 1.0, 2.0);
    NarrowWins(nar, cost, biggest, |biggest|, narrow);
    SerialIsFirst(cost, biggest, |biggest|);
  }

  /** With all costs equal after narrowing nothing that comes later is taken. */
  lemma {:induction false} FirstStays(nar: Narrowing, cost: Cost, biggest: seq<nat>, n: nat, level: real)
    requires Rounds(nar) && Fits(nar, cost) && 0 < n <= |biggest| && AllWide(biggest)
    requires (forall i, v :: nar(cost(i, v)) == level) && Cheapest(cost, 0, 0, Bound(biggest[0], 1)) == Some(Found(cost(0, 0), 0, 0))
    ensures Collect(Attributes(nar, cost, biggest, n)) == Some(Found(level, 0, 0))
  {
    CollectLast(nar, cost, biggest, n);
    AttributeCheapest(nar, cost, n - 1, biggest[n - 1]);
    if n == 1 {
      CollectNone(nar, cost, biggest);
      var a, b, c := WideChunks(nar, cost, 0, biggest[0]);
      ChunksTile(biggest[0]);
      CheapestIsFirst(cost, 0, Bound(biggest[0], 1), Bound(biggest[0], 2));
      CheapestIsFirst(cost, 0, Bound(biggest[0], 2), biggest[0]);
    } else {
      FirstStays(nar, cost, biggest, n - 1, level);
      hide Attribute, Collect, Attributes;
    }
  }

  lemma MergedCosts(nar: Narrowing, v: int, x: real, y: real)
    requires 0 < v && Merges(nar, x, y)
    ensures var cost := Favour(0, v, x, y); Fits(nar, cost) && forall i, w :: nar(cost(i, w)) == nar(x)
    ensures Cheapest(Favour(0, v, x, y), 0, 0, v) == Some(Found(y, 0, 0))
  {
    CheapestIsFirst(Favour(0, v, x, y), 0, 0, v);
    hide Cheapest;
  }

  /** Two costs that narrowing makes equal: the searches disagree when the cheaper one comes in the second chunk. */
  lemma MergedDisagrees(nar: Narrowing, biggest: seq<nat>, x: real, y: real)
    requires Rounds(nar) && AllWide(biggest) && biggest != [] && Merges(nar, x, y)
    ensures var v := Bound(biggest[0], 1);
            var cost := Favour(0, v, x, y);
            Fits(nar, cost) && ChunkedSplit(nar, cost, biggest) == (0, 0) && SerialSplit(cost, biggest) == (0, v) != (0, 0)
  {
    hide CheapestOfAll, SerialSplit, Cheapest, Collect, Attributes, Rounds, Fits;
    ChunksTile(biggest[0]);
    var v := Bound(biggest[0], 1);
    MergedCosts(nar, v, x, y);
    MergedIsSecond(biggest, v, x, y);
    FirstStays(nar, Favour(0, v, x, y), biggest, |biggest|, nar(x));
  }

  lemma MergedIsSecond(biggest: seq<nat>, v: int, x: real, y: real)
    requires biggest != [] && 0 < v < biggest[0] && 0.0 <= x < y < TOO_HIGH
    ensures SerialSplit(Favour(0, v, x, y), biggest) == (0, v)
  {
    SerialIsFirst(Favour(0, v, x, y), biggest, |biggest|);
    hide CheapestOfAll;
    assert Candidate(biggest, 0, v);
  }

  /** The chunked search is the serial search for all costs exactly when there is nothing but (0, 0) to choose, or every
      attribute has at least three thresholds and no two costs become equal as floats. */
  lemma SearchesAgree(nar: Narrowing, biggest: seq<nat>)
    requires Rounds(nar)
    ensures (forall cost: Cost :: Fits(nar, cost) ==> ChunkedSplit(nar, cost, biggest) == SerialSplit(cost, biggest))
       <==> OnlyDefault(biggest) || (AllWide(biggest) && Exact(nar))
  {
    if OnlyDefault(biggest) {
      forall cost: Cost | Fits(nar, cost) ensures ChunkedSplit(nar, cost, biggest) == SerialSplit(cost, biggest) {
        OnlyDefaultAgrees(nar, cost, biggest);
      }
    } else if !AllWide(biggest) {
      var narrow :| 0 <= narrow < |biggest| && biggest[narrow] < 3;
      var i :| 0 <= i < |biggest| && biggest[i] > if i == 0 then 1 else 0;
      NarrowDisagrees(nar, biggest, narrow, i, biggest[i] - 1);
    } else if Exact(nar) {
      forall cost: Cost | Fits(nar, cost) ensures ChunkedSplit(nar, cost, biggest) == SerialSplit(cost, biggest) {
        WideAgrees(nar, cost, biggest, |biggest|);
      }
    } else {
      var x, y :| Merges(nar, x, y);
      MergedDisagrees(nar, biggest, x, y);
    }
  }

  /** Rounding to the nearest multiple of 2^-23: what a float does to the numbers from 1 to 2. */
  function ToSingle(x: real): real { (x * 8388608.0 + 0.5).Floor as real / 8388608.0 }

  lemma FloorOrder(x: real, y: real)
    requires x <= y
    ensures ToSingle(x) <= ToSingle(y)
  {
    assert (x * 8388608.0 + 0.5).Floor <= (y * 8388608.0 + 0.5).Floor;
  }

  lemma FloorAt(y: real, n: int)
    requires n as real <= y < (n + 1) as real
    ensures y.Floor == n
  {
  }

  /** One attribute with three thresholds, costs 1.00000002, 1.00000001 and 1.00000002: the serial search takes the
      second threshold, the chunked search the first. */
  lemma FloatsDisagree()
    ensures Rounds(ToSingle)
    ensures var cost := Favour(0, 1, 1.00000001, 1.00000002);
            Fits(ToSingle, cost) && ChunkedSplit(ToSingle, cost, [3]) == (0, 0) && SerialSplit(cost, [3]) == (0, 1)
  {
    forall x, y | x <= y ensures ToSingle(x) <= ToSingle(y) { FloorOrder(x, y); }
    FloorAt(0.5, 0);
    FloorAt(1.0 * 8388608.0 + 0.5, 8388608);
    FloorAt(2.0 * 8388608.0 + 0.5, 16777216);
    FloorAt(1.00000001 * 8388608.0 + 0.5, 8388608);
    FloorAt(1.00000002 * 8388608.0 + 0.5, 8388608);
    assert ToSingle(0.0) == 0.0 && ToSingle(1.0) == 1.0 && ToSingle(2.0) == 2.0;
    assert ToSingle(1.00000001) == 1.0 && ToSingle(1.00000002) == 1.0;
    hide ToSingle, ChunkedSplit, SerialSplit;
    MergedDisagrees(ToSingle, [3], 1.00000001, 1.00000002);
  }

  // ---- The loops ----

  /** The largest value of attribute `i`, or 0. */
  function Largest(data: seq<Sample>, i: nat): nat
    requires i < ATTR
  {
    if data == [] then 0 else
      var rest := Largest(data[..|data| - 1], i);
      if rest < data[|data| - 1].attr[i] then data[|data| - 1].attr[i] else rest
  }

  function AllLargest(data: seq<Sample>, attr: nat): (biggest: seq<nat>)
    requires attr <= ATTR
    ensures |biggest| == attr
  {
    seq(attr, i requires 0 <= i < attr => Largest(data, i))
  }

  method BiggestValue(data: array<Sample>, i: nat) returns (biggest: nat)
    requires i < ATTR
    ensures biggest == Largest(data[..], i)
    ensures forall k :: 0 <= k < data.Length ==> data[k].attr[i] <= biggest
    ensures biggest == 0 || exists k :: 0 <= k < data.Length && data[k].attr[i] == biggest
  {
    biggest := 0;
    for j := 0 to data.Length
      invariant biggest == Largest(data[..j], i)
      invariant forall k :: 0 <= k < j ==> data[k].attr[i] <= biggest
      invariant biggest == 0 || exists k :: 0 <= k < j && data[k].attr[i] == biggest
    {
      assert data[..j + 1][..j] == data[..j];
      if biggest < data[j].attr[i] {
        biggest := data[j].attr[i];
      }
    }
    assert data[..data.Length] == data[..];
  }

  method SearchChunk(nar: Narrowing, cost: Cost, i: nat, lo: nat, hi: nat) returns (ret: Found)
    requires lo <= hi
    ensures ret == Chunk(nar, cost, i, lo, hi)
  {
    var lowest := TOO_HIGH;
    ret := DEFAULT;
    for v := lo to hi
      invariant lowest == Bar(Cheapest(cost, i, lo, v)) && ret == Chunk(nar, cost, i, lo, v)
    {
      var entropy := cost(i, v);
      if entropy < lowest {
        lowest := entropy;
        ret := Found(nar(entropy), i, v);
      }
    }
  }

  method SearchAttribute(nar: Narrowing, cost: Cost, data: array<Sample>, i: nat) returns (ret: Found)
    requires i < ATTR
    ensures ret == Attribute(nar, cost, i, Largest(data[..], i))
  {
    var biggest := BiggestValue(data, i);
    ChunksTile(biggest);
    var subTasks: seq<Found> := [];
    for j := 0 to 3
      invariant subTasks == Chunks(nar, cost, i, biggest)[..j]
    {
      ChunkBounds(biggest, j);
      var tup := SearchChunk(nar, cost, i, j * biggest / 3, (j + 1) * biggest / 3);
      subTasks := subTasks + [tup];
    }
    assert Chunks(nar, cost, i, biggest)[..3] == Chunks(nar, cost, i, biggest);
    var best := Gather(subTasks);
    return if best.None? then DEFAULT else best.found;
  }

  lemma ChunkBounds(biggest: nat, j: nat)
    requires j < 3
    ensures j * biggest / 3 <= (j + 1) * biggest / 3
  {
  }

  /** Keeps the first cheapest tuple; `Best` stands for the cost and tuple variables together. */
  method Gather(tuples: seq<Found>) returns (best: Best)
    ensures best == Collect(tuples)
  {
    var ent := TOO_HIGH;
    best := None;
    for i := 0 to |tuples|
      invariant best == Collect(tuples[..i]) && ent == Bar(best)
    {
      assert tuples[..i + 1][..i] == tuples[..i];
      var tup := tuples[i];
      if tup.cost < ent {
        ent := tup.cost;
        best := Some(tup);
      }
    }
    assert tuples[..|tuples|] == tuples;
  }

  method GetBestSplit(nar: Narrowing, cost: Cost, data: array<Sample>, attr: nat) returns (id: nat, value: int)
    requires attr <= ATTR
    ensures (id, value) == ChunkedSplit(nar, cost, AllLargest(data[..], attr))
  {
    ghost var biggest := AllLargest(data[..], attr);
    var tasks: seq<Found> := [];
    for i := 0 to attr
      invariant tasks == Attributes(nar, cost, biggest, i)
    {
      var tup := SearchAttribute(nar, cost, data, i);
      tasks := tasks + [tup];
    }
    var best := Gather(tasks);
    match best
    case None => return 0, 0;
    case Some(tup) => return tup.id, tup.value;
  }

  // ---- Training with this search ----

  /** The trainer of DLT.cpp for any entropy of a set and any cost of a split of it. */
  function ChunkedTrainer(nar: Narrowing, entropy: seq<Sample> -> real, cost: seq<Sample> -> Cost, attr: nat): Trainer
    requires attr <= ATTR
  {
    Trainer(entropy, data => ChunkedSplit(nar, cost(data), AllLargest(data, attr)))
  }

  lemma {:induction false} CheapestInside(cost: Cost, i: nat, lo: int, hi: int)
    ensures var b := Cheapest(cost, i, lo, hi); b.Some? ==> b.found.id == i && lo <= b.found.value < hi
    decreases hi - lo
  {
    if lo < hi { CheapestInside(cost, i, lo, hi - 1); }
  }

  lemma AttributeInside(nar: Narrowing, cost: Cost, i: nat, biggest: nat)
    ensures var f := Attribute(nar, cost, i, biggest); f.id in {0, i} && 0 <= f.value <= biggest
  {
    ChunksTile(biggest);
    var b1, b2 := Bound(biggest, 1), Bound(biggest, 2);
    CheapestInside(cost, i, 0, b1);
    CheapestInside(cost, i, b1, b2);
    CheapestInside(cost, i, b2, biggest);
    CollectThree(Chunk(nar, cost, i, 0, b1), Chunk(nar, cost, i, b1, b2), Chunk(nar, cost, i, b2, biggest));
  }

  lemma {:induction false} CollectInside(nar: Narrowing, cost: Cost, biggest: seq<nat>, n: nat, bound: nat)
    requires n <= |biggest| && forall i :: 0 <= i < n ==> biggest[i] <= bound
    ensures var b := Collect(Attributes(nar, cost, biggest, n)); b.Some? ==> b.found.id < n && 0 <= b.found.value <= bound
  {
    hide Attribute, Collect, Attributes;
    if n == 0 {
      CollectNone(nar, cost, biggest);
    } else {
      CollectLast(nar, cost, biggest, n);
      CollectInside(nar, cost, biggest, n - 1, bound);
      AttributeInside(nar, cost, n - 1, biggest[n - 1]);
    }
  }

  lemma {:induction false} LargestFits(data: seq<Sample>, i: nat)
    requires i < ATTR && IntSamples(data)
    ensures Largest(data, i) < 0x8000_0000
  {
    if data != [] {
      assert IntSample(data[|data| - 1]);
      LargestFits(data[..|data| - 1], i);
    }
  }

  /** The search keeps to attributes the samples have and to thresholds an int holds. */
  lemma ChunkedTrainerFits(nar: Narrowing, entropy: seq<Sample> -> real, cost: seq<Sample> -> Cost, attr: nat)
    requires attr <= ATTR
    ensures InRange(ChunkedTrainer(nar, entropy, cost, attr)) && IntTrainer(ChunkedTrainer(nar, entropy, cost, attr))
  {
    hide Collect, Attributes, Largest, IntSamples;
    var t := ChunkedTrainer(nar, entropy, cost, attr);
    forall d: seq<Sample> ensures t.choose(d).0 < ATTR {
      var biggest := AllLargest(d, attr);
      CollectInside(nar, cost(d), biggest, attr, Top(biggest));
    }
    forall d: seq<Sample> | IntSamples(d) ensures FitsInt(t.choose(d).1) {
      forall i | 0 <= i < attr ensures AllLargest(d, attr)[i] <= 0x7fff_ffff { LargestFits(d, i); }
      CollectInside(nar, cost(d), AllLargest(d, attr), attr, 0x7fff_ffff);
    }
  }

  function Top(biggest: seq<nat>): (top: nat)
    ensures forall i :: 0 <= i < |biggest| ==> biggest[i] <= top
  {
    if biggest == [] then 0 else
      var rest := Top(biggest[..|biggest| - 1]);
      if biggest[|biggest| - 1] > rest then biggest[|biggest| - 1] else rest
  }

  /** The products of the chunk bounds fit an int if and only if the attribute's maximum is at most this. */
  lemma ProductsFit(biggest: nat)
    ensures (forall j: nat :: j <= 3 ==> FitsInt(Product(j, biggest))) <==> biggest <= 715827882
  {
    assert Product(3, biggest) == 3 * biggest;
  }

  function Product(j: nat, biggest: nat): nat { j * biggest }

  /** The search always names an attribute the samples have, so what holds of every trainer holds of the
      one in use: depth never costs training accuracy, and no leaf alone does better. */
  lemma ChunkedTraining(nar: Narrowing, entropy: seq<Sample> -> real, cost: seq<Sample> -> Cost, attr: nat, data: seq<Sample>, depth: int)
    requires attr <= ATTR
    ensures var t := ChunkedTrainer(nar, entropy, cost, attr);
            InRange(t) &&
            Correct(Train(t, data, depth + 1), data) >= Correct(Train(t, data, depth), data) >= CountOf(data, Majority(data))
  {
    hide Collect, Attributes, Majority;
    var t := ChunkedTrainer(nar, entropy, cost, attr);
    ChunkedTrainerFits(nar, entropy, cost, attr);
    DeeperIsNoWorse(t, data, depth);
    AtLeastMajority(t, data, depth, Majority(data));
  }
}
