/** Which blobs ImageRecognition.cpp keeps: all that qualify, or the biggest ones by way of a heap. */
module BlobSelection {
  import opened Blobs

  /** The library's heap operations on a range of blobs ordered by size. */
  datatype HeapLib = HeapLib(make: seq<Blob> -> seq<Blob>, pop: seq<Blob> -> seq<Blob>)

  predicate NotAboveParent(s: seq<Blob>, k: nat)
    requires 0 < k < |s|
  {
    |s[(k - 1) / 2]| >= |s[k]|
  }

  predicate IsHeap(s: seq<Blob>) {
    forall k :: 0 < k < |s| ==> NotAboveParent(s, k)
  }

  ghost predicate Permutation(s: seq<Blob>, t: seq<Blob>) { multiset(s) == multiset(t) }

  /** What the library promises of a pop: given a heap, the first element moves last and a heap is left in front
      of it. What happens to a range that is no heap is left open, but for its length. */
  ghost predicate Pops(s: seq<Blob>, popped: seq<Blob>) {
    && |popped| == |s|
    && (s != [] && IsHeap(s) ==>
          Permutation(popped, s) && popped[|s| - 1] == s[0] && IsHeap(popped[..|s| - 1]))
  }

  ghost predicate Makes(s: seq<Blob>, heap: seq<Blob>) { Permutation(heap, s) && IsHeap(heap) }

  /** The library's contract. */
  ghost predicate MeetsContract(lib: HeapLib) {
    (forall s :: Makes(s, lib.make(s))) && (forall s :: Pops(s, lib.pop(s)))
  }

  lemma {:induction false} RootIsBiggest(s: seq<Blob>, k: nat)
    requires IsHeap(s) && k < |s|
    ensures |s[0]| >= |s[k]|
  {
    if k > 0 {
      assert NotAboveParent(s, k);
      RootIsBiggest(s, (k - 1) / 2);
    }
  }

  lemma PermutationLength(s: seq<Blob>, t: seq<Blob>)
    requires Permutation(s, t)
    ensures |s| == |t|
  {
    assert |multiset(s)| == |s| && |multiset(t)| == |t|;
  }

  /** Every element of a permutation of a heap is at most as big as the root. */
  lemma RootIsBiggestOfAll(heap: seq<Blob>, s: seq<Blob>, k: nat)
    requires IsHeap(heap) && Permutation(s, heap) && k < |s|
    ensures heap != [] && |heap[0]| >= |s[k]|
  {
    assert s[k] in multiset(heap);
    var m :| 0 <= m < |heap| && heap[m] == s[k];
    RootIsBiggest(heap, m);
  }

  ghost predicate IsRest(all: seq<Blob>, chosen: seq<Blob>, rest: seq<Blob>) {
    multiset(all) == multiset(chosen) + multiset(rest) &&
    forall k, l :: 0 <= k < |chosen| && 0 <= l < |rest| ==> |chosen[k]| >= |rest[l]|
  }

  /** The chosen blobs are among all, and none left out is bigger than a chosen one. */
  ghost predicate Biggest(all: seq<Blob>, chosen: seq<Blob>) {
    exists rest :: IsRest(all, chosen, rest)
  }

  lemma FirstIsBiggest(all: seq<Blob>, heap: seq<Blob>)
    requires Makes(all, heap) && heap != []
    ensures Biggest(all, [heap[0]])
  {
    var rest := heap[1..];
    assert heap == [heap[0]] + rest;
    forall l | 0 <= l < |rest| ensures |heap[0]| >= |rest[l]| {
      RootIsBiggest(heap, l + 1);
    }
    assert IsRest(all, [heap[0]], rest);
  }

  lemma PoppedRest(heap: seq<Blob>, next: seq<Blob>)
    requires IsHeap(heap) && Pops(heap, next) && |heap| >= 2
    ensures multiset(heap) == multiset([heap[0], next[0]]) + multiset(next[1..|heap| - 1])
  {
    var n := |heap|;
    assert next == [next[0]] + next[1..n - 1] + [next[n - 1]];
  }

  lemma FirstTwoAreBiggest(all: seq<Blob>, heap: seq<Blob>, next: seq<Blob>)
    requires Makes(all, heap) && |heap| >= 2 && Pops(heap, next)
    ensures Biggest(all, [heap[0], next[0]])
  {
    var n := |heap|;
    var init, rest := next[..n - 1], next[1..n - 1];
    PoppedRest(heap, next);
    forall l | 0 <= l < |rest| ensures |heap[0]| >= |rest[l]| && |next[0]| >= |rest[l]| {
      assert rest[l] == init[l + 1] == next[l + 1] && init[0] == next[0];
      RootIsBiggest(init, l + 1);
      RootIsBiggestOfAll(heap, next, l + 1);
    }
    assert IsRest(all, [heap[0], next[0]], rest);
  }

  /** The first pop leaves the biggest blob in the range, as its last element; the range handed to a second pop
      is then a heap only if the parent of that element is as big. */
  lemma SecondPopNeedsTie(heap: seq<Blob>, next: seq<Blob>)
    requires IsHeap(heap) && Pops(heap, next) && |heap| >= 2
    ensures IsHeap(next) <==> |next[(|heap| - 2) / 2]| == |heap[0]|
  {
    var n := |heap|;
    var parent, init := (n - 2) / 2, next[..n - 1];
    RootIsBiggestOfAll(heap, next, parent);
    if IsHeap(next) {
      assert NotAboveParent(next, n - 1);
    }
    if |next[parent]| == |heap[0]| {
      forall k | 0 < k < n ensures NotAboveParent(next, k) {
        if k < n - 1 {
          assert NotAboveParent(init, k);
          assert init[k] == next[k] && init[(k - 1) / 2] == next[(k - 1) / 2];
        }
      }
      assert IsHeap(next);
    }
  }

  lemma CancelOne(s: seq<Blob>, t: seq<Blob>, b: Blob)
    requires multiset(s + [b]) == multiset([b] + t)
    ensures multiset(s) == multiset(t)
  {
    var m, n := multiset(s), multiset(t);
    assert m + multiset{b} == multiset{b} + n;
    forall c ensures m[c] == n[c] {
      assert (m + multiset{b})[c] == (multiset{b} + n)[c];
    }
  }

  lemma PoppedTail(heap: seq<Blob>, next: seq<Blob>)
    requires IsHeap(heap) && Pops(heap, next) && |heap| >= 2
    ensures multiset(next[..|heap| - 1]) == multiset(heap[1..])
  {
    var n := |heap|;
    assert next == next[..n - 1] + [heap[0]];
    assert heap == [heap[0]] + heap[1..];
    CancelOne(next[..n - 1], heap[1..], heap[0]);
  }

  /** So whenever one blob is bigger than all others, the second pop is called outside the library's contract. */
  lemma SecondPopOutsideContract(heap: seq<Blob>, next: seq<Blob>)
    requires IsHeap(heap) && Pops(heap, next) && |heap| >= 3
    requires forall k :: 0 < k < |heap| ==> |heap[k]| < |heap[0]|
    ensures !IsHeap(next)
  {
    SecondPopNeedsTie(heap, next);
    PoppedTail(heap, next);
    var parent, tail := (|heap| - 2) / 2, heap[1..];
    assert next[parent] == next[..|heap| - 1][parent];
    assert next[parent] in multiset(tail);
    var m :| 0 <= m < |tail| && tail[m] == next[parent];
    assert tail[m] == heap[m + 1] && |heap[m + 1]| < |heap[0]|;
  }

  // ---- What is selected ----

  /** The range after `n` pops. */
  ghost function Popped(lib: HeapLib, s: seq<Blob>, n: nat): (range: seq<Blob>)
    requires MeetsContract(lib)
    ensures |range| == |s|
  {
    if n == 0 then s else
      var before := Popped(lib, s, n - 1);
      assert Pops(before, lib.pop(before));
      lib.pop(before)
  }

  /** All blobs if there are at most `maxBlobs`, else the roots of the ranges, one at least. */
  ghost function Selected(lib: HeapLib, all: seq<Blob>, maxBlobs: nat): seq<Blob>
    requires MeetsContract(lib)
  {
    if |all| <= maxBlobs then all else
      assert Makes(all, lib.make(all));
      PermutationLength(lib.make(all), all);
      seq(if maxBlobs == 0 then 1 else maxBlobs, i requires 0 <= i => Popped(lib, lib.make(all), i)[0])
  }

  lemma PoppedStep(lib: HeapLib, s: seq<Blob>, n: nat)
    requires MeetsContract(lib)
    ensures Popped(lib, s, 0) == s && Popped(lib, s, n + 1) == lib.pop(Popped(lib, s, n))
  {}

  lemma SelectedCount(lib: HeapLib, all: seq<Blob>, maxBlobs: nat)
    requires MeetsContract(lib) && |all| > maxBlobs
    ensures |lib.make(all)| == |all| && |Selected(lib, all, maxBlobs)| == if maxBlobs == 0 then 1 else maxBlobs
  {
    hide Popped;
    assert Makes(all, lib.make(all));
    PermutationLength(lib.make(all), all);
  }

  lemma SelectedRoot(lib: HeapLib, all: seq<Blob>, maxBlobs: nat, k: nat)
    requires MeetsContract(lib) && |all| > maxBlobs && k < |Selected(lib, all, maxBlobs)|
    ensures |lib.make(all)| == |all|
    ensures Selected(lib, all, maxBlobs)[k] == Popped(lib, lib.make(all), k)[0]
  {
    hide Popped;
    SelectedCount(lib, all, maxBlobs);
  }

  /** Of what is selected, the first is a biggest blob and the first two are two biggest. */
  lemma FirstSelected(lib: HeapLib, all: seq<Blob>, maxBlobs: nat)
    requires MeetsContract(lib) && |all| > maxBlobs
    ensures var blobs := Selected(lib, all, maxBlobs);
            Biggest(all, blobs[..1]) && (maxBlobs >= 2 ==> Biggest(all, blobs[..2]))
  {
    var blobs, first := Selected(lib, all, maxBlobs), lib.make(all);
    assert Makes(all, first);
    PermutationLength(first, all);
    FirstIsBiggest(all, first);
    assert blobs[..1] == [first[0]];
    if maxBlobs >= 2 {
      var next := lib.pop(first);
      assert Pops(first, next) && Popped(lib, first, 1) == next;
      FirstTwoAreBiggest(all, first, next);
      assert blobs[..2] == [first[0], next[0]];
    }
  }

  lemma OneMore(s: seq<Blob>, i: nat)
    requires i < |s|
    ensures s[..i] + [s[i]] == s[..i + 1]
  {}

  /** The root of the heap, and the root after each further pop. */
  method SelectRoots(lib: HeapLib, all: seq<Blob>, maxBlobs: nat) returns (blobs: seq<Blob>)
    requires MeetsContract(lib) && |all| > maxBlobs
    ensures blobs == Selected(lib, all, maxBlobs)
  {
    var allBlobs := lib.make(all);
    ghost var first, selected := allBlobs, Selected(lib, all, maxBlobs);
    SelectedCount(lib, all, maxBlobs);
    PoppedStep(lib, first, 0);
    SelectedRoot(lib, all, maxBlobs, 0);
    hide *;
    blobs := [allBlobs[0]];
    var i := 1;
    while i < maxBlobs && |allBlobs| > 1
      invariant |allBlobs| == |all| && 1 <= i <= |selected| && blobs == selected[..i]
      invariant allBlobs == Popped(lib, first, i - 1)
      decreases maxBlobs - i
    {
      PoppedStep(lib, first, i - 1);
      SelectedRoot(lib, all, maxBlobs, i);
      OneMore(selected, i);
      allBlobs := lib.pop(allBlobs);
      blobs := blobs + [allBlobs[0]];
      i := i + 1;
    }
  }

  method Select(lib: HeapLib, all: seq<Blob>, maxBlobs: nat) returns (blobs: seq<Blob>)
    requires MeetsContract(lib)
    ensures blobs == Selected(lib, all, maxBlobs)
    ensures |all| <= maxBlobs ==> blobs == all
    ensures |all| > maxBlobs ==> |blobs| == if maxBlobs == 0 then 1 else maxBlobs
    ensures |all| > maxBlobs ==> Biggest(all, blobs[..1])
    ensures |all| > maxBlobs >= 2 ==> Biggest(all, blobs[..2])
  {
    if |all| <= maxBlobs {
      return all;
    }
    hide Selected, Biggest, MeetsContract;
    SelectedCount(lib, all, maxBlobs);
    FirstSelected(lib, all, maxBlobs);
    blobs := SelectRoots(lib, all, maxBlobs);
  }

  // ---- A library that meets the contract ----

  predicate Descending(s: seq<Blob>) { forall i, j :: 0 <= i < j < |s| ==> |s[i]| >= |s[j]| }

  function Insert(s: seq<Blob>, b: Blob): seq<Blob> {
    if s == [] || |s[0]| <= |b| then [b] + s else [s[0]] + Insert(s[1..], b)
  }

  function Sorted(s: seq<Blob>): seq<Blob> { if s == [] then [] else Insert(Sorted(s[1..]), s[0]) }

  lemma {:induction false} InsertCounts(s: seq<Blob>, b: Blob)
    ensures multiset(Insert(s, b)) == multiset(s) + multiset{b}
  {
    if s != [] && |s[0]| > |b| {
      InsertCounts(s[1..], b);
      assert s == [s[0]] + s[1..];
    }
  }

  lemma {:induction false} InsertDescends(s: seq<Blob>, b: Blob)
    requires Descending(s)
    ensures Descending(Insert(s, b))
    ensures forall k :: 0 <= k < |Insert(s, b)| ==> Insert(s, b)[k] == b || Insert(s, b)[k] in s
  {
    if s != [] && |s[0]| > |b| {
      InsertDescends(s[1..], b);
    }
  }

  lemma DescendingIsHeap(s: seq<Blob>)
    requires Descending(s)
    ensures IsHeap(s)
  {
    forall k | 0 < k < |s| ensures NotAboveParent(s, k) { assert 0 <= (k - 1) / 2 < k; }
  }

  lemma {:induction false} SortedDescends(s: seq<Blob>)
    ensures Permutation(Sorted(s), s) && Descending(Sorted(s))
  {
    hide Descending, Insert;
    if s == [] {
      assert Descending([]) by { DescendingNone(); }
    } else {
      SortedDescends(s[1..]);
      InsertCounts(Sorted(s[1..]), s[0]);
      InsertDescends(Sorted(s[1..]), s[0]);
      assert s == [s[0]] + s[1..];
    }
  }

  lemma DescendingNone()
    ensures Descending([])
  {}

  lemma SortedIsHeap(s: seq<Blob>)
    ensures Makes(s, Sorted(s))
  {
    SortedDescends(s);
    DescendingIsHeap(Sorted(s));
  }

  /** Sorting makes a heap; sorting what is behind the first element, and putting that last, pops it. */
  function SortingLib(): HeapLib {
    HeapLib(s => Sorted(s), s => if s == [] then [] else Sorted(s[1..]) + [s[0]])
  }

  lemma SortingLibMeetsContract()
    ensures MeetsContract(SortingLib())
  {
    var lib := SortingLib();
    forall s ensures Makes(s, lib.make(s)) { SortedIsHeap(s); }
    forall s ensures Pops(s, lib.pop(s)) {
      if s != [] {
        SortedIsHeap(s[1..]);
        PermutationLength(Sorted(s[1..]), s[1..]);
        assert s == [s[0]] + s[1..];
        assert lib.pop(s)[..|s| - 1] == Sorted(s[1..]);
      }
    }
  }

  // ---- When the selection is right ----

  predicate Distinct(all: seq<Blob>) { forall i, j :: 0 <= i < j < |all| ==> all[i] != all[j] }

  lemma {:induction false} DistinctOnce(s: seq<Blob>, b: Blob)
    requires Distinct(s)
    ensures multiset(s)[b] <= 1
  {
    if s != [] {
      var init, last := s[..|s| - 1], s[|s| - 1];
      assert s == init + [last];
      DistinctOnce(init, b);
      assert last !in init;
    }
  }

  lemma TwiceIn(s: seq<Blob>, i: nat, j: nat)
    requires i < j < |s| && s[i] == s[j]
    ensures multiset(s)[s[i]] >= 2
  {
    assert s == s[..i] + [s[i]] + s[i + 1..j] + [s[j]] + s[j + 1..];
  }

  /** The range after one pop with its root and the popped blob behind it exchanged. */
  function Exchanged(next: seq<Blob>): seq<Blob>
    requires next != []
  {
    next[0 := next[|next| - 1]][|next| - 1 := next[0]]
  }

  lemma ExchangedPermutes(next: seq<Blob>)
    requires |next| >= 2
    ensures Permutation(Exchanged(next), next)
  {
    var n := |next|;
    assert next == [next[0]] + next[1..n - 1] + [next[n - 1]];
    assert Exchanged(next) == [next[n - 1]] + next[1..n - 1] + [next[0]];
  }

  /** The contract allows a second pop to leave the range that way. If there is a tie it was called on a heap, but the
      root and the popped blob are then of the same size. */
  lemma SecondPopMayExchange(heap: seq<Blob>, next: seq<Blob>)
    requires IsHeap(heap) && Pops(heap, next) && |heap| >= 2
    ensures Pops(next, Exchanged(next))
  {
    var n, bad := |heap|, Exchanged(next);
    ExchangedPermutes(next);
    if IsHeap(next) {
      SecondPopNeedsTie(heap, next);
      RootIsBiggest(next, (n - 2) / 2);
      RootIsBiggestOfAll(heap, next, 0);
      var init := bad[..n - 1];
      forall k | 0 < k < n - 1 ensures NotAboveParent(init, k) {
        assert NotAboveParent(next, k);
      }
    }
  }

  /** A library like `lib` but for one range. */
  function Changed(lib: HeapLib, range: seq<Blob>, popped: seq<Blob>): HeapLib {
    HeapLib(lib.make, s => if s == range then popped else lib.pop(s))
  }

  lemma ChangedMeetsContract(lib: HeapLib, range: seq<Blob>, popped: seq<Blob>)
    requires MeetsContract(lib) && Pops(range, popped)
    ensures MeetsContract(Changed(lib, range, popped))
  {
    var changed := Changed(lib, range, popped);
    forall s ensures Makes(s, changed.make(s)) { assert Makes(s, lib.make(s)); }
    forall s ensures Pops(s, changed.pop(s)) { assert Pops(s, lib.pop(s)); }
  }

  /** For any blobs, tie or not, from the third on some library within its contract selects the first one again. */
  lemma SelectsTwice(all: seq<Blob>, maxBlobs: nat) returns (lib: HeapLib)
    requires Distinct(all) && |all| > maxBlobs >= 3
    ensures MeetsContract(lib)
    ensures var blobs := Selected(lib, all, maxBlobs); blobs[0] == blobs[2] && !Biggest(all, blobs)
  {
    var sorting := SortingLib();
    SortingLibMeetsContract();
    var first := sorting.make(all);
    var next := sorting.pop(first);
    assert Makes(all, first) && Pops(first, next);
    PermutationLength(first, all);
    SecondPopMayExchange(first, next);
    lib := Changed(sorting, next, Exchanged(next));
    ChangedMeetsContract(sorting, next, Exchanged(next));
    NextDiffers(all, first, next);
    assert lib.make(all) == first && lib.pop(first) == next && lib.pop(next) == Exchanged(next);
    assert first[0] == next[|next| - 1] == Exchanged(next)[0];
    hide *;
    PoppedStep(lib, first, 0);
    PoppedStep(lib, first, 1);
    SelectedCount(lib, all, maxBlobs);
    SelectedRoot(lib, all, maxBlobs, 0);
    SelectedRoot(lib, all, maxBlobs, 2);
    TwiceNotBiggest(all, Selected(lib, all, maxBlobs));
  }

  lemma NextDiffers(all: seq<Blob>, first: seq<Blob>, next: seq<Blob>)
    requires Distinct(all) && Makes(all, first) && Pops(first, next) && |first| >= 2
    ensures first != next
  {
    if first == next {
      TwiceIn(first, 0, |first| - 1);
      DistinctOnce(all, first[0]);
    }
  }

  lemma TwiceNotBiggest(all: seq<Blob>, blobs: seq<Blob>)
    requires Distinct(all) && |blobs| >= 3 && blobs[0] == blobs[2]
    ensures !Biggest(all, blobs)
  {
    TwiceIn(blobs, 0, 2);
    DistinctOnce(all, blobs[0]);
    forall rest ensures !IsRest(all, blobs, rest) {
      assert (multiset(blobs) + multiset(rest))[blobs[0]] >= 2;
    }
  }

  /** The blobs selected are the biggest ones, with every library that meets its contract, if and only if all are
      wanted or no more than two. */
  lemma SelectionRight(all: seq<Blob>, maxBlobs: nat)
    requires Distinct(all)
    ensures (forall lib :: MeetsContract(lib) ==> Biggest(all, Selected(lib, all, maxBlobs)))
       <==> |all| <= maxBlobs || maxBlobs <= 2
  {
    if |all| <= maxBlobs {
      assert IsRest(all, all, []);
    } else if maxBlobs <= 2 {
      forall lib | MeetsContract(lib) ensures Biggest(all, Selected(lib, all, maxBlobs)) {
        FirstSelected(lib, all, maxBlobs);
        var blobs := Selected(lib, all, maxBlobs);
        assert blobs == blobs[..if maxBlobs == 2 then 2 else 1];
      }
    } else {
      var lib := SelectsTwice(all, maxBlobs);
    }
  }

  /** A blob of `n` points in a column. */
  function Column(x: int, n: nat): Blob { seq(n, k requires 0 <= k < n => Point(x, 4 * k)) }

  /** Three of four blobs are wanted, of 4, 3, 2 and 1 points: the one of 4 points may come twice. */
  lemma ThreeOfFour() returns (lib: HeapLib)
    ensures MeetsContract(lib)
    ensures var all := [Column(0, 4), Column(8, 3), Column(16, 2), Column(24, 1)];
            var blobs := Selected(lib, all, 3);
            |blobs| == 3 && blobs[0] == blobs[2] == Column(0, 4) && !Biggest(all, blobs)
  {
    var all := [Column(0, 4), Column(8, 3), Column(16, 2), Column(24, 1)];
    ColumnsDiffer(all);
    lib := SelectsTwice(all, 3);
    SelectedCount(lib, all, 3);
    SelectedRoot(lib, all, 3, 0);
    assert Makes(all, lib.make(all));
    BiggestIsRoot(all, lib.make(all), 0);
  }

  lemma ColumnsDiffer(all: seq<Blob>)
    requires all == [Column(0, 4), Column(8, 3), Column(16, 2), Column(24, 1)]
    ensures Distinct(all) && forall k :: 0 < k < |all| ==> |all[k]| < |all[0]|
  {
    assert |all[0]| == 4 && |all[1]| == 3 && |all[2]| == 2 && |all[3]| == 1;
  }

  /** A blob bigger than all others is the root of the heap. */
  lemma BiggestIsRoot(all: seq<Blob>, heap: seq<Blob>, i: nat)
    requires Makes(all, heap) && i < |all| && forall k :: 0 <= k < |all| && k != i ==> |all[k]| < |all[i]|
    ensures heap != [] && heap[0] == all[i]
  {
    RootIsBiggestOfAll(heap, all, i);
    assert heap[0] in multiset(all);
    var k :| 0 <= k < |all| && all[k] == heap[0];
  }

  lemma FoundDistinct(px: Pixels, obj: int, found: seq<Blob>)
    requires Components(px, obj, found)
    ensures Distinct(Qualifying(found, obj))
  {
    forall i, j | 0 <= i < j < |found| ensures found[i] != found[j] {
      assert Points(found[i]) !! Points(found[j]) && found[i][0] in Points(found[i]);
    }
    QualifyingDistinct(found, obj);
  }

  lemma {:induction false} QualifyingDistinct(found: seq<Blob>, obj: int)
    requires Distinct(found)
    ensures Distinct(Qualifying(found, obj))
  {
    if found != [] {
      var init, last := found[..|found| - 1], found[|found| - 1];
      QualifyingDistinct(init, obj);
      QualifyingExactly(init, obj, last);
      assert last !in init;
    }
  }

  /** Fills every blob that starts on the lattice and selects among those that qualify. `found` lists them all. */
  method FindBlobs(lib: HeapLib, image: array2<int>, offset: int, maxBlobs: nat, obj: int)
    returns (blobs: seq<Blob>, ghost found: seq<Blob>)
    requires MeetsContract(lib) && obj != Done(obj) && offset >= 0
    modifies image
    ensures Components(old(PixelsOf(image)), obj, found)
    ensures forall k :: 0 <= k < |found| ==> OnLattice(offset, found[k][0])
    ensures forall p :: IsObj(old(PixelsOf(image)), obj, p) && OnLattice(offset, p) ==> p in Covered(found)
    ensures offset < 4 ==>
              forall p :: p in Covered(found) ==> OnLattice(offset, p) && IsObj(old(PixelsOf(image)), obj, p)
    ensures PixelsOf(image) == Painted(old(PixelsOf(image)), Covered(found), Done(obj))
    ensures Distinct(Qualifying(found, obj)) && blobs == Selected(lib, Qualifying(found, obj), maxBlobs)
    ensures |Qualifying(found, obj)| <= maxBlobs ==> blobs == Qualifying(found, obj)
    ensures |Qualifying(found, obj)| > maxBlobs ==> |blobs| == if maxBlobs == 0 then 1 else maxBlobs
    ensures |Qualifying(found, obj)| > maxBlobs ==> Biggest(Qualifying(found, obj), blobs[..1])
    ensures |Qualifying(found, obj)| > maxBlobs >= 2 ==> Biggest(Qualifying(found, obj), blobs[..2])
  {
    hide Scanned, Components, Painted, PixelsOf, Qualifying, Covered, IsObj, Biggest, MeetsContract, Closed, Selected, Distinct;
    ghost var px := PixelsOf(image);
    var allBlobs := [];
    found := [];
    ScanStarts(px, obj, offset);
    WithinImage(image);
    QualifyingNone(obj);
    var i := offset;
    while i < image.Length0
      invariant i >= offset && (i - offset) % 4 == 0
      invariant Scanned(px, obj, offset, i, offset, found)
      invariant PixelsOf(image) == Painted(px, Covered(found), Done(obj)) && allBlobs == Qualifying(found, obj)
    {
      var j := offset;
      while j < image.Length1
        invariant j >= offset && (j - offset) % 4 == 0
        invariant Scanned(px, obj, offset, i, j, found)
        invariant PixelsOf(image) == Painted(px, Covered(found), Done(obj)) && allBlobs == Qualifying(found, obj)
      {
        assert OnLattice(offset, Point(j, i)) && InImage(image, Point(j, i));
        allBlobs, found := ScanPixel(image, offset, i, j, obj, allBlobs, px, found);
        j := j + SAMPLE_SIZE;
      }
      ScanNextRow(px, obj, offset, i, j, image.Length1, found);
      i := i + SAMPLE_SIZE;
    }
    ScanEnds(px, obj, offset, i, image.Length0, found);
    FoundDistinct(px, obj, found);
    if offset < 4 {
      CoveredOnLattice(px, obj, offset, found);
    }
    blobs := Select(lib, allBlobs, maxBlobs);
  }
}
