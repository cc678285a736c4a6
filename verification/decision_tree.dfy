/** Decision trees of DLT.cpp: training, classification, and what training guarantees. */
module DecisionTrees {
  const ATTR: nat := 5
  const EPSILON: real := 0.0001

  datatype RawSample = Sample(attr: seq<int>, kind: nat)

  type Sample = s: RawSample | |s.attr| == ATTR witness Sample([0, 0, 0, 0, 0], 0)

  /** A node is made either without children or with two; training makes a leaf with splitId = -1. */
  datatype Tree = Leaf(val: int) | Branch(id: int, val: int, low: Tree, high: Tree)

  ghost predicate WellFormed(t: Tree) {
    t.Branch? ==> t.id < ATTR && WellFormed(t.low) && WellFormed(t.high)
  }

  function Classify(t: Tree, s: Sample): int
    requires WellFormed(t)
  {
    match t
    case Leaf(val) => val
    case Branch(id, val, low, high) =>
      if id < 0 then val else if s.attr[id] > val then Classify(high, s) else Classify(low, s)
  }

  /** The numbers an int of the program holds. */
  predicate FitsInt(n: int) { -0x8000_0000 <= n < 0x8000_0000 }

  /** A tree as the program can hold it. */
  predicate IntTree(t: Tree) {
    FitsInt(t.val) && (t.Branch? ==> FitsInt(t.id) && IntTree(t.low) && IntTree(t.high))
  }

  predicate IntSample(s: Sample) { FitsInt(s.kind) && forall i :: 0 <= i < ATTR ==> FitsInt(s.attr[i]) }

  /** Samples as the program can hold them. */
  predicate IntSamples(data: seq<Sample>) { forall k :: 0 <= k < |data| ==> IntSample(data[k]) }

  // ---- Counting ----

  /** How many samples are of kind `k`. */
  function CountOf(data: seq<Sample>, k: int): nat {
    if data == [] then 0 else (if data[0].kind == k then 1 else 0) + CountOf(data[1..], k)
  }

  lemma {:induction false} CountSnoc(data: seq<Sample>, s: Sample, k: int)
    ensures CountOf(data + [s], k) == CountOf(data, k) + if s.kind == k then 1 else 0
  {
    if data != [] {
      assert (data + [s])[1..] == data[1..] + [s];
      CountSnoc(data[1..], s, k);
    }
  }

  /** The length of the C++ vector of counts: one more than the largest kind. */
  function Kinds(data: seq<Sample>): nat {
    if data == [] then 0 else
      var rest := Kinds(data[..|data| - 1]);
      if data[|data| - 1].kind >= rest then data[|data| - 1].kind + 1 else rest
  }

  lemma {:induction false} NoneBeyondKinds(data: seq<Sample>, k: int)
    requires k < 0 || k >= Kinds(data)
    ensures CountOf(data, k) == 0
  {
    if data != [] {
      var init, last := data[..|data| - 1], data[|data| - 1];
      NoneBeyondKinds(init, k);
      CountSnoc(init, last, k);
      assert data == init + [last];
    }
  }

  /** The kind a leaf answers with: no kind is more frequent, and no smaller kind is as frequent. */
  ghost predicate IsMajority(data: seq<Sample>, m: int) {
    m >= 0 && (forall k :: CountOf(data, k) <= CountOf(data, m)) &&
    forall k :: 0 <= k < m ==> CountOf(data, k) < CountOf(data, m)
  }

  lemma MajorityUnique(data: seq<Sample>, m: int, n: int)
    requires IsMajority(data, m) && IsMajority(data, n)
    ensures m == n
  {
  }

  /** The first kind below `n` with the largest count. */
  function FirstLargest(data: seq<Sample>, n: nat): nat {
    if n == 0 then 0 else
      var best := FirstLargest(data, n - 1);
      if CountOf(data, n - 1) > CountOf(data, best) then n - 1 else best
  }

  function Majority(data: seq<Sample>): nat { FirstLargest(data, Kinds(data)) }

  lemma {:induction false} FirstLargestIsFirst(data: seq<Sample>, n: nat)
    ensures var m := FirstLargest(data, n);
            (m == 0 || m < n) && (forall k :: 0 <= k < n ==> CountOf(data, k) <= CountOf(data, m)) &&
            forall k :: 0 <= k < m ==> CountOf(data, k) < CountOf(data, m)
  {
    if n > 0 { FirstLargestIsFirst(data, n - 1); }
  }

  lemma MajorityIsMajority(data: seq<Sample>)
    ensures IsMajority(data, Majority(data))
  {
    FirstLargestIsFirst(data, Kinds(data));
    forall k: int ensures CountOf(data, k) <= CountOf(data, Majority(data)) {
      if k < 0 || k >= Kinds(data) { NoneBeyondKinds(data, k); }
    }
  }

  // ---- Splitting ----

  /** The samples on one side of a split, in their order. */
  function Side(data: seq<Sample>, id: nat, value: int, greater: bool): seq<Sample>
    requires id < ATTR
  {
    if data == [] then []
    else
      var rest := Side(data[..|data| - 1], id, value, greater);
      var s := data[|data| - 1];
      if (s.attr[id] > value) == greater then rest + [s] else rest
  }

  /** Every sample goes to exactly one side. */
  lemma {:induction false} SidesSplitCount(data: seq<Sample>, id: nat, value: int, k: int)
    requires id < ATTR
    ensures CountOf(Side(data, id, value, true), k) + CountOf(Side(data, id, value, false), k) == CountOf(data, k)
  {
    if data != [] {
      var init, last := data[..|data| - 1], data[|data| - 1];
      assert data == init + [last];
      SidesSplitCount(init, id, value, k);
      CountSnoc(init, last, k);
      CountSnoc(Side(init, id, value, true), last, k);
      CountSnoc(Side(init, id, value, false), last, k);
    }
  }

  /** A side holds exactly the samples of its side of the threshold, as often as they occur. */
  lemma {:induction false} SideExactly(data: seq<Sample>, id: nat, value: int, greater: bool, s: Sample)
    requires id < ATTR
    ensures multiset(Side(data, id, value, greater))[s] ==
            if (s.attr[id] > value) == greater then multiset(data)[s] else 0
  {
    if data != [] {
      var init, last := data[..|data| - 1], data[|data| - 1];
      assert data == init + [last];
      SideExactly(init, id, value, greater, s);
    }
  }

  lemma {:induction false} SideSizes(data: seq<Sample>, id: nat, value: int)
    requires id < ATTR
    ensures |Side(data, id, value, true)| + |Side(data, id, value, false)| == |data|
  {
    if data != [] { SideSizes(data[..|data| - 1], id, value); }
  }

  // ---- Training ----

  /** What training leaves open: the entropy of a set of samples and the chosen split. */
  datatype Trainer = Trainer(entropy: seq<Sample> -> real, choose: seq<Sample> -> (nat, int))

  ghost predicate InRange(t: Trainer) {
    forall data :: t.choose(data).0 < ATTR
  }

  ghost function Train(t: Trainer, data: seq<Sample>, depth: int): (tree: Tree)
    requires InRange(t)
    ensures WellFormed(tree)
    decreases if depth <= 0 then 0 else depth
  {
    hide Majority, IsMajority;
    if depth <= 0 || t.entropy(data) < EPSILON then Leaf(Majority(data))
    else
      var (id, value) := t.choose(data);
      Branch(id, value, Train(t, Side(data, id, value, false), depth - 1), Train(t, Side(data, id, value, true), depth - 1))
  }

  /** On samples the program can hold, splits at thresholds it can hold. */
  ghost predicate IntTrainer(t: Trainer) {
    forall data :: IntSamples(data) ==> FitsInt(t.choose(data).1)
  }

  lemma {:induction false} KindsFit(data: seq<Sample>)
    requires IntSamples(data)
    ensures Kinds(data) <= 0x8000_0000
  {
    if data != [] {
      assert IntSample(data[|data| - 1]);
      KindsFit(data[..|data| - 1]);
    }
  }

  lemma {:induction false} SideFits(data: seq<Sample>, id: nat, value: int, greater: bool)
    requires id < ATTR && IntSamples(data)
    ensures IntSamples(Side(data, id, value, greater))
  {
    if data != [] {
      assert IntSample(data[|data| - 1]);
      SideFits(data[..|data| - 1], id, value, greater);
    }
  }

  /** Training on such samples makes a tree the program can hold. */
  lemma {:induction false} TrainedFits(t: Trainer, data: seq<Sample>, depth: int)
    requires InRange(t) && IntTrainer(t) && IntSamples(data)
    ensures IntTree(Train(t, data, depth))
    decreases if depth <= 0 then 0 else depth
  {
    hide Side, Kinds, CountOf, IntSamples;
    if depth <= 0 || t.entropy(data) < EPSILON {
      KindsFit(data);
      FirstLargestIsFirst(data, Kinds(data));
    } else {
      var (id, value) := t.choose(data);
      SideFits(data, id, value, false);
      SideFits(data, id, value, true);
      TrainedFits(t, Side(data, id, value, false), depth - 1);
      TrainedFits(t, Side(data, id, value, true), depth - 1);
    }
  }

  /** How many samples the tree classifies as their own kind. */
  ghost function Correct(tree: Tree, data: seq<Sample>): nat
    requires WellFormed(tree)
  {
    if data == [] then 0
    else Correct(tree, data[..|data| - 1]) + if Classify(tree, data[|data| - 1]) == data[|data| - 1].kind then 1 else 0
  }

  lemma {:induction false} LeafCorrect(val: int, data: seq<Sample>)
    ensures Correct(Leaf(val), data) == CountOf(data, val)
  {
    if data != [] {
      var init, last := data[..|data| - 1], data[|data| - 1];
      LeafCorrect(val, init);
      CountSnoc(init, last, val);
      assert data == init + [last];
    }
  }

  lemma CorrectSnoc(tree: Tree, data: seq<Sample>, s: Sample)
    requires WellFormed(tree)
    ensures Correct(tree, data + [s]) == Correct(tree, data) + if Classify(tree, s) == s.kind then 1 else 0
  {
    assert (data + [s])[..|data|] == data;
  }

  /** A branch sends each sample to the subtree that was trained on the side containing it. */
  lemma {:induction false} BranchCorrect(tree: Tree, data: seq<Sample>)
    requires WellFormed(tree) && tree.Branch? && tree.id >= 0
    ensures Correct(tree, data) == Correct(tree.high, Side(data, tree.id, tree.val, true))
                                 + Correct(tree.low, Side(data, tree.id, tree.val, false))
  {
    if data != [] {
      var init, last := data[..|data| - 1], data[|data| - 1];
      BranchCorrect(tree, init);
      CorrectSnoc(tree.high, Side(init, tree.id, tree.val, true), last);
      CorrectSnoc(tree.low, Side(init, tree.id, tree.val, false), last);
    }
  }

  /** No tree grown by training does worse than always answering one kind. */
  lemma {:induction false} AtLeastMajority(t: Trainer, data: seq<Sample>, depth: int, k: int)
    requires InRange(t)
    ensures Correct(Train(t, data, depth), data) >= CountOf(data, k)
    decreases if depth <= 0 then 0 else depth
  {
    hide Correct, Classify, Side, CountOf, Majority;
    if depth <= 0 || t.entropy(data) < EPSILON {
      LeafCorrect(Majority(data), data);
      MajorityIsMajority(data);
    } else {
      var (id, value) := t.choose(data);
      BranchCorrect(Train(t, data, depth), data);
      AtLeastMajority(t, Side(data, id, value, true), depth - 1, k);
      AtLeastMajority(t, Side(data, id, value, false), depth - 1, k);
      SidesSplitCount(data, id, value, k);
    }
  }

  /** Growing one level deeper never classifies fewer training samples correctly. */
  lemma {:induction false} DeeperIsNoWorse(t: Trainer, data: seq<Sample>, depth: int)
    requires InRange(t)
    ensures Correct(Train(t, data, depth + 1), data) >= Correct(Train(t, data, depth), data)
    decreases if depth <= 0 then 0 else depth
  {
    hide Correct, Classify, Side, CountOf, Majority;
    if depth <= 0 {
      LeafCorrect(Majority(data), data);
      AtLeastMajority(t, data, depth + 1, Majority(data));
    } else if t.entropy(data) >= EPSILON {
      var (id, value) := t.choose(data);
      BranchCorrect(Train(t, data, depth), data);
      BranchCorrect(Train(t, data, depth + 1), data);
      DeeperIsNoWorse(t, Side(data, id, value, true), depth - 1);
      DeeperIsNoWorse(t, Side(data, id, value, false), depth - 1);
    }
  }

  /** A sample at the threshold goes to the low side, one above it to the high side. */
  lemma ThresholdIsLow(id: nat, val: int, low: Tree, high: Tree, s: Sample)
    requires id < ATTR && WellFormed(low) && WellFormed(high)
    ensures s.attr[id] == val ==> Classify(Branch(id, val, low, high), s) == Classify(low, s)
    ensures s.attr[id] == val + 1 ==> Classify(Branch(id, val, low, high), s) == Classify(high, s)
  {
  }

  // ---- How far training goes ----

  /** All samples are of one kind. */
  ghost predicate OneKind(data: seq<Sample>) { forall i, j :: 0 <= i < |data| && 0 <= j < |data| ==> data[i].kind == data[j].kind }

  predicate Within(part: seq<Sample>, data: seq<Sample>) { forall k :: 0 <= k < |part| ==> part[k] in data }

  predicate Splits(data: seq<Sample>, id: nat, value: int) {
    id < ATTR && Side(data, id, value, true) != [] && Side(data, id, value, false) != []
  }

  /** Among these samples low entropy means one kind, and the split chosen for any others separates some of them. */
  ghost predicate Separates(t: Trainer, data: seq<Sample>) {
    forall part :: Within(part, data) ==>
      if t.entropy(part) < EPSILON then OneKind(part) else Splits(part, t.choose(part).0, t.choose(part).1)
  }

  function Branches(tree: Tree): nat { if tree.Leaf? then 0 else 1 + Branches(tree.low) + Branches(tree.high) }

  lemma {:induction false} OneKindCount(data: seq<Sample>, kind: int)
    requires forall i :: 0 <= i < |data| ==> data[i].kind == kind
    ensures CountOf(data, kind) == |data|
  {
    if data != [] { OneKindCount(data[1..], kind); }
  }

  lemma PureLeaf(data: seq<Sample>)
    requires OneKind(data)
    ensures Correct(Leaf(Majority(data)), data) == |data|
  {
    LeafCorrect(Majority(data), data);
    CountInside(data, Majority(data));
    if data != [] {
      OneKindCount(data, data[0].kind);
      MajorityIsMajority(data);
    }
  }

  lemma {:induction false} CountInside(data: seq<Sample>, k: int)
    ensures CountOf(data, k) <= |data|
  {
    if data != [] { CountInside(data[1..], k); }
  }

  /** Training goes on until all samples are told apart: with one level less than there are samples to spend, the tree is
      right on every one of them, and it branches less often than there are samples. */
  lemma {:induction false} TrainingSeparates(t: Trainer, data: seq<Sample>, depth: int)
    requires InRange(t) && Separates(t, data) && depth >= |data| - 1
    ensures Correct(Train(t, data, depth), data) == |data|
    ensures Branches(Train(t, data, depth)) < if data == [] then 1 else |data|
    decreases |data|
  {
    hide Correct, Classify, Majority, IsMajority, CountOf;
    assert Within(data, data);
    if t.entropy(data) < EPSILON {
      PureLeaf(data);
    } else {
      var (id, value) := t.choose(data);
      hide Side;
      SideSizes(data, id, value);
      BranchCorrect(Train(t, data, depth), data);
      SideSeparates(t, data, id, value, true);
      SideSeparates(t, data, id, value, false);
      TrainingSeparates(t, Side(data, id, value, true), depth - 1);
      TrainingSeparates(t, Side(data, id, value, false), depth - 1);
    }
  }

  lemma {:induction false} SideMembers(data: seq<Sample>, id: nat, value: int, greater: bool)
    requires id < ATTR
    ensures forall s :: s in Side(data, id, value, greater) ==> s in data && (s.attr[id] > value) == greater
  {
    if data != [] { SideMembers(data[..|data| - 1], id, value, greater); }
  }

  lemma SideSeparates(t: Trainer, data: seq<Sample>, id: nat, value: int, greater: bool)
    requires id < ATTR && Separates(t, data)
    ensures Separates(t, Side(data, id, value, greater))
  {
    SideMembers(data, id, value, greater);
    var side := Side(data, id, value, greater);
    hide Side, Splits;
    forall part: seq<Sample> | Within(part, side)
      ensures if t.entropy(part) < EPSILON then OneKind(part) else Splits(part, t.choose(part).0, t.choose(part).1)
    {
      forall k | 0 <= k < |part| ensures part[k] in data { assert part[k] in side; }
      assert Within(part, data);
    }
  }

  /** ... and no further: samples of one kind make a leaf. */
  lemma OneKindIsLeaf(t: Trainer, data: seq<Sample>, depth: int)
    requires InRange(t) && data != [] && OneKind(data) && t.entropy(data) < EPSILON
    ensures Train(t, data, depth) == Leaf(data[0].kind)
  {
    OneKindCount(data, data[0].kind);
    MajorityIsMajority(data);
    if Majority(data) != data[0].kind { OtherKinds(data, Majority(data)); }
  }

  lemma {:induction false} OtherKinds(data: seq<Sample>, k: int)
    requires forall i :: 0 <= i < |data| ==> data[i].kind != k
    ensures CountOf(data, k) == 0
  {
    if data != [] { OtherKinds(data[1..], k); }
  }

  // ---- When there is such training ----

  /** No two samples agree in all attributes and not in kind. */
  ghost predicate Consistent(data: seq<Sample>) {
    forall s, s' :: s in data && s' in data && (forall id :: 0 <= id < ATTR ==> s.attr[id] == s'.attr[id]) ==> s.kind == s'.kind
  }

  ghost function Splitter(data: seq<Sample>): (split: (nat, int))
    ensures split.0 < ATTR
    ensures (exists id, value :: Splits(data, id, value)) ==> Splits(data, split.0, split.1)
  {
    if id: nat, value :| Splits(data, id, value) then (id, value) else (0, 0)
  }

  lemma DifferentSplits(part: seq<Sample>, s: Sample, s': Sample, id: nat)
    requires s in part && s' in part && id < ATTR && s.attr[id] < s'.attr[id]
    ensures Splits(part, id, s.attr[id])
  {
    SideExactly(part, id, s.attr[id], true, s');
    SideExactly(part, id, s.attr[id], false, s);
    assert multiset(part)[s'] > 0 && multiset(part)[s] > 0;
  }

  /** Samples can be told apart by training exactly when they are consistent. */
  lemma SeparableExactly(data: seq<Sample>)
    ensures (exists t :: InRange(t) && Separates(t, data)) <==> Consistent(data)
  {
    if t :| InRange(t) && Separates(t, data) {
      forall s, s' | s in data && s' in data && forall id :: 0 <= id < ATTR ==> s.attr[id] == s'.attr[id]
        ensures s.kind == s'.kind
      {
        SameAttributes(t, data, s, s');
      }
    }
    if Consistent(data) { var t := SeparatingTrainer(data); }
  }

  lemma SameAttributes(t: Trainer, data: seq<Sample>, s: Sample, s': Sample)
    requires Separates(t, data) && s in data && s' in data && forall id :: 0 <= id < ATTR ==> s.attr[id] == s'.attr[id]
    ensures s.kind == s'.kind
  {
    var part := [s, s'];
    assert Within(part, data);
    if t.entropy(part) < EPSILON {
      assert part[0].kind == part[1].kind;
    } else {
      SameSide(s, s', t.choose(part).0, t.choose(part).1);
    }
  }

  lemma SameSide(s: Sample, s': Sample, id: nat, value: int)
    requires id < ATTR && s.attr[id] == s'.attr[id]
    ensures !Splits([s, s'], id, value)
  {
    var part := [s, s'];
    assert part[..1] == [s] && [s][..0] == [];
    assert Side([s], id, value, true) == if s.attr[id] > value then [s] else [];
    assert Side([s], id, value, false) == if s.attr[id] > value then [] else [s];
  }

  lemma SeparatingTrainer(data: seq<Sample>) returns (t: Trainer)
    requires Consistent(data)
    ensures InRange(t) && Separates(t, data)
  {
    ghost var entropy: seq<Sample> -> real := part => if OneKind(part) then 0.0 else 1.0;
    t := Trainer(entropy, part => Splitter(part));
    forall part: seq<Sample> | Within(part, data) && !OneKind(part)
      ensures Splits(part, Splitter(part).0, Splitter(part).1)
    {
      var i, j :| 0 <= i < |part| && 0 <= j < |part| && part[i].kind != part[j].kind;
      var id :| 0 <= id < ATTR && part[i].attr[id] != part[j].attr[id];
      if part[i].attr[id] < part[j].attr[id] {
        DifferentSplits(part, part[i], part[j], id);
      } else {
        DifferentSplits(part, part[j], part[i], id);
      }
    }
  }

  // ---- The loops ----

  /** Copies the samples on one side, keeping their order. */
  method SplitOn(data: array<Sample>, id: nat, value: int, greater: bool) returns (temp: array<Sample>)
    requires id < ATTR
    ensures fresh(temp) && temp[..] == Side(data[..], id, value, greater)
  {
    var ret := new Sample[data.Length];
    var retSize := 0;
    for i := 0 to data.Length
      invariant retSize <= i && ret[..retSize] == Side(data[..i], id, value, greater)
    {
      var s := data[i];
      assert data[..i + 1][..i] == data[..i];
      if (s.attr[id] <= value) != greater {
        ret[retSize] := s;
        retSize := retSize + 1;
      }
    }
    assert data[..data.Length] == data[..];
    temp := new Sample[retSize](k requires 0 <= k < retSize && retSize <= ret.Length reads ret => ret[k]);
    assert temp[..] == ret[..retSize];
  }

  /** Counts the kinds in a growing vector and returns the first with the largest count. */
  method LeafValue(data: array<Sample>) returns (val: int)
    ensures val == Majority(data[..]) && IsMajority(data[..], val)
  {
    var counts: seq<nat> := [];
    for i := 0 to data.Length
      invariant |counts| == Kinds(data[..i])
      invariant forall k :: 0 <= k < |counts| ==> counts[k] == CountOf(data[..i], k)
    {
      var s := data[i];
      ghost var seen := data[..i];
      assert data[..i + 1] == seen + [s] && (seen + [s])[..i] == seen;
      if s.kind >= |counts| {
        forall k | |counts| <= k <= s.kind ensures CountOf(seen, k) == 0 { NoneBeyondKinds(seen, k); }
        counts := counts + seq(s.kind + 1 - |counts|, _ => 0);
      }
      forall k: int ensures CountOf(seen + [s], k) == CountOf(seen, k) + if s.kind == k then 1 else 0 { CountSnoc(seen, s, k); }
      counts := counts[s.kind := counts[s.kind] + 1];
    }
    assert data[..data.Length] == data[..];
    var maxCount: nat := 0;
    for i := 0 to |counts|
      invariant maxCount == FirstLargest(data[..], i) && (i > 0 ==> maxCount < |counts|)
    {
      if counts[i] > counts[maxCount] {
        maxCount := i;
      }
    }
    MajorityIsMajority(data[..]);
    return maxCount;
  }

  /** The training constructor. */
  method Grow(t: Trainer, data: array<Sample>, depth: int) returns (tree: Tree)
    requires InRange(t)
    ensures tree == Train(t, data[..], depth)
    decreases if depth <= 0 then 0 else depth
  {
    hide Majority, IsMajority, Side, WellFormed;
    if depth <= 0 || t.entropy(data[..]) < EPSILON {
      var val := LeafValue(data);
      return Leaf(val);
    } else {
      var (id, value) := t.choose(data[..]);
      var highData := SplitOn(data, id, value, true);
      var lowData := SplitOn(data, id, value, false);
      var high := Grow(t, highData, depth - 1);
      var low := Grow(t, lowData, depth - 1);
      return Branch(id, value, low, high);
    }
  }
}
