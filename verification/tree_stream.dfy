/** Saving a decision tree as text and reading it back, in the trainer and in the deployed reader. */
module TreeStream {
  import BestSplit
  import opened DecisionTrees
  import opened Options

  // ---- Numbers ----

  function Digit(d: nat): char
    requires d < 10
  {
    ['0', '1', '2', '3', '4', '5', '6', '7', '8', '9'][d]
  }

  predicate IsDigit(c: char) { '0' <= c <= '9' }

  function DigitValue(c: char): nat
    requires IsDigit(c)
  {
    c as int - '0' as int
  }

  /** How a stream prints a number. */
  function Digits(n: nat): string {
    if n < 10 then [Digit(n)] else Digits(n / 10) + [Digit(n % 10)]
  }

  function Number(n: int): string { if n < 0 then "-" + Digits(-n) else Digits(n) }

  predicate IsSpace(c: char) { c == ' ' || c == '\n' || c == '\t' || c == '\r' }

  function SkipSpace(s: string): string {
    if s != [] && IsSpace(s[0]) then SkipSpace(s[1..]) else s
  }

  /** The value of the digits at the front, after digits worth `acc`, and what follows them. */
  function ReadDigits(s: string, acc: nat): (nat, string) {
    if s != [] && IsDigit(s[0]) then ReadDigits(s[1..], acc * 10 + DigitValue(s[0])) else (acc, s)
  }

  /** `fin >> n`: a number that an int holds. Any other text is a failed stream. */
  function ReadNumber(s: string): Option<(int, string)> {
    match ReadSigned(s)
    case None => None
    case Some((n, rest)) => if FitsInt(n) then Some((n, rest)) else None
  }

  /** White space, a sign, digits. */
  function ReadSigned(s: string): Option<(int, string)> {
    var t := SkipSpace(s);
    if t != [] && (t[0] == '-' || t[0] == '+') then
      var r := ReadUnsigned(t[1..]);
      if r.None? then None else Some((if t[0] == '-' then -r.value.0 else r.value.0, r.value.1))
    else ReadUnsigned(t)
  }

  function ReadUnsigned(s: string): Option<(int, string)> {
    if s == [] || !IsDigit(s[0]) then None
    else
      var (n, rest) := ReadDigits(s, 0);
      Some((n, rest))
  }

  /** The characters up to the next white space, and what follows. */
  function Word(s: string): (r: (string, string))
    ensures |r.0| + |r.1| == |s|
  {
    if s == [] || IsSpace(s[0]) then ([], s)
    else
      var (w, rest) := Word(s[1..]);
      ([s[0]] + w, rest)
  }

  // ---- Trees ----

  function LeafText(val: int): string { "Leaf " + Number(val) + "\n" }

  function BranchText(id: int, val: int): string { "Branch " + Number(id) + " " + Number(val) + "\n" }

  /** A node whose attribute is -1 is written as a leaf, children or not. */
  function SaveText(t: Tree): string {
    match t
    case Leaf(val) => LeafText(val)
    case Branch(id, val, low, high) =>
      if id == -1 then LeafText(val) else BranchText(id, val) + SaveText(low) + SaveText(high)
  }

  /** One line of a tree file, read. */
  datatype Node = LeafNode(val: int) | BranchNode(id: int, val: int)

  /** A word other than "Leaf" starts a branch. None stands for a stream that fails on the way. */
  function ReadNode(s: string): (r: Option<(Node, string)>)
    ensures r.Some? ==> |r.value.1| < |s|
  {
    SkipShrinks(s);
    var (word, s1) := Word(SkipSpace(s));
    if word == [] then None
    else
      ReadShrinks(s1);
      match ReadNumber(s1)
      case None => None
      case Some((first, s2)) =>
        if word == "Leaf" then Some((LeafNode(first), s2))
        else
          ReadShrinks(s2);
          match ReadNumber(s2)
          case None => None
          case Some((second, s3)) => Some((BranchNode(first, second), s3))
  }

  /** The stream constructor: the tree read and the text left. */
  function LoadText(s: string): (r: Option<(Tree, string)>)
    ensures r.Some? ==> |r.value.1| < |s|
    decreases |s|
  {
    match ReadNode(s)
    case None => None
    case Some((LeafNode(val), rest)) => Some((Leaf(val), rest))
    case Some((BranchNode(id, val), s1)) =>
      match LoadText(s1)
      case None => None
      case Some((low, s2)) =>
        match LoadText(s2)
        case None => None
        case Some((high, s3)) => Some((Branch(id, val, low, high), s3))
  }

  lemma SkipShrinks(s: string)
    ensures |SkipSpace(s)| <= |s|
  {
  }

  lemma DigitsShrink(s: string, acc: nat)
    ensures |ReadDigits(s, acc).1| <= |s|
  {
  }

  lemma ReadShrinks(s: string)
    ensures ReadNumber(s).Some? ==> |ReadNumber(s).value.1| <= |s|
  {
    var t := SkipSpace(s);
    SkipShrinks(s);
    DigitsShrink(t, 0);
    if t != [] { DigitsShrink(t[1..], 0); }
  }

  // ---- Reading undoes writing ----

  lemma {:induction false} DigitsStart(n: nat)
    ensures Digits(n) != [] && IsDigit(Digits(n)[0])
  {
    if n >= 10 { DigitsStart(n / 10); }
  }

  lemma ReadOneDigit(d: nat, tail: string, acc: nat)
    requires d < 10
    ensures ReadDigits([Digit(d)] + tail, acc) == ReadDigits(tail, acc * 10 + d)
  {
    assert IsDigit(Digit(d)) && DigitValue(Digit(d)) == d;
    hide Digit, IsDigit, DigitValue;
    assert ([Digit(d)] + tail)[1..] == tail;
  }

  lemma {:induction false} ReadUndoesDigits(n: nat, tail: string)
    ensures ReadDigits(Digits(n) + tail, 0) == ReadDigits(tail, n)
  {
    hide ReadDigits, Digit;
    if n < 10 {
      ReadOneDigit(n, tail, 0);
    } else {
      var last := [Digit(n % 10)];
      assert Digits(n) + tail == Digits(n / 10) + (last + tail);
      ReadUndoesDigits(n / 10, last + tail);
      ReadOneDigit(n % 10, tail, n / 10);
    }
  }

  lemma ReadUnsignedDigits(n: nat, tail: string)
    requires tail != [] && IsSpace(tail[0])
    ensures ReadUnsigned(Digits(n) + tail) == Some((n, tail))
  {
    DigitsStart(n);
    ReadUndoesDigits(n, tail);
    hide Digits;
  }

  lemma ReadSignedNumber(n: int, tail: string)
    requires tail != [] && IsSpace(tail[0])
    ensures var s := Number(n) + tail; !IsSpace(s[0]) && ReadSigned(s) == Some((n, tail))
  {
    hide ReadUnsigned, Digits;
    var m, s := if n < 0 then -n else n, Number(n) + tail;
    DigitsStart(m);
    ReadUnsignedDigits(m, tail);
    assert SkipSpace(s) == s;
    if n < 0 { assert s[1..] == Digits(m) + tail; }
  }

  /** A printed number followed by white space is read back, and the white space is left, if and only if an int holds
      it; otherwise the stream fails. */
  lemma ReadUndoesNumber(n: int, tail: string)
    requires tail != [] && IsSpace(tail[0])
    ensures ReadNumber(" " + Number(n) + tail) == if FitsInt(n) then Some((n, tail)) else None
  {
    ReadSignedNumber(n, tail);
    hide ReadUnsigned, Number, FitsInt;
    var s := Number(n) + tail;
    assert " " + Number(n) + tail == [' '] + s && ([' '] + s)[1..] == s;
    assert SkipSpace([' '] + s) == SkipSpace(s);
  }

  lemma {:induction false} WordEnds(w: string, tail: string)
    requires forall k :: 0 <= k < |w| ==> !IsSpace(w[k])
    requires tail != [] && IsSpace(tail[0])
    ensures Word(w + tail) == (w, tail)
  {
    if w == [] {
      assert w + tail == tail;
    } else {
      assert (w + tail)[1..] == w[1..] + tail;
      WordEnds(w[1..], tail);
      assert [w[0]] + w[1..] == w;
    }
  }

  /** Text that may stand before a saved tree: nothing, or the end of the line before. */
  predicate Lead(lead: string) { lead == "" || lead == "\n" }

  lemma SkipLead(lead: string, s: string)
    requires Lead(lead) && s != [] && !IsSpace(s[0])
    ensures SkipSpace(lead + s) == s
  {
    if lead == "\n" { assert (lead + s)[1..] == s; } else { assert lead + s == s; }
  }

  lemma ReadUndoesLeaf(lead: string, val: int, suffix: string)
    requires Lead(lead)
    ensures ReadNode(lead + LeafText(val) + suffix) == if FitsInt(val) then Some((LeafNode(val), "\n" + suffix)) else None
  {
    hide ReadNumber, Number, SkipSpace, Word;
    var rest := " " + Number(val) + ("\n" + suffix);
    assert lead + LeafText(val) + suffix == lead + ("Leaf" + rest);
    SkipLead(lead, "Leaf" + rest);
    WordEnds("Leaf", rest);
    ReadUndoesNumber(val, "\n" + suffix);
  }

  lemma ReadUndoesBranch(lead: string, id: int, val: int, suffix: string)
    requires Lead(lead)
    ensures ReadNode(lead + BranchText(id, val) + suffix) ==
            if FitsInt(id) && FitsInt(val) then Some((BranchNode(id, val), "\n" + suffix)) else None
    ensures Word(SkipSpace(lead + BranchText(id, val) + suffix)).0 == "Branch"
  {
    hide ReadNumber, Number, SkipSpace, Word;
    var rest2 := " " + Number(val) + ("\n" + suffix);
    var rest1 := " " + Number(id) + rest2;
    assert lead + BranchText(id, val) + suffix == lead + ("Branch" + rest1);
    SkipLead(lead, "Branch" + rest1);
    WordEnds("Branch", rest1);
    ReadUndoesNumber(id, rest2);
    ReadUndoesNumber(val, "\n" + suffix);
  }

  /** The tree with every attribute -1 turned into a leaf. */
  function Plain(t: Tree): Tree {
    match t
    case Leaf(val) => t
    case Branch(id, val, low, high) => if id == -1 then Leaf(val) else Branch(id, val, Plain(low), Plain(high))
  }

  /** A saved tree is read back whatever follows it, and exactly what follows is left unread, with the end of the last
      line, if and only if ints hold its numbers. */
  lemma {:induction false} LoadUndoesSave(lead: string, t: Tree, suffix: string)
    requires Lead(lead)
    ensures LoadText(lead + SaveText(t) + suffix) == if IntTree(Plain(t)) then Some((Plain(t), "\n" + suffix)) else None
    decreases t
  {
    hide ReadNode, LeafText, BranchText;
    match t
    case Leaf(val) => ReadUndoesLeaf(lead, val, suffix);
    case Branch(id, val, low, high) =>
      if id == -1 {
        ReadUndoesLeaf(lead, val, suffix);
      } else {
        var l, h := SaveText(low), SaveText(high);
        assert lead + SaveText(t) + suffix == lead + BranchText(id, val) + (l + h + suffix);
        ReadUndoesBranch(lead, id, val, l + h + suffix);
        assert "\n" + (l + h + suffix) == "\n" + l + (h + suffix);
        LoadUndoesSave("\n", low, h + suffix);
        assert "\n" + (h + suffix) == "\n" + h + suffix;
        LoadUndoesSave("\n", high, suffix);
      }
  }

  predicate NoHiddenLeaf(t: Tree) {
    t.Branch? ==> t.id != -1 && NoHiddenLeaf(t.low) && NoHiddenLeaf(t.high)
  }

  /** A tree as it stands in a file, the low side first. */
  lemma SavedTree()
    ensures SaveText(Branch(0, 5, Leaf(1), Leaf(2))) == "Branch 0 5\n" + "Leaf 1\n" + "Leaf 2\n"
    ensures BranchText(2, -7) == "Branch 2 -7\n"
  {
    SavedLeaf(1, '1');
    SavedLeaf(2, '2');
    SavedBranches();
    hide LeafText, BranchText;
  }

  lemma SavedLeaf(val: nat, digit: char)
    requires val < 10 && digit == Digit(val)
    ensures LeafText(val) == "Leaf " + [digit] + "\n"
  {
  }

  lemma SavedBranches()
    ensures BranchText(0, 5) == "Branch 0 5\n" && BranchText(2, -7) == "Branch 2 -7\n"
  {
    assert Number(0) == "0" && Number(5) == "5" && Number(2) == "2" && Number(-7) == "-7";
    hide Number;
  }

  /** Reading undoes writing exactly for the trees without a branch on attribute -1. */
  lemma {:induction false} PlainExactly(t: Tree)
    ensures Plain(t) == t <==> NoHiddenLeaf(t)
  {
    if t.Branch? {
      PlainExactly(t.low);
      PlainExactly(t.high);
    }
  }

  lemma {:induction false} PlainClassifies(t: Tree, s: Sample)
    requires WellFormed(t)
    ensures WellFormed(Plain(t)) && Classify(Plain(t), s) == Classify(t, s)
  {
    if t.Branch? {
      PlainClassifies(t.low, s);
      PlainClassifies(t.high, s);
    }
  }

  lemma {:induction false} TrainedIsPlain(t: Trainer, data: seq<Sample>, depth: int)
    requires InRange(t)
    ensures NoHiddenLeaf(Train(t, data, depth))
    decreases if depth <= 0 then 0 else depth
  {
    if depth > 0 && t.entropy(data) >= EPSILON {
      var (id, value) := t.choose(data);
      TrainedIsPlain(t, Side(data, id, value, false), depth - 1);
      TrainedIsPlain(t, Side(data, id, value, true), depth - 1);
    }
  }

  lemma {:induction false} PlainFits(t: Tree)
    requires IntTree(t)
    ensures IntTree(Plain(t))
  {
    if t.Branch? {
      PlainFits(t.low);
      PlainFits(t.high);
    }
  }

  /** Every saved tree classifies after loading as it did before; a trained tree is loaded as it was. */
  lemma DeployedClassifies(t: Tree, suffix: string, s: Sample)
    requires WellFormed(t) && IntTree(t)
    ensures var r := LoadText(SaveText(t) + suffix);
            r.Some? && WellFormed(r.value.0) && Classify(r.value.0, s) == Classify(t, s)
  {
    hide LoadText, SaveText, Plain, Classify, WellFormed, IntTree;
    PlainFits(t);
    assert "" + SaveText(t) + suffix == SaveText(t) + suffix;
    LoadUndoesSave("", t, suffix);
    PlainClassifies(t, s);
  }

  lemma TrainedRoundTrip(t: Trainer, data: seq<Sample>, depth: int, suffix: string)
    requires InRange(t) && IntTrainer(t) && IntSamples(data)
    ensures LoadText(SaveText(Train(t, data, depth)) + suffix) == Some((Train(t, data, depth), "\n" + suffix))
  {
    hide LoadText, SaveText, Plain, NoHiddenLeaf, IntTree, Train;
    var tree := Train(t, data, depth);
    assert "" + SaveText(tree) + suffix == SaveText(tree) + suffix;
    LoadUndoesSave("", tree, suffix);
    TrainedIsPlain(t, data, depth);
    TrainedFits(t, data, depth);
    PlainExactly(tree);
  }

  /** In particular the trees of the program's own search, for samples the program can hold. */
  lemma ChunkedRoundTrip(nar: BestSplit.Narrowing, entropy: seq<Sample> -> real, cost: seq<Sample> -> BestSplit.Cost, attr: nat,
                         data: seq<Sample>, depth: int, suffix: string)
    requires attr <= ATTR && IntSamples(data)
    ensures var t := BestSplit.ChunkedTrainer(nar, entropy, cost, attr);
            InRange(t) && LoadText(SaveText(Train(t, data, depth)) + suffix) == Some((Train(t, data, depth), "\n" + suffix))
  {
    BestSplit.ChunkedTrainerFits(nar, entropy, cost, attr);
    TrainedRoundTrip(BestSplit.ChunkedTrainer(nar, entropy, cost, attr), data, depth, suffix);
    hide LoadText, SaveText, Train, BestSplit.ChunkedTrainer;
  }

  // ---- Streams ----

  class Stream {
    var text: string

    constructor (text: string)
      ensures this.text == text
    {
      this.text := text;
    }
  }

  method Save(t: Tree, fout: Stream)
    modifies fout
    ensures fout.text == old(fout.text) + SaveText(t)
    decreases t
  {
    hide LeafText, BranchText;
    match t
    case Leaf(val) => fout.text := fout.text + LeafText(val);
    case Branch(id, val, low, high) =>
      if id == -1 {
        fout.text := fout.text + LeafText(val);
      } else {
        fout.text := fout.text + BranchText(id, val);
        Save(low, fout);
        Save(high, fout);
      }
  }

  // ---- When reading ends ----

  /** The text ahead of a stream that still works, or a stream that has failed and reads nothing more. */
  datatype Flow = Text(text: string) | Failed

  /** The reader's constructor, as far as `n` nested calls go: the stream it leaves, or none if it is not done by then.
      On a failed stream the word read stays empty, which is not "Leaf". */
  function Constructed(f: Flow, n: nat): Option<Flow>
    decreases n, 1
  {
    if n == 0 then None
    else if f.Failed? then Children(Failed, n)
    else
      var (word, s1) := Word(SkipSpace(f.text));
      if word == [] then Children(Failed, n)
      else
        match ReadNumber(s1)
        case None => if word == "Leaf" then Some(Failed) else Children(Failed, n)
        case Some((_, s2)) =>
          if word == "Leaf" then Some(Text(s2))
          else
            match ReadNumber(s2)
            case None => Children(Failed, n)
            case Some((_, s3)) => Children(Text(s3), n)
  }

  function Children(f: Flow, n: nat): Option<Flow>
    requires n > 0
    decreases n, 0
  {
    match Constructed(f, n - 1)
    case None => None
    case Some(g) => Constructed(g, n - 1)
  }

  /** The text of a tree but for the number of its very last leaf, which is missing or too big for an int. */
  predicate Torn(s: string)
    decreases |s|
  {
    match ReadNode(s)
    case None => Word(SkipSpace(s)).0 == "Leaf"
    case Some((LeafNode(_), _)) => false
    case Some((BranchNode(_, _), s1)) =>
      match LoadText(s1)
      case None => false
      case Some((_, s2)) => Torn(s2)
  }

  lemma {:induction false} FailedNeverEnds(n: nat)
    ensures Constructed(Failed, n) == None
  {
    if n > 0 {
      FailedNeverEnds(n - 1);
    }
  }

  /** What `Constructed` does with one node, in terms of `ReadNode`. */
  lemma ConstructedNode(s: string, n: nat)
    requires n > 0
    ensures ReadNode(s).None? ==>
              Constructed(Text(s), n) == if Word(SkipSpace(s)).0 == "Leaf" then Some(Failed) else None
    ensures ReadNode(s).Some? && ReadNode(s).value.0.LeafNode? ==>
              Constructed(Text(s), n) == Some(Text(ReadNode(s).value.1))
    ensures ReadNode(s).Some? && ReadNode(s).value.0.BranchNode? ==>
              Constructed(Text(s), n) == Children(Text(ReadNode(s).value.1), n)
  {
    FailedNeverEnds(n);
    FailedNeverEnds(n - 1);
  }

  /** Given room for as many nested calls as there are characters, the reader ends on the text of a tree, leaving what
      is behind it, and on such a text torn in its last number, leaving a failed stream. */
  lemma {:induction false} EndsInTime(s: string, n: nat)
    requires n > |s|
    ensures LoadText(s).Some? ==> Constructed(Text(s), n) == Some(Text(LoadText(s).value.1))
    ensures Torn(s) ==> Constructed(Text(s), n) == Some(Failed)
    decreases n
  {
    hide Constructed, ReadNode;
    ConstructedNode(s, n);
    match ReadNode(s)
    case None =>
    case Some((LeafNode(_), _)) =>
    case Some((BranchNode(_, _), s1)) =>
      EndsInTime(s1, n - 1);
      if LoadText(s1).Some? {
        EndsInTime(LoadText(s1).value.1, n - 1);
      }
  }

  /** On every other text it never ends. */
  lemma {:induction false} EndsOnlyThen(s: string, n: nat)
    requires Constructed(Text(s), n).Some?
    ensures if Constructed(Text(s), n).value.Text? then LoadText(s).Some? else Torn(s)
    ensures LoadText(s).Some? ==> Constructed(Text(s), n) == Some(Text(LoadText(s).value.1))
    decreases n
  {
    hide Constructed, ReadNode;
    assert n > 0 by { ConstructedZero(Text(s)); }
    ConstructedNode(s, n);
    match ReadNode(s)
    case None =>
    case Some((LeafNode(_), _)) =>
    case Some((BranchNode(_, _), s1)) =>
      EndsOnlyThen(s1, n - 1);
      FailedNeverEnds(n - 1);
      if Constructed(Text(s1), n - 1).value.Text? {
        EndsOnlyThen(Constructed(Text(s1), n - 1).value.text, n - 1);
      }
  }

  lemma ConstructedZero(f: Flow)
    ensures Constructed(f, 0) == None
  {}

  /** The recursion of the reader ends if and only if the text starts with that of a tree, whole or torn in its very
      last number. */
  lemma LoadEnds(s: string)
    ensures (exists n :: Constructed(Text(s), n).Some?) <==> LoadText(s).Some? || Torn(s)
  {
    EndsInTime(s, |s| + 1);
    if n :| Constructed(Text(s), n).Some? {
      EndsOnlyThen(s, n);
    }
  }

  /** A threshold too big for an int fails the stream, so the reader never ends on the branch it is in. */
  lemma BigNumberNeverEnds(id: int, val: int, suffix: string, n: nat)
    requires !FitsInt(id) || !FitsInt(val)
    ensures LoadText(BranchText(id, val) + suffix) == None && Constructed(Text(BranchText(id, val) + suffix), n) == None
  {
    hide Constructed, BranchText, ReadNode;
    var s := BranchText(id, val) + suffix;
    ReadUndoesBranch("", id, val, suffix);
    assert "" + BranchText(id, val) + suffix == s;
    if n > 0 {
      ConstructedNode(s, n);
    } else {
      ConstructedZero(Text(s));
    }
  }

  /** "Branch 0 99999999999", followed by two leaves. */
  lemma BigThreshold(n: nat)
    ensures var s := BranchText(0, 99999999999) + (LeafText(1) + LeafText(2));
            LoadText(s) == None && !Torn(s) && Constructed(Text(s), n) == None
  {
    hide *;
    var s := BranchText(0, 99999999999) + (LeafText(1) + LeafText(2));
    TooBig();
    BigNumberNeverEnds(0, 99999999999, LeafText(1) + LeafText(2), n);
    BigNumberNeverEnds(0, 99999999999, LeafText(1) + LeafText(2), |s| + 1);
    EndsInTime(s, |s| + 1);
  }

  lemma TooBig()
    ensures !FitsInt(99999999999)
  {}

  method Load(fin: Stream) returns (r: Option<Tree>)
    modifies fin
    ensures match LoadText(old(fin.text))
            case None => r.None?
            case Some((t, rest)) => r == Some(t) && fin.text == rest
    decreases |fin.text|
  {
    hide ReadNode;
    var node := ReadNode(fin.text);
    match node
    case None => return None;
    case Some((LeafNode(val), rest)) =>
      fin.text := rest;
      return Some(Leaf(val));
    case Some((BranchNode(id, val), rest)) =>
      fin.text := rest;
      var low := Load(fin);
      if low.None? {
        return None;
      }
      var high := Load(fin);
      if high.None? {
        return None;
      }
      return Some(Branch(id, val, low.value, high.value));
  }
}
