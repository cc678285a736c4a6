/** The class files of SubStateMachine.py and the closure of their `Inherits` sections. */
module ClassGraph {
  type Name = string

  /** A line of a section, split at white space. */
  type Line = seq<string>

  datatype ClassFile = ClassFile(inherits: seq<Name>, triggers: seq<Line>, timers: seq<Line>)

  type ClassFiles = map<Name, ClassFile>

  /** The file of a class. A class without a file reads as one without sections. */
  function Open(files: ClassFiles, name: Name): ClassFile {
    if name in files then files[name] else ClassFile([], [], [])
  }

  ghost predicate IsPath(files: ClassFiles, ps: seq<Name>) {
    ps != [] && forall k :: 0 < k < |ps| ==> ps[k] in Open(files, ps[k - 1]).inherits
  }

  ghost predicate PathBetween(files: ClassFiles, ps: seq<Name>, a: Name, b: Name) {
    IsPath(files, ps) && ps[0] == a && ps[|ps| - 1] == b
  }

  /** `b` is `a`, or is inherited by it directly or through others. */
  ghost predicate Inherits(files: ClassFiles, a: Name, b: Name) {
    exists ps :: PathBetween(files, ps, a, b)
  }

  lemma InheritsSelf(files: ClassFiles, a: Name)
    ensures Inherits(files, a, a)
  {
    assert PathBetween(files, [a], a, a);
  }

  lemma InheritsThrough(files: ClassFiles, a: Name, b: Name, c: Name)
    requires b in Open(files, a).inherits && Inherits(files, b, c)
    ensures Inherits(files, a, c)
  {
    var ps :| PathBetween(files, ps, b, c);
    assert PathBetween(files, [a] + ps, a, c);
  }

  /** Every class outside `but` lists only members of `s`. */
  ghost predicate Expanded(files: ClassFiles, s: set<Name>, but: set<Name>) {
    forall c, d :: c in s && c !in but && d in Open(files, c).inherits ==> d in s
  }

  lemma {:induction false} PathStays(files: ClassFiles, s: set<Name>, ps: seq<Name>, k: nat)
    requires Expanded(files, s, {}) && IsPath(files, ps) && ps[0] in s && k < |ps|
    ensures ps[k] in s
  {
    if k > 0 {
      PathStays(files, s, ps, k - 1);
      assert ps[k] in Open(files, ps[k - 1]).inherits;
    }
  }

  /** A set of class names that holds every name its members list. */
  ghost predicate Universe(files: ClassFiles, u: set<Name>) { Expanded(files, u, {}) }

  ghost function AllNames(files: ClassFiles, name: Name): (u: set<Name>)
    ensures name in u && Universe(files, u)
  {
    {name} + set c, d | c in files && d in files[c].inherits :: d
  }

  lemma SmallerSet(s: set<Name>, t: set<Name>)
    requires s < t
    ensures |s| < |t|
  {
    SubsetSize(s, t);
    if |s| == |t| {
      var x :| x in t && x !in s;
      SubsetSize(s, t - {x});
    }
  }

  lemma {:induction false} SubsetSize(s: set<Name>, t: set<Name>)
    requires s <= t
    ensures |s| <= |t|
  {
    if s != {} {
      var x :| x in s;
      SubsetSize(s - {x}, t - {x});
    }
  }

  /** The visited set is handed from call to call, so that a class reached twice is expanded once. */
  method GetAllClassesHelper(files: ClassFiles, name: Name, used: set<Name>, ghost u: set<Name>)
    returns (used': set<Name>)
    requires Universe(files, u) && name in u && name !in used
    ensures used + {name} <= used'
    ensures Expanded(files, used', used)
    ensures forall c :: c in used' && c !in used ==> Inherits(files, name, c)
    decreases |u - used|
  {
    hide Inherits;
    used' := used + {name};
    InheritsSelf(files, name);
    var inherits := Open(files, name).inherits;
    var i := 0;
    while i < |inherits|
      invariant 0 <= i <= |inherits| && used + {name} <= used'
      invariant forall k :: 0 <= k < i ==> inherits[k] in used'
      invariant Expanded(files, used', used + {name})
      invariant forall c :: c in used' && c !in used ==> Inherits(files, name, c)
    {
      var thing := inherits[i];
      if thing !in used' {
        ghost var before := used';
        SmallerSet(u - used', u - used);
        used' := GetAllClassesHelper(files, thing, used', u);
        forall c | c in used' && c !in used ensures Inherits(files, name, c) {
          if c !in before {
            InheritsThrough(files, name, thing, c);
          }
        }
      }
      i := i + 1;
    }
  }

  /** The classes to be active in a state: exactly those it inherits, itself included, cycles or not. */
  method GetAllClasses(files: ClassFiles, name: Name) returns (classes: set<Name>)
    ensures forall c :: c in classes <==> Inherits(files, name, c)
  {
    classes := GetAllClassesHelper(files, name, {}, AllNames(files, name));
    forall c | Inherits(files, name, c) ensures c in classes {
      var ps :| PathBetween(files, ps, name, c);
      PathStays(files, classes, ps, |ps| - 1);
    }
  }

  /** A state without a class file has no class but itself. */
  lemma UnknownStateIsAlone(files: ClassFiles, name: Name, c: Name)
    requires name !in files
    ensures Inherits(files, name, c) <==> c == name
  {
    InheritsSelf(files, name);
    if Inherits(files, name, c) {
      var ps :| PathBetween(files, ps, name, c);
      assert |ps| > 1 ==> ps[1] in Open(files, ps[0]).inherits;
    }
  }
}
