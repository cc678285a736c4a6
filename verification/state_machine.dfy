/** The mission state machine of SubStateMachine.py: active classes, and the triggers and timers they own. */
module StateMachine {
  import opened ClassGraph
  import opened Options

  /** Something a class put in place. */
  datatype Owned<T> = Owned(owner: Name, item: T)

  datatype Effect = Effect(kind: string, arguments: seq<string>)

  datatype TriggerBody = TriggerBody(topic: string, kind: string, op: string, value: string, effect: Effect)

  datatype TimerBody = TimerBody(endTime: real, effect: Effect)

  type Trigger = Owned<TriggerBody>

  type Timer = Owned<TimerBody>

  type Listeners = map<string, seq<Trigger>>

  // ---- Lists of owned things ----

  function OwnedBy<T>(s: seq<Owned<T>>, c: Name): seq<Owned<T>> {
    if s == [] then [] else OwnedBy(s[..|s| - 1], c) + if s[|s| - 1].owner == c then [s[|s| - 1]] else []
  }

  function Without<T>(s: seq<Owned<T>>, c: Name): seq<Owned<T>> {
    if s == [] then [] else Without(s[..|s| - 1], c) + if s[|s| - 1].owner != c then [s[|s| - 1]] else []
  }

  lemma {:induction false} OwnedByAppend<T>(s: seq<Owned<T>>, t: seq<Owned<T>>, c: Name)
    ensures OwnedBy(s + t, c) == OwnedBy(s, c) + OwnedBy(t, c)
  {
    if t == [] {
      assert s + t == s;
    } else {
      assert (s + t)[..|s + t| - 1] == s + t[..|t| - 1];
      OwnedByAppend(s, t[..|t| - 1], c);
    }
  }

  lemma {:induction false} OwnedByAll<T>(s: seq<Owned<T>>, c: Name, d: Name)
    requires forall k :: 0 <= k < |s| ==> s[k].owner == c
    ensures OwnedBy(s, d) == if d == c then s else []
  {
    if s != [] {
      OwnedByAll(s[..|s| - 1], c, d);
    }
  }

  lemma {:induction false} OwnedByWithout<T>(s: seq<Owned<T>>, c: Name, d: Name)
    ensures OwnedBy(Without(s, c), d) == if d == c then [] else OwnedBy(s, d)
  {
    if s != [] {
      var init, last := s[..|s| - 1], s[|s| - 1];
      assert OwnedBy(s, d) == OwnedBy(init, d) + if last.owner == d then [last] else [];
      assert last.owner != c ==> Without(s, c) == Without(init, c) + [last];
      assert last.owner == c ==> Without(s, c) == Without(init, c);
      hide *;
      OwnedByWithout(init, c, d);
      if last.owner != c {
        OwnedByAppend(Without(init, c), [last], d);
        OwnedByAll([last], last.owner, d);
      }
    }
  }

  /** How often an item occurs is decided by what its owner put in place. */
  lemma {:induction false} CountIsOwners<T>(s: seq<Owned<T>>, t: Owned<T>)
    ensures multiset(s)[t] == multiset(OwnedBy(s, t.owner))[t]
  {
    if s != [] {
      CountIsOwners(s[..|s| - 1], t);
      assert s == s[..|s| - 1] + [s[|s| - 1]];
    }
  }

  lemma {:induction false} OwnedByHas<T>(s: seq<Owned<T>>, c: Name, t: Owned<T>)
    ensures t in OwnedBy(s, c) <==> t in s && t.owner == c
  {
    if s != [] {
      OwnedByHas(s[..|s| - 1], c, t);
      assert s == s[..|s| - 1] + [s[|s| - 1]];
    }
  }

  lemma NothingOwned<T(!new)>(s: seq<Owned<T>>)
    requires forall c :: OwnedBy(s, c) == []
    ensures s == []
  {
    if s != [] {
      OwnedByHas(s, s[0].owner, s[0]);
    }
  }

  lemma SameOwnedSameItems<T(!new)>(s: seq<Owned<T>>, t: seq<Owned<T>>)
    requires forall c :: OwnedBy(s, c) == OwnedBy(t, c)
    ensures multiset(s) == multiset(t)
  {
    forall e ensures multiset(s)[e] == multiset(t)[e] {
      CountIsOwners(s, e);
      CountIsOwners(t, e);
    }
  }

  // ---- Lines of a class file ----

  /** A trigger line, or nothing if the line is refused. */
  function ParseTrigger(c: Name, fields: Line): Option<Trigger> {
    if |fields| < 7 || fields[4] != "triggers" then None
    else Some(Owned(c, TriggerBody(fields[0], fields[1], fields[2], fields[3], Effect(fields[5], fields[6..]))))
  }

  /** The line of a trigger: <channel> <type> <op> <value> triggers <action> <argument> ... */
  function TriggerLine(b: TriggerBody): Line {
    [b.topic, b.kind, b.op, b.value, "triggers", b.effect.kind] + b.effect.arguments
  }

  /** Exactly the lines of triggers whose action has an argument are accepted, and as those triggers. */
  lemma TriggerAccepted(c: Name, fields: Line, t: Trigger)
    ensures ParseTrigger(c, fields) == Some(t) <==>
            t.owner == c && fields == TriggerLine(t.item) && t.item.effect.arguments != []
  {
    if |fields| >= 7 && fields[4] == "triggers" {
      assert fields == fields[..6] + fields[6..];
    }
    assert TriggerLine(t.item)[6..] == t.item.effect.arguments;
  }

  function Lower(s: string): string {
    seq(|s|, i requires 0 <= i < |s| => if 'A' <= s[i] <= 'Z' then s[i] - 'A' + 'a' else s[i])
  }

  /** What the first test on the unit makes of the number: a time in milliseconds, or nothing yet. */
  function FirstTest(unit: string, n: real): Option<real> {
    if unit == "milliseconds" || unit == "ms" then Some(n) else None
  }

  /** What the chain of tests behind it makes of that: a time for the units it knows, a refusal for all others. */
  function SecondTest(unit: string, n: real, milliseconds: Option<real>): Option<real> {
    if unit == "seconds" || unit == "s" then Some(n * 1000.0)
    else if unit == "minutes" || unit == "m" then Some(n * 60000.0)
    else if unit == "hours" || unit == "h" then Some(n * 3600000.0)
    else if unit == "days" || unit == "d" then Some(n * 86400000.0)
    else None
  }

  /** The time of a timer line. */
  function Milliseconds(unit: string, n: real): Option<real> { SecondTest(unit, n, FirstTest(unit, n)) }

  /** Milliseconds in the units a timer line may have. */
  const UNITS: map<string, real> :=
    map["milliseconds" := 1.0, "ms" := 1.0, "seconds" := 1000.0, "s" := 1000.0, "minutes" := 60000.0, "m" := 60000.0,
        "hours" := 3600000.0, "h" := 3600000.0, "days" := 86400000.0, "d" := 86400000.0]

  /** The time as the table of units has it. */
  function Documented(unit: string, n: real): Option<real> { if unit in UNITS then Some(n * UNITS[unit]) else None }

  /** A timer line read at time `now`, or nothing if the line is refused. */
  function ParseTimer(c: Name, fields: Line, now: real, number: string -> real): Option<Timer> {
    if |fields| < 6 || Lower(fields[0]) != "after" || fields[3] != "do" then None
    else match Milliseconds(fields[2], number(fields[1]))
      case None => None
      case Some(ms) => Some(Owned(c, TimerBody(now + ms / 1000.0, Effect(fields[4], fields[5..]))))
  }

  /** What the first test sets is never used. */
  lemma FirstTestIsLost(unit: string, n: real, milliseconds: Option<real>, other: Option<real>)
    ensures SecondTest(unit, n, milliseconds) == SecondTest(unit, n, other)
    ensures FirstTest(unit, n).Some? ==> SecondTest(unit, n, milliseconds) == None
  {
    assert "ms" != "m" && "milliseconds"[2] != "minutes"[2];
  }

  /** The times are those of the table if and only if the unit is not the millisecond. */
  lemma UnitsAgree(unit: string)
    ensures (forall n :: Milliseconds(unit, n) == Documented(unit, n)) <==> unit !in {"milliseconds", "ms"}
  {
    FirstTestIsLost(unit, 1.0, FirstTest(unit, 1.0), None);
    assert "ms" != "m" && "milliseconds"[2] != "minutes"[2];
    if unit in {"milliseconds", "ms"} {
      assert Milliseconds(unit, 1.0) != Documented(unit, 1.0);
    }
  }

  /** What an accepted line puts in place: a timer that ends the number of units after the line is read, with the action
      and arguments behind "do". */
  lemma TimerMeans(c: Name, fields: Line, now: real, number: string -> real, t: Timer)
    ensures ParseTimer(c, fields, now, number) == Some(t) <==>
            t.owner == c && |fields| >= 6 && Lower(fields[0]) == "after" && fields[3] == "do" &&
            fields[2] in UNITS && fields[2] !in {"milliseconds", "ms"} &&
            t.item.endTime == now + number(fields[1]) * UNITS[fields[2]] / 1000.0 &&
            t.item.effect == Effect(fields[4], fields[5..])
  {
    if |fields| >= 6 {
      var n := number(fields[1]);
      FirstTestIsLost(fields[2], n, FirstTest(fields[2], n), None);
      UnitsAgree(fields[2]);
      assert fields[2] !in {"milliseconds", "ms"} ==> Milliseconds(fields[2], n) == Documented(fields[2], n);
    }
  }

  /** So a line of the documented form "After <ms> milliseconds do ..." is always refused, and otherwise well-formed
      lines are accepted exactly in the other units. */
  lemma TimerAccepted(c: Name, fields: Line, now: real, number: string -> real)
    requires |fields| >= 6 && Lower(fields[0]) == "after" && fields[3] == "do"
    ensures FirstTest(fields[2], number(fields[1])).Some? ==> ParseTimer(c, fields, now, number) == None
    ensures ParseTimer(c, fields, now, number).Some? <==> fields[2] in UNITS && fields[2] !in {"milliseconds", "ms"}
  {
    var n := number(fields[1]);
    FirstTestIsLost(fields[2], n, FirstTest(fields[2], n), None);
    UnitsAgree(fields[2]);
    assert fields[2] !in {"milliseconds", "ms"} ==> Milliseconds(fields[2], n) == Documented(fields[2], n);
  }

  /** The triggers on one topic that a list of lines of class `c` puts in place. */
  function TriggersOn(c: Name, lines: seq<Line>, topic: string): (s: seq<Trigger>)
    ensures forall k :: 0 <= k < |s| ==> s[k].owner == c
  {
    if lines == [] then [] else
      TriggersOn(c, lines[..|lines| - 1], topic) +
      match ParseTrigger(c, lines[|lines| - 1])
      case None => []
      case Some(t) => if t.item.topic == topic then [t] else []
  }

  function TimersOf(c: Name, lines: seq<Line>, now: real, number: string -> real): (s: seq<Timer>)
    ensures forall k :: 0 <= k < |s| ==> s[k].owner == c
  {
    if lines == [] then [] else
      TimersOf(c, lines[..|lines| - 1], now, number) +
      match ParseTimer(c, lines[|lines| - 1], now, number)
      case None => []
      case Some(t) => [t]
  }

  // ---- Triggers of a set of classes ----

  function At(listeners: Listeners, topic: string): seq<Trigger> {
    if topic in listeners then listeners[topic] else []
  }

  /** On every topic, each class in `live` has exactly the triggers of its file, in order, and no other class has any. */
  ghost predicate Installed(files: ClassFiles, listeners: Listeners, live: set<Name>) {
    forall topic, c ::
      OwnedBy(At(listeners, topic), c) == if c in live then TriggersOn(c, Open(files, c).triggers, topic) else []
  }

  /** What adding trigger lines of `c` does. */
  ghost predicate Added(before: Listeners, after: Listeners, c: Name, lines: seq<Line>) {
    forall topic :: At(after, topic) == At(before, topic) + TriggersOn(c, lines, topic)
  }

  /** What removing the triggers of `c` does. */
  ghost predicate Removed(before: Listeners, after: Listeners, c: Name) {
    forall topic :: At(after, topic) == Without(At(before, topic), c)
  }

  lemma AddedInstalled(files: ClassFiles, before: Listeners, after: Listeners, live: set<Name>, c: Name)
    requires Installed(files, before, live) && Added(before, after, c, Open(files, c).triggers) && c !in live
    ensures Installed(files, after, live + {c})
  {
    hide OwnedBy, At, TriggersOn;
    forall topic, d ensures OwnedBy(At(after, topic), d) ==
        if d in live + {c} then TriggersOn(d, Open(files, d).triggers, topic) else []
    {
      var own := TriggersOn(c, Open(files, c).triggers, topic);
      assert At(after, topic) == At(before, topic) + own;
      OwnedByAppend(At(before, topic), own, d);
      OwnedByAll(own, c, d);
    }
  }

  lemma RemovedInstalled(files: ClassFiles, before: Listeners, after: Listeners, live: set<Name>, c: Name)
    requires Installed(files, before, live) && Removed(before, after, c)
    ensures Installed(files, after, live - {c})
  {
    hide OwnedBy, Without, At, TriggersOn;
    forall topic, d ensures OwnedBy(At(after, topic), d) ==
        if d in live - {c} then TriggersOn(d, Open(files, d).triggers, topic) else []
    {
      assert At(after, topic) == Without(At(before, topic), c);
      OwnedByWithout(At(before, topic), c, d);
    }
  }

  /** The triggers put in place by adding the classes of `order` one after the other to an empty machine. */
  ghost function Rebuilt(files: ClassFiles, order: seq<Name>, topic: string): seq<Trigger> {
    if order == [] then [] else
      var c := order[|order| - 1];
      Rebuilt(files, order[..|order| - 1], topic) + TriggersOn(c, Open(files, c).triggers, topic)
  }

  ghost predicate Distinct(order: seq<Name>) {
    forall k, l :: 0 <= k < l < |order| ==> order[k] != order[l]
  }

  /** `order` lists the members of `s`, each once. */
  ghost predicate Lists(order: seq<Name>, s: set<Name>) { Distinct(order) && forall c :: c in s <==> c in order }

  lemma LastName(order: seq<Name>, init: seq<Name>, last: Name, c: Name)
    requires Distinct(order) && order == init + [last]
    ensures Distinct(init) && last !in init
    ensures c in order <==> c in init || c == last
  {
    assert order[|init|] == last && forall k :: 0 <= k < |init| ==> init[k] == order[k];
  }

  lemma RebuiltMore(files: ClassFiles, order: seq<Name>, init: seq<Name>, last: Name, topic: string, c: Name)
    requires order == init + [last]
    ensures OwnedBy(Rebuilt(files, order, topic), c) == OwnedBy(Rebuilt(files, init, topic), c) +
            if c == last then TriggersOn(last, Open(files, last).triggers, topic) else []
  {
    hide OwnedBy, TriggersOn, Open;
    assert order[..|order| - 1] == init;
    var own := TriggersOn(last, Open(files, last).triggers, topic);
    OwnedByAppend(Rebuilt(files, init, topic), own, c);
    OwnedByAll(own, last, c);
  }

  lemma {:induction false} RebuiltOwned(files: ClassFiles, order: seq<Name>, topic: string, c: Name)
    requires Distinct(order)
    ensures OwnedBy(Rebuilt(files, order, topic), c) ==
            if c in order then TriggersOn(c, Open(files, c).triggers, topic) else []
  {
    if order != [] {
      hide *;
      var init, last := order[..|order| - 1], order[|order| - 1];
      LastName(order, init, last, c);
      RebuiltOwned(files, init, topic, c);
      RebuiltMore(files, order, init, last, topic, c);
    }
  }

  /** Incremental maintenance ends where building from scratch would: the same triggers on every topic, in whatever
      order the classes are added. */
  lemma IncrementalIsRebuilt(files: ClassFiles, listeners: Listeners, live: set<Name>, order: seq<Name>, topic: string)
    requires Installed(files, listeners, live) && Lists(order, live)
    ensures multiset(At(listeners, topic)) == multiset(Rebuilt(files, order, topic))
  {
    hide OwnedBy, TriggersOn, Rebuilt, At;
    forall c ensures OwnedBy(At(listeners, topic), c) == OwnedBy(Rebuilt(files, order, topic), c) {
      RebuiltOwned(files, order, topic, c);
    }
    SameOwnedSameItems(At(listeners, topic), Rebuilt(files, order, topic));
  }

  // ---- Timers ----

  predicate Expired(t: Timer, now: real) { t.item.endTime < now }

  function Expiring(timers: seq<Timer>, now: real): seq<Timer> {
    if timers == [] then [] else (if Expired(timers[0], now) then [timers[0]] else []) + Expiring(timers[1..], now)
  }

  function Running(timers: seq<Timer>, now: real): seq<Timer> {
    if timers == [] then [] else (if Expired(timers[0], now) then [] else [timers[0]]) + Running(timers[1..], now)
  }

  /** The list without the first occurrence of `t`. */
  function RemoveFirst(timers: seq<Timer>, t: Timer): seq<Timer> {
    if timers == [] then [] else if timers[0] == t then timers[1..] else [timers[0]] + RemoveFirst(timers[1..], t)
  }

  /** Taking out the first expired timer leaves the running ones alone. */
  lemma {:induction false} RemoveExpired(timers: seq<Timer>, now: real)
    requires Expiring(timers, now) != []
    ensures Expiring(timers, now)[0] in timers
    ensures Expiring(RemoveFirst(timers, Expiring(timers, now)[0]), now) == Expiring(timers, now)[1..]
    ensures Running(RemoveFirst(timers, Expiring(timers, now)[0]), now) == Running(timers, now)
  {
    var t := Expiring(timers, now)[0];
    if !Expired(timers[0], now) {
      RemoveExpired(timers[1..], now);
      ExpiringExpired(timers, now, 0);
      assert RemoveFirst(timers, t)[1..] == RemoveFirst(timers[1..], t);
    }
  }

  lemma {:induction false} ExpiringExpired(timers: seq<Timer>, now: real, k: nat)
    requires k < |Expiring(timers, now)|
    ensures Expired(Expiring(timers, now)[k], now)
  {
    if Expired(timers[0], now) {
      if k > 0 { ExpiringExpired(timers[1..], now, k - 1); }
    } else {
      ExpiringExpired(timers[1..], now, k);
    }
  }

  lemma {:induction false} NoneExpiring(timers: seq<Timer>, now: real)
    requires Expiring(timers, now) == []
    ensures Running(timers, now) == timers
  {
    if timers != [] {
      NoneExpiring(timers[1..], now);
    }
  }

  /** Firing keeps, of each class, the timers still running. */
  lemma {:induction false} RunningOwners(timers: seq<Timer>, now: real, t: Timer)
    ensures t in Running(timers, now) <==> t in timers && !Expired(t, now)
  {
    if timers != [] {
      RunningOwners(timers[1..], now, t);
      assert t in timers <==> t == timers[0] || t in timers[1..];
    }
  }

  /** How many of a timer fire in a sweep and stay behind: all or none, by its end. */
  lemma {:induction false} SweepCounts(timers: seq<Timer>, now: real, t: Timer)
    ensures multiset(Expiring(timers, now))[t] == if t.item.endTime < now then multiset(timers)[t] else 0
    ensures multiset(Running(timers, now))[t] == if t.item.endTime < now then 0 else multiset(timers)[t]
  {
    if timers != [] {
      SweepCounts(timers[1..], now, t);
      assert timers == [timers[0]] + timers[1..];
    }
  }

  /** The timers left after sweeps at these readings of the clock. */
  function AfterSweeps(timers: seq<Timer>, sweeps: seq<real>): seq<Timer> {
    if sweeps == [] then timers else Running(AfterSweeps(timers, sweeps[..|sweeps| - 1]), sweeps[|sweeps| - 1])
  }

  lemma {:induction false} SweepsCount(timers: seq<Timer>, sweeps: seq<real>, t: Timer)
    ensures multiset(AfterSweeps(timers, sweeps))[t] ==
            if forall j :: 0 <= j < |sweeps| ==> sweeps[j] <= t.item.endTime then multiset(timers)[t] else 0
  {
    hide Running;
    if sweeps != [] {
      var init, last := sweeps[..|sweeps| - 1], sweeps[|sweeps| - 1];
      SweepsCount(timers, init, t);
      SweepCounts(AfterSweeps(timers, init), last, t);
      assert forall j :: 0 <= j < |init| ==> init[j] == sweeps[j];
    }
  }

  /** A timer that a line read at time `start` puts in place fires once, whatever the readings of the clock: at the first
      sweep later than `start` by the number of units, and at no other. */
  lemma TimerFiresOnce(c: Name, fields: Line, start: real, number: string -> real, t: Timer,
                       timers: seq<Timer>, sweeps: seq<real>, k: nat)
    requires ParseTimer(c, fields, start, number) == Some(t) && multiset(timers)[t] == 1 && k < |sweeps|
    ensures fields[2] in UNITS
    ensures var due := start + number(fields[1]) * UNITS[fields[2]] / 1000.0;
            multiset(Expiring(AfterSweeps(timers, sweeps[..k]), sweeps[k]))[t] ==
            if due < sweeps[k] && (forall j :: 0 <= j < k ==> sweeps[j] <= due) then 1 else 0
  {
    TimerMeans(c, fields, start, number, t);
    SweepsCount(timers, sweeps[..k], t);
    SweepCounts(AfterSweeps(timers, sweeps[..k]), sweeps[k], t);
    hide ParseTimer, Expiring, AfterSweeps;
    assert forall j :: 0 <= j < k ==> sweeps[..k][j] == sweeps[j];
  }

  lemma LineByLine(c: Name, lines: seq<Line>, i: nat, topic: string)
    requires i < |lines|
    ensures TriggersOn(c, lines[..i + 1], topic) == TriggersOn(c, lines[..i], topic) + TriggersOn(c, [lines[i]], topic)
  {
    hide ParseTrigger;
    assert lines[..i + 1][..i] == lines[..i] && [lines[i]][..0] == [];
  }

  lemma OneMoreLine(start: Listeners, before: Listeners, after: Listeners, c: Name, lines: seq<Line>, i: nat)
    requires i < |lines| && Added(start, before, c, lines[..i]) && Added(before, after, c, [lines[i]])
    ensures Added(start, after, c, lines[..i + 1])
  {
    hide At, TriggersOn;
    forall topic ensures At(after, topic) == At(start, topic) + TriggersOn(c, lines[..i + 1], topic) {
      LineByLine(c, lines, i, topic);
      assert At(after, topic) == At(before, topic) + TriggersOn(c, [lines[i]], topic);
      assert At(before, topic) == At(start, topic) + TriggersOn(c, lines[..i], topic);
    }
  }

  /** The items not owned by `c`. */
  method Keep<T>(s: seq<Owned<T>>, c: Name) returns (kept: seq<Owned<T>>)
    ensures kept == Without(s, c)
  {
    kept := [];
    for i := 0 to |s|
      invariant kept == Without(s[..i], c)
    {
      assert s[..i + 1][..i] == s[..i];
      if s[i].owner != c {
        kept := kept + [s[i]];
      }
    }
    assert s[..|s|] == s;
  }

  /** A timer that a line of its owner's file puts in place. */
  ghost predicate FromFile(files: ClassFiles, t: Timer) {
    exists line, now, number :: line in Open(files, t.owner).timers && ParseTimer(t.owner, line, now, number) == Some(t)
  }

  /** Timers belong to classes in `live` and come from their files. */
  ghost predicate TimersLive(files: ClassFiles, timers: seq<Timer>, live: set<Name>) {
    forall t :: t in timers ==> t.owner in live && FromFile(files, t)
  }

  lemma {:induction false} TimersAreFromFile(files: ClassFiles, c: Name, lines: seq<Line>, now: real,
                                             number: string -> real, t: Timer)
    requires (forall line :: line in lines ==> line in Open(files, c).timers) && t in TimersOf(c, lines, now, number)
    ensures t.owner == c && FromFile(files, t)
  {
    var init, last := lines[..|lines| - 1], lines[|lines| - 1];
    if t in TimersOf(c, init, now, number) {
      TimersAreFromFile(files, c, init, now, number, t);
    } else {
      assert ParseTimer(c, last, now, number) == Some(t) && last in lines;
    }
  }

  /** The timers of the classes in `gone` are dropped, all others kept. */
  ghost predicate Dropped(before: seq<Timer>, after: seq<Timer>, gone: set<Name>) {
    forall c :: OwnedBy(after, c) == if c in gone then [] else OwnedBy(before, c)
  }

  /** Each class in `come` gains the timers of its file. */
  ghost predicate Joined(files: ClassFiles, before: seq<Timer>, after: seq<Timer>, come: set<Name>,
                         now: real, number: string -> real) {
    forall c :: OwnedBy(after, c) ==
                OwnedBy(before, c) + if c in come then TimersOf(c, Open(files, c).timers, now, number) else []
  }

  lemma DroppedMore(start: seq<Timer>, before: seq<Timer>, gone: set<Name>, c: Name)
    requires Dropped(start, before, gone)
    ensures Dropped(start, Without(before, c), gone + {c})
  {
    hide OwnedBy, Without;
    forall d ensures OwnedBy(Without(before, c), d) == if d in gone + {c} then [] else OwnedBy(start, d) {
      OwnedByWithout(before, c, d);
    }
  }

  lemma JoinedMore(files: ClassFiles, start: seq<Timer>, before: seq<Timer>, come: set<Name>, c: Name,
                   now: real, number: string -> real)
    requires Joined(files, start, before, come, now, number) && c !in come
    ensures Joined(files, start, before + TimersOf(c, Open(files, c).timers, now, number), come + {c}, now, number)
  {
    var own := TimersOf(c, Open(files, c).timers, now, number);
    hide OwnedBy, TimersOf, Open;
    forall d ensures OwnedBy(before + own, d) ==
        OwnedBy(start, d) + if d in come + {c} then TimersOf(d, Open(files, d).timers, now, number) else []
    {
      OwnedByAppend(before, own, d);
      OwnedByAll(own, c, d);
    }
  }

  /** What a change of classes from `was` to `live` leaves of each class's timers. */
  ghost predicate TimersAfter(files: ClassFiles, before: seq<Timer>, after: seq<Timer>, was: set<Name>, live: set<Name>,
                              now: real, number: string -> real) {
    forall c :: OwnedBy(after, c) ==
                if c !in live then []
                else if c in was then OwnedBy(before, c)
                else TimersOf(c, Open(files, c).timers, now, number)
  }

  lemma SwapTimers(files: ClassFiles, before: seq<Timer>, mid: seq<Timer>, after: seq<Timer>, was: set<Name>,
                   live: set<Name>, now: real, number: string -> real)
    requires TimersLive(files, before, was) && Dropped(before, mid, was - live)
    requires Joined(files, mid, after, live - was, now, number)
    ensures TimersAfter(files, before, after, was, live, now, number) && TimersLive(files, after, live)
  {
    hide OwnedBy, TimersOf, Open, FromFile;
    forall c ensures OwnedBy(after, c) ==
        if c !in live then []
        else if c in was then OwnedBy(before, c)
        else TimersOf(c, Open(files, c).timers, now, number)
    {
      if c !in was && OwnedBy(before, c) != [] {
        OwnedByHas(before, c, OwnedBy(before, c)[0]);
        assert false;
      }
    }
    forall t | t in after ensures t.owner in live && FromFile(files, t) {
      OwnedByHas(after, t.owner, t);
      OwnedByHas(before, t.owner, t);
      if t.owner !in was {
        TimersAreFromFile(files, t.owner, Open(files, t.owner).timers, now, number, t);
      }
    }
  }

  /** The timers that have run out. */
  method Ripe(timers: seq<Timer>, now: real) returns (fired: seq<Timer>)
    ensures fired == Expiring(timers, now)
  {
    fired := [];
    for i := 0 to |timers|
      invariant fired + Expiring(timers[i..], now) == Expiring(timers, now)
    {
      assert timers[i..][1..] == timers[i + 1..];
      if Expired(timers[i], now) {
        fired := fired + [timers[i]];
      }
    }
  }

  lemma RunningLive(files: ClassFiles, timers: seq<Timer>, now: real, live: set<Name>)
    requires TimersLive(files, timers, live)
    ensures TimersLive(files, Running(timers, now), live)
  {
    hide FromFile;
    forall t | t in Running(timers, now) ensures t.owner in live && FromFile(files, t) {
      RunningOwners(timers, now, t);
    }
  }

  // ---- The machine ----

  datatype Notice = SetUp(name: Name) | TornDown(name: Name)

  function TearDowns(names: seq<Name>): seq<Notice> { seq(|names|, i requires 0 <= i < |names| => TornDown(names[i])) }

  function SetUps(names: seq<Name>): seq<Notice> { seq(|names|, i requires 0 <= i < |names| => SetUp(names[i])) }

  lemma NothingToOpen(files: ClassFiles, name: Name, topic: string, now: real, number: string -> real)
    requires name !in files
    ensures var file := Open(files, name);
            TriggersOn(name, file.triggers, topic) == [] && TimersOf(name, file.timers, now, number) == []
  {
  }

  /** Going to a state without a class file leaves no trigger on any topic, and no timer. */
  lemma UnknownStateIsInert(files: ClassFiles, listeners: Listeners, before: seq<Timer>, after: seq<Timer>,
                            was: set<Name>, name: Name, topic: string, now: real, number: string -> real)
    requires name !in files && Installed(files, listeners, {name}) && TimersLive(files, before, was)
    requires TimersAfter(files, before, after, was, {name}, now, number)
    ensures At(listeners, topic) == [] && after == []
  {
    hide OwnedBy, TriggersOn, TimersOf;
    var live := {name};
    NothingToOpen(files, name, topic, now, number);
    assert Installed(files, listeners, live);
    assert Open(files, name) == ClassFile([], [], []);
    forall c ensures OwnedBy(At(listeners, topic), c) == [] {
      assert OwnedBy(At(listeners, topic), c) ==
             if c in live then TriggersOn(c, Open(files, c).triggers, topic) else [];
    }
    NothingOwned(At(listeners, topic));
    forall c ensures OwnedBy(after, c) == [] {
      assert c == name ==> TimersOf(c, Open(files, c).timers, now, number) == [];
      if c == name && c in was && OwnedBy(before, c) != [] {
        OwnedByHas(before, c, OwnedBy(before, c)[0]);
      }
    }
    NothingOwned(after);
  }

  lemma NothingDone(timers: seq<Timer>, notices: seq<Notice>, todo: set<Name>)
    ensures Dropped(timers, timers, todo - todo) && Lists([], todo - todo)
    ensures notices == notices + TearDowns([]) && notices == notices + SetUps([])
  {}

  lemma NothingJoined(files: ClassFiles, timers: seq<Timer>, todo: set<Name>, now: real, number: string -> real)
    ensures Joined(files, timers, timers, todo - todo, now, number)
  {}

  lemma SetSteps(todo: set<Name>, live: set<Name>)
    ensures live - (todo - todo) == live == live + (todo - todo)
    ensures todo - {} == todo
  {}

  lemma OneFewer(todo: set<Name>, left: set<Name>, live: set<Name>, c: Name)
    requires c in left && left <= todo
    ensures todo - (left - {c}) == todo - left + {c} && c !in todo - left
    ensures live - (todo - (left - {c})) == live - (todo - left) - {c}
    ensures live + (todo - (left - {c})) == live + (todo - left) + {c}
    ensures live !! todo ==> c !in live + (todo - left)
    ensures |left - {c}| < |left|
  {}

  lemma OneMoreName(order: seq<Name>, s: set<Name>, c: Name)
    requires Lists(order, s) && c !in s
    ensures Lists(order + [c], s + {c})
    ensures TearDowns(order + [c]) == TearDowns(order) + [TornDown(c)]
    ensures SetUps(order + [c]) == SetUps(order) + [SetUp(c)]
  {}

  /** What adding the classes of `done` has brought about. */
  ghost predicate SoFar(files: ClassFiles, start: seq<Timer>, timers: seq<Timer>, before: seq<Notice>, notices: seq<Notice>,
                        up: seq<Name>, done: set<Name>, now: real, number: string -> real) {
    Joined(files, start, timers, done, now, number) && Lists(up, done) && notices == before + SetUps(up)
  }

  lemma SoFarMore(files: ClassFiles, start: seq<Timer>, timers: seq<Timer>, before: seq<Notice>, notices: seq<Notice>,
                  up: seq<Name>, done: set<Name>, c: Name, now: real, number: string -> real)
    requires SoFar(files, start, timers, before, notices, up, done, now, number) && c !in done
    ensures SoFar(files, start, timers + TimersOf(c, Open(files, c).timers, now, number), before, notices + [SetUp(c)],
                  up + [c], done + {c}, now, number)
  {
    hide Joined, Lists, SetUps, TimersOf, Open;
    JoinedMore(files, start, timers, done, c, now, number);
    OneMoreName(up, done, c);
  }

  class Machine {
    const files: ClassFiles
    var currentClasses: set<Name>
    var listenerCache: Listeners
    var timers: seq<Timer>
    ghost var notices: seq<Notice>

    /** Holds between any two calls. */
    ghost predicate Valid()
      reads this
    {
      Installed(files, listenerCache, currentClasses) && TimersLive(files, timers, currentClasses)
    }

    constructor (files: ClassFiles)
      ensures this.files == files && Valid() && currentClasses == {} && notices == []
    {
      this.files := files;
      currentClasses, listenerCache, timers := {}, map[], [];
      notices := [];
    }

    method AddTrigger(c: Name, fields: Line)
      modifies `listenerCache
      ensures Added(old(listenerCache), listenerCache, c, [fields])
    {
      assert [fields][..0] == [];
      match ParseTrigger(c, fields)
      case None =>
      case Some(t) =>
        if t.item.topic !in listenerCache {
          listenerCache := listenerCache[t.item.topic := []];
        }
        listenerCache := listenerCache[t.item.topic := listenerCache[t.item.topic] + [t]];
    }

    method AddTriggers(c: Name)
      modifies `listenerCache
      ensures Added(old(listenerCache), listenerCache, c, Open(files, c).triggers)
    {
      var lines := Open(files, c).triggers;
      var i := 0;
      assert Added(old(listenerCache), listenerCache, c, lines[..i]);
      hide *;
      while i < |lines|
        invariant 0 <= i <= |lines|
        invariant Added(old(listenerCache), listenerCache, c, lines[..i])
      {
        ghost var before := listenerCache;
        AddTrigger(c, lines[i]);
        OneMoreLine(old(listenerCache), before, listenerCache, c, lines, i);
        i := i + 1;
      }
      assert lines[..i] == lines;
    }

    method RemoveTriggers(c: Name)
      modifies `listenerCache
      ensures Removed(old(listenerCache), listenerCache, c)
    {
      var topics := listenerCache.Keys;
      while topics != {}
        invariant topics <= listenerCache.Keys == old(listenerCache).Keys
        invariant forall topic :: topic in topics ==> listenerCache[topic] == old(listenerCache)[topic]
        invariant forall topic :: topic in listenerCache && topic !in topics ==>
                                    listenerCache[topic] == Without(old(listenerCache)[topic], c)
        decreases |topics|
      {
        var topic :| topic in topics;
        var kept := Keep(listenerCache[topic], c);
        listenerCache := listenerCache[topic := kept];
        topics := topics - {topic};
      }
    }

    method AddTimer(c: Name, fields: Line, now: real, number: string -> real)
      modifies `timers
      ensures timers == old(timers) + match ParseTimer(c, fields, now, number)
                                      case None => []
                                      case Some(t) => [t]
    {
      if |fields| < 6 || Lower(fields[0]) != "after" || fields[3] != "do" {
        return;
      }
      var milliseconds: Option<real> := None;
      if fields[2] == "milliseconds" || fields[2] == "ms" {
        milliseconds := Some(number(fields[1]));
      }
      if fields[2] == "seconds" || fields[2] == "s" {
        milliseconds := Some(number(fields[1]) * 1000.0);
      } else if fields[2] == "minutes" || fields[2] == "m" {
        milliseconds := Some(number(fields[1]) * 60000.0);
      } else if fields[2] == "hours" || fields[2] == "h" {
        milliseconds := Some(number(fields[1]) * 3600000.0);
      } else if fields[2] == "days" || fields[2] == "d" {
        milliseconds := Some(number(fields[1]) * 86400000.0);
      } else {
        return;
      }
      timers := timers + [Owned(c, TimerBody(now + milliseconds.value / 1000.0, Effect(fields[4], fields[5..])))];
    }

    method AddTimers(c: Name, now: real, number: string -> real)
      modifies `timers
      ensures timers == old(timers) + TimersOf(c, Open(files, c).timers, now, number)
    {
      var lines := Open(files, c).timers;
      var i := 0;
      while i < |lines|
        invariant 0 <= i <= |lines|
        invariant timers == old(timers) + TimersOf(c, lines[..i], now, number)
      {
        assert lines[..i + 1][..i] == lines[..i];
        AddTimer(c, lines[i], now, number);
        i := i + 1;
      }
      assert lines[..i] == lines;
    }

    method RemoveTimers(c: Name)
      modifies `timers
      ensures timers == Without(old(timers), c)
    {
      timers := Keep(timers, c);
    }

    method Add(c: Name, now: real, number: string -> real, ghost live: set<Name>)
      requires Installed(files, listenerCache, live) && c !in live
      modifies `listenerCache, `timers, `notices
      ensures Installed(files, listenerCache, live + {c})
      ensures timers == old(timers) + TimersOf(c, Open(files, c).timers, now, number)
      ensures notices == old(notices) + [SetUp(c)]
    {
      notices := notices + [SetUp(c)];
      AddTriggers(c);
      AddedInstalled(files, old(listenerCache), listenerCache, live, c);
      AddTimers(c, now, number);
    }

    method Remove(c: Name, ghost live: set<Name>)
      requires Installed(files, listenerCache, live)
      modifies `listenerCache, `timers, `notices
      ensures Installed(files, listenerCache, live - {c})
      ensures timers == Without(old(timers), c)
      ensures notices == old(notices) + [TornDown(c)]
    {
      notices := notices + [TornDown(c)];
      RemoveTriggers(c);
      RemovedInstalled(files, old(listenerCache), listenerCache, live, c);
      RemoveTimers(c);
    }

    method RemoveAll(gone: set<Name>) returns (ghost down: seq<Name>)
      requires Installed(files, listenerCache, currentClasses)
      modifies `listenerCache, `timers, `notices
      ensures Installed(files, listenerCache, currentClasses - gone)
      ensures Dropped(old(timers), timers, gone)
      ensures Lists(down, gone) && notices == old(notices) + TearDowns(down)
    {
      down := [];
      var left := gone;
      hide *;
      NothingDone(old(timers), old(notices), gone);
      SetSteps(gone, currentClasses);
      while left != {}
        invariant left <= gone
        invariant Installed(files, listenerCache, currentClasses - (gone - left))
        invariant Dropped(old(timers), timers, gone - left)
        invariant Lists(down, gone - left) && notices == old(notices) + TearDowns(down)
        decreases |left|
      {
        var c :| c in left;
        ghost var before := timers;
        OneFewer(gone, left, currentClasses, c);
        Remove(c, currentClasses - (gone - left));
        DroppedMore(old(timers), before, gone - left, c);
        OneMoreName(down, gone - left, c);
        down, left := down + [c], left - {c};
      }
    }

    method AddAll(come: set<Name>, ghost live: set<Name>, now: real, number: string -> real)
      returns (ghost up: seq<Name>)
      requires Installed(files, listenerCache, live) && come !! live
      modifies `listenerCache, `timers, `notices
      ensures Installed(files, listenerCache, live + come)
      ensures Joined(files, old(timers), timers, come, now, number)
      ensures Lists(up, come) && notices == old(notices) + SetUps(up)
    {
      up := [];
      var left := come;
      NothingJoined(files, timers, come, now, number);
      NothingDone(old(timers), old(notices), come);
      SetSteps(come, live);
      assert SoFar(files, old(timers), timers, old(notices), notices, up, come - left, now, number);
      hide Installed, Joined, Lists, SetUps, TimersOf, Open, Inherits;
      while left != {}
        invariant left <= come
        invariant Installed(files, listenerCache, live + (come - left))
        invariant SoFar(files, old(timers), timers, old(notices), notices, up, come - left, now, number)
        decreases |left|
      {
        var c :| c in left;
        ghost var done := come - left;
        OneFewer(come, left, live, c);
        SoFarMore(files, old(timers), timers, old(notices), notices, up, done, c, now, number);
        Add(c, now, number, live + done);
        up, left := up + [c], left - {c};
      }
    }

    /** Makes exactly the classes of `newState` active. The guard on the class file never fires: a missing file reads
        as an empty one. */
    method ChangeState(newState: Name, now: real, number: string -> real)
      returns (ghost down: seq<Name>, ghost up: seq<Name>)
      requires Valid()
      modifies this
      ensures Valid()
      ensures forall c :: c in currentClasses <==> Inherits(files, newState, c)
      ensures Lists(down, old(currentClasses) - currentClasses) && Lists(up, currentClasses - old(currentClasses))
      ensures notices == old(notices) + TearDowns(down) + SetUps(up)
      ensures TimersAfter(files, old(timers), timers, old(currentClasses), currentClasses, now, number)
    {
      var newClasses := GetAllClasses(files, newState);
      hide Installed, TimersLive, Dropped, Joined, TimersAfter, Lists, Inherits;
      down := RemoveAll(currentClasses - newClasses);
      ghost var mid := timers;
      assert currentClasses - (currentClasses - newClasses) == currentClasses * newClasses;
      up := AddAll(newClasses - currentClasses, currentClasses * newClasses, now, number);
      assert currentClasses * newClasses + (newClasses - currentClasses) == newClasses;
      SwapTimers(files, old(timers), mid, timers, currentClasses, newClasses, now, number);
      currentClasses := newClasses;
    }

    /** Fires the timers that have run out, in order, and forgets exactly those. */
    method CheckTimers(now: real) returns (fired: seq<Timer>)
      requires Valid()
      modifies `timers
      ensures Valid()
      ensures fired == Expiring(old(timers), now) && timers == Running(old(timers), now)
      ensures forall t :: multiset(fired)[t] == if t.item.endTime < now then multiset(old(timers))[t] else 0
      ensures forall t :: multiset(timers)[t] == if t.item.endTime < now then 0 else multiset(old(timers))[t]
    {
      forall t {
        SweepCounts(timers, now, t);
      }
      hide Expiring, Running, Installed, TimersLive, RemoveFirst;
      fired := Ripe(timers, now);
      var k := 0;
      while k < |fired|
        invariant 0 <= k <= |fired|
        invariant Expiring(timers, now) == fired[k..] && Running(timers, now) == Running(old(timers), now)
      {
        RemoveExpired(timers, now);
        if fired[k] in timers {
          timers := RemoveFirst(timers, fired[k]);
        }
        k := k + 1;
      }
      NoneExpiring(timers, now);
      RunningLive(files, old(timers), now, currentClasses);
    }
  }
}
