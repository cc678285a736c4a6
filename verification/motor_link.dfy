/** The motor controller link of motorController.cpp: what is commanded, what a response does, and how the speeds
    come to their targets. */
module MotorLink {
  import opened Bytes
  import opened MotorFrames

  const NO_MESSAGE: byte := 32
  const MOTOR_TYPE: byte := 68
  const MOTOR_RESPONSE_TYPE: byte := 100
  const CURRENT_TYPE: byte := 67
  const CURRENT_RESPONSE_TYPE: byte := 99
  const VOLTAGE_TYPE: byte := 86
  const VOLTAGE_RESPONSE_TYPE: byte := 118
  const ERROR_TYPE: byte := 101
  const LEFT: byte := 76
  const RIGHT: byte := 82
  const MAX_STEP: int := 20

  /** Four bytes; the program also reads them as a float. */
  type Data = d: seq<byte> | |d| == 4 witness [0, 0, 0, 0]

  datatype Message = Message(kind: byte, data: Data)

  // ---- Speeds ----

  /** The sign is reversed: the motors are mounted the other way round. */
  function Filter(speed: int): int { -(if speed >= 256 then 255 else if speed <= -256 then -255 else speed) }

  /** The lowest byte of an int of the program, negative ones in two's complement. */
  function ToByte(n: int): byte { n % 0x100 }

  function SpeedBytes(speed: int): (byte, byte) { if speed > 0 then (ToByte(speed), 0) else (0, ToByte(-speed)) }

  function SpeedOf(forward: byte, reverse: byte): (speed: int)
    ensures -255 <= speed <= 255
  {
    if forward != 0 then forward as int else -(reverse as int)
  }

  /** Sign and magnitude bytes give the speed back exactly when it fits. */
  lemma SpeedRoundTrip(speed: int)
    ensures SpeedOf(SpeedBytes(speed).0, SpeedBytes(speed).1) == speed <==> -255 <= speed <= 255
  {}

  function SpeedMessage(right: int, left: int): Message {
    Message(MOTOR_TYPE, [SpeedBytes(left).0, SpeedBytes(left).1, SpeedBytes(right).0, SpeedBytes(right).1])
  }

  /** The next speed to command on the way to the target. */
  function Slew(speed: int, target: int): int {
    var diff := target - speed;
    speed + if diff > MAX_STEP then MAX_STEP else if diff < -MAX_STEP then -MAX_STEP else diff
  }

  function Distance(a: int, b: int): nat { if a <= b then b - a else a - b }

  /** A step never overshoots, and covers the whole way or `MAX_STEP` of it. */
  lemma SlewApproaches(speed: int, target: int)
    ensures speed <= target ==> speed <= Slew(speed, target) <= target
    ensures speed >= target ==> speed >= Slew(speed, target) >= target
    ensures Distance(Slew(speed, target), target) ==
            if Distance(speed, target) <= MAX_STEP then 0 else Distance(speed, target) - MAX_STEP
  {}

  // ---- The link ----

  /** What the handler knows: the request it may be waiting on, the speeds last reported and those wanted. */
  datatype Link = Link(awaiting: bool, message: Message, left: int, right: int, leftTarget: int, rightTarget: int,
                       leftCurrent: Data, rightCurrent: Data, voltage: Data)

  predicate InRange(speed: int) { -255 <= speed <= 255 }

  /** Holds between any two steps of any run. */
  predicate Good(l: Link) {
    && l.message.kind in {NO_MESSAGE, MOTOR_TYPE, CURRENT_TYPE, VOLTAGE_TYPE}
    && (l.awaiting ==> l.message.kind != NO_MESSAGE)
    && InRange(l.left) && InRange(l.right) && InRange(l.leftTarget) && InRange(l.rightTarget)
  }

  /** The bytes sent for a message. */
  function Encode(m: Message): Frame { [START, m.kind] + m.data + [END] }

  function Answered(l: Link): Link { l.(message := l.message.(kind := NO_MESSAGE), awaiting := false) }

  /** What a frame from the controller does. A response that does not answer the request in hand is ignored. */
  function Respond(l: Link, f: Frame): Link
    requires IsFrame(f)
  {
    var kind, data := f[1], f[2..6];
    if kind == ERROR_TYPE then l.(awaiting := false)
    else if kind == MOTOR_RESPONSE_TYPE && l.message.kind == MOTOR_TYPE then
      Answered(l.(left := SpeedOf(data[0], data[1]), right := SpeedOf(data[2], data[3])))
    else if kind == CURRENT_RESPONSE_TYPE && l.message.kind == CURRENT_TYPE then
      Answered(if l.message.data[0] == LEFT then l.(leftCurrent := data) else l.(rightCurrent := data))
    else if kind == VOLTAGE_RESPONSE_TYPE && l.message.kind == VOLTAGE_TYPE then Answered(l.(voltage := data))
    else l
  }

  /** The link after a request is issued. */
  function Issue(l: Link, m: Message): Link { l.(message := m, awaiting := true) }

  function MotorCommand(l: Link): Message {
    SpeedMessage(Slew(l.right, l.rightTarget), Slew(l.left, l.leftTarget))
  }

  /** The request a query sends: the right current, the left current, or the voltage. */
  datatype Query = RightCurrent | LeftCurrent | Voltage

  function QueryMessage(q: Query, stale: Data): Message {
    match q
    case RightCurrent => Message(CURRENT_TYPE, stale[0 := RIGHT])
    case LeftCurrent => Message(CURRENT_TYPE, stale[0 := LEFT])
    case Voltage => Message(VOLTAGE_TYPE, stale)
  }

  /** The frames of the queries. */
  lemma QueryFrames(stale: Data)
    ensures Encode(QueryMessage(RightCurrent, stale)) ==
            ['S' as int, 'C' as int, 'R' as int, stale[1], stale[2], stale[3], 'E' as int]
    ensures Encode(QueryMessage(LeftCurrent, stale)) ==
            ['S' as int, 'C' as int, 'L' as int, stale[1], stale[2], stale[3], 'E' as int]
    ensures Encode(QueryMessage(Voltage, stale)) ==
            ['S' as int, 'V' as int, stale[0], stale[1], stale[2], stale[3], 'E' as int]
  {
  }

  /** A frame of the kind that answers a request: the same letter, in lower case. */
  predicate AnswersKind(f: Frame, kind: byte)
    requires IsFrame(f)
  {
    f[1] in {'d' as int, 'c' as int, 'v' as int} && kind == f[1] - 32
  }

  /** A report of trouble ends the wait and does nothing else; any other frame does something only if it is of the kind
      that answers the request in hand. */
  lemma OtherFrames(l: Link, f: Frame)
    requires IsFrame(f)
    ensures f[1] == 'e' as int ==> Respond(l, f) == l.(awaiting := false)
    ensures f[1] != 'e' as int && !AnswersKind(f, l.message.kind) ==> Respond(l, f) == l
    ensures AnswersKind(f, l.message.kind) ==> !Respond(l, f).awaiting
  {
  }

  // ---- Runs ----

  /** What can happen to the link. Commands and queries are skipped while a response is awaited, resends while none
      is. `taken` is how many bytes of what is sent reach the wire. */
  datatype Event =
    | Arrived(frame: Frame)
    | Targets(right: int, left: int)
    | Command(taken: nat)
    | Ask(query: Query, stale: Data, taken: nat)
    | Resend(taken: nat)

  predicate WellFormed(e: Event) { e.Arrived? ==> IsFrame(e.frame) }

  function Step(l: Link, e: Event): Link
    requires WellFormed(e)
  {
    match e
    case Arrived(frame) => Respond(l, frame)
    case Targets(right, left) => l.(rightTarget := Filter(right), leftTarget := Filter(left))
    case Command(_) => if l.awaiting then l else Issue(l, MotorCommand(l))
    case Ask(query, stale, _) => if l.awaiting then l else Issue(l, QueryMessage(query, stale))
    case Resend(_) => l
  }

  /** An event that puts a new request on the wire. */
  predicate Issues(l: Link, e: Event) { (e.Command? || e.Ask?) && !l.awaiting }

  /** An event that puts a request on the wire, new or again. */
  predicate Transmits(l: Link, e: Event) { Issues(l, e) || (e.Resend? && l.awaiting) }

  /** The request it puts there. */
  function Request(l: Link, e: Event): Message
    requires Transmits(l, e)
  {
    match e
    case Command(_) => MotorCommand(l)
    case Ask(query, stale, _) => QueryMessage(query, stale)
    case Resend(_) => l.message
  }

  /** An event that ends the wait for an answer. */
  predicate Settles(l: Link, e: Event)
    requires WellFormed(e)
  {
    l.awaiting && !Step(l, e).awaiting
  }

  lemma StepKeepsGood(l: Link, e: Event)
    requires Good(l) && WellFormed(e)
    ensures Good(Step(l, e))
  {
    match e
    case Arrived(frame) =>
      assert InRange(SpeedOf(frame[2], frame[3])) && InRange(SpeedOf(frame[4], frame[5]));
    case _ =>
  }

  function Run(l: Link, events: seq<Event>): Link
    requires forall k :: 0 <= k < |events| ==> WellFormed(events[k])
  {
    if events == [] then l else Step(Run(l, events[..|events| - 1]), events[|events| - 1])
  }

  lemma {:induction false} RunOn(l: Link, events: seq<Event>, more: seq<Event>)
    requires forall k :: 0 <= k < |events| ==> WellFormed(events[k])
    requires forall k :: 0 <= k < |more| ==> WellFormed(more[k])
    ensures Run(l, events + more) == Run(Run(l, events), more)
  {
    if more == [] {
      assert events + more == events;
    } else {
      assert (events + more)[..|events + more| - 1] == events + more[..|more| - 1];
      RunOn(l, events, more[..|more| - 1]);
    }
  }

  /** Frames as events. */
  function Arrivals(frames: seq<Frame>): (events: seq<Event>)
    requires forall k :: 0 <= k < |frames| ==> IsFrame(frames[k])
    ensures |events| == |frames| && forall k :: 0 <= k < |events| ==> events[k] == Arrived(frames[k])
  {
    seq(|frames|, k requires 0 <= k < |frames| => Arrived(frames[k]))
  }

  const INITIAL: Link :=
    var none: Data := [0, 0, 0, 0];
    Link(false, Message(NO_MESSAGE, none), 0, 0, 0, 0, none, none, none)

  lemma {:induction false} RunKeepsGood(l: Link, events: seq<Event>)
    requires Good(l) && forall k :: 0 <= k < |events| ==> WellFormed(events[k])
    ensures Good(Run(l, events))
  {
    if events != [] {
      RunKeepsGood(l, events[..|events| - 1]);
      StepKeepsGood(Run(l, events[..|events| - 1]), events[|events| - 1]);
    }
  }

  // ---- Stop and wait ----

  /** The bytes of a request that reach the wire. */
  function Written(m: Message, taken: nat): seq<byte> { if taken >= 7 then Encode(m) else Encode(m)[..taken] }

  /** The bytes an event sends. */
  function Output(l: Link, e: Event): seq<byte> { if Transmits(l, e) then Written(Request(l, e), e.taken) else [] }

  /** The bytes a run sends. */
  function SentBy(l: Link, events: seq<Event>): seq<byte>
    requires forall k :: 0 <= k < |events| ==> WellFormed(events[k])
  {
    if events == [] then [] else
      var init, last := events[..|events| - 1], events[|events| - 1];
      SentBy(l, init) + Output(Run(l, init), last)
  }

  /** How many waits end in a run. */
  function SettledIn(l: Link, events: seq<Event>): nat
    requires forall k :: 0 <= k < |events| ==> WellFormed(events[k])
  {
    if events == [] then 0 else
      var init, last := events[..|events| - 1], events[|events| - 1];
      SettledIn(l, init) + if Settles(Run(l, init), last) then 1 else 0
  }

  /** One wait ends at each event from `i` to before `j` that settles. */
  ghost predicate SettledBetween(l: Link, events: seq<Event>, i: nat, j: nat)
    requires j <= |events| && forall k :: 0 <= k < |events| ==> WellFormed(events[k])
  {
    exists k :: i <= k < j && Settles(Run(l, events[..k]), events[k])
  }

  lemma RunStep(l: Link, events: seq<Event>, k: nat)
    requires k < |events| && forall k :: 0 <= k < |events| ==> WellFormed(events[k])
    ensures Run(l, events[..k + 1]) == Step(Run(l, events[..k]), events[k])
  {
    assert events[..k + 1][..k] == events[..k];
  }

  lemma StepHolds(l: Link, e: Event)
    requires WellFormed(e) && l.awaiting && !Settles(l, e)
    ensures Step(l, e).awaiting && Step(l, e).message == l.message
  {
  }

  /** While a request is not settled it stays in hand, whatever arrives and whatever is asked for. */
  lemma {:induction false} StaysInHand(l: Link, events: seq<Event>, i: nat, j: nat)
    requires i <= j <= |events| && forall k :: 0 <= k < |events| ==> WellFormed(events[k])
    requires Run(l, events[..i]).awaiting && !SettledBetween(l, events, i, j)
    ensures Run(l, events[..j]).awaiting && Run(l, events[..j]).message == Run(l, events[..i]).message
  {
    if i < j {
      StaysInHand(l, events, i, j - 1);
      RunStep(l, events, j - 1);
      hide Run, Step, Settles;
      StepHolds(Run(l, events[..j - 1]), events[j - 1]);
    }
  }

  lemma {:induction false} StaysIdle(l: Link, events: seq<Event>, i: nat, j: nat)
    requires i <= j <= |events| && forall k :: 0 <= k < |events| ==> WellFormed(events[k])
    requires !Run(l, events[..i]).awaiting
    requires forall k :: i <= k < j ==> !Issues(Run(l, events[..k]), events[k])
    ensures !Run(l, events[..j]).awaiting
  {
    if i < j {
      StaysIdle(l, events, i, j - 1);
      RunStep(l, events, j - 1);
      assert !Issues(Run(l, events[..j - 1]), events[j - 1]);
    }
  }

  /** Stop and wait. Of two requests put on the wire one after the other in any run, the later is the same request
      again if and only if nothing was settled in between; a new one only follows a settlement. */
  lemma StopAndWait(l: Link, events: seq<Event>, i: nat, j: nat)
    requires i < j < |events| && forall k :: 0 <= k < |events| ==> WellFormed(events[k])
    requires var a, b := Run(l, events[..i]), Run(l, events[..j]); Transmits(a, events[i]) && Transmits(b, events[j])
    requires forall k :: i < k < j ==> !Transmits(Run(l, events[..k]), events[k])
    ensures var a, b := Run(l, events[..i]), Run(l, events[..j]);
            if SettledBetween(l, events, i + 1, j) then Issues(b, events[j])
            else events[j].Resend? && Request(b, events[j]) == Request(a, events[i])
  {
    RunStep(l, events, i);
    if SettledBetween(l, events, i + 1, j) {
      var k :| i + 1 <= k < j && Settles(Run(l, events[..k]), events[k]);
      RunStep(l, events, k);
      StaysIdle(l, events, k + 1, j);
    } else {
      StaysInHand(l, events, i + 1, j);
    }
  }

  /** A request and how often it was put on the wire. */
  datatype Burst = Burst(message: Message, copies: nat)

  function Copies(m: Message, n: nat): seq<byte> { if n == 0 then [] else Copies(m, n - 1) + Encode(m) }

  function BurstBytes(bursts: seq<Burst>): seq<byte> {
    if bursts == [] then [] else
      BurstBytes(bursts[..|bursts| - 1]) + Copies(bursts[|bursts| - 1].message, bursts[|bursts| - 1].copies)
  }

  /** Everything sent reaches the wire whole. */
  predicate TakenWhole(events: seq<Event>) {
    forall k :: 0 <= k < |events| && (events[k].Command? || events[k].Ask? || events[k].Resend?) ==> events[k].taken >= 7
  }

  lemma BurstLast(bursts: seq<Burst>, b: Burst)
    ensures BurstBytes(bursts + [b]) == BurstBytes(bursts) + Copies(b.message, b.copies)
  {
    hide Copies;
    assert (bursts + [b])[..|bursts|] == bursts;
  }

  lemma OneCopy(m: Message)
    ensures Copies(m, 1) == Encode(m)
  {
    hide Encode;
    assert Copies(m, 0) == [];
  }

  lemma CopiesGrow(m: Message, n: nat)
    ensures Copies(m, n + 1) == Copies(m, n) + Encode(m)
  {}

  lemma BurstGrows(init: seq<Burst>, m: Message, n: nat)
    ensures BurstBytes(init + [Burst(m, n + 1)]) == BurstBytes(init + [Burst(m, n)]) + Encode(m)
  {
    hide *;
    BurstLast(init, Burst(m, n));
    BurstLast(init, Burst(m, n + 1));
    CopiesGrow(m, n);
    Associates(BurstBytes(init), Copies(m, n), Encode(m));
  }

  lemma Associates(a: seq<byte>, b: seq<byte>, c: seq<byte>)
    ensures a + (b + c) == a + b + c
  {}

  /** The last burst is the request in hand. */
  ghost predicate BurstsFor(l: Link, bursts: seq<Burst>) {
    (forall b :: b in bursts ==> b.copies >= 1) &&
    (l.awaiting ==> bursts != [] && bursts[|bursts| - 1].message == l.message)
  }

  lemma BurstsStep(before: seq<Burst>, l: Link, e: Event) returns (bursts: seq<Burst>)
    requires WellFormed(e) && BurstsFor(l, before) && (Transmits(l, e) ==> e.taken >= 7)
    ensures BurstsFor(Step(l, e), bursts) && BurstBytes(bursts) == BurstBytes(before) + Output(l, e)
    ensures |bursts| == |before| + if Issues(l, e) then 1 else 0
  {
    bursts := before;
    hide Copies, BurstBytes, MotorCommand, QueryMessage, Encode;
    if Issues(l, e) {
      BurstLast(before, Burst(Request(l, e), 1));
      OneCopy(Request(l, e));
      bursts := before + [Burst(Request(l, e), 1)];
    } else if Transmits(l, e) {
      var most, n := before[..|before| - 1], before[|before| - 1].copies;
      assert before == most + [Burst(l.message, n)];
      BurstGrows(most, l.message, n);
      bursts := most + [Burst(l.message, n + 1)];
    }
  }

  /** The bytes on the wire, in every reachable state: one request after the other, each followed by repeats of
      itself. All requests but the one still waited for are settled. */
  lemma {:induction false} SentIsBursts(events: seq<Event>) returns (bursts: seq<Burst>)
    requires (forall k :: 0 <= k < |events| ==> WellFormed(events[k])) && TakenWhole(events)
    ensures SentBy(INITIAL, events) == BurstBytes(bursts) && BurstsFor(Run(INITIAL, events), bursts)
    ensures |bursts| == SettledIn(INITIAL, events) + if Run(INITIAL, events).awaiting then 1 else 0
  {
    if events == [] {
      bursts := [];
    } else {
      var init, last := events[..|events| - 1], events[|events| - 1];
      var before := SentIsBursts(init);
      bursts := BurstsStep(before, Run(INITIAL, init), last);
      hide BurstBytes, BurstsFor, Output, MotorCommand, QueryMessage;
    }
  }

  /** The first frame of the right kind after a query ends the wait and lands in the value asked for, and nowhere
      else. Whether it was meant for this query is the subject of `MotorAnswers`. */
  lemma QueryAnswered(l: Link, q: Query, stale: Data, taken: nat, f: Frame)
    requires IsFrame(f) && !l.awaiting
    requires f[1] == if q.Voltage? then VOLTAGE_RESPONSE_TYPE else CURRENT_RESPONSE_TYPE
    ensures var r := Step(Step(l, Ask(q, stale, taken)), Arrived(f));
            !r.awaiting && r.left == l.left && r.right == l.right &&
            r.leftCurrent == (if q.LeftCurrent? then f[2..6] else l.leftCurrent) &&
            r.rightCurrent == (if q.RightCurrent? then f[2..6] else l.rightCurrent) &&
            r.voltage == if q.Voltage? then f[2..6] else l.voltage
  {
    assert QueryMessage(q, stale).data[0] == if q.RightCurrent? then RIGHT else if q.LeftCurrent? then LEFT else stale[0];
  }

  // ---- Convergence ----

  /** The answer of a controller that takes the commanded speeds. */
  function Echo(f: Frame): Frame
    requires IsFrame(f)
  {
    f[1 := MOTOR_RESPONSE_TYPE]
  }

  lemma EchoMovesSpeeds(l: Link)
    requires Good(l) && l.message == MotorCommand(l)
    ensures Respond(l, Echo(Encode(l.message)))
         == Answered(l.(left := Slew(l.left, l.leftTarget), right := Slew(l.right, l.rightTarget)))
  {
    SlewApproaches(l.left, l.leftTarget);
    SlewApproaches(l.right, l.rightTarget);
    SpeedRoundTrip(Slew(l.left, l.leftTarget));
    SpeedRoundTrip(Slew(l.right, l.rightTarget));
    assert Echo(Encode(l.message))[2..6] == l.message.data;
  }

  /** A motor command, and the echo of it. */
  function Round(l: Link): Link
    requires !l.awaiting
  {
    var issued := Issue(l, MotorCommand(l));
    Respond(issued, Echo(Encode(issued.message)))
  }

  /** A completed round moves both speeds one step towards their targets and settles the request. */
  lemma RoundMovesSpeeds(l: Link)
    requires Good(l) && !l.awaiting
    ensures Good(Round(l)) && !Round(l).awaiting && Round(l).message.kind == NO_MESSAGE
    ensures Round(l).left == Slew(l.left, l.leftTarget) && Round(l).right == Slew(l.right, l.rightTarget)
    ensures Round(l).leftTarget == l.leftTarget && Round(l).rightTarget == l.rightTarget
  {
    SlewApproaches(l.left, l.leftTarget);
    SlewApproaches(l.right, l.rightTarget);
    EchoMovesSpeeds(Issue(l, MotorCommand(l)));
  }

  /** A response taken for the answer to a motor command. */
  predicate AnswersMotor(l: Link, e: Event)
    requires WellFormed(e)
  {
    e.Arrived? && e.frame[1] == MOTOR_RESPONSE_TYPE && l.message.kind == MOTOR_TYPE
  }

  /** Events that leave the targets alone, in which every motor answer taken echoes the command in hand. Queries,
      resends, errors and frames that answer nothing may come anywhere. */
  predicate Faithful(l: Link, events: seq<Event>)
    requires forall k :: 0 <= k < |events| ==> WellFormed(events[k])
  {
    events == [] ||
    var init, last := events[..|events| - 1], events[|events| - 1];
    Faithful(l, init) && !last.Targets? &&
    (AnswersMotor(Run(l, init), last) ==> last.frame == Echo(Encode(Run(l, init).message)))
  }

  function MotorAnswersIn(l: Link, events: seq<Event>): nat
    requires forall k :: 0 <= k < |events| ==> WellFormed(events[k])
  {
    if events == [] then 0 else
      var init, last := events[..|events| - 1], events[|events| - 1];
      MotorAnswersIn(l, init) + if AnswersMotor(Run(l, init), last) then 1 else 0
  }

  /** An event that keeps the terms of `Faithful`. */
  predicate Fair(l: Link, e: Event)
    requires WellFormed(e)
  {
    !e.Targets? && (AnswersMotor(l, e) ==> e.frame == Echo(Encode(l.message)))
  }

  lemma RunFirst(l: Link, e: Event, rest: seq<Event>)
    requires WellFormed(e) && forall k :: 0 <= k < |rest| ==> WellFormed(rest[k])
    ensures Run(l, [e] + rest) == Run(Step(l, e), rest)
  {
    RunOn(l, [e], rest);
    assert [e][..0] == [] && Run(l, []) == l;
  }

  lemma {:induction false} FaithfulFirst(l: Link, e: Event, rest: seq<Event>)
    requires WellFormed(e) && forall k :: 0 <= k < |rest| ==> WellFormed(rest[k])
    ensures Faithful(l, [e] + rest) <==> Fair(l, e) && Faithful(Step(l, e), rest)
  {
    var all := [e] + rest;
    if rest == [] {
      assert all == [e] && all[..0] == [];
    } else {
      var most := rest[..|rest| - 1];
      assert all[..|all| - 1] == [e] + most;
      FaithfulFirst(l, e, most);
      RunFirst(l, e, most);
      hide Step, AnswersMotor, Echo, Encode, Fair;
    }
  }

  /** The way left after `n` steps. */
  function Left(distance: nat, n: nat): nat { if distance <= n * 20 then 0 else distance - n * 20 }

  /** What one event does to the speeds while the command in hand, if any, is the one for these speeds. */
  lemma FaithfulStep(l: Link, e: Event)
    requires WellFormed(e) && Good(l) && !e.Targets?
    requires l.message.kind == MOTOR_TYPE ==> l.message == MotorCommand(l)
    requires AnswersMotor(l, e) ==> e.frame == Echo(Encode(l.message))
    ensures var r := Step(l, e);
            (r.message.kind == MOTOR_TYPE ==> r.message == MotorCommand(r)) &&
            r.leftTarget == l.leftTarget && r.rightTarget == l.rightTarget &&
            r.left == (if AnswersMotor(l, e) then Slew(l.left, l.leftTarget) else l.left) &&
            r.right == if AnswersMotor(l, e) then Slew(l.right, l.rightTarget) else l.right
  {
    if AnswersMotor(l, e) {
      EchoMovesSpeeds(l);
    }
  }

  /** Over every run in which the controller does as commanded, whatever else happens in between, each motor answer
      brings both speeds `MAX_STEP` nearer, and they are at their targets after exactly as many as cover the way. */
  lemma {:induction false} Converges(l: Link, events: seq<Event>)
    requires Good(l) && l.message.kind != MOTOR_TYPE
    requires (forall k :: 0 <= k < |events| ==> WellFormed(events[k])) && Faithful(l, events)
    ensures var r, n := Run(l, events), MotorAnswersIn(l, events);
            r.leftTarget == l.leftTarget && r.rightTarget == l.rightTarget &&
            Distance(r.left, l.leftTarget) == Left(Distance(l.left, l.leftTarget), n) &&
            Distance(r.right, l.rightTarget) == Left(Distance(l.right, l.rightTarget), n) &&
            (r.left == l.leftTarget <==> Distance(l.left, l.leftTarget) <= n * 20) &&
            (r.right == l.rightTarget <==> Distance(l.right, l.rightTarget) <= n * 20)
    ensures var r := Run(l, events); r.message.kind == MOTOR_TYPE ==> r.message == MotorCommand(r)
  {
    if events != [] {
      var init, last := events[..|events| - 1], events[|events| - 1];
      Converges(l, init);
      RunKeepsGood(l, init);
      var r := Run(l, init);
      FaithfulStep(r, last);
      SlewApproaches(r.left, r.leftTarget);
      SlewApproaches(r.right, r.rightTarget);
      hide Step, MotorCommand, Slew, AnswersMotor, Faithful, Good;
    }
  }

  // ---- What a speed asked for comes to ----

  function Magnitude(speed: int): byte { if -255 <= speed <= 255 then (if speed < 0 then -speed else speed) else 255 }

  /** The target for a request: as fast, up to 255, the other way round. */
  predicate Reversed(request: int, target: int) {
    Distance(target, 0) == Magnitude(request) && (request > 0 ==> target < 0) && (request < 0 ==> target > 0)
  }

  lemma TargetsReverse(l: Link, right: int, left: int)
    ensures var r := Step(l, Targets(right, left)); Reversed(right, r.rightTarget) && Reversed(left, r.leftTarget)
  {
  }

  /** The bytes, forward and reverse, that drive a motor at a speed asked for: forward ones for a negative request. */
  function DriveBytes(request: int): seq<byte> { if request > 0 then [0, Magnitude(request)] else [Magnitude(request), 0] }

  lemma TargetBytes(request: int, target: int)
    requires Reversed(request, target)
    ensures [SpeedBytes(target).0, SpeedBytes(target).1] == DriveBytes(request)
  {
  }

  lemma CommandFrame(right: int, left: int, rightTarget: int, leftTarget: int)
    requires Reversed(right, rightTarget) && Reversed(left, leftTarget)
    ensures Encode(SpeedMessage(rightTarget, leftTarget))
         == ['S' as int, 'D' as int] + DriveBytes(left) + DriveBytes(right) + ['E' as int]
  {
    TargetBytes(right, rightTarget);
    TargetBytes(left, leftTarget);
    hide SpeedBytes, DriveBytes;
    var l, r := DriveBytes(left), DriveBytes(right);
    assert l + r == [l[0], l[1], r[0], r[1]];
  }

  lemma SpeedsHold(l: Link)
    requires l.left == l.leftTarget && l.right == l.rightTarget
    ensures MotorCommand(l) == SpeedMessage(l.rightTarget, l.leftTarget)
  {
  }

  /** Once the speeds have come to the targets of a request, in any run that keeps the terms, the frame that goes out
      drives the left motor, then the right one, at the speeds asked for. */
  lemma RequestIsCommanded(l: Link, right: int, left: int, events: seq<Event>)
    requires Good(l) && l.message.kind != MOTOR_TYPE && forall k :: 0 <= k < |events| ==> WellFormed(events[k])
    requires var aimed := Step(l, Targets(right, left));
             Faithful(aimed, events) &&
             Distance(l.left, aimed.leftTarget) <= MotorAnswersIn(aimed, events) * 20 &&
             Distance(l.right, aimed.rightTarget) <= MotorAnswersIn(aimed, events) * 20
    ensures var aimed := Step(l, Targets(right, left));
            Encode(MotorCommand(Run(aimed, events))) == ['S' as int, 'D' as int] + DriveBytes(left) + DriveBytes(right) + ['E' as int]
  {
    var aimed := Step(l, Targets(right, left));
    StepKeepsGood(l, Targets(right, left));
    TargetsReverse(l, right, left);
    assert aimed.left == l.left && aimed.right == l.right;
    hide *;
    Converges(aimed, events);
    SpeedsHold(Run(aimed, events));
    CommandFrame(right, left, aimed.rightTarget, aimed.leftTarget);
  }
}
