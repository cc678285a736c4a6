/** Which request an answer of the motor controller belongs to. The controller answers the copies of requests that
    reach it in their order; the handler of motorController.cpp only looks at the kind of an answer. */
module MotorAnswers {
  import opened Bytes
  import opened MotorFrames
  import opened MotorLink

  /** A request on its way, with its number. A resend has the number of its request. */
  datatype Copy = Copy(number: nat, message: Message)

  /** The link, the copies not answered yet, oldest first, and the number of the request issued last. */
  datatype Channel = Channel(link: Link, pending: seq<Copy>, number: nat)

  /** What can happen: something on the side of the handler, the controller's answer to the oldest copy, the loss of
      that copy or of its answer, or a report of trouble. */
  datatype Happening = Here(event: Event) | Answer(data: Data) | Lost | Trouble(text: Data)

  predicate Local(h: Happening) { h.Here? ==> !h.event.Arrived? }

  function ReplyKind(kind: byte): byte {
    if kind == MOTOR_TYPE then MOTOR_RESPONSE_TYPE
    else if kind == CURRENT_TYPE then CURRENT_RESPONSE_TYPE
    else VOLTAGE_RESPONSE_TYPE
  }

  function Reply(m: Message, data: Data): Frame { [START, ReplyKind(m.kind)] + data + [END] }

  function Report(text: Data): Frame { [START, ERROR_TYPE] + text + [END] }

  /** A copy is on its way once the whole request reached the wire. */
  function Sent(c: Channel, e: Event, number: nat): seq<Copy> {
    if Transmits(c.link, e) && e.taken >= 7 then [Copy(number, Request(c.link, e))] else []
  }

  function Move(c: Channel, h: Happening): Channel
    requires Local(h)
  {
    match h
    case Here(e) =>
      var number := if Issues(c.link, e) then c.number + 1 else c.number;
      Channel(Step(c.link, e), c.pending + Sent(c, e, number), number)
    case Answer(data) =>
      if c.pending == [] then c
      else c.(link := Respond(c.link, Reply(c.pending[0].message, data)), pending := c.pending[1..])
    case Lost => if c.pending == [] then c else c.(pending := c.pending[1..])
    case Trouble(text) => c.(link := Respond(c.link, Report(text)))
  }

  /** A channel without traffic. */
  const START_UP: Channel := Channel(INITIAL, [], 0)

  predicate NewRequest(c: Channel, h: Happening) { h.Here? && Issues(c.link, h.event) }

  /** An answer that is taken for the answer to another request than the one it belongs to. */
  predicate Misread(c: Channel, h: Happening) {
    && h.Answer? && c.pending != []
    && c.pending[0].message.kind == c.link.message.kind && c.pending[0].number != c.number
  }

  /** An answer is taken if and only if it is of the kind of the request in hand; the wait is then over. */
  lemma AnswerTaken(c: Channel, data: Data)
    requires c.pending != [] && IsKind(c.pending[0].message.kind)
    ensures var next := Move(c, Answer(data)).link;
            if c.pending[0].message.kind == c.link.message.kind
            then !next.awaiting && next.message.kind == NO_MESSAGE
            else next == c.link
  {
    assert Reply(c.pending[0].message, data)[1] == ReplyKind(c.pending[0].message.kind);
  }

  // ---- What every state satisfies ----

  predicate IsKind(kind: byte) { kind in {MOTOR_TYPE, CURRENT_TYPE, VOLTAGE_TYPE} }

  /** Copies are in the order of their requests. */
  ghost predicate Sound(c: Channel) {
    && Good(c.link)
    && (forall k :: 0 <= k < |c.pending| ==> IsKind(c.pending[k].message.kind) && c.pending[k].number <= c.number)
    && forall j, k :: 0 <= j < k < |c.pending| ==> c.pending[j].number <= c.pending[k].number
  }

  lemma MoveKeepsSound(c: Channel, h: Happening)
    requires Sound(c) && Local(h)
    ensures Sound(Move(c, h))
  {
    match h
    case Here(e) => StepKeepsGood(c.link, e);
    case Answer(data) =>
      if c.pending != [] { StepKeepsGood(c.link, Arrived(Reply(c.pending[0].message, data))); }
    case Lost =>
    case Trouble(text) => StepKeepsGood(c.link, Arrived(Report(text)));
  }

  /** An unanswered copy of an earlier request of the kind of the request in hand. */
  predicate StaleAt(c: Channel, k: int) {
    0 <= k < |c.pending| && c.pending[k].number != c.number && c.pending[k].message.kind == c.link.message.kind
  }

  ghost predicate Stale(c: Channel) { exists k :: StaleAt(c, k) }

  // ---- One request ----

  /** What follows up to the next request. */
  ghost predicate Quiet(c: Channel, more: seq<Happening>)
    decreases |more|
  {
    more == [] || (Local(more[0]) && !NewRequest(c, more[0]) && Quiet(Move(c, more[0]), more[1..]))
  }

  ghost predicate MisreadIn(c: Channel, more: seq<Happening>)
    requires Quiet(c, more)
    decreases |more|
  {
    more != [] && (Misread(c, more[0]) || MisreadIn(Move(c, more[0]), more[1..]))
  }

  /** Whatever follows up to the next request, no answer is misread. */
  ghost predicate Safe(c: Channel) {
    forall more :: Quiet(c, more) ==> !MisreadIn(c, more)
  }

  lemma QuietMakesNoneStale(c: Channel, h: Happening)
    requires Sound(c) && Local(h) && !NewRequest(c, h)
    ensures Stale(Move(c, h)) ==> Stale(c)
  {
    var next := Move(c, h);
    if Stale(next) {
      var k :| StaleAt(next, k);
      if h.Here? || h.Trouble? || c.pending == [] {
        assert StaleAt(c, k);
      } else {
        assert next.pending[k] == c.pending[k + 1];
        assert StaleAt(c, k + 1);
      }
    }
  }

  lemma {:induction false} FreshNeverMisread(c: Channel, more: seq<Happening>)
    requires Sound(c) && !Stale(c) && Quiet(c, more)
    ensures !MisreadIn(c, more)
    decreases |more|
  {
    if more != [] {
      assert !StaleAt(c, 0);
      MoveKeepsSound(c, more[0]);
      QuietMakesNoneStale(c, more[0]);
      FreshNeverMisread(Move(c, more[0]), more[1..]);
    }
  }

  /** The controller answers until the first stale copy is taken for the answer. */
  lemma {:induction false} StaleIsMisread(c: Channel, k: nat, data: Data) returns (more: seq<Happening>)
    requires Sound(c) && StaleAt(c, k)
    ensures Quiet(c, more) && MisreadIn(c, more)
    decreases k
  {
    var h := Answer(data);
    assert k > 0 ==> c.pending[0].number <= c.pending[k].number < c.number;
    if Misread(c, h) {
      more := [h];
      assert Quiet(Move(c, h), more[1..]);
    } else {
      var next := Move(c, h);
      MoveKeepsSound(c, h);
      assert next.link == c.link && next.pending[k - 1] == c.pending[k];
      var rest := StaleIsMisread(next, k - 1, data);
      more := [h] + rest;
      assert more[1..] == rest;
    }
  }

  /** The answers taken up to the next request belong to the request in hand, whatever happens, if and only if no
      copy of an earlier request of its kind is unanswered. */
  lemma SafeExactly(c: Channel, data: Data)
    requires Sound(c)
    ensures Safe(c) <==> !Stale(c)
  {
    if Stale(c) {
      var k :| StaleAt(c, k);
      var more := StaleIsMisread(c, k, data);
    } else {
      forall more | Quiet(c, more) ensures !MisreadIn(c, more) {
        FreshNeverMisread(c, more);
      }
    }
  }

  // ---- Every run ----

  predicate AllLocal(hs: seq<Happening>) { forall k :: 0 <= k < |hs| ==> Local(hs[k]) }

  /** Each request is issued while no copy of an earlier request of its kind is unanswered. */
  ghost predicate Clean(c: Channel, hs: seq<Happening>)
    requires AllLocal(hs)
    decreases |hs|
  {
    hs == [] || ((NewRequest(c, hs[0]) ==> !Stale(Move(c, hs[0]))) && Clean(Move(c, hs[0]), hs[1..]))
  }

  /** At no point of a run can an answer be misread before the next request. */
  ghost predicate SafeThroughout(c: Channel, hs: seq<Happening>)
    requires AllLocal(hs)
    decreases |hs|
  {
    Safe(c) && (hs != [] ==> SafeThroughout(Move(c, hs[0]), hs[1..]))
  }

  /** Over every run: every answer taken belongs to the request in hand, and does so however each request's wait goes
      on, if and only if no request is issued while a copy of an earlier one of its kind is unanswered. */
  lemma {:induction false} AnswersBelong(c: Channel, hs: seq<Happening>, data: Data)
    requires AllLocal(hs) && Sound(c) && !Stale(c)
    ensures SafeThroughout(c, hs) <==> Clean(c, hs)
    decreases |hs|
  {
    SafeExactly(c, data);
    if hs != [] {
      var next := Move(c, hs[0]);
      MoveKeepsSound(c, hs[0]);
      SafeExactly(next, data);
      if !Stale(next) {
        AnswersBelong(next, hs[1..], data);
      } else if !NewRequest(c, hs[0]) {
        QuietMakesNoneStale(c, hs[0]);
      }
    }
  }

  /** In particular, nothing is misread when every copy is answered or lost before the next request is issued. */
  ghost predicate Drained(c: Channel, hs: seq<Happening>)
    requires AllLocal(hs)
    decreases |hs|
  {
    hs == [] || ((NewRequest(c, hs[0]) ==> c.pending == []) && Drained(Move(c, hs[0]), hs[1..]))
  }

  lemma {:induction false} DrainedIsClean(c: Channel, hs: seq<Happening>)
    requires AllLocal(hs) && Drained(c, hs)
    ensures Clean(c, hs)
    decreases |hs|
  {
    if hs != [] {
      var next := Move(c, hs[0]);
      if NewRequest(c, hs[0]) {
        assert forall k :: 0 <= k < |next.pending| ==> next.pending[k].number == next.number;
      }
      DrainedIsClean(next, hs[1..]);
    }
  }

  /** So it is enough to wait for all copies before the next request ... */
  lemma DrainedIsSafe(hs: seq<Happening>, data: Data)
    requires AllLocal(hs) && Drained(START_UP, hs)
    ensures SafeThroughout(START_UP, hs)
  {
    DrainedIsClean(START_UP, hs);
    AnswersBelong(START_UP, hs, data);
  }

  /** ... but more than needed: an unanswered copy of another kind does no harm to the next request. */
  lemma DrainingNotNeeded(stale: Data, volts: Data)
    ensures var hs := [Here(Ask(Voltage, stale, 7)), Here(Resend(7)), Answer(volts), Here(Command(7))];
            AllLocal(hs) && !Drained(START_UP, hs) && Clean(START_UP, hs)
  {
    var hs := [Here(Ask(Voltage, stale, 7)), Here(Resend(7)), Answer(volts), Here(Command(7))];
    var c1 := Move(START_UP, hs[0]);
    var c2 := Move(c1, hs[1]);
    var c3 := Move(c2, hs[2]);
    var c4 := Move(c3, hs[3]);
    assert hs[1..][1..] == hs[2..] && hs[2..][1..] == hs[3..] && hs[3..][1..] == [];
    assert !Stale(c1) && !Stale(c4);
    assert Clean(c4, []) && Clean(c3, hs[3..]) && Clean(c2, hs[2..]) && Clean(c1, hs[1..]);
    assert !Drained(c3, hs[3..]);
    assert !Drained(c2, hs[2..]);
    assert !Drained(c1, hs[1..]);
  }

  // ---- The run that goes wrong ----

  function After(c: Channel, hs: seq<Happening>): Channel
    requires AllLocal(hs)
    decreases |hs|
  {
    if hs == [] then c else After(Move(c, hs[0]), hs[1..])
  }

  lemma FourSteps(c: Channel, h0: Happening, h1: Happening, h2: Happening, h3: Happening)
    requires Local(h0) && Local(h1) && Local(h2) && Local(h3)
    ensures AllLocal([h0, h1, h2, h3]) && After(c, [h0, h1, h2, h3]) == Move(Move(Move(Move(c, h0), h1), h2), h3)
  {
    hide Move;
    assert [h0, h1, h2, h3][1..] == [h1, h2, h3] && [h1, h2, h3][1..] == [h2, h3] && [h2, h3][1..] == [h3];
    assert [h3][1..] == [];
    assert AllLocal([h1, h2, h3]) && AllLocal([h2, h3]) && AllLocal([h3]);
    var d := Move(Move(c, h0), h1);
    assert After(Move(d, h2), [h3]) == Move(Move(d, h2), h3);
    assert After(d, [h2, h3]) == After(Move(d, h2), [h3]);
    assert After(Move(c, h0), [h1, h2, h3]) == After(d, [h2, h3]);
  }

  /** The right current is asked for twice, since the answer is late. The first answer settles the request, the left
      current is asked for, and the second answer, meant for the right current, is taken for the left one. */
  lemma LateAnswerMisread(stale: Data, right: Data, again: Data)
    ensures var hs := [Here(Ask(RightCurrent, stale, 7)), Here(Resend(7)), Answer(right),
                       Here(Ask(LeftCurrent, stale, 7)), Answer(again)];
            AllLocal(hs) && !Clean(START_UP, hs) &&
            var before, end := After(START_UP, hs[..4]), After(START_UP, hs);
            Misread(before, hs[4]) && before.pending[0].message == QueryMessage(RightCurrent, stale) &&
            end.link.rightCurrent == right && end.link.leftCurrent == again && !end.link.awaiting
  {
    var hs := [Here(Ask(RightCurrent, stale, 7)), Here(Resend(7)), Answer(right),
               Here(Ask(LeftCurrent, stale, 7)), Answer(again)];
    var c2 := RightAskedTwice(stale);
    var c4 := LeftAskedWithStale(c2, stale, right);
    LastOfFive(START_UP, hs[0], hs[1], hs[2], hs[3], hs[4]);
    var end := LateAnswerTaken(c4, stale, again);
    var c1, c3 := Move(START_UP, hs[0]), Move(c2, hs[2]);
    hide Move, Stale;
    assert hs[1..][1..] == hs[2..] && hs[2..][1..] == hs[3..];
    assert !Clean(c3, hs[3..]);
    assert !Clean(c2, hs[2..]);
    assert !Clean(c1, hs[1..]);
  }

  lemma RightAskedTwice(stale: Data) returns (c: Channel)
    ensures c == Move(Move(START_UP, Here(Ask(RightCurrent, stale, 7))), Here(Resend(7)))
    ensures var m := QueryMessage(RightCurrent, stale); c == Channel(Issue(INITIAL, m), [Copy(1, m), Copy(1, m)], 1)
  {
    c := Move(Move(START_UP, Here(Ask(RightCurrent, stale, 7))), Here(Resend(7)));
  }

  lemma LeftAskedWithStale(c: Channel, stale: Data, right: Data) returns (d: Channel)
    requires var m := QueryMessage(RightCurrent, stale); c == Channel(Issue(INITIAL, m), [Copy(1, m), Copy(1, m)], 1)
    ensures d == Move(Move(c, Answer(right)), Here(Ask(LeftCurrent, stale, 7)))
    ensures NewRequest(Move(c, Answer(right)), Here(Ask(LeftCurrent, stale, 7))) && Stale(d)
    ensures var (m, n) := (QueryMessage(RightCurrent, stale), QueryMessage(LeftCurrent, stale));
            d == Channel(Issue(INITIAL.(rightCurrent := right), n), [Copy(1, m), Copy(2, n)], 2)
  {
    var next := Move(c, Answer(right));
    assert !next.link.awaiting && next.link.rightCurrent == right;
    d := Move(next, Here(Ask(LeftCurrent, stale, 7)));
    assert StaleAt(d, 0);
  }

  lemma LateAnswerTaken(c: Channel, stale: Data, again: Data) returns (d: Channel)
    requires c.pending != [] && c.pending[0] == Copy(1, QueryMessage(RightCurrent, stale))
    requires c.number == 2 && c.link.message == QueryMessage(LeftCurrent, stale)
    ensures d == Move(c, Answer(again)) && Misread(c, Answer(again))
    ensures d.link == Answered(c.link.(leftCurrent := again))
  {
    d := Move(c, Answer(again));
  }

  lemma LastOfFive(c: Channel, h0: Happening, h1: Happening, h2: Happening, h3: Happening, h4: Happening)
    requires Local(h0) && Local(h1) && Local(h2) && Local(h3) && Local(h4)
    ensures var hs := [h0, h1, h2, h3, h4];
            AllLocal(hs) && After(c, hs[..4]) == Move(Move(Move(Move(c, h0), h1), h2), h3) &&
            After(c, hs) == Move(After(c, hs[..4]), h4)
  {
    hide Move;
    FourSteps(c, h0, h1, h2, h3);
    FourSteps(Move(c, h0), h1, h2, h3, h4);
    assert [h0, h1, h2, h3, h4][..4] == [h0, h1, h2, h3] && [h0, h1, h2, h3, h4][1..] == [h1, h2, h3, h4];
    assert AllLocal([h0, h1, h2, h3, h4]);
  }

  // ---- The link of a channel ----

  /** The event the link of a channel sees, if any. */
  function Seen(c: Channel, h: Happening): (events: seq<Event>)
    requires Local(h)
    ensures |events| <= 1 && forall k :: 0 <= k < |events| ==> WellFormed(events[k])
  {
    match h
    case Here(e) => [e]
    case Answer(data) => if c.pending == [] then [] else [Arrived(Reply(c.pending[0].message, data))]
    case Lost => []
    case Trouble(text) => [Arrived(Report(text))]
  }

  lemma MoveIsStep(c: Channel, h: Happening)
    requires Local(h)
    ensures Move(c, h).link == if Seen(c, h) == [] then c.link else Step(c.link, Seen(c, h)[0])
  {
    hide Respond, Issues, Reply, Report;
  }

  /** The events the link of a channel sees in a run. */
  function Trace(c: Channel, hs: seq<Happening>): (events: seq<Event>)
    requires AllLocal(hs)
    ensures forall k :: 0 <= k < |events| ==> WellFormed(events[k])
    decreases |hs|
  {
    if hs == [] then [] else Seen(c, hs[0]) + Trace(Move(c, hs[0]), hs[1..])
  }

  /** The link of a channel is in a state the handler's link reaches by the same events. */
  lemma {:induction false} ChannelIsRun(c: Channel, hs: seq<Happening>)
    requires AllLocal(hs)
    ensures After(c, hs).link == Run(c.link, Trace(c, hs))
    decreases |hs|
  {
    if hs != [] {
      var seen, rest := Seen(c, hs[0]), Trace(Move(c, hs[0]), hs[1..]);
      MoveIsStep(c, hs[0]);
      ChannelIsRun(Move(c, hs[0]), hs[1..]);
      hide Move, Seen, Step;
      if seen == [] {
        assert seen + rest == rest;
      } else {
        assert seen == [seen[0]];
        RunFirst(c.link, seen[0], rest);
      }
    }
  }

  // ---- Clean runs converge ----

  predicate OfRequestInHand(c: Channel, copy: Copy) {
    copy.number == c.number && copy.message.kind == c.link.message.kind
  }

  /** A pending copy with the number and the kind of the request in hand is a copy of it. */
  ghost predicate Matched(c: Channel) {
    forall k :: 0 <= k < |c.pending| && OfRequestInHand(c, c.pending[k]) ==> c.pending[k].message == c.link.message
  }

  lemma MoveKeepsMatched(c: Channel, h: Happening)
    requires Sound(c) && Matched(c) && Local(h)
    ensures Matched(Move(c, h))
  {
    var next := Move(c, h);
    hide Encode, MotorCommand, QueryMessage, Reply, Report;
    match h
    case Here(e) =>
    case Answer(data) =>
      if c.pending != [] { assert forall k :: 0 <= k < |next.pending| ==> next.pending[k] == c.pending[k + 1]; }
    case Lost =>
      if c.pending != [] { assert forall k :: 0 <= k < |next.pending| ==> next.pending[k] == c.pending[k + 1]; }
    case Trouble(text) =>
  }

  /** The controller answers a copy of a motor command with the speeds it names. */
  predicate Obeys(c: Channel, h: Happening) {
    h.Answer? && c.pending != [] && c.pending[0].message.kind == MOTOR_TYPE ==> h.data == c.pending[0].message.data
  }

  /** Motor commands are obeyed and the targets left alone. */
  ghost predicate Obeyed(c: Channel, hs: seq<Happening>)
    requires AllLocal(hs)
    decreases |hs|
  {
    hs == [] || (Obeys(c, hs[0]) && !(hs[0].Here? && hs[0].event.Targets?) && Obeyed(Move(c, hs[0]), hs[1..]))
  }

  lemma SeenIsFair(c: Channel, h: Happening)
    requires Sound(c) && Matched(c) && !Stale(c) && Local(h) && Obeys(c, h) && !(h.Here? && h.event.Targets?)
    ensures Seen(c, h) != [] ==> Fair(c.link, Seen(c, h)[0])
  {
    if h.Answer? && c.pending != [] {
      var m := c.pending[0].message;
      assert Reply(m, h.data)[1] == ReplyKind(m.kind);
      assert !StaleAt(c, 0);
      if m == c.link.message && m.kind == MOTOR_TYPE { assert Reply(m, m.data) == Echo(Encode(m)); }
    }
  }

  lemma CleanKeepsFresh(c: Channel, h: Happening, hs: seq<Happening>)
    requires Sound(c) && !Stale(c) && Local(h) && AllLocal(hs) && Clean(c, [h] + hs)
    ensures !Stale(Move(c, h)) && Clean(Move(c, h), hs)
  {
    assert ([h] + hs)[1..] == hs;
    if !NewRequest(c, h) { QuietMakesNoneStale(c, h); }
  }

  /** If the controller obeys and no request is issued while a copy of an earlier one of its kind is unanswered, every
      motor answer taken echoes the command in hand. */
  lemma {:induction false} CleanIsFaithful(c: Channel, hs: seq<Happening>)
    requires AllLocal(hs) && Sound(c) && Matched(c) && !Stale(c) && Clean(c, hs) && Obeyed(c, hs)
    ensures Faithful(c.link, Trace(c, hs))
    decreases |hs|
  {
    if hs != [] {
      var h, next := hs[0], Move(c, hs[0]);
      assert hs == [h] + hs[1..];
      CleanKeepsFresh(c, h, hs[1..]);
      MoveKeepsSound(c, h);
      MoveKeepsMatched(c, h);
      CleanIsFaithful(next, hs[1..]);
      MoveIsStep(c, h);
      SeenIsFair(c, h);
      var seen, rest := Seen(c, h), Trace(next, hs[1..]);
      hide Clean, Obeyed, Sound, Matched, Stale, Faithful, Move, Seen, Step, Fair;
      if seen == [] {
        assert seen + rest == rest;
      } else {
        assert seen == [seen[0]];
        FaithfulFirst(c.link, seen[0], rest);
      }
    }
  }

  lemma {:induction false} CleanRunIsMatched(c: Channel, hs: seq<Happening>)
    requires AllLocal(hs) && Sound(c) && Matched(c) && !Stale(c) && Clean(c, hs)
    ensures var r := After(c, hs); Sound(r) && Matched(r) && !Stale(r)
    decreases |hs|
  {
    if hs != [] {
      assert hs == [hs[0]] + hs[1..];
      CleanKeepsFresh(c, hs[0], hs[1..]);
      MoveKeepsSound(c, hs[0]);
      MoveKeepsMatched(c, hs[0]);
      CleanRunIsMatched(Move(c, hs[0]), hs[1..]);
    }
  }

  /** Over every clean run, once the targets stay and the controller obeys, each motor answer taken brings both speeds
      `MAX_STEP` nearer, whatever is resent, lost, reported or asked for in between, and the speeds are at their targets
      after exactly as many as cover the way. */
  lemma CleanRunConverges(before: seq<Happening>, hs: seq<Happening>)
    requires AllLocal(before) && AllLocal(hs) && Clean(START_UP, before)
    requires var c := After(START_UP, before);
             c.link.message.kind != MOTOR_TYPE && Clean(c, hs) && Obeyed(c, hs)
    ensures var c := After(START_UP, before);
            var (l, r, n) := (c.link, After(c, hs).link, MotorAnswersIn(c.link, Trace(c, hs)));
            r.leftTarget == l.leftTarget && r.rightTarget == l.rightTarget &&
            Distance(r.left, l.leftTarget) == Left(Distance(l.left, l.leftTarget), n) &&
            Distance(r.right, l.rightTarget) == Left(Distance(l.right, l.rightTarget), n) &&
            (r.left == l.leftTarget <==> Distance(l.left, l.leftTarget) <= n * 20) &&
            (r.right == l.rightTarget <==> Distance(l.right, l.rightTarget) <= n * 20)
  {
    var c := After(START_UP, before);
    assert !Stale(START_UP);
    CleanRunIsMatched(START_UP, before);
    CleanIsFaithful(c, hs);
    ChannelIsRun(c, hs);
    hide Move, Matched, Stale, Clean, Obeyed, Trace, After, Faithful, MotorAnswersIn, MotorLink.Run;
    Converges(c.link, Trace(c, hs));
  }

  // ---- ... and obeying alone is not enough ----

  /** The link with both speeds at `speed`, both targets at 60 and the command for both speeds `next` in hand. */
  function Commanded(speed: int, next: int): Link {
    INITIAL.(left := speed, right := speed, leftTarget := 60, rightTarget := 60, awaiting := true,
             message := SpeedMessage(next, next))
  }

  /** The first motor command is sent twice. Its first answer settles it, the next command goes out, and the second
      answer of the first is taken for the answer to that one: both are answered with their own data, and yet the
      second motor answer moves no speed. */
  lemma ObeyingIsNotEnough()
    ensures var c, d := Move(START_UP, Here(Targets(-60, -60))), SpeedMessage(20, 20).data;
            var hs := [Here(Command(7)), Here(Resend(7)), Answer(d), Here(Command(7)), Answer(d)];
            AllLocal(hs) && Obeyed(c, hs) && !Clean(c, hs) &&
            var before, end := After(c, hs[..4]).link, After(c, hs).link;
            before.awaiting && before.message == SpeedMessage(40, 40) && !end.awaiting &&
            before.left == end.left == 20 && before.right == end.right == 20 && end.leftTarget == end.rightTarget == 60
  {
    hide Move, Stale, SpeedMessage, NewRequest, Obeyed, Clean;
    var c, d := Move(START_UP, Here(Targets(-60, -60))), SpeedMessage(20, 20).data;
    var h0, h1, h2 := Here(Command(7)), Here(Resend(7)), Answer(d);
    var c2 := CommandedTwice(c);
    var c4 := CommandedOn(c2);
    var c1, c3, end := Move(c, h0), Move(c2, h2), Move(c4, h2);
    LastOfFive(c, h0, h1, h2, h0, h2);
    OldSpeedTaken(c4);
    ChainStep(c4, h2, []);
    ChainStep(c3, h0, [h2]);
    ChainStep(c2, h2, [h0, h2]);
    ChainStep(c1, h1, [h2, h0, h2]);
    ChainStep(c, h0, [h1, h2, h0, h2]);
    NothingObeyed(end);
    hide Obeys, Local;
    assert [h2] + [] == [h2] && [h0] + [h2] == [h0, h2] && [h2] + [h0, h2] == [h2, h0, h2];
    assert [h1] + [h2, h0, h2] == [h1, h2, h0, h2] && [h0] + [h1, h2, h0, h2] == [h0, h1, h2, h0, h2];
  }

  lemma NothingObeyed(c: Channel)
    ensures Obeyed(c, [])
  {
  }

  lemma ChainStep(c: Channel, h: Happening, rest: seq<Happening>)
    requires Local(h) && AllLocal(rest)
    ensures AllLocal([h] + rest)
    ensures Obeyed(c, [h] + rest) <==> Obeys(c, h) && !(h.Here? && h.event.Targets?) && Obeyed(Move(c, h), rest)
    ensures Clean(c, [h] + rest) <==> (NewRequest(c, h) ==> !Stale(Move(c, h))) && Clean(Move(c, h), rest)
  {
    hide Move, Stale, Obeys, NewRequest, Local;
    assert ([h] + rest)[1..] == rest && ([h] + rest)[0] == h;
  }

  lemma CommandedTwice(c: Channel) returns (d: Channel)
    requires c == Move(START_UP, Here(Targets(-60, -60)))
    ensures d == Move(Move(c, Here(Command(7))), Here(Resend(7)))
    ensures var m := SpeedMessage(20, 20); d == Channel(Commanded(0, 20), [Copy(1, m), Copy(1, m)], 1)
  {
    d := Move(Move(c, Here(Command(7))), Here(Resend(7)));
  }

  lemma CommandedOn(c: Channel) returns (d: Channel)
    requires var m := SpeedMessage(20, 20); c == Channel(Commanded(0, 20), [Copy(1, m), Copy(1, m)], 1)
    ensures var answer := Answer(SpeedMessage(20, 20).data);
            Obeys(c, answer) && NewRequest(Move(c, answer), Here(Command(7))) &&
            d == Move(Move(c, answer), Here(Command(7))) && Stale(d)
    ensures d == Channel(Commanded(20, 40), [Copy(1, SpeedMessage(20, 20)), Copy(2, SpeedMessage(40, 40))], 2)
  {
    var next := Move(c, Answer(SpeedMessage(20, 20).data));
    assert next.link == Answered(Commanded(20, 20));
    d := Move(next, Here(Command(7)));
    assert StaleAt(d, 0);
  }

  lemma OldSpeedTaken(c: Channel)
    requires c == Channel(Commanded(20, 40), [Copy(1, SpeedMessage(20, 20)), Copy(2, SpeedMessage(40, 40))], 2)
    ensures var answer := Answer(SpeedMessage(20, 20).data);
            Obeys(c, answer) && Move(c, answer).link == Answered(Commanded(20, 40))
  {
  }
}
