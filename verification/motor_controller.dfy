/** The handler class of motorController.cpp: its buffer, its timers and its port. */
module MotorController {
  import opened Bytes
  import opened MotorFrames
  import opened MotorLink

  const RESEND_TIMEOUT: int := 1000
  const QUERY_PERIOD: int := 1000
  const CURRENT_PERIOD: int := 100
  const MOTOR_PERIOD: int := 70

  /** A reading of the clock. */
  datatype TimeVal = TimeVal(sec: int, usec: int)

  /** Division of the program's integers rounds towards zero. */
  function Truncated(n: int): int { if n >= 0 then n / 1000 else -(-n / 1000) }

  /** What an int of the program keeps of a wider number. */
  function CutToInt(n: int): (r: int)
    ensures -0x8000_0000 <= r < 0x8000_0000
    ensures r == n <==> -0x8000_0000 <= n < 0x8000_0000
  {
    (n + 0x8000_0000) % 0x1_0000_0000 - 0x8000_0000
  }

  function MilliSecsBetween(start: TimeVal, end: TimeVal): int {
    CutToInt(CutToInt((end.sec - start.sec) * 1000) + Truncated(end.usec - start.usec))
  }

  /** The whole milliseconds between two readings, or one too many: that if the microseconds wrapped in between by a
      part of a millisecond. */
  function MilliSecsApart(start: TimeVal, end: TimeVal): int {
    ((end.sec - start.sec) * 1000000 + end.usec - start.usec) / 1000 +
    if end.usec < start.usec && (start.usec - end.usec) % 1000 != 0 then 1 else 0
  }

  /** The interval the handler computes is that one if and only if an int holds it, 24 days or so. */
  lemma MilliSecsExact(start: TimeVal, end: TimeVal)
    ensures MilliSecsBetween(start, end) == MilliSecsApart(start, end) <==>
            -0x8000_0000 <= MilliSecsApart(start, end) < 0x8000_0000
  {
    var d, s := end.usec - start.usec, (end.sec - start.sec) * 1000;
    assert ((end.sec - start.sec) * 1000000 + d) / 1000 == s + d / 1000;
    assert MilliSecsApart(start, end) == s + Truncated(d);
    CutTwice(s, Truncated(d));
  }

  lemma CutTwice(a: int, b: int)
    ensures CutToInt(CutToInt(a) + b) == CutToInt(a + b)
  {
    var q := (a + 0x8000_0000) / 0x1_0000_0000;
    assert CutToInt(a) == a - q * 0x1_0000_0000;
    assert (a + b - q * 0x1_0000_0000 + 0x8000_0000) % 0x1_0000_0000 == (a + b + 0x8000_0000) % 0x1_0000_0000;
  }

  /** The query that is due, in the order the program asks: right current, left current, voltage. */
  datatype Due = Nothing | Ready(query: Query)

  function DueQuery(now: TimeVal, right: TimeVal, left: TimeVal, volt: TimeVal): Due {
    if MilliSecsBetween(right, now) > CURRENT_PERIOD then Ready(RightCurrent)
    else if MilliSecsBetween(left, now) > CURRENT_PERIOD then Ready(LeftCurrent)
    else if MilliSecsBetween(volt, now) > QUERY_PERIOD then Ready(Voltage)
    else Nothing
  }

  /** Both currents are due every tenth of a second, the voltage every second, the first in that order first. */
  lemma DueIsFirst(now: TimeVal, right: TimeVal, left: TimeVal, volt: TimeVal)
    ensures var (due, r, l, v) := (DueQuery(now, right, left, volt), MilliSecsBetween(right, now),
                                   MilliSecsBetween(left, now), MilliSecsBetween(volt, now));
            (due == Ready(RightCurrent) <==> r > 100) && (due == Ready(LeftCurrent) <==> r <= 100 < l) &&
            (due == Ready(Voltage) <==> r <= 100 && l <= 100 && v > 1000)
  {
    hide MilliSecsBetween;
  }

  /** What the port does when asked to send: whether it opens if closed, and how many bytes it takes before it fails. */
  datatype Luck = Luck(opens: bool, taken: nat)

  /** How many bytes of a request reach the wire of an open or closed port. */
  function Taken(open: bool, luck: Luck): nat { if open then luck.taken else 0 }

  /** Three readings of the clock: when a check is made, when its request goes out, and when that is done. */
  datatype Readings = Readings(now: TimeVal, sending: TimeVal, done: TimeVal)

  /** The speed to command next. */
  method NextSpeed(speed: int, target: int) returns (next: int)
    ensures next == Slew(speed, target)
  {
    next := speed;
    if speed != target {
      var diff := target - speed;
      if diff > MAX_STEP {
        diff := MAX_STEP;
      }
      if diff < -MAX_STEP {
        diff := -MAX_STEP;
      }
      next := next + diff;
    }
  }

  ghost predicate IsHistory(events: seq<Event>) {
    forall k :: 0 <= k < |events| ==> WellFormed(events[k])
  }

  /** The frames that arrived. */
  ghost function FramesIn(events: seq<Event>): seq<Frame> {
    if events == [] then [] else
      FramesIn(events[..|events| - 1]) +
      if events[|events| - 1].Arrived? then [events[|events| - 1].frame] else []
  }

  lemma NextEvent(events: seq<Event>, e: Event)
    requires IsHistory(events) && WellFormed(e)
    ensures IsHistory(events + [e]) && Run(INITIAL, events + [e]) == Step(Run(INITIAL, events), e)
    ensures FramesIn(events + [e]) == FramesIn(events) + if e.Arrived? then [e.frame] else []
    ensures SentBy(INITIAL, events + [e]) == SentBy(INITIAL, events) + Output(Run(INITIAL, events), e)
  {
    assert (events + [e])[..|events|] == events;
  }

  lemma {:induction false} FramesInOn(events: seq<Event>, more: seq<Event>)
    ensures FramesIn(events + more) == FramesIn(events) + FramesIn(more)
  {
    if more == [] {
      assert events + more == events;
    } else {
      assert (events + more)[..|events + more| - 1] == events + more[..|more| - 1];
      FramesInOn(events, more[..|more| - 1]);
    }
  }

  lemma {:induction false} FramesInArrivals(frames: seq<Frame>)
    requires forall k :: 0 <= k < |frames| ==> IsFrame(frames[k])
    ensures FramesIn(Arrivals(frames)) == frames
  {
    if frames != [] {
      var init := frames[..|frames| - 1];
      FramesInArrivals(init);
      assert Arrivals(frames)[..|frames| - 1] == Arrivals(init);
    }
  }

  lemma {:induction false} SentOnArrivals(l: Link, events: seq<Event>, frames: seq<Frame>)
    requires IsHistory(events) && forall k :: 0 <= k < |frames| ==> IsFrame(frames[k])
    ensures SentBy(l, events + Arrivals(frames)) == SentBy(l, events)
  {
    if frames == [] {
      assert events + Arrivals(frames) == events;
    } else {
      var n := |frames| - 1;
      SentOnArrivals(l, events, frames[..n]);
      var all := events + Arrivals(frames);
      assert all[..|all| - 1] == events + Arrivals(frames[..n]) && all[|all| - 1] == Arrived(frames[n]);
      SentUpToArrival(l, all, frames[n]);
    }
  }

  lemma SentUpToArrival(l: Link, events: seq<Event>, frame: Frame)
    requires IsHistory(events) && events != [] && events[|events| - 1] == Arrived(frame)
    ensures SentBy(l, events) == SentBy(l, events[..|events| - 1])
  {
    hide Run;
    var before := Run(l, events[..|events| - 1]);
    assert Output(before, Arrived(frame)) == [];
  }

  lemma OneFrame(l: Link, w: seq<byte>)
    requires Frames(w) == if IsFrame(w) then [w] else []
    ensures Run(l, Arrivals(Frames(w))) == if IsFrame(w) then Respond(l, w) else l
  {
    var events := Arrivals(Frames(w));
    if IsFrame(w) {
      assert events[..0] == [];
      assert Run(l, events) == Step(Run(l, events[..|events| - 1]), events[|events| - 1]);
    }
  }

  lemma ReadOneMore(l: Link, before: seq<byte>, data: seq<byte>, i: nat)
    requires i < |data|
    ensures Rest(before + data[..i + 1]) == Rest(Rest(before + data[..i]) + [data[i]])
    ensures Run(l, Arrivals(Frames(before + data[..i + 1]))) ==
            Run(Run(l, Arrivals(Frames(before + data[..i]))), Arrivals(Frames(Rest(before + data[..i]) + [data[i]])))
  {
    hide Frames, Rest, Run;
    var s := before + data[..i];
    assert before + data[..i + 1] == s + [data[i]];
    ReadOn(s, [data[i]]);
    var a, b := Frames(s), Frames(Rest(s) + [data[i]]);
    assert Arrivals(a + b) == Arrivals(a) + Arrivals(b);
    RunOn(l, Arrivals(a), Arrivals(b));
  }

  lemma ReceivedHistory(read: seq<byte>, history: seq<Event>, l: Link, data: seq<byte>)
    requires IsHistory(history) && l == Run(INITIAL, history) && FramesIn(history) == Frames(read)
    ensures var events := Arrivals(Frames(Rest(read) + data));
            IsHistory(history + events) && Run(INITIAL, history + events) == Run(l, events) &&
            FramesIn(history + events) == Frames(read + data) && Rest(read + data) == Rest(Rest(read) + data) &&
            SentBy(INITIAL, history + events) == SentBy(INITIAL, history)
  {
    hide Frames, Rest, Run, SentBy;
    ReadOn(read, data);
    var frames := Frames(Rest(read) + data);
    FramesInOn(history, Arrivals(frames));
    SentOnArrivals(INITIAL, history, frames);
    FramesInArrivals(frames);
    RunOn(INITIAL, history, Arrivals(frames));
  }

  class Handler {
    const buffer: array<byte>
    var bufIndex: int
    var awaitingResponse: bool
    var currentMessage: Message
    var leftSpeed: int
    var rightSpeed: int
    var leftTargetSpeed: int
    var rightTargetSpeed: int
    var leftCurrent: Data
    var rightCurrent: Data
    var voltage: Data
    var lastSendTime: TimeVal
    var lastQRCurTime: TimeVal
    var lastQLCurTime: TimeVal
    var lastQVoltTime: TimeVal
    var lastMotorTime: TimeVal
    var open: bool
    /** All bytes read, all bytes sent, and what happened to the link, since the handler was made. */
    ghost var read: seq<byte>
    ghost var sent: seq<byte>
    ghost var history: seq<Event>

    ghost function Pending(): seq<byte>
      requires 0 <= bufIndex <= buffer.Length
      reads `bufIndex, buffer
    {
      buffer[..bufIndex]
    }

    ghost function State(): Link
      reads `awaitingResponse, `currentMessage, `leftSpeed, `rightSpeed, `leftTargetSpeed, `rightTargetSpeed
      reads `leftCurrent, `rightCurrent, `voltage
    {
      Link(awaitingResponse, currentMessage, leftSpeed, rightSpeed, leftTargetSpeed, rightTargetSpeed, leftCurrent,
           rightCurrent, voltage)
    }

    /** Holds between any two calls: the frames that arrived are those of the bytes read, the buffer holds the rest,
        and the fields and the bytes sent are what the history makes of the initial state. */
    ghost predicate Valid()
      reads `awaitingResponse, `currentMessage, `leftSpeed, `rightSpeed, `leftTargetSpeed, `rightTargetSpeed
      reads `leftCurrent, `rightCurrent, `voltage, `bufIndex, `read, `sent, `history, buffer
    {
      && buffer.Length == 8 && 0 <= bufIndex < 7
      && Pending() == Rest(read) && FramesIn(history) == Frames(read)
      && IsHistory(history) && State() == Run(INITIAL, history) && sent == SentBy(INITIAL, history)
    }

    /** With a port that takes all it is given, the bytes sent are requests and repeats of them, one after the
        other, and all but the one still waited for are settled. */
    lemma SentRequests() returns (bursts: seq<Burst>)
      requires Valid() && TakenWhole(history)
      ensures sent == BurstBytes(bursts) && BurstsFor(State(), bursts)
      ensures |bursts| == SettledIn(INITIAL, history) + if awaitingResponse then 1 else 0
    {
      bursts := SentIsBursts(history);
    }

    /** From any point of the history at which no motor command was in hand, as long as the targets stay and the
        controller does as commanded, each motor answer brings the speeds `MAX_STEP` nearer to them. */
    lemma SpeedsApproach(start: nat)
      requires Valid() && start <= |history|
      requires var l := Run(INITIAL, history[..start]);
               l.message.kind != MOTOR_TYPE && Faithful(l, history[start..])
      ensures var l := Run(INITIAL, history[..start]);
              var n := MotorAnswersIn(l, history[start..]);
              leftTargetSpeed == l.leftTarget && rightTargetSpeed == l.rightTarget &&
              Distance(leftSpeed, leftTargetSpeed) == Left(Distance(l.left, l.leftTarget), n) &&
              Distance(rightSpeed, rightTargetSpeed) == Left(Distance(l.right, l.rightTarget), n)
    {
      hide Run, Faithful, MotorAnswersIn;
      assert history == history[..start] + history[start..];
      RunOn(INITIAL, history[..start], history[start..]);
      RunKeepsGood(INITIAL, history[..start]);
      Converges(Run(INITIAL, history[..start]), history[start..]);
    }

    constructor (now: TimeVal, open: bool)
      ensures Valid() && fresh(buffer) && State() == INITIAL && read == [] && sent == [] && this.open == open
    {
      buffer := new byte[8];
      bufIndex, awaitingResponse := 0, false;
      currentMessage := INITIAL.message;
      leftSpeed, rightSpeed, leftTargetSpeed, rightTargetSpeed := 0, 0, 0, 0;
      leftCurrent, rightCurrent, voltage := INITIAL.leftCurrent, INITIAL.rightCurrent, INITIAL.voltage;
      lastSendTime, lastQRCurTime, lastQLCurTime, lastQVoltTime, lastMotorTime := now, now, now, now, now;
      this.open := open;
      read, sent, history := [], [], [];
    }

    method SetMotorSpeed(right: int, left: int)
      requires Valid()
      modifies `leftTargetSpeed, `rightTargetSpeed, `history
      ensures Valid() && State() == Step(old(State()), Targets(right, left))
      ensures Reversed(right, rightTargetSpeed) && Reversed(left, leftTargetSpeed)
      ensures history == old(history) + [Targets(right, left)]
    {
      TargetsReverse(State(), right, left);
      NextEvent(history, Targets(right, left));
      history := history + [Targets(right, left)];
      rightTargetSpeed := Filter(right);
      leftTargetSpeed := Filter(left);
    }

    /** Shifts the buffer down by one byte. */
    method ThrowOutByte()
      requires buffer.Length == 8
      modifies buffer
      ensures buffer[..6] == old(buffer[1..7])
    {
      for i := 0 to 6
        invariant forall k :: 0 <= k < i ==> buffer[k] == old(buffer[k + 1])
        invariant forall k :: i <= k < 7 ==> buffer[k] == old(buffer[k])
      {
        buffer[i] := buffer[i + 1];
      }
    }

    /** Acts on a frame. */
    method Act(kind: byte, data: Data, ghost frame: Frame)
      requires IsFrame(frame) && kind == frame[1] && data == frame[2..6]
      modifies `awaitingResponse, `currentMessage, `leftSpeed, `rightSpeed, `leftCurrent, `rightCurrent, `voltage
      ensures State() == Respond(old(State()), frame)
    {
      if kind == ERROR_TYPE {
        awaitingResponse := false;
      } else if kind == MOTOR_RESPONSE_TYPE {
        if currentMessage.kind == MOTOR_TYPE {
          leftSpeed := if data[0] != 0 then data[0] as int else -(data[1] as int);
          rightSpeed := if data[2] != 0 then data[2] as int else -(data[3] as int);
          currentMessage := currentMessage.(kind := NO_MESSAGE);
          awaitingResponse := false;
        }
      } else if kind == CURRENT_RESPONSE_TYPE {
        if currentMessage.kind == CURRENT_TYPE {
          if currentMessage.data[0] == LEFT {
            leftCurrent := data;
          } else {
            rightCurrent := data;
          }
          currentMessage := currentMessage.(kind := NO_MESSAGE);
          awaitingResponse := false;
        }
      } else if kind == VOLTAGE_RESPONSE_TYPE {
        if currentMessage.kind == VOLTAGE_TYPE {
          voltage := data;
          currentMessage := currentMessage.(kind := NO_MESSAGE);
          awaitingResponse := false;
        }
      }
    }

    /** Acts on seven buffered bytes: a frame, or a misaligned stretch that loses its first byte. */
    method ProcessResponse()
      requires buffer.Length == 8 && bufIndex == 7
      modifies `bufIndex, `awaitingResponse, `currentMessage, `leftSpeed, `rightSpeed, `leftCurrent, `rightCurrent,
               `voltage, buffer
      ensures 0 <= bufIndex < 7
      ensures Pending() == if IsFrame(old(buffer[..7])) then [] else old(buffer[..7])[1..]
      ensures State() == if IsFrame(old(buffer[..7])) then Respond(old(State()), old(buffer[..7])) else old(State())
    {
      hide Respond;
      ghost var frame := buffer[..7];
      if buffer[0] != START || buffer[6] != END {
        ThrowOutByte();
        bufIndex := bufIndex - 1;
        return;
      }
      bufIndex := 0;
      assert buffer[1] == frame[1] && buffer[2..6] == frame[2..6];
      Act(buffer[1], buffer[2..6], frame);
    }

    /** Buffers one byte. The buffer is never full when the next byte comes. */
    method TakeByte(b: byte)
      requires buffer.Length == 8 && 0 <= bufIndex < 7
      modifies `bufIndex, `awaitingResponse, `currentMessage, `leftSpeed, `rightSpeed, `leftCurrent, `rightCurrent,
               `voltage, buffer
      ensures 0 <= bufIndex < 7 && Pending() == Rest(old(Pending()) + [b])
      ensures State() == Run(old(State()), Arrivals(Frames(old(Pending()) + [b])))
    {
      ghost var w := Pending() + [b];
      OneMoreByte(Pending(), b);
      buffer[bufIndex] := b;
      bufIndex := bufIndex + 1;
      assert Pending() == w;
      OneFrame(State(), w);
      if bufIndex == 7 {
        ProcessResponse();
      }
    }

    method TakeBytes(data: seq<byte>)
      requires buffer.Length == 8 && 0 <= bufIndex < 7
      modifies `bufIndex, `awaitingResponse, `currentMessage, `leftSpeed, `rightSpeed, `leftCurrent, `rightCurrent,
               `voltage, buffer
      ensures 0 <= bufIndex < 7 && Pending() == Rest(old(Pending()) + data)
      ensures State() == Run(old(State()), Arrivals(Frames(old(Pending()) + data)))
    {
      ghost var before, state := Pending(), State();
      var i := 0;
      assert before + data[..0] == before && Frames(before) == [] && Rest(before) == before;
      assert State() == Run(state, Arrivals(Frames(before + data[..0])));
      hide *;
      while i < |data|
        invariant 0 <= i <= |data| && 0 <= bufIndex < 7
        invariant Pending() == Rest(before + data[..i])
        invariant State() == Run(state, Arrivals(Frames(before + data[..i])))
      {
        TakeByte(data[i]);
        ReadOneMore(state, before, data, i);
        i := i + 1;
      }
      assert data[..i] == data;
    }

    /** Reads what the port has, while a response is awaited. */
    method Receive(data: seq<byte>)
      requires Valid()
      modifies `bufIndex, `awaitingResponse, `currentMessage, `leftSpeed, `rightSpeed, `leftCurrent, `rightCurrent,
               `voltage, `read, `history, buffer
      ensures Valid()
      ensures old(!open || !awaitingResponse) ==> read == old(read) && history == old(history)
      ensures old(open && awaitingResponse) ==>
                read == old(read) + data && history == old(history) + Arrivals(Frames(old(Pending()) + data))
    {
      if open && awaitingResponse {
        hide Frames, Rest, Run, FramesIn, IsHistory, State, Pending, SentBy;
        ReceivedHistory(read, history, State(), data);
        ghost var events := Arrivals(Frames(Pending() + data));
        TakeBytes(data);
        history := history + events;
        read := read + data;
      }
    }

    /** Sends the request in hand, again or for the first time. The wait begins even when the port fails. */
    method Transmit(now: TimeVal, luck: Luck)
      modifies `lastSendTime, `awaitingResponse, `open, `sent
      ensures State() ==
              if currentMessage.kind == NO_MESSAGE then old(State()) else Issue(old(State()), currentMessage)
      ensures sent == old(sent) + if currentMessage.kind == NO_MESSAGE then []
                                  else Written(currentMessage, Taken(open, luck))
      ensures open == (old(open) || (currentMessage.kind != NO_MESSAGE && luck.opens))
      ensures lastSendTime == if currentMessage.kind == NO_MESSAGE then old(lastSendTime) else now
    {
      if currentMessage.kind == NO_MESSAGE {
        return;
      }
      lastSendTime := now;
      awaitingResponse := true;
      if !open {
        open := luck.opens;
      }
      sent := sent + Written(currentMessage, Taken(open, luck));
    }

    method SendMessage(m: Message, now: TimeVal, luck: Luck)
      requires m.kind != NO_MESSAGE
      modifies `currentMessage, `lastSendTime, `awaitingResponse, `open, `sent
      ensures State() == Issue(old(State()), m)
      ensures sent == old(sent) + Written(m, Taken(open, luck))
      ensures open == (old(open) || luck.opens) && lastSendTime == now
    {
      currentMessage := m;
      Transmit(now, luck);
    }

    /** Commands the next speeds once the motor period is over, unless a response is awaited. */
    method CheckMotor(times: Readings, luck: Luck)
      requires Valid()
      modifies `currentMessage, `lastSendTime, `awaitingResponse, `open, `sent, `lastMotorTime, `history
      ensures Valid()
      ensures var due := !old(awaitingResponse) && MilliSecsBetween(old(lastMotorTime), times.now) >= MOTOR_PERIOD;
              history == old(history) + (if due then [Command(Taken(open, luck))] else []) &&
              lastMotorTime == (if due then times.done else old(lastMotorTime)) &&
              lastSendTime == (if due then times.sending else old(lastSendTime)) &&
              awaitingResponse == (old(awaitingResponse) || due)
    {
      hide Run, FramesIn, Frames, Rest, IsHistory, Written, Pending, Slew, SpeedBytes, MilliSecsBetween, SentBy;
      if awaitingResponse {
        return;
      }
      if MilliSecsBetween(lastMotorTime, times.now) < MOTOR_PERIOD {
        return;
      }
      ghost var event := Command(Taken(open || luck.opens, luck));
      NextEvent(history, event);
      history := history + [event];
      var left := NextSpeed(leftSpeed, leftTargetSpeed);
      var right := NextSpeed(rightSpeed, rightTargetSpeed);
      SendMessage(SpeedMessage(right, left), times.sending, luck);
      lastMotorTime := times.done;
    }

    /** Asks for the first value that is due, unless a response is awaited. */
    method CheckQuery(times: Readings, stale: Data, luck: Luck)
      requires Valid()
      modifies `currentMessage, `lastSendTime, `awaitingResponse, `open, `sent, `history,
               `lastQRCurTime, `lastQLCurTime, `lastQVoltTime
      ensures Valid()
      ensures var due := if old(awaitingResponse) then Nothing
                         else DueQuery(times.now, old(lastQRCurTime), old(lastQLCurTime), old(lastQVoltTime));
              history == old(history) + (if due.Ready? then [Ask(due.query, stale, Taken(open, luck))] else []) &&
              lastSendTime == (if due.Ready? then times.sending else old(lastSendTime)) &&
              lastQRCurTime == (if due == Ready(RightCurrent) then times.done else old(lastQRCurTime)) &&
              lastQLCurTime == (if due == Ready(LeftCurrent) then times.done else old(lastQLCurTime)) &&
              lastQVoltTime == if due == Ready(Voltage) then times.done else old(lastQVoltTime)
    {
      hide MilliSecsBetween, Written, QueryMessage, Valid, State, Pending, Run, FramesIn, Frames, Rest, IsHistory, Encode;
      if awaitingResponse {
        return;
      }
      if MilliSecsBetween(lastQRCurTime, times.now) > CURRENT_PERIOD {
        Query(RightCurrent, times.sending, stale, luck);
        lastQRCurTime := times.done;
        return;
      }
      if MilliSecsBetween(lastQLCurTime, times.now) > CURRENT_PERIOD {
        Query(LeftCurrent, times.sending, stale, luck);
        lastQLCurTime := times.done;
        return;
      }
      if MilliSecsBetween(lastQVoltTime, times.now) > QUERY_PERIOD {
        Query(Voltage, times.sending, stale, luck);
        lastQVoltTime := times.done;
        return;
      }
    }

    method Query(q: Query, now: TimeVal, stale: Data, luck: Luck)
      requires Valid() && !awaitingResponse
      modifies `currentMessage, `lastSendTime, `awaitingResponse, `open, `sent, `history
      ensures Valid() && history == old(history) + [Ask(q, stale, Taken(open, luck))] && lastSendTime == now
    {
      hide Run, FramesIn, Frames, Rest, IsHistory, Written, Pending, SentBy, Encode;
      ghost var event := Ask(q, stale, Taken(open || luck.opens, luck));
      NextEvent(history, event);
      history := history + [event];
      SendMessage(QueryMessage(q, stale), now, luck);
    }

    /** Sends the request in hand again if the answer is late. */
    method CheckTimeout(times: Readings, luck: Luck) returns (ghost again: seq<Event>)
      requires Valid()
      modifies `lastSendTime, `awaitingResponse, `open, `sent, `history
      ensures Valid() && history == old(history) + again
      ensures again == if old(awaitingResponse) && MilliSecsBetween(old(lastSendTime), times.now) > RESEND_TIMEOUT
                       then [Resend(Taken(open, luck))] else []
      ensures awaitingResponse == old(awaitingResponse)
      ensures lastSendTime == if again == [] then old(lastSendTime) else times.sending
    {
      again := [];
      if awaitingResponse && MilliSecsBetween(lastSendTime, times.now) > RESEND_TIMEOUT {
        RunKeepsGood(INITIAL, history);
        hide Run, FramesIn, Frames, Rest, IsHistory, Written, Pending, SentBy, Encode, MilliSecsBetween;
        ghost var event := Resend(Taken(open || luck.opens, luck));
        again := [event];
        NextEvent(history, event);
        history := history + [event];
        Transmit(times.sending, luck);
      }
    }

    /** One turn: read, command, ask, and send again what was not answered in time. At most one request is new, and
        the bytes sent are those of the history. */
    method SpinOnce(data: seq<byte>, motor: Readings, query: Readings, resend: Readings, stale: Data,
                    motorLuck: Luck, queryLuck: Luck, resendLuck: Luck)
      returns (ghost request: seq<Event>, ghost again: seq<Event>)
      requires Valid()
      modifies this, buffer
      ensures Valid() && sent == SentBy(INITIAL, history)
      ensures |request| <= 1 && forall e :: e in request ==> e.Command? || e.Ask?
      ensures |again| <= 1 && forall e :: e in again ==> e.Resend?
      ensures read == if old(open && awaitingResponse) then old(read) + data else old(read)
      ensures history == old(history) +
                         (if old(open && awaitingResponse) then Arrivals(Frames(old(Pending()) + data)) else []) +
                         request + again
      ensures if again != [] then lastSendTime == resend.sending
              else awaitingResponse ==> MilliSecsBetween(lastSendTime, resend.now) <= RESEND_TIMEOUT
    {
      hide FramesIn, Frames, Rest, DueQuery, Written, MotorCommand, QueryMessage, Run, SentBy, MilliSecsBetween, IsHistory;
      Receive(data);
      ghost var arrived := history;
      CheckMotor(motor, motorLuck);
      CheckQuery(query, stale, queryLuck);
      request := history[|arrived|..];
      again := CheckTimeout(resend, resendLuck);
    }
  }
}
