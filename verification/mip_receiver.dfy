/** The stream parser of mip_sdk_interface.c as a state machine over the stream of bytes fed to it:
    what one parser call does, and what holds of every run. */
module MipReceiver {
  import opened Bytes
  import opened Mip
  import opened MipStream
  import opened Options

  // ---- Callbacks ----

  /** One entry of the callback tables; handler 0 is the null pointer. */
  datatype Callback = Callback(dataSet: byte, handler: nat, userPtr: nat)

  datatype Kind = ValidPacket | BadChecksum | TimedOut

  datatype Call = Call(handler: nat, userPtr: nat, packet: seq<byte>, kind: Kind)

  function FindCallback(slots: seq<Callback>, dataSet: byte): (r: Option<nat>)
    ensures r.Some? ==> r.value < |slots| && slots[r.value].dataSet == dataSet != 0 && slots[r.value].handler != 0
    ensures r.Some? ==> forall k :: 0 <= k < r.value ==> slots[k].dataSet != dataSet || slots[k].handler == 0
    ensures r.None? && dataSet != 0 ==> forall k :: 0 <= k < |slots| ==> slots[k].dataSet != dataSet || slots[k].handler == 0
  {
    if dataSet == 0 then None else FindFrom(slots, dataSet, 0)
  }

  function FindFrom(slots: seq<Callback>, dataSet: byte, i: nat): (r: Option<nat>)
    requires i <= |slots|
    ensures r.Some? ==> i <= r.value < |slots| && slots[r.value].dataSet == dataSet && slots[r.value].handler != 0
    ensures r.Some? ==> forall k :: i <= k < r.value ==> slots[k].dataSet != dataSet || slots[k].handler == 0
    ensures r.None? ==> forall k :: i <= k < |slots| ==> slots[k].dataSet != dataSet || slots[k].handler == 0
    decreases |slots| - i
  {
    if i == |slots| then None
    else if slots[i].dataSet == dataSet && slots[i].handler != 0 then Some(i)
    else FindFrom(slots, dataSet, i + 1)
  }

  /** The calls made for a packet: one when its descriptor set has a callback, none otherwise. */
  function CallsFor(slots: seq<Callback>, packet: seq<byte>, kind: Kind): seq<Call>
    requires |packet| >= HEADER_SIZE
  {
    match FindCallback(slots, packet[2])
    case None => []
    case Some(i) => [Call(slots[i].handler, slots[i].userPtr, packet, kind)]
  }

  /** Slot `i` is the first that holds a callback for the set; set 0 has none. */
  predicate FirstSlot(slots: seq<Callback>, dataSet: byte, i: nat) {
    && i < |slots| && slots[i].dataSet == dataSet != 0 && slots[i].handler != 0
    && forall k :: 0 <= k < i ==> slots[k].dataSet != dataSet || slots[k].handler == 0
  }

  /** The calls that are right for a packet of a set: one, to the handler in the first slot for the set with the pointer
      kept there, the bytes and the kind; none if there is no such slot. */
  ghost predicate RightCalls(slots: seq<Callback>, dataSet: byte, packet: seq<byte>, kind: Kind, made: seq<Call>) {
    && (forall i: nat :: FirstSlot(slots, dataSet, i) ==> made == [Call(slots[i].handler, slots[i].userPtr, packet, kind)])
    && ((forall i: nat :: !FirstSlot(slots, dataSet, i)) ==> made == [])
  }

  /** A packet is announced to the callback of its descriptor set. */
  lemma CallsAreRight(slots: seq<Callback>, packet: seq<byte>, kind: Kind)
    requires |packet| >= HEADER_SIZE
    ensures RightCalls(slots, packet[2], packet, kind, CallsFor(slots, packet, kind))
  {
    match FindCallback(slots, packet[2])
    case None => assert forall i: nat :: !FirstSlot(slots, packet[2], i);
    case Some(j) =>
      assert FirstSlot(slots, packet[2], j);
      forall i: nat | FirstSlot(slots, packet[2], i) ensures i == j {}
  }

  // ---- Time ----

  /** The timeout test, on 32-bit millisecond counters that may have wrapped once. */
  predicate Late(initial: nat, now: nat, timeout: nat) {
    if initial > now then 0xFFFF_FFFF - initial + now >= timeout else now - initial >= timeout
  }

  /** Milliseconds from `initial` to `now` on a counter that wraps at 2^32. */
  function Elapsed(initial: nat, now: nat): nat
    requires initial < 0x1_0000_0000
  {
    Low32(now + 0x1_0000_0000 - initial)
  }

  /** The test means "at least `timeout` milliseconds have passed", except that after a wrap it fires one
      millisecond late. */
  lemma LateMeansElapsed(initial: nat, now: nat, timeout: nat)
    requires initial < 0x1_0000_0000 && now < 0x1_0000_0000
    ensures (Late(initial, now, timeout) <==> Elapsed(initial, now) >= timeout)
       <==> !(initial > now && Elapsed(initial, now) == timeout)
  {
  }

  // ---- One parser call ----

  /** `pos` is where the receiver stands in the stream: everything before it is settled. `byteCount` is
      the number of packet bytes it holds: none, a start byte, or a whole valid header. */
  datatype Receiver = Receiver(
    stream: seq<byte>, pos: nat, byteCount: nat, startTime: nat,
    inSync: bool, badChecksums: nat, timeouts: nat, headersSkipped: nat,
    accepted: seq<seq<byte>>, given: set<nat>, calls: seq<Call>)

  const INITIAL: Receiver := Receiver([], 0, 0, 0, false, 0, 0, 0, [], {}, [])

  /** Walk to the next start byte; the wait for the rest of the packet starts there. */
  function Seek(r: Receiver, startNow: nat): (r': Receiver)
    requires r.pos <= |r.stream|
    ensures r.pos <= r'.pos <= |r'.stream| && r'.stream == r.stream
    ensures r'.byteCount > 0 ==> r'.pos < |r'.stream| && r'.stream[r'.pos] == SYNC_BYTE1
  {
    var p := NextSync(r.stream, r.pos);
    if p == |r.stream| then r.(pos := p, byteCount := 0)
    else if r.byteCount == 0 then r.(pos := p, byteCount := 1, startTime := startNow)
    else r.(pos := p)
  }

  /** Settle the start byte at `pos` if the bytes to do so are there; give it up if it has waited too long. */
  function Settle(r: Receiver, checkNow: nat, packetTimeout: nat, slots: seq<Callback>): Receiver
    requires r.pos < |r.stream| && r.stream[r.pos] == SYNC_BYTE1
  {
    var s, p := r.stream, r.pos;
    match Decide(s, p)
    case Accept(n) =>
      r.(pos := p + n, byteCount := 0, inSync := true, accepted := r.accepted + [s[p..p + n]],
         calls := r.calls + CallsFor(slots, s[p..p + n], ValidPacket))
    case Reject =>
      if s[p + 1] != SYNC_BYTE2 then
        r.(pos := p + 1, byteCount := 0, inSync := false, headersSkipped := Low32(r.headersSkipped + 1))
      else
        r.(pos := p + 1, byteCount := 0, inSync := false,
           badChecksums := if r.inSync then Low32(r.badChecksums + 1) else r.badChecksums,
           calls := r.calls + CallsFor(slots, s[p..p + HEADER_SIZE], BadChecksum))
    case NeedMore =>
      var header := p + HEADER_SIZE <= |s|;
      if !Late(r.startTime, checkNow, packetTimeout) then r.(byteCount := if header then HEADER_SIZE else 1)
      else
        r.(pos := p + 1, byteCount := 0, inSync := false, timeouts := Low32(r.timeouts + 1), given := r.given + {p},
           calls := r.calls + if header then CallsFor(slots, s[p..p + HEADER_SIZE], TimedOut) else [])
  }

  /** One call of the parser. */
  function ParseCall(r: Receiver, startNow: nat, checkNow: nat, packetTimeout: nat, slots: seq<Callback>): Receiver
    requires r.pos <= |r.stream|
  {
    var here := Seek(r, startNow);
    if here.byteCount == 0 then here else Settle(here, checkNow, packetTimeout, slots)
  }

  /** The calls made when the start byte held is settled: for a whole packet, a bad checksum or a timeout. */
  ghost predicate Announces(here: Receiver, checkNow: nat, packetTimeout: nat, slots: seq<Callback>, made: seq<Call>)
    requires here.pos < |here.stream| && here.stream[here.pos] == SYNC_BYTE1
  {
    var s, p := here.stream, here.pos;
    match Decide(s, p)
    case Accept(n) => RightCalls(slots, s[p + 2], s[p..p + n], ValidPacket, made)
    case Reject =>
      if s[p + 1] == SYNC_BYTE2 then RightCalls(slots, s[p + 2], s[p..p + HEADER_SIZE], BadChecksum, made) else made == []
    case NeedMore =>
      if Late(here.startTime, checkNow, packetTimeout) && p + HEADER_SIZE <= |s|
      then RightCalls(slots, s[p + 2], s[p..p + HEADER_SIZE], TimedOut, made) else made == []
  }

  /** The calls of a parser call: those for what is settled where the search for a start byte ends. */
  ghost predicate Announced(r: Receiver, r': Receiver, startNow: nat, checkNow: nat, packetTimeout: nat,
                            slots: seq<Callback>)
    requires r.pos <= |r.stream|
  {
    var here := Seek(r, startNow);
    if here.byteCount == 0 then r'.calls == r.calls
    else exists made :: r'.calls == r.calls + made && Announces(here, checkNow, packetTimeout, slots, made)
  }

  lemma SettleAnnounces(here: Receiver, checkNow: nat, packetTimeout: nat, slots: seq<Callback>) returns (made: seq<Call>)
    requires here.pos < |here.stream| && here.stream[here.pos] == SYNC_BYTE1
    ensures Settle(here, checkNow, packetTimeout, slots).calls == here.calls + made
    ensures Announces(here, checkNow, packetTimeout, slots, made)
  {
    hide CallsFor, RightCalls, Late, FirstSlot, IsPacket;
    var s, p := here.stream, here.pos;
    made := [];
    match Decide(s, p)
    case Accept(n) =>
      made := CallsFor(slots, s[p..p + n], ValidPacket);
      CallsAreRight(slots, s[p..p + n], ValidPacket);
    case Reject =>
      if s[p + 1] == SYNC_BYTE2 {
        made := CallsFor(slots, s[p..p + HEADER_SIZE], BadChecksum);
        CallsAreRight(slots, s[p..p + HEADER_SIZE], BadChecksum);
      }
    case NeedMore =>
      if Late(here.startTime, checkNow, packetTimeout) && p + HEADER_SIZE <= |s| {
        made := CallsFor(slots, s[p..p + HEADER_SIZE], TimedOut);
        CallsAreRight(slots, s[p..p + HEADER_SIZE], TimedOut);
      }
  }

  lemma ParseAnnounces(r: Receiver, startNow: nat, checkNow: nat, packetTimeout: nat, slots: seq<Callback>)
    requires r.pos <= |r.stream|
    ensures Announced(r, ParseCall(r, startNow, checkNow, packetTimeout, slots), startNow, checkNow, packetTimeout, slots)
  {
    hide Announces, Settle;
    var here := Seek(r, startNow);
    assert here.calls == r.calls;
    hide Seek;
    if here.byteCount > 0 {
      var made := SettleAnnounces(here, checkNow, packetTimeout, slots);
    }
  }

  lemma SeekStays(r: Receiver, startNow: nat)
    requires r.byteCount > 0 && r.pos < |r.stream| && r.stream[r.pos] == SYNC_BYTE1
    ensures Seek(r, startNow) == r
  {
  }

  lemma SettleIgnoresCount(r: Receiver, byteCount: nat, checkNow: nat, packetTimeout: nat, slots: seq<Callback>)
    requires r.pos < |r.stream| && r.stream[r.pos] == SYNC_BYTE1
    ensures Settle(r.(byteCount := byteCount), checkNow, packetTimeout, slots) == Settle(r, checkNow, packetTimeout, slots)
  {
    hide IsPacket, Late, CallsFor;
  }

  // ---- Every run ----

  datatype Event =
    | Arrive(bytes: seq<byte>)
    | Parse(startNow: nat, checkNow: nat, slots: seq<Callback>)

  function Step(r: Receiver, e: Event, packetTimeout: nat): Receiver
    requires r.pos <= |r.stream|
  {
    match e
    case Arrive(bytes) => r.(stream := r.stream + bytes)
    case Parse(startNow, checkNow, slots) => ParseCall(r, startNow, checkNow, packetTimeout, slots)
  }

  /** What every reachable state satisfies: the receiver has come to `pos` by the greedy parse. */
  ghost predicate Good(r: Receiver) {
    r.pos <= |r.stream| && Reaches(r.stream, r.given, 0, r.pos, r.accepted) && forall x :: x in r.given ==> x < r.pos
  }

  lemma InitialIsGood()
    ensures Good(INITIAL)
  {}

  lemma SeekKeepsGood(r: Receiver, startNow: nat)
    requires Good(r)
    ensures Good(Seek(r, startNow))
  {
    hide Reaches;
    ReachesNextSync(r.stream, r.given, 0, r.pos, r.accepted);
  }

  lemma HoldingKeepsGood(r: Receiver, byteCount: nat, startTime: nat)
    requires Good(r)
    ensures Good(r.(byteCount := byteCount, startTime := startTime))
  {
    hide Reaches;
  }

  lemma SkipKeepsGood(r: Receiver)
    requires Good(r) && r.pos < |r.stream| && r.stream[r.pos] != SYNC_BYTE1
    ensures Good(r.(pos := r.pos + 1))
  {
    hide Reaches;
    ReachesSkip(r.stream, r.given, 0, r.pos, r.accepted);
  }

  lemma SettleKeepsGood(r: Receiver, checkNow: nat, packetTimeout: nat, slots: seq<Callback>)
    requires Good(r) && r.pos < |r.stream| && r.stream[r.pos] == SYNC_BYTE1
    ensures Good(Settle(r, checkNow, packetTimeout, slots))
  {
    hide Reaches, IsPacket, Late, CallsFor;
    var s, p := r.stream, r.pos;
    match Decide(s, p)
    case Accept(n) => ReachesTake(s, r.given, 0, p, r.accepted, n);
    case Reject => ReachesSkip(s, r.given, 0, p, r.accepted);
    case NeedMore => ReachesGivenUp(s, r.given, p, r.accepted);
  }

  lemma ParseCallKeepsGood(r: Receiver, startNow: nat, checkNow: nat, packetTimeout: nat, slots: seq<Callback>)
    requires Good(r)
    ensures Good(ParseCall(r, startNow, checkNow, packetTimeout, slots))
  {
    hide Good, Settle;
    SeekKeepsGood(r, startNow);
    var here := Seek(r, startNow);
    if here.byteCount > 0 { SettleKeepsGood(here, checkNow, packetTimeout, slots); }
  }

  lemma StepKeepsGood(r: Receiver, e: Event, packetTimeout: nat)
    requires Good(r)
    ensures Good(Step(r, e, packetTimeout))
  {
    match e
    case Arrive(bytes) =>
      ReachesStable(r.stream, bytes, r.given, {}, 0, r.pos, r.accepted);
      assert r.given + {} == r.given;
    case Parse(startNow, checkNow, slots) => ParseCallKeepsGood(r, startNow, checkNow, packetTimeout, slots);
  }

  /** The state after a list of events, last event last. */
  ghost function Run(events: seq<Event>, packetTimeout: nat): (r: Receiver)
    ensures Good(r)
    decreases |events|
  {
    if events == [] then INITIAL
    else
      var before := Run(events[..|events| - 1], packetTimeout);
      StepKeepsGood(before, events[|events| - 1], packetTimeout);
      Step(before, events[|events| - 1], packetTimeout)
  }

  /** Whatever arrived in whatever pieces, and whenever the parser was called and timed out: the packets
      accepted so far are the beginning of the greedy parse of the bytes so far, in which the positions
      that timed out count as no packet. What is left is the greedy parse from where it stands. */
  lemma RunFollowsGreedy(events: seq<Event>, packetTimeout: nat)
    ensures var r := Run(events, packetTimeout);
            Greedy(r.stream, r.given, 0) == r.accepted + Greedy(r.stream, r.given, r.pos)
  {
    var r := Run(events, packetTimeout);
    ReachesIsGreedy(r.stream, r.given, 0, r.pos, r.accepted);
  }

  /** Accepted packet `k` is the stretch of the stream from `o` on, and position `j` lies in it. */
  predicate Covers(r: Receiver, k: nat, o: nat, j: nat) {
    k < |r.accepted| && o <= j < o + |r.accepted[k]| <= r.pos <= |r.stream| &&
    r.stream[o..o + |r.accepted[k]|] == r.accepted[k]
  }

  /** Every whole packet that starts in the settled part was accepted, overlaps an accepted one, or stands at a position
      that timed out. */
  ghost predicate MissesNone(r: Receiver) {
    forall j: nat :: j < r.pos && j !in r.given && Decide(r.stream, j).Accept? ==>
      exists k: nat, o: nat :: Covers(r, k, o, j) && (o == j ==> |r.accepted[k]| == Decide(r.stream, j).size)
  }

  /** Whatever a run has settled, it has missed no packet in it. */
  lemma RunMissesNone(events: seq<Event>, packetTimeout: nat)
    ensures MissesNone(Run(events, packetTimeout))
  {
    hide Run, Reaches, Decide, IsPacket;
    var r := Run(events, packetTimeout);
    forall j: nat | j < r.pos && j !in r.given && Decide(r.stream, j).Accept?
      ensures exists k: nat, o: nat :: Covers(r, k, o, j) && (o == j ==> |r.accepted[k]| == Decide(r.stream, j).size)
    {
      var k, o := NoneMissed(r.stream, r.given, 0, r.pos, r.accepted, j);
      assert Covers(r, k, o, j);
    }
  }

  /** What a parser call counts, by what it did: a whole packet brings the receiver into step and any other byte
      settled takes it out; a header with a wrong second byte counts as skipped, one given up as a timeout, and a wrong
      checksum counts as bad only while in step. */
  lemma CallCounts(r: Receiver, startNow: nat, checkNow: nat, packetTimeout: nat, slots: seq<Callback>)
    requires Good(r)
    ensures var p, next := NextSync(r.stream, r.pos), ParseCall(r, startNow, checkNow, packetTimeout, slots);
            var accepted, late := |next.accepted| > |r.accepted|, p in next.given && p !in r.given;
            var rejected := next.pos > p && !accepted && !late;
            next.inSync == (accepted || (r.inSync && !rejected && !late)) &&
            (rejected ==> p + 1 < |r.stream|) &&
            var header := rejected && r.stream[p + 1] != SYNC_BYTE2;
            next.timeouts == (if late then Low32(r.timeouts + 1) else r.timeouts) &&
            next.headersSkipped == (if header then Low32(r.headersSkipped + 1) else r.headersSkipped) &&
            next.badChecksums == if rejected && !header && r.inSync then Low32(r.badChecksums + 1) else r.badChecksums
  {
    hide IsPacket, Late, CallsFor, Reaches;
  }

  lemma StepCountsTimeouts(r: Receiver, e: Event, packetTimeout: nat)
    requires Good(r) && r.timeouts == Low32(|r.given|)
    ensures var next := Step(r, e, packetTimeout); next.timeouts == Low32(|next.given|)
  {
    hide Reaches, IsPacket, Late, CallsFor;
    if e.Parse? { SettleCountsTimeouts(Seek(r, e.startNow), e.checkNow, packetTimeout, e.slots); }
  }

  lemma SettleCountsTimeouts(r: Receiver, checkNow: nat, packetTimeout: nat, slots: seq<Callback>)
    requires r.timeouts == Low32(|r.given|) && forall x :: x in r.given ==> x <= r.pos
    ensures r.pos < |r.stream| && r.stream[r.pos] == SYNC_BYTE1 && r.pos !in r.given ==>
              var next := Settle(r, checkNow, packetTimeout, slots); next.timeouts == Low32(|next.given|)
  {
    hide IsPacket, Late, CallsFor;
    assert r.pos !in r.given ==> |r.given + {r.pos}| == |r.given| + 1;
  }

  /** Over every run the timeouts counted are the positions given up, modulo 2^32. */
  lemma {:induction false} TimeoutsCounted(events: seq<Event>, packetTimeout: nat)
    ensures var r := Run(events, packetTimeout); r.timeouts == Low32(|r.given|)
  {
    hide Step, Reaches;
    if events != [] {
      var before := Run(events[..|events| - 1], packetTimeout);
      TimeoutsCounted(events[..|events| - 1], packetTimeout);
      StepCountsTimeouts(before, events[|events| - 1], packetTimeout);
    }
  }

  /** Nothing more to settle until bytes arrive. */
  predicate Quiescent(r: Receiver) {
    r.pos <= |r.stream| && Decide(r.stream, NextSync(r.stream, r.pos)).NeedMore?
  }

  /** ... and then all of the greedy parse has been accepted. */
  lemma QuiescentHasAll(events: seq<Event>, packetTimeout: nat)
    requires var r := Run(events, packetTimeout); r.given == {} && Quiescent(r)
    ensures var r := Run(events, packetTimeout); r.accepted == Greedy(r.stream, {}, 0)
  {
    var r := Run(events, packetTimeout);
    var p := NextSync(r.stream, r.pos);
    ReachesNextSync(r.stream, {}, 0, r.pos, r.accepted);
    ReachesIsGreedy(r.stream, {}, 0, p, r.accepted);
    assert r.accepted + [] == r.accepted;
  }

  /** Two runs over the same bytes, cut up and timed differently, accept the same packets. */
  lemma RunsAgree(events: seq<Event>, events': seq<Event>, packetTimeout: nat, packetTimeout': nat)
    requires var r, r' := Run(events, packetTimeout), Run(events', packetTimeout');
             r.stream == r'.stream && r.given == r'.given == {} && Quiescent(r) && Quiescent(r')
    ensures Run(events, packetTimeout).accepted == Run(events', packetTimeout').accepted
  {
    QuiescentHasAll(events, packetTimeout);
    QuiescentHasAll(events', packetTimeout');
  }

  /** What a parser call reads besides the ring: the clock, twice, and the callback tables. */
  datatype Reading = Reading(startNow: nat, checkNow: nat, slots: seq<Callback>)

  function CallWith(r: Receiver, t: Reading, packetTimeout: nat): Receiver
    requires r.pos <= |r.stream|
  {
    ParseCall(r, t.startNow, t.checkNow, packetTimeout, t.slots)
  }

  /** Parser calls with no bytes arriving, each with its own readings. */
  ghost function Calls(r: Receiver, readings: seq<Reading>, packetTimeout: nat): (r': Receiver)
    requires Good(r)
    ensures Good(r')
    decreases |readings|
  {
    if readings == [] then r
    else
      var t := readings[0];
      ParseCallKeepsGood(r, t.startNow, t.checkNow, packetTimeout, t.slots);
      Calls(CallWith(r, t, packetTimeout), readings[1..], packetTimeout)
  }

  /** At the end with nothing held, or holding a start byte that cannot be settled yet. */
  predicate Waiting(r: Receiver) {
    r.pos <= |r.stream| &&
    if r.byteCount == 0 then r.pos == |r.stream|
    else
      && r.pos < |r.stream| && r.stream[r.pos] == SYNC_BYTE1 && Decide(r.stream, r.pos).NeedMore?
      && r.byteCount == if r.pos + HEADER_SIZE <= |r.stream| then HEADER_SIZE else 1
  }

  lemma StuckWaits(r: Receiver, t: Reading, packetTimeout: nat)
    requires r.pos <= |r.stream| && CallWith(r, t, packetTimeout).pos == r.pos
    ensures Waiting(CallWith(r, t, packetTimeout))
  {
    hide IsPacket, Late, CallsFor;
  }

  lemma WaitingStays(r: Receiver, later: Reading, packetTimeout: nat)
    requires Waiting(r)
    ensures CallWith(r, later, packetTimeout) == r <==>
            !(r.byteCount > 0 && Late(r.startTime, later.checkNow, packetTimeout))
  {
    if r.byteCount > 0 { SeekStays(r, later.startNow); }
    hide IsPacket, Late, CallsFor;
  }

  /** A call that does not move leaves the receiver at rest, and later calls change nothing unless the wait for the
      bytes held gets too long. */
  lemma StuckIsAtRest(r: Receiver, t: Reading, later: Reading, packetTimeout: nat)
    requires Good(r) && CallWith(r, t, packetTimeout).pos == r.pos
    ensures var next := CallWith(r, t, packetTimeout);
            next.pos <= |next.stream| && Quiescent(next) &&
            (CallWith(next, later, packetTimeout) == next <==>
             !(next.byteCount > 0 && Late(next.startTime, later.checkNow, packetTimeout)))
  {
    StuckWaits(r, t, packetTimeout);
    WaitingStays(CallWith(r, t, packetTimeout), later, packetTimeout);
    hide CallWith, Late, Decide, Good;
  }

  lemma CallMovesOn(r: Receiver, t: Reading, packetTimeout: nat)
    requires r.pos <= |r.stream|
    ensures var next := CallWith(r, t, packetTimeout); next.stream == r.stream && r.pos <= next.pos <= |r.stream|
  {
    hide IsPacket, Late, CallsFor;
  }

  /** Every call moves on or finds nothing to settle, so whatever the clock does, among as many calls as there are
      bytes ahead one leaves the receiver at rest. */
  lemma {:induction false} CallsComeToRest(r: Receiver, readings: seq<Reading>, packetTimeout: nat) returns (k: nat)
    requires Good(r) && |readings| >= |r.stream| - r.pos
    ensures k <= |readings| && Quiescent(Calls(r, readings[..k], packetTimeout))
    decreases |readings|
  {
    hide ParseCall, Reaches;
    k := 0;
    if r.pos < |r.stream| {
      var t := readings[0];
      var next := CallWith(r, t, packetTimeout);
      CallMovesOn(r, t, packetTimeout);
      ParseCallKeepsGood(r, t.startNow, t.checkNow, packetTimeout, t.slots);
      if next.pos > r.pos {
        k := CallsComeToRest(next, readings[1..], packetTimeout);
        k := k + 1;
        assert readings[..k][1..] == readings[1..][..k - 1];
      } else {
        StuckIsAtRest(r, t, t, packetTimeout);
        k := 1;
        assert readings[..1][1..] == [];
      }
    }
  }

  lemma NextCallTakes(r: Receiver, packets: seq<seq<byte>>, t: Reading, packetTimeout: nat)
    requires r.pos <= |r.stream| && r.stream[r.pos..] == Concat(packets) && AllPackets(packets) && packets != []
    ensures var next := CallWith(r, t, packetTimeout);
            next.stream == r.stream && next.pos == r.pos + |packets[0]| && next.pos <= |r.stream| &&
            next.stream[next.pos..] == Concat(packets[1..]) && next.byteCount == 0 && next.given == r.given &&
            next.accepted == r.accepted + [packets[0]] &&
            next.calls == r.calls + CallsFor(t.slots, packets[0], ValidPacket)
  {
    hide IsPacket, Decide, Concat, CallsFor;
    FirstAhead(r.stream, r.pos, packets);
  }

  lemma FirstAhead(s: seq<byte>, p: nat, packets: seq<seq<byte>>)
    requires p <= |s| && s[p..] == Concat(packets) && AllPackets(packets) && packets != []
    ensures p < |s| && s[p] == SYNC_BYTE1 && Decide(s, p) == Accept(|packets[0]|)
    ensures s[p..p + |packets[0]|] == packets[0] && s[p + |packets[0]|..] == Concat(packets[1..])
  {
    var before := s[..p];
    assert s == before + Concat(packets);
    ConcatFirst(before, packets);
    DecidePacket(before, packets[0], Concat(packets[1..]));
    assert s[p] == packets[0][0];
  }

  lemma FirstCall(r: Receiver, packets: seq<seq<byte>>, readings: seq<Reading>, packetTimeout: nat)
    returns (next: Receiver)
    requires Good(r) && r.stream[r.pos..] == Concat(packets) && AllPackets(packets) && packets != [] && readings != []
    ensures Good(next) && Calls(r, readings, packetTimeout) == Calls(next, readings[1..], packetTimeout)
    ensures next.stream == r.stream && next.stream[next.pos..] == Concat(packets[1..]) && next.byteCount == 0
    ensures next.accepted == r.accepted + [packets[0]] && next.given == r.given
    ensures next.calls == r.calls + CallsFor(readings[0].slots, packets[0], ValidPacket)
  {
    var t := readings[0];
    next := CallWith(r, t, packetTimeout);
    ParseCallKeepsGood(r, t.startNow, t.checkNow, packetTimeout, t.slots);
    NextCallTakes(r, packets, t, packetTimeout);
  }

  function Joined(made: seq<seq<Call>>): seq<Call> { if made == [] then [] else made[0] + Joined(made[1..]) }

  /** From `r` to `r'` exactly `packets` were accepted, each announced to the callback its set had in the tables of its
      time, and nothing was given up. */
  ghost predicate Delivered(r: Receiver, r': Receiver, packets: seq<seq<byte>>, readings: seq<Reading>,
                            made: seq<seq<Call>>)
  {
    && |readings| == |packets| == |made|
    && r'.accepted == r.accepted + packets && r'.calls == r.calls + Joined(made) && r'.given == r.given
    && forall k :: 0 <= k < |packets| ==>
         |packets[k]| > 2 && RightCalls(readings[k].slots, packets[k][2], packets[k], ValidPacket, made[k])
  }

  lemma DeliveredFirst(r: Receiver, next: Receiver, r': Receiver, packets: seq<seq<byte>>, readings: seq<Reading>,
                       first: seq<Call>, rest: seq<seq<Call>>)
    requires packets != [] && |readings| == |packets| && |packets[0]| > 2
    requires next.accepted == r.accepted + [packets[0]] && next.given == r.given && next.calls == r.calls + first
    requires RightCalls(readings[0].slots, packets[0][2], packets[0], ValidPacket, first)
    requires Delivered(next, r', packets[1..], readings[1..], rest)
    ensures Delivered(r, r', packets, readings, [first] + rest)
  {
    hide RightCalls;
    var made := [first] + rest;
    assert r.accepted + [packets[0]] + packets[1..] == r.accepted + packets;
    assert made[1..] == rest && r.calls + first + Joined(rest) == r.calls + Joined(made);
    forall k | 0 <= k < |packets|
      ensures |packets[k]| > 2 && RightCalls(readings[k].slots, packets[k][2], packets[k], ValidPacket, made[k])
    {
      if k > 0 { assert packets[k] == packets[1..][k - 1] && readings[k] == readings[1..][k - 1] && made[k] == rest[k - 1]; }
    }
  }

  /** Whole packets waiting ahead are delivered one per call, in order, each to the callback of its descriptor set,
      whatever clock and tables each call reads, and then the receiver stands at the end with no bytes held. */
  lemma {:induction false} OnePacketPerCall(r: Receiver, packets: seq<seq<byte>>, readings: seq<Reading>, packetTimeout: nat)
    returns (made: seq<seq<Call>>)
    requires Good(r) && r.byteCount == 0 && r.stream[r.pos..] == Concat(packets) && AllPackets(packets)
    requires |readings| == |packets|
    ensures var r' := Calls(r, readings, packetTimeout);
            Delivered(r, r', packets, readings, made) && r'.pos == |r.stream| && r'.byteCount == 0
    decreases |packets|
  {
    hide Reaches, CallsFor, RightCalls;
    made := [];
    if packets != [] {
      var next := FirstCall(r, packets, readings, packetTimeout);
      assert |packets[0]| >= HEADER_SIZE;
      hide IsPacket, Concat;
      var rest := OnePacketPerCall(next, packets[1..], readings[1..], packetTimeout);
      var first := CallsFor(readings[0].slots, packets[0], ValidPacket);
      CallsAreRight(readings[0].slots, packets[0], ValidPacket);
      made := [first] + rest;
      DeliveredFirst(r, next, Calls(next, readings[1..], packetTimeout), packets, readings, first, rest);
    }
  }

  // ---- End to end ----

  datatype Message = Message(descriptorSet: byte, fields: seq<Field>)

  /** The packets of a list of messages, as `Mip.BuildPacket` writes them. */
  function Packets(messages: seq<Message>): (packets: seq<seq<byte>>)
    requires forall k :: 0 <= k < |messages| ==> FieldsFit(messages[k].fields)
    ensures |packets| == |messages|
  {
    if messages == [] then []
    else [Packet(messages[0].descriptorSet, messages[0].fields)] + Packets(messages[1..])
  }

  lemma {:induction false} PacketsAreGood(messages: seq<Message>)
    requires forall k :: 0 <= k < |messages| ==> FieldsFit(messages[k].fields)
    ensures AllPackets(Packets(messages))
    ensures forall k :: 0 <= k < |messages| ==>
              Packets(messages)[k] == Packet(messages[k].descriptorSet, messages[k].fields)
  {
    hide Packet, IsPacket, FieldsFit;
    if messages != [] {
      PacketIsPacket(messages[0].descriptorSet, messages[0].fields);
      PacketsAreGood(messages[1..]);
    }
  }

  /** Messages built by the sender, sent after whatever a receiver has settled, are accepted one per
      parser call; message k goes to the callback of its descriptor set, and its packet walks back to the descriptor set
      and fields that went in. */
  lemma MessagesRoundTrip(r: Receiver, messages: seq<Message>, readings: seq<Reading>, packetTimeout: nat)
    returns (made: seq<seq<Call>>)
    requires Good(r) && r.byteCount == 0 && r.pos == |r.stream| && |readings| == |messages|
    requires forall k :: 0 <= k < |messages| ==> FieldsFit(messages[k].fields)
    ensures var sent := Step(r, Arrive(Concat(Packets(messages))), packetTimeout);
            Good(sent) &&
            var got := Calls(sent, readings, packetTimeout);
            got.accepted == r.accepted + Packets(messages) && got.pos == |got.stream| && got.given == r.given &&
            |made| == |messages| && got.calls == r.calls + Joined(made)
    ensures forall k :: 0 <= k < |messages| ==>
              var p := Packets(messages)[k];
              IsPacket(p) && p[2] == messages[k].descriptorSet &&
              WalkFields(Payload(p), 0) == Walk(messages[k].fields, FieldNotAvailable) &&
              RightCalls(readings[k].slots, messages[k].descriptorSet, p, ValidPacket, made[k])
  {
    hide Reaches, Concat;
    var packets := Packets(messages);
    var sent := Step(r, Arrive(Concat(packets)), packetTimeout);
    StepKeepsGood(r, Arrive(Concat(packets)), packetTimeout);
    PacketsAreGood(messages);
    assert sent.stream[sent.pos..] == Concat(packets);
    made := OnePacketPerCall(sent, packets, readings, packetTimeout);
    hide RightCalls;
    CallsKeepStream(sent, readings, packetTimeout);
    forall k | 0 <= k < |messages|
      ensures var p := packets[k];
              IsPacket(p) && p[2] == messages[k].descriptorSet &&
              WalkFields(Payload(p), 0) == Walk(messages[k].fields, FieldNotAvailable) &&
              RightCalls(readings[k].slots, messages[k].descriptorSet, p, ValidPacket, made[k])
    {
      PacketIsPacket(messages[k].descriptorSet, messages[k].fields);
      FieldsRoundTrip(messages[k].descriptorSet, messages[k].fields);
    }
  }

  lemma {:induction false} CallsKeepStream(r: Receiver, readings: seq<Reading>, packetTimeout: nat)
    requires Good(r)
    ensures Calls(r, readings, packetTimeout).stream == r.stream
    decreases |readings|
  {
    hide ParseCall, Reaches;
    if readings != [] {
      var t := readings[0];
      CallMovesOn(r, t, packetTimeout);
      ParseCallKeepsGood(r, t.startNow, t.checkNow, packetTimeout, t.slots);
      CallsKeepStream(CallWith(r, t, packetTimeout), readings[1..], packetTimeout);
    }
  }

  /** A ring that holds as many bytes as the largest packet always holds enough to settle the start byte
      the receiver stands at, so a full ring never stops the parser. */
  lemma FullRingIsSettled(s: seq<byte>, i: nat)
    requires i + MAX_PACKET_SIZE <= |s|
    ensures !Decide(s, i).NeedMore?
  {
  }

  /** So with that much in the ring every parser call moves on: a full ring is never stuck. */
  lemma FullRingMoves(r: Receiver, startNow: nat, checkNow: nat, packetTimeout: nat, slots: seq<Callback>)
    requires r.pos + MAX_PACKET_SIZE <= |r.stream|
    ensures ParseCall(r, startNow, checkNow, packetTimeout, slots).pos > r.pos
  {
    hide IsPacket, Late, CallsFor;
    if r.stream[r.pos] == SYNC_BYTE1 {
      FullRingIsSettled(r.stream, r.pos);
    }
  }
}
