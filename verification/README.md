# Verified models of the submarine's core algorithms

Dafny models of five parts of the submarine software, each with proofs of what the part is for:

1. **The MIP protocol stack** (`mip_common`): ring buffer, packet builder and reader, checksum, and the
   resynchronising stream parser. `ring_buffer.dfy`, `checksum.dfy`, `mip.dfy`, `mip_stream.dfy` (the greedy parse of a
   stream), `mip_receiver.dfy` (the parser as a state machine, and every run of it), `mip_interface.dfy` (the object
   with its buffers, proved to be that state machine). `bytes.dfy` holds the machine integers, `options.dfy` optional
   values.
2. **The attitude Kalman filter** (`SubAttitudeResolver`): `linear.dfy` (symmetric 3 by 3 matrices), `kalman_math.dfy`
   (what the expanded formulas mean), `kalman_order.dfy` (what a step does to the uncertainty), `quaternion.dfy`,
   `attitude_turn.dfy` (which way a step turns the prediction), `attitude_angles.dfy` (the Euler angles),
   `attitude_filter.dfy` (the filter over its arrays, and runs).
3. **The decision-tree trainer** (`DLT`): `decision_tree.dfy`, `best_split.dfy`, `tree_stream.dfy`.
4. **The blob finder** (`ImageRecognition`): `blobs.dfy` (fill and scan), `blob_selection.dfy` (which blobs are kept).
5. **Two state machines**: the mission machine, `class_graph.dfy` and `state_machine.dfy`, and the motor link,
   `motor_frames.dfy`, `motor_link.dfy`, `motor_answers.dfy` and `motor_controller.dfy`.

Code that updates objects and arrays in place is modelled by classes and methods over fields and arrays, each proved
against a function of the old state; the theorems are about those functions and hold for all inputs and all runs.

`dafny verify dfyconfig.toml` checks the project.

## Where the code differs from what it says or seems to promise

- The checksum is called a 16-bit Fletcher checksum (`rosWorkspace/mip_common/src/mip.c:648`); its accumulators are
  bytes, so it works modulo 256 and not in the ones'-complement form of Appendix I of RFC 1146. `Checksums` follows the
  code.
- The size test of `mip_add_field` is made on 16 bits and can wrap: `Mip.SizeCheckExact` says exactly when it is right.
- The write slot of the ring buffer is computed on 32 bits: `RingBuffers.WriteSlotExact` says exactly when it is right.
- The byte index into the ring's memory is computed on 32 bits too: `RingBuffers.ByteIndexExact` says exactly when it is
  right, and `RingBuffers.SlotsShareBytes` shows it fail.
- The range tests of the ring buffer's lookahead copy and multiple read are made on 32 bits too:
  `RingBuffers.LookaheadCheckExact`, `RingBuffers.ReadCheckExact`.
- The parser timeout fires a millisecond late after the clock wrapped: `MipReceiver.LateMeansElapsed`.
- The chunked split search is meant to replace the serial one but does not agree with it when an attribute stays below
  3, or when two costs become equal as floats: `BestSplit.SearchesAgree` says exactly when it does, and
  `BestSplit.FloatsDisagree` shows the second.
- A branch with attribute -1 is saved as a leaf: `TreeStream.PlainExactly`.
- Filling from a pixel of value 0 would not mark anything: `Blobs.MarkMustDiffer`. No object has that value.
- The heap is popped without dropping the popped element. From the third blob on the selection can be wrong:
  `BlobSelection.SelectionRight` says exactly when it is right, and `BlobSelection.ThreeOfFour` shows it fail. The
  "parking" object asks for three.
- Objects are looked for by `enumType * 10 + 200` (`rosWorkspace/SubImageRecognition/src/ImageRecognition.cpp:535`), so
  the value 3 and the minimum of 400 points (line 328) never apply.
- On a failed stream the tree reader recurses without end: `TreeStream.LoadEnds`. A number that an int does not hold
  fails the stream, too: `TreeStream.BigThreshold`.
- `ChangeState` compares the text of a class file with 0 to detect a missing file, but a missing file reads as an empty
  text: `StateMachine.UnknownStateIsInert`.
- Timers are documented in milliseconds, but only the other units are accepted: `StateMachine.TimerAccepted`.
- After a resend, a late answer can be taken for the answer to the next request: `MotorAnswers.LateAnswerMisread`;
  `MotorAnswers.AnswersBelong` says exactly when not.
  Motor speeds can then miss a step: `MotorAnswers.ObeyingIsNotEnough`.
- The motor link's intervals can be a millisecond too long, and are cut to an int: `MotorController.MilliSecsExact`.

## Model

| member | source | states |
|---|---|---|
| `MipReceiver.RunFollowsGreedy` | rosWorkspace/mip_common/src/mip_sdk_interface.c:430-593 | After every run, whatever was fed in whatever pieces and whatever timed out, the packets accepted so far followed by the greedy parse of what is left are the greedy parse of the whole stream (positions given up on a timeout count as rejected) |
| `MipReceiver.RunMissesNone` | rosWorkspace/mip_common/src/mip_sdk_interface.c:430-593 | In what any run has settled, every whole valid packet was accepted, overlaps an accepted one, or stands at a position that timed out |
| `MipReceiver.QuiescentHasAll` | rosWorkspace/mip_common/src/mip_sdk_interface.c:430-593 | A run without timeouts that has come to rest has accepted exactly the greedy parse of everything fed in |
| `MipReceiver.RunsAgree` | rosWorkspace/mip_common/src/mip_sdk_interface.c:430-593 | Two runs over the same bytes, cut and timed differently, without timeouts and at rest, have accepted the same packets |
| `MipReceiver.CallsComeToRest` | rosWorkspace/mip_common/src/mip_sdk_interface.c:446-590 | Whatever clock and callback tables each parser call reads, among as many calls as there are bytes ahead one leaves the parser at rest |
| `MipReceiver.StuckIsAtRest` | rosWorkspace/mip_common/src/mip_sdk_interface.c:446-590 | A parser call that does not move forward leaves the parser at rest, and any later call changes nothing if and only if the wait for the bytes held is not too long by its clock |
| `MipReceiver.OnePacketPerCall` | rosWorkspace/mip_common/src/mip_sdk_interface.c:446-570 | With the parser searching and whole packets ahead, each call takes exactly one packet, in order, and makes one call, to the handler and with the pointer of the first slot of its tables for the packet's descriptor set, with the packet's bytes; none if there is no such slot; afterwards nothing is left |
| `MipReceiver.CallsAreRight` | rosWorkspace/mip_common/src/mip_sdk_interface.c:623-649 | What is announced for a packet, whole, bad or late, is exactly one call, to the first slot whose set is the third byte of the packet and whose handler is not null, with that slot's pointer, those bytes and that kind, and no call if there is no such slot or the set is 0 |
| `MipReceiver.ParseAnnounces` | rosWorkspace/mip_common/src/mip_sdk_interface.c:446-590 | A parser call announces a whole packet, a header behind a wrong checksum or a late header in that way, and nothing else |
| `MipReceiver.CallCounts` | rosWorkspace/mip_common/src/mip_sdk_interface.c:469-590 | What a parser call counts follows from what it did: timeouts, skipped headers, and bad checksums only while in step; a whole packet brings the parser into step, anything rejected or late takes it out |
| `MipReceiver.TimeoutsCounted` | rosWorkspace/mip_common/src/mip_sdk_interface.c:497-505 | Over every run the timeouts counted are the positions given up, modulo 2^32 |
| `MipReceiver.MessagesRoundTrip` | rosWorkspace/mip_common/src/mip.c:64-301 | Any list of messages, built as packets and sent, is delivered one packet per parser call, each call with a clock and tables of its own; message k goes to the callback its tables have for the message's descriptor set, and walking its packet gives back the set and exactly its (descriptor, data) list, then "not available" |
| `MipReceiver.FullRingIsSettled` | rosWorkspace/mip_common/src/mip_sdk_interface.c:446-570 | At any position with a largest packet's worth of bytes behind it the parser needs no more bytes to decide |
| `MipReceiver.FullRingMoves` | rosWorkspace/mip_common/src/mip_sdk_interface.c:446-590 | With a largest packet's worth of bytes ahead every parser call moves forward, so a full ring is never stuck |
| `MipReceiver.StepKeepsGood` | rosWorkspace/mip_common/src/mip_sdk_interface.c:430-593 | Arrivals and parser calls, timeouts included, keep the invariant that the accepted packets lie on the path of the greedy parse up to the current position |
| `MipReceiver.LateMeansElapsed` | rosWorkspace/mip_common/src/mip_sdk_interface.c:674-692 | The timeout test on 32-bit millisecond counters agrees with elapsed time except, after the counter wrapped, at exactly the timeout: there it fires one millisecond late |
| `MipReceiver.FindCallback` | rosWorkspace/mip_common/src/mip_sdk_interface.c:623-649 | The callback found is the first slot for the descriptor set that is not null; none is found only if there is none |
| `MipStream.GreedyLaidOut` | rosWorkspace/mip_common/src/mip_sdk_interface.c:446-570 | The packets of a greedy parse are disjoint stretches of the stream, in order, each a whole valid packet |
| `MipStream.ReachesIsGreedy` | rosWorkspace/mip_common/src/mip_sdk_interface.c:446-590 | Going forward by whole packets and single rejected bytes follows the greedy parse: what was taken is its prefix |
| `MipStream.NoneMissed` | rosWorkspace/mip_common/src/mip_sdk_interface.c:446-590 | Going forward misses no packet: behind the reader a whole packet was given up on, or lies in a stretch that was taken, and is that stretch if it starts there |
| `MipStream.ReachesStable` | rosWorkspace/mip_common/src/mip_sdk_interface.c:446-590 | What was decided stays decided when bytes are appended or later positions are given up |
| `MipStream.DecideStable` | rosWorkspace/mip_common/src/mip_sdk_interface.c:446-570 | A decision at a position does not depend on bytes that come after those it needed |
| `MipStream.ChunkingDoesNotMatter` | rosWorkspace/mip_common/src/mip_sdk_interface.c:430-593 | Any two ways of coming to a standstill in the same stream end at the same position with the same packets |
| `MipStream.StopsAt` | rosWorkspace/mip_common/src/mip_sdk_interface.c:446-590 | No way through the stream gets past a position where more bytes are needed |
| `MipStream.DecidePacket` | rosWorkspace/mip_common/src/mip_sdk_interface.c:462-570 | A well-formed packet is accepted wherever it stands |
| `MipStream.GreedyTakesPackets` | rosWorkspace/mip_common/src/mip_sdk_interface.c:446-570 | The greedy parse of concatenated packets is those packets |
| `MipStream.GreedyAfterNoise` | rosWorkspace/mip_common/src/mip_sdk_interface.c:453-463 | Noise without a start byte in front of packets costs none of them |
| `MipInterfaces.MipInterface.ParseInputBuffer` | rosWorkspace/mip_common/src/mip_sdk_interface.c:430-593 | The parser over packet buffer and ring, of any capacity from the largest packet on, which consumes only the start byte and looks ahead for the rest, is the parser call of the receiver; what it announces goes to the callback of the packet's descriptor set; it never overruns the ring and moves forward whenever the ring holds a largest packet's worth |
| `MipInterfaces.MipInterface.Update` | rosWorkspace/mip_common/src/mip_sdk_interface.c:170-207 | One turn of the main loop is an arrival followed by a parser call, and never overruns the ring |
| `MipInterfaces.MipInterface.Write` | rosWorkspace/mip_common/src/mip_sdk_interface.c:330-358 | Bytes are put into the ring until it is full; the count and the one overrun are reported |
| `MipInterfaces.MipInterface.GetHeader` | rosWorkspace/mip_common/src/mip_sdk_interface.c:469-508 | Behind a start byte: a good header is held, a bad one restarts one byte later, a late one is given up |
| `MipInterfaces.MipInterface.GetPacket` | rosWorkspace/mip_common/src/mip_sdk_interface.c:515-590 | Behind a header: the packet is consumed whole only on a right checksum, otherwise parsing restarts one byte after the start byte |
| `MipInterfaces.MipInterface.FetchPacket` | rosWorkspace/mip_common/src/mip_sdk_interface.c:517-530 | Looking ahead and testing the checksum decides as the greedy parse does, and leaves the ring alone |
| `MipInterfaces.MipInterface.FindStartByte` | rosWorkspace/mip_common/src/mip_sdk_interface.c:453-463 | The search takes bytes up to and including the next start byte and starts the clock there |
| `MipInterfaces.MipInterface.Announce` | rosWorkspace/mip_common/src/mip_sdk_interface.c:623-649 | A packet is announced once, to the callback in the first slot for its descriptor set, the third byte, with the slot's pointer; not at all if there is none |
| `MipInterfaces.MipInterface.constructor` | rosWorkspace/mip_common/src/mip_sdk_interface.c:65-113 | A fresh interface is the initial receiver over an empty ring, with the command response handler in slot 0 and no other callback |
| `Mip.PacketIsPacket` | rosWorkspace/mip_common/src/mip.c:278-301 | A packet encoded from fields that fit passes the validity test and carries exactly the encoded fields |
| `Mip.PingPacket` | rosWorkspace/mip_common/src/mip.c:64-301 | A ping is built as 75 65 01 02 02 01 E0 C6 |
| `Mip.StreamPacket` | rosWorkspace/mip_common/src/mip.c:64-301 | A command with the data 01 01 01 is built as 75 65 0C 05 05 11 01 01 01 04 1A |
| `Mip.FieldsRoundTrip` | rosWorkspace/mip_common/src/mip.c:405-477 | Walking the fields of an encoded packet gives back the fields and then "not available" |
| `Mip.WalkUndoesEncode` | rosWorkspace/mip_common/src/mip.c:447-477 | The same from any offset at which encoded fields start |
| `Mip.OneByteChangeRejected` | rosWorkspace/mip_common/src/mip.c:615-690 | Changing any one byte of a valid packet but its payload length makes it invalid |
| `Mip.SwapRejected` | rosWorkspace/mip_common/src/mip.c:667-696 | Swapping two adjacent unequal bytes of a valid packet behind its header makes it invalid |
| `Mip.SwapAcrossEnd` | rosWorkspace/mip_common/src/mip.c:667-696 | That includes the last payload byte and the first checksum byte |
| `Mip.SizeCheckExact` | rosWorkspace/mip_common/src/mip.c:170-174 | The 16-bit size test of adding a field is right for every buffer if and only if the new size does not wrap, or wraps beyond the largest packet |
| `Mip.FieldAppended` | rosWorkspace/mip_common/src/mip.c:176-191 | Adding a field appends its encoding to the payload and keeps the rest of the header |
| `Mip.Init` | rosWorkspace/mip_common/src/mip.c:64-83 | A buffer with room for header and checksum gets an empty header; one without is left alone |
| `Mip.AddField` | rosWorkspace/mip_common/src/mip.c:155-194 | For every 16-bit data size, wrapping ones included, the code's test decides; what is refused changes nothing, what is accepted is written behind the payload with sizes cut to bytes, and that appends a field unless the size wrapped |
| `Mip.CalculateChecksum` | rosWorkspace/mip_common/src/mip.c:667-696 | The accumulator loop computes the sum of the covered bytes and the sum of its running values, each modulo 256 |
| `Mip.Finalize` | rosWorkspace/mip_common/src/mip.c:278-301 | The checksum goes behind the payload, and what results is a valid packet of the size returned |
| `Mip.IsChecksumValid` | rosWorkspace/mip_common/src/mip.c:615-642 | The test accepts exactly packets with sync bytes and a matching checksum, and names the fault otherwise |
| `Mip.NextFieldWalks` | rosWorkspace/mip_common/src/mip.c:447-477 | One step of the field walk, whatever the payload holds, splits off the next field or ends with the walk's own code |
| `Mip.ReadFields` | rosWorkspace/mip_common/src/mip.c:405-477 | The first-field, next-field loop terminates on every packet and collects exactly the walk |
| `Mip.BuildPacket` | rosWorkspace/mip_common/src/mip.c:64-301 | Initialising, adding each field and finalising builds the encoded packet in any buffer with room for it |
| `Checksums.FletcherStep` | rosWorkspace/mip_common/src/mip.c:683-688 | One turn of the accumulators keeps them at the closed form of the bytes so far |
| `Checksums.SwapSums` | rosWorkspace/mip_common/src/mip.c:683-688 | Swapping neighbours keeps the plain sum and moves the weighted one by their difference |
| `Checksums.ZeroSums` | rosWorkspace/mip_common/src/mip.c:667-688 | Zeros, however many, have the check bytes zero |
| `RingBuffers.FillAppends` | rosWorkspace/mip_common/src/ring_buffer.c:286-325 | Writing the slot behind the last entry appends to the queue and disturbs no entry in it |
| `RingBuffers.QueueKept` | rosWorkspace/mip_common/src/ring_buffer.c:286-325 | Writing a free slot leaves every queued entry as it was |
| `RingBuffers.AdvanceDrops` | rosWorkspace/mip_common/src/ring_buffer.c:837-862 | Advancing the position modulo the capacity drops entries from the head of the queue |
| `RingBuffers.WriteSlotExact` | rosWorkspace/mip_common/src/ring_buffer.c:311-316 | The 32-bit computation of the write slot is right for every state if and only if the capacity is at most 2^31 |
| `RingBuffers.ByteIndexExact` | rosWorkspace/mip_common/src/ring_buffer.c:314-315 | The 32-bit byte index of the copy loops is right for every byte of every slot if and only if capacity times entry size is at most 2^32 |
| `RingBuffers.SlotsShareBytes` | rosWorkspace/mip_common/src/ring_buffer.c:314-315 | Beyond that it fails: with entries of 4 bytes slots 0 and 2^30 share their bytes |
| `RingBuffers.LookaheadCheckExact` | rosWorkspace/mip_common/src/ring_buffer.c:774-776 | The 32-bit range test of the lookahead copy is right if and only if offset plus count does not wrap, or wraps beyond the entries there are |
| `RingBuffers.ReadCheckExact` | rosWorkspace/mip_common/src/ring_buffer.c:550-552 | The 32-bit size test of reading many entries is right if and only if the size asked for does not wrap, or wraps beyond the destination |
| `RingBuffers.RingBuffer.StatisticsBalance` | rosWorkspace/mip_common/src/ring_buffer.c:318-320 | In every state the 32-bit count of entries written is that of entries read, plus those flushed, plus those held |
| `RingBuffers.RingBuffer.Write` | rosWorkspace/mip_common/src/ring_buffer.c:286-325 | A whole entry is appended; a full ring counts an overrun and a too long entry is refused, both without change |
| `RingBuffers.RingBuffer.WriteMulti` | rosWorkspace/mip_common/src/ring_buffer.c:354-396 | The longest prefix of entries that fits is appended, the others count as overruns |
| `RingBuffers.RingBuffer.Read` | rosWorkspace/mip_common/src/ring_buffer.c:425-445 | The head is popped into the destination; an empty ring changes nothing |
| `RingBuffers.RingBuffer.LookaheadRead` | rosWorkspace/mip_common/src/ring_buffer.c:475-511 | Any queued entry is copied out and the ring is unchanged |
| `RingBuffers.RingBuffer.ReadMulti` | rosWorkspace/mip_common/src/ring_buffer.c:543-575 | The first entries are popped in order, as many as asked for and present, unless the 32-bit size test refuses; a wrapped size included |
| `RingBuffers.RingBuffer.CopyFrom` | rosWorkspace/mip_common/src/ring_buffer.c:679-723 | Between distinct rings: what leaves the head of one joins the tail of the other, in order, nothing lost or doubled |
| `RingBuffers.RingBuffer.LookaheadCopyFrom` | rosWorkspace/mip_common/src/ring_buffer.c:750-812 | Entries from an offset on are appended and the source keeps them; where the range test wraps, the slots read instead |
| `RingBuffers.LookaheadIsQueue` | rosWorkspace/mip_common/src/ring_buffer.c:786-800 | The slots read ahead by 32-bit sums are the queued entries as long as there are entries |
| `RingBuffers.RingBuffer.ConsumeEntries` | rosWorkspace/mip_common/src/ring_buffer.c:837-862 | At most the queued entries are dropped; the count returned is its low 16 bits |
| `RingBuffers.RingBuffer.Flush` | rosWorkspace/mip_common/src/ring_buffer.c:242-257 | The queue is emptied and the statistics of reads and writes stay |
| `RingBuffers.RingBuffer.InitStatic` | rosWorkspace/mip_common/src/ring_buffer.c:64-90 | A fresh ring over given memory of at most 2^32 bytes, with a capacity of at most 2^31, is the empty queue |
| `RingBuffers.RingBuffer.Count` | rosWorkspace/mip_common/src/ring_buffer.c:170-181 | The count is the length of the queue |
| `RingBuffers.RingBuffer.RemainingEntries` | rosWorkspace/mip_common/src/ring_buffer.c:206-217 | The remaining entries and the queue make up the capacity |
| `AttitudeFilters.EveryUpdateIsDefined` | rosWorkspace/SubAttitudeResolver/src/SubAttitudeResolver.cpp:398-546 | After every run of propagations and updates from a semidefinite covariance, with positive noise, the next update has a positive determinant and a true inverse, and its covariance is (I-KH)P and equals the Joseph form |
| `AttitudeFilters.Run` | rosWorkspace/SubAttitudeResolver/src/SubAttitudeResolver.cpp:315-552 | The covariance stays positive semidefinite over every run |
| `AttitudeFilters.RunNarrows` | rosWorkspace/SubAttitudeResolver/src/SubAttitudeResolver.cpp:315-552 | The covariance is positive definite after exactly the runs that start definite or hold a propagation, and an update that ends a run raises the variance in no direction |
| `AttitudeFilters.AttitudeFilter.KalmanPropagate` | rosWorkspace/SubAttitudeResolver/src/SubAttitudeResolver.cpp:340-411 | Attitude stays a unit quaternion and covariance positive definite; above the minimal rate, and only then, every reference vector is seen from a frame turned about the rates through half-angle sine and cosine of rate times time step; the Euler angles are those of the attitude before, and the arc sine is taken in its range |
| `AttitudeFilters.SweptFirstOrder` | rosWorkspace/SubAttitudeResolver/src/SubAttitudeResolver.cpp:377-404 | To first order a propagation takes off the prediction a positive multiple, of at most the time step, of the cross product with the rates; the transition of the covariance takes off the time step times the same cross product |
| `AttitudeFilters.AnglesAreAttitude` | rosWorkspace/SubAttitudeResolver/src/SubAttitudeResolver.cpp:359-369 | Turning a vector through yaw about Z, then pitch about X, then roll about Y gives what the attitude predicts for it, unless the pitch is a right angle |
| `AttitudeAngles.AnglesRotate` | rosWorkspace/SubAttitudeResolver/src/SubAttitudeResolver.cpp:359-369 | All nine entries of the rotation follow from the five the angles are taken from |
| `AttitudeFilters.MagnitudeZero` | rosWorkspace/SubAttitudeResolver/src/SubAttitudeResolver.cpp:440-448 | The divisor that normalises a measurement is zero if and only if the measurement is the zero vector |
| `Quaternions.AngleEntries` | rosWorkspace/SubAttitudeResolver/src/SubAttitudeResolver.cpp:359-369 | The five entries the Euler angles are taken from are entries of the rotation the update predicts measurements with |
| `AttitudeFilters.AttitudeFilter.KalmanUpdate` | rosWorkspace/SubAttitudeResolver/src/SubAttitudeResolver.cpp:414-552 | No division by zero; measurements normalised in their directions, predicted vector of length one, innovation covariance with positive determinant, updated covariance definite and nowhere above the one before, unit attitude; the attitude turns towards the measurement |
| `AttitudeFilters.CorrectedMoves` | rosWorkspace/SubAttitudeResolver/src/SubAttitudeResolver.cpp:521-545 | Every prediction moves by the rotation gain times residual, and that of the reference vector changes, to first order, by a vector whose product with the residual is at least its own square, and positive unless the residual is along the prediction |
| `AttitudeTurns.TowardsMeasurement` | rosWorkspace/SubAttitudeResolver/src/SubAttitudeResolver.cpp:467-530 | For every definite covariance, prediction, positive noise and residual, the cross product of prediction and gain times residual goes towards the measurement and no further than the residual |
| `AttitudeTurns.TurnTurns` | rosWorkspace/SubAttitudeResolver/src/SubAttitudeResolver.cpp:385-388 | The product formulas of both steps turn what is predicted for every reference vector by (c c - v v) b + 2 (v b) v - 2 c v x b |
| `AttitudeTurns.RotationFormula` | rosWorkspace/SubAttitudeResolver/src/SubAttitudeResolver.cpp:462-465 | The first attitude predicts the reference vector itself, and every quaternion predicts it turned by that formula |
| `AttitudeFilters.AttitudeFilter.constructor` | rosWorkspace/SubAttitudeResolver/src/SubAttitudeResolver.cpp:35-45 | The filter starts at the identity attitude with the diagonal covariance |
| `AttitudeFilters.PropagatedNorm` | rosWorkspace/SubAttitudeResolver/src/SubAttitudeResolver.cpp:377-388 | The propagation step keeps the length of the quaternion |
| `AttitudeFilters.CorrectedNorm` | rosWorkspace/SubAttitudeResolver/src/SubAttitudeResolver.cpp:521-530 | The squared length after the update of a unit quaternion is 1 plus that of the correction, so the division after it is defined |
| `KalmanMath.PropagateMeaning` | rosWorkspace/SubAttitudeResolver/src/SubAttitudeResolver.cpp:398-404 | The six propagated entries are F P F-transposed plus dt times the gyro variance on the diagonal |
| `KalmanMath.PropagateKeepsPsd` | rosWorkspace/SubAttitudeResolver/src/SubAttitudeResolver.cpp:398-411 | Propagation keeps the covariance positive semidefinite |
| `KalmanMath.MeasurementMeaning` | rosWorkspace/SubAttitudeResolver/src/SubAttitudeResolver.cpp:467-484 | The six innovation entries are H P H-transposed plus the noise on the diagonal, with H the cross matrix of the predicted vector |
| `KalmanMath.DetPositive` | rosWorkspace/SubAttitudeResolver/src/SubAttitudeResolver.cpp:491-492 | With semidefinite P and positive noise the determinant formula is strictly positive |
| `KalmanMath.NoiseExact` | rosWorkspace/SubAttitudeResolver/src/SubAttitudeResolver.cpp:467-492 | The determinant is positive for every semidefinite P and every predicted vector if and only if the noise is positive |
| `KalmanMath.InverseIsInverse` | rosWorkspace/SubAttitudeResolver/src/SubAttitudeResolver.cpp:494-500 | The adjugate formulas divided by a non-zero determinant are an inverse |
| `KalmanMath.GainRows` | rosWorkspace/SubAttitudeResolver/src/SubAttitudeResolver.cpp:502-511 | The nine gain entries are the product of P H-transposed and the inverse |
| `KalmanMath.JosephForm` | rosWorkspace/SubAttitudeResolver/src/SubAttitudeResolver.cpp:513-519 | The six updated entries equal (I-KH)P(I-KH)-transposed + R K K-transposed |
| `KalmanMath.UpdateMeaning` | rosWorkspace/SubAttitudeResolver/src/SubAttitudeResolver.cpp:513-519 | The six updated entries are the whole of (I-KH)P, which is symmetric |
| `KalmanMath.UpdateKeepsPsd` | rosWorkspace/SubAttitudeResolver/src/SubAttitudeResolver.cpp:467-546 | The update keeps the covariance positive semidefinite |
| `KalmanOrder.UpdateNeverRaises` | rosWorkspace/SubAttitudeResolver/src/SubAttitudeResolver.cpp:467-546 | The update raises the variance in no direction |
| `KalmanOrder.UpdateKeepsDefinite` | rosWorkspace/SubAttitudeResolver/src/SubAttitudeResolver.cpp:467-546 | The update keeps a positive definite covariance positive definite |
| `KalmanOrder.PropagateMakesDefinite` | rosWorkspace/SubAttitudeResolver/src/SubAttitudeResolver.cpp:398-411 | Propagation makes every semidefinite covariance positive definite |
| `Linear.InverseInverts` | rosWorkspace/SubAttitudeResolver/src/SubAttitudeResolver.cpp:491-500 | Applying the inverse undoes applying a symmetric matrix of non-zero determinant |
| `Linear.PositiveDet` | rosWorkspace/SubAttitudeResolver/src/SubAttitudeResolver.cpp:491-492 | A positive definite symmetric 3 by 3 matrix has a positive determinant |
| `Quaternions.TurnNorm` | rosWorkspace/SubAttitudeResolver/src/SubAttitudeResolver.cpp:385-388 | The product formulas of both steps multiply squared lengths |
| `Quaternions.AxesOrthogonal` | rosWorkspace/SubAttitudeResolver/src/SubAttitudeResolver.cpp:462-465 | The rotation formulas have orthogonal rows of equal length |
| `Quaternions.RotationKeepsLength` | rosWorkspace/SubAttitudeResolver/src/SubAttitudeResolver.cpp:462-465 | The predicted measurement keeps the length of the reference vector |
| `Quaternions.PitchDefined` | rosWorkspace/SubAttitudeResolver/src/SubAttitudeResolver.cpp:363-368 | For a unit quaternion the argument of the arc sine is in range |
| `DecisionTrees.DeeperIsNoWorse` | DLT/DLT.cpp:280-332 | On its own training data a tree of greater depth classifies no fewer samples right, for any data, stop test and split choice |
| `DecisionTrees.AtLeastMajority` | DLT/DLT.cpp:280-332 | A trained tree is right at least as often as naming any one class |
| `DecisionTrees.TrainingSeparates` | DLT/DLT.cpp:280-320 | If low entropy means one class and the split chosen for any other samples leaves neither side empty, a depth of one less than the samples makes the tree right on every one of them, with fewer branches than samples |
| `DecisionTrees.SeparableExactly` | DLT/DLT.cpp:280-320 | There is an entropy and a choice of splits with that property if and only if no two samples agree in all attributes and differ in class |
| `DecisionTrees.OneKindIsLeaf` | DLT/DLT.cpp:283-308 | Samples of one class and low entropy make a leaf of that class |
| `DecisionTrees.BranchCorrect` | DLT/DLT.cpp:84-101 | Classification sends every sample to the child trained on the part it is in, so correct counts add up over the parts |
| `DecisionTrees.SidesSplitCount` | DLT/DLT.cpp:84-101 | The two sides of a split partition the samples of each class |
| `DecisionTrees.SideExactly` | DLT/DLT.cpp:84-101 | A side holds exactly the samples above the threshold, or exactly those not above it, as often as they occur |
| `DecisionTrees.ThresholdIsLow` | DLT/DLT.cpp:325-332 | A sample at the threshold is classified by the low side, one above it by the high side |
| `DecisionTrees.MajorityIsMajority` | DLT/DLT.cpp:286-305 | A leaf names the most frequent class, the smallest one on a tie |
| `DecisionTrees.MajorityUnique` | DLT/DLT.cpp:286-305 | There is only one such class |
| `DecisionTrees.TrainedFits` | DLT/DLT.cpp:280-320 | From samples of ints, with thresholds that ints hold, training makes a tree of ints |
| `DecisionTrees.SplitOn` | DLT/DLT.cpp:84-101 | The fresh array holds exactly the samples of one side, in order |
| `DecisionTrees.LeafValue` | DLT/DLT.cpp:286-305 | The counting loop, which grows its table as classes turn up, finds the majority class |
| `DecisionTrees.Grow` | DLT/DLT.cpp:280-320 | The recursive constructor over arrays grows the tree of the specification |
| `BestSplit.SearchesAgree` | DLT/DLT.cpp:145-216 | With costs narrowed to floats in the tuples, the chunked search equals the serial one for all bounded costs if and only if no candidate but (0, 0) exists, or every attribute reaches 3 and narrowing makes no two costs equal |
| `BestSplit.WithinRounding` | DLT/DLT.cpp:145-216 | Whatever narrowing does, with every attribute at least 3 the split chosen has the least narrowed cost of all |
| `BestSplit.MergedDisagrees` | DLT/DLT.cpp:174-201 | If narrowing makes two costs equal, the searches disagree when the cheaper one stands at the start of the second chunk |
| `BestSplit.FloatsDisagree` | DLT/DLT.cpp:174-201 | That happens on an attribute of three thresholds with costs 1.00000002, 1.00000001 and 1.00000002 |
| `BestSplit.ProductsFit` | DLT/DLT.cpp:174 | The products the chunk bounds are taken from fit an int if and only if the attribute stays up to 715827882 |
| `BestSplit.NarrowDisagrees` | DLT/DLT.cpp:167-201 | An attribute below 3 makes the chunked search answer (0, 0) on a cost for which the serial search finds another candidate |
| `BestSplit.SerialIsFirst` | DLT/DLT.cpp:108-141 | The serial search finds the lexicographically first candidate of least cost |
| `BestSplit.WideAgrees` | DLT/DLT.cpp:145-216 | With every attribute at least 3 and exact narrowing the merged result of the chunks is the serial result |
| `BestSplit.ChunksTile` | DLT/DLT.cpp:174 | The three ranges tile 0 up to the maximum exactly; the first is empty exactly below 3 |
| `BestSplit.CheapestJoins` | DLT/DLT.cpp:188-199 | Merging the best of adjacent ranges gives the best of their union |
| `BestSplit.NarrowAttribute` | DLT/DLT.cpp:172-201 | An attribute below 3 always answers with the zero-initialised tuple |
| `BestSplit.GetBestSplit` | DLT/DLT.cpp:145-216 | The search over arrays, chunk by chunk and with narrowed tuples, computes the chunked split |
| `BestSplit.BiggestValue` | DLT/DLT.cpp:159-166 | The value found bounds the attribute in every sample, and is 0 or occurs |
| `BestSplit.ChunkedTraining` | DLT/DLT.cpp:280-332 | Trained with the chunked search, trees are still no worse with depth and never below the majority |
| `BestSplit.ChunkedTrainerFits` | DLT/DLT.cpp:145-216 | The chunked search names attributes the samples have and, for samples of ints, thresholds that ints hold |
| `TreeStream.TrainedRoundTrip` | DLT/DLT.cpp:334-355 | Loading what was saved of a tree trained from samples of ints gives that tree and leaves the rest of the stream |
| `TreeStream.ChunkedRoundTrip` | DLT/DLT.cpp:280-355 | So does every tree the program's own search trains from samples of ints |
| `TreeStream.LoadUndoesSave` | DLT/DLT.cpp:334-355 | Loading the text of any tree gives it back, but for branches with id -1, which the text cannot tell from leaves, if its numbers are ints, and fails otherwise |
| `TreeStream.PlainExactly` | DLT/DLT.cpp:334-341 | The tree comes back unchanged if and only if it hides no such branch |
| `TreeStream.DeployedClassifies` | rosWorkspace/SubImageRecognition/src/DLT.cpp:5-25 | The deployed reader, on the saved text of any tree of ints, classifies every sample as the original does |
| `TreeStream.PlainClassifies` | DLT/DLT.cpp:325-332 | Forgetting what is under a branch with id -1 changes no classification |
| `TreeStream.TrainedIsPlain` | DLT/DLT.cpp:280-320 | Training never makes such a branch |
| `TreeStream.ReadUndoesNumber` | DLT/DLT.cpp:334-351 | Reading a written number, negative ones included, gives the number and stops behind it if an int holds it, and fails otherwise |
| `TreeStream.Save` | DLT/DLT.cpp:334-342 | The recursive writer appends the text of the tree |
| `TreeStream.SavedTree` | DLT/DLT.cpp:334-342 | A tree is written line by line, the low side first: "Branch 0 5", "Leaf 1", "Leaf 2" |
| `TreeStream.Load` | rosWorkspace/SubImageRecognition/src/DLT.cpp:14-25 | The recursive reader takes exactly the text of one tree off the stream |
| `TreeStream.LoadEnds` | rosWorkspace/SubImageRecognition/src/DLT.cpp:14-25 | The reader's recursion ends if and only if the text starts with that of a tree, whole or torn in its very last number, which is missing or no int; on a failed stream it never ends |
| `TreeStream.BigNumberNeverEnds` | rosWorkspace/SubImageRecognition/src/DLT.cpp:14-25 | A branch whose attribute or threshold is no int fails the stream, and the recursion never ends |
| `TreeStream.BigThreshold` | rosWorkspace/SubImageRecognition/src/DLT.cpp:14-25 | "Branch 0 99999999999" followed by two leaves is such a text |
| `TreeStream.EndsInTime` | rosWorkspace/SubImageRecognition/src/DLT.cpp:14-25 | When it ends it leaves what is behind the tree, or a failed stream if the text was torn, within as many nested calls as there are characters |
| `Blobs.FindBlob` | rosWorkspace/SubImageRecognition/src/ImageRecognition.cpp:280-314 | The fill ends and returns, without duplicates, exactly the points connected to the start over object pixels 4 apart; it repaints exactly those |
| `Blobs.MarkMustDiffer` | rosWorkspace/SubImageRecognition/src/ImageRecognition.cpp:280-314 | The mark equals the object value only for value 0; then the fill ends if and only if the start has no object neighbour |
| `Blobs.FillingDone` | rosWorkspace/SubImageRecognition/src/ImageRecognition.cpp:286-313 | A worked-off list holds the whole component |
| `Blobs.FillingBounded` | rosWorkspace/SubImageRecognition/src/ImageRecognition.cpp:286-313 | The list never grows beyond the number of pixels |
| `Blobs.VisitNeighbours` | rosWorkspace/SubImageRecognition/src/ImageRecognition.cpp:287-312 | One turn of the loop adds the unvisited neighbours inside the image and marks them |
| `Blobs.PaintingKeepsComponents` | rosWorkspace/SubImageRecognition/src/ImageRecognition.cpp:320-332 | Painting closed sets over leaves every other component what it was in the original image, disjoint from the painted ones |
| `Blobs.ScanFinds` | rosWorkspace/SubImageRecognition/src/ImageRecognition.cpp:324-332 | The blob filled from the next unpainted object pixel is a component of the original image, apart from those found before |
| `Blobs.ScanNextRow` | rosWorkspace/SubImageRecognition/src/ImageRecognition.cpp:324-332 | After a row every object pixel of the sampled lattice up to there is covered |
| `Blobs.QualifyingExactly` | rosWorkspace/SubImageRecognition/src/ImageRecognition.cpp:328-330 | Kept are exactly the blobs found that have the minimum size, 400 for object value 3 and 200 otherwise |
| `Blobs.CoveredOnLattice` | rosWorkspace/SubImageRecognition/src/ImageRecognition.cpp:280-332 | With an offset below 4 every point found is an object pixel of the sampled lattice |
| `BlobSelection.FindBlobs` | rosWorkspace/SubImageRecognition/src/ImageRecognition.cpp:320-347 | The blobs found are disjoint components of the original image that cover exactly the object pixels of the lattice (at least those, for an offset of 4 or more); the image is repainted on exactly those; the blobs returned are selected from the distinct qualifying ones |
| `BlobSelection.SelectionRight` | rosWorkspace/SubImageRecognition/src/ImageRecognition.cpp:333-347 | Of distinct blobs, the ones selected are the biggest, with every library that meets its contract, if and only if all are wanted or no more than two |
| `BlobSelection.SelectsTwice` | rosWorkspace/SubImageRecognition/src/ImageRecognition.cpp:342-345 | For any distinct blobs, tie or not, if three or more but not all are wanted some library within its contract selects the first blob again as the third |
| `BlobSelection.ThreeOfFour` | rosWorkspace/SubImageRecognition/src/ImageRecognition.cpp:342-345 | Of blobs with 4, 3, 2 and 1 points, three wanted, the one with 4 points may come twice |
| `BlobSelection.SecondPopMayExchange` | rosWorkspace/SubImageRecognition/src/ImageRecognition.cpp:342-345 | The contract lets a second pop exchange the root with the blob popped before, whether or not it is called on a heap |
| `BlobSelection.SortingLibMeetsContract` | rosWorkspace/SubImageRecognition/src/ImageRecognition.cpp:339-343 | The library contract can be met: sorting is a heap library |
| `BlobSelection.Select` | rosWorkspace/SubImageRecognition/src/ImageRecognition.cpp:333-347 | All blobs if there are few enough, else `maxBlobs` roots, at least one: the first is a biggest, the first two are two biggest |
| `BlobSelection.FirstTwoAreBiggest` | rosWorkspace/SubImageRecognition/src/ImageRecognition.cpp:338-345 | The root before and after one pop are two biggest blobs |
| `BlobSelection.SecondPopNeedsTie` | rosWorkspace/SubImageRecognition/src/ImageRecognition.cpp:342-345 | The range handed to a second pop, still holding the popped blob, is a heap if and only if the parent of its last place is as big as the biggest blob |
| `BlobSelection.SecondPopOutsideContract` | rosWorkspace/SubImageRecognition/src/ImageRecognition.cpp:342-345 | With one blob bigger than all others a third blob is chosen by calling the library outside its contract |
| `BlobSelection.RootIsBiggest` | rosWorkspace/SubImageRecognition/src/ImageRecognition.cpp:339-341 | The root of a heap is a biggest element |
| `ClassGraph.GetAllClasses` | rosWorkspace/SubStateMachine/nodes/SubStateMachine.py:211-232 | Terminates on every finite inheritance graph and returns exactly the classes reachable through `Inherits`, cycles or not |
| `ClassGraph.GetAllClassesHelper` | rosWorkspace/SubStateMachine/nodes/SubStateMachine.py:214-232 | With one visited set handed from call to call, all that is newly visited is reachable and has its parents visited |
| `ClassGraph.UnknownStateIsAlone` | rosWorkspace/SubStateMachine/nodes/SubStateMachine.py:158-169 | A class without a file inherits nothing but itself |
| `StateMachine.Machine.ChangeState` | rosWorkspace/SubStateMachine/nodes/SubStateMachine.py:113-123 | The active classes are exactly those of the new state; left classes are torn down once each, then entered ones set up once each; triggers and timers follow |
| `StateMachine.IncrementalIsRebuilt` | rosWorkspace/SubStateMachine/nodes/SubStateMachine.py:125-133 | On every topic the triggers are, as a multiset, those of adding the active classes from scratch in any order |
| `StateMachine.AddedInstalled` | rosWorkspace/SubStateMachine/nodes/SubStateMachine.py:331-344 | Adding a class that is not active gives it exactly its file's triggers and disturbs no other class |
| `StateMachine.RemovedInstalled` | rosWorkspace/SubStateMachine/nodes/SubStateMachine.py:346-351 | Removing a class leaves none of its triggers and disturbs no other class |
| `StateMachine.SwapTimers` | rosWorkspace/SubStateMachine/nodes/SubStateMachine.py:286-288 | After a change no live timer belongs to an inactive class; classes that stay keep theirs, entered ones get those of their file |
| `StateMachine.UnknownStateIsInert` | rosWorkspace/SubStateMachine/nodes/SubStateMachine.py:113-123 | Since the guard never fires, going to a state without a file leaves no trigger and no timer |
| `StateMachine.TimerAccepted` | rosWorkspace/SubStateMachine/nodes/SubStateMachine.py:238-269 | A timer line whose unit the first test takes, the documented millisecond, is always refused; otherwise well-formed lines are accepted exactly in the other units of the table |
| `StateMachine.TimerMeans` | rosWorkspace/SubStateMachine/nodes/SubStateMachine.py:238-269 | A line is accepted as a timer exactly if it has the form after number unit do action arguments in a unit but the millisecond, and then the timer ends number times unit after the line is read, with that action and those arguments |
| `StateMachine.TimerFiresOnce` | rosWorkspace/SubStateMachine/nodes/SubStateMachine.py:33-37 | Over any sequence of sweeps a timer that a line put in place fires at the first reading of the clock later than its start by number times unit, and at no other |
| `StateMachine.SweepCounts` | rosWorkspace/SubStateMachine/nodes/SubStateMachine.py:353-358 | In a sweep all of a timer fire and none stay if its end is before the reading, and the other way round |
| `StateMachine.TriggerAccepted` | rosWorkspace/SubStateMachine/nodes/SubStateMachine.py:308-329 | Exactly the lines channel type operator value triggers action argument ... are accepted, and as the triggers with those fields |
| `StateMachine.FirstTestIsLost` | rosWorkspace/SubStateMachine/nodes/SubStateMachine.py:251-264 | What the first test on the unit sets is never used: the second chain overwrites it or refuses the line |
| `StateMachine.UnitsAgree` | rosWorkspace/SubStateMachine/nodes/SubStateMachine.py:251-264 | The two chains of tests compute the time of the table of units, for every number, if and only if the unit is not the millisecond |
| `StateMachine.Machine.AddTimer` | rosWorkspace/SubStateMachine/nodes/SubStateMachine.py:238-269 | The two chains of tests, in their order, add the timer of an accepted line and nothing otherwise |
| `StateMachine.Machine.AddTriggers` | rosWorkspace/SubStateMachine/nodes/SubStateMachine.py:331-344 | Every well-formed line of the class is appended to the listener of its topic, in order |
| `StateMachine.Machine.RemoveTriggers` | rosWorkspace/SubStateMachine/nodes/SubStateMachine.py:346-351 | Every listener loses exactly the triggers of the class |
| `StateMachine.Machine.AddTimers` | rosWorkspace/SubStateMachine/nodes/SubStateMachine.py:271-284 | Every accepted line of the class becomes a timer, in order |
| `StateMachine.Machine.CheckTimers` | rosWorkspace/SubStateMachine/nodes/SubStateMachine.py:353-358 | Exactly the timers whose end is before the reading fire, in order, and exactly those are forgotten |
| `StateMachine.RemoveExpired` | rosWorkspace/SubStateMachine/nodes/SubStateMachine.py:355-358 | Removing the first occurrence of each killed timer in turn never removes a running one |
| `StateMachine.RunningOwners` | rosWorkspace/SubStateMachine/nodes/SubStateMachine.py:353-358 | A timer survives the sweep if and only if it has not expired |
| `StateMachine.CountIsOwners` | rosWorkspace/SubStateMachine/nodes/SubStateMachine.py:346-351 | How often a trigger is installed is decided by its own class alone |
| `MotorLink.StopAndWait` | rosWorkspace/SubMotorController/src/motorController.cpp:98-135 | Of two requests put on the wire one after the other, in any run from any state, the later is a new one if something was settled in between, and otherwise the same request again |
| `MotorLink.SentIsBursts` | rosWorkspace/SubMotorController/src/motorController.cpp:98-135 | With a port that takes all, the bytes sent in every reachable state are requests, each followed by repeats of itself, and all but the one waited for are settled |
| `MotorLink.StaysInHand` | rosWorkspace/SubMotorController/src/motorController.cpp:137-226 | A request not settled stays in hand unchanged, whatever arrives, is aimed at or is asked for |
| `MotorLink.RunKeepsGood` | rosWorkspace/SubMotorController/src/motorController.cpp:137-332 | Over every run all speeds and targets stay within 255 and a wait is always for a request |
| `MotorLink.Converges` | rosWorkspace/SubMotorController/src/motorController.cpp:298-332 | Over every run that keeps the targets and in which motor answers echo the command in hand, with queries, resends, errors and stray frames anywhere, n motor answers bring each speed min(20 n, distance) nearer; it is at its target if and only if 20 n covers the distance |
| `MotorLink.RoundMovesSpeeds` | rosWorkspace/SubMotorController/src/motorController.cpp:298-332 | A completed round moves both speeds one step towards their targets and settles the request |
| `MotorLink.SlewApproaches` | rosWorkspace/SubMotorController/src/motorController.cpp:309-327 | A step does not overshoot and covers the whole way or 20 of it |
| `MotorLink.SpeedRoundTrip` | rosWorkspace/SubMotorController/src/motorController.cpp:74-96 | Sign and magnitude bytes give the speed back if and only if it is within 255 |
| `MotorLink.TargetsReverse` | rosWorkspace/SubMotorController/src/motorController.cpp:59-72 | A requested speed sets the target of its own motor, in the other direction, as fast up to 255 |
| `MotorLink.RequestIsCommanded` | rosWorkspace/SubMotorController/src/motorController.cpp:59-96 | Once the speeds have come to the targets of a request, in any run that keeps the terms, the frame commanded is S D, the two bytes of the left motor, those of the right one, E, with the magnitude asked for in the reverse byte for a positive request and in the forward byte for a negative one |
| `MotorLink.QueryFrames` | rosWorkspace/SubMotorController/src/motorController.cpp:265-296 | The queries go out as S C R, S C L and S V frames |
| `MotorLink.OtherFrames` | rosWorkspace/SubMotorController/src/motorController.cpp:137-226 | A report of trouble ends the wait and changes nothing else, an answer of the kind in hand ends it, any other frame changes nothing |
| `MotorLink.QueryAnswered` | rosWorkspace/SubMotorController/src/motorController.cpp:184-221 | The first frame of the right kind after a query ends the wait and lands in the value asked for and nowhere else |
| `MotorAnswers.AnswersBelong` | rosWorkspace/SubMotorController/src/motorController.cpp:157-221 | Over every run with a controller that answers the copies of requests in order: no answer is taken for another request, however each wait goes on, if and only if no request is issued while a copy of an earlier one of its kind is unanswered |
| `MotorAnswers.SafeExactly` | rosWorkspace/SubMotorController/src/motorController.cpp:157-221 | In any state, the answers taken up to the next request belong to the request in hand, whatever happens, if and only if no copy of an earlier request of its kind is unanswered |
| `MotorAnswers.LateAnswerMisread` | rosWorkspace/SubMotorController/src/motorController.cpp:157-221 | Asked for twice, the right current is taken for the left one that is asked for next |
| `MotorAnswers.DrainedIsSafe` | rosWorkspace/SubMotorController/src/motorController.cpp:157-221 | Nothing is misread when every copy is answered or lost before the next request |
| `MotorAnswers.DrainingNotNeeded` | rosWorkspace/SubMotorController/src/motorController.cpp:157-221 | An unanswered copy of another kind does no harm |
| `MotorAnswers.AnswerTaken` | rosWorkspace/SubMotorController/src/motorController.cpp:157-221 | An answer is taken, and ends the wait, if and only if it is of the kind of the request in hand |
| `MotorAnswers.ChannelIsRun` | rosWorkspace/SubMotorController/src/motorController.cpp:137-332 | The link of a channel only takes states that the handler's link reaches by the same events |
| `MotorAnswers.CleanRunConverges` | rosWorkspace/SubMotorController/src/motorController.cpp:157-332 | After every run in which no request is issued while a copy of an earlier one of its kind is unanswered, and as long as that goes on, targets stay and motor copies are answered with their own speeds, n motor answers bring each speed min(20 n, distance) nearer; it is at its target if and only if 20 n covers the distance |
| `MotorAnswers.CleanIsFaithful` | rosWorkspace/SubMotorController/src/motorController.cpp:157-226 | In such a run every motor answer taken echoes the command in hand |
| `MotorAnswers.ObeyingIsNotEnough` | rosWorkspace/SubMotorController/src/motorController.cpp:157-226 | Without that condition it can fail: with all copies answered with their own speeds, the second motor answer taken moves no speed |
| `MotorFrames.ReadOn` | rosWorkspace/SubMotorController/src/motorController.cpp:228-241 | Frames and rest of a stream do not depend on how it is cut into reads |
| `MotorFrames.FramesApart` | rosWorkspace/SubMotorController/src/motorController.cpp:137-156 | The frames acted on look like frames and do not overlap |
| `MotorFrames.NoneMissed` | rosWorkspace/SubMotorController/src/motorController.cpp:137-156 | Whatever looks like a frame is one acted on or overlaps one |
| `MotorFrames.FramesAreThere` | rosWorkspace/SubMotorController/src/motorController.cpp:137-156 | The frames acted on are stretches of the stream at those places |
| `MotorFrames.Resynchronises` | rosWorkspace/SubMotorController/src/motorController.cpp:137-156 | Noise without an 'S' followed by frames yields exactly the frames |
| `MotorFrames.StrayStart` | rosWorkspace/SubMotorController/src/motorController.cpp:137-156 | A stray 'S' in front of a frame costs it if and only if its last data byte is an 'E' |
| `MotorController.Handler.Receive` | rosWorkspace/SubMotorController/src/motorController.cpp:228-248 | While a response is awaited the bytes read are added to the stream and the frames completed by them act in order; otherwise nothing happens |
| `MotorController.Handler.ProcessResponse` | rosWorkspace/SubMotorController/src/motorController.cpp:137-226 | Seven buffered bytes are acted on and dropped if they are a frame, and lose their first byte otherwise; the buffer is never full afterwards |
| `MotorController.Handler.CheckMotor` | rosWorkspace/SubMotorController/src/motorController.cpp:298-332 | A command is sent exactly when none is awaited and the motor period is over |
| `MotorController.Handler.CheckQuery` | rosWorkspace/SubMotorController/src/motorController.cpp:265-296 | At most one query is sent, the first due of right current, left current and voltage |
| `MotorController.DueIsFirst` | rosWorkspace/SubMotorController/src/motorController.cpp:265-296 | The right current is due after 100 milliseconds, else the left one after 100, else the voltage after 1000 |
| `MotorController.Handler.SetMotorSpeed` | rosWorkspace/SubMotorController/src/motorController.cpp:69-72 | Each target becomes its own request in the other direction, as fast up to 255 |
| `MotorController.Handler.CheckTimeout` | rosWorkspace/SubMotorController/src/motorController.cpp:256-263 | The request in hand is sent again exactly when its answer is late |
| `MotorController.Handler.SentRequests` | rosWorkspace/SubMotorController/src/motorController.cpp:98-135 | In every state of a handler whose port took all, the bytes sent are requests and repeats of them, all settled but the one waited for |
| `MotorController.Handler.SpeedsApproach` | rosWorkspace/SubMotorController/src/motorController.cpp:298-332 | From any point of a handler's history without a motor command in hand, as long as targets stay and the controller does as commanded, its speeds approach by 20 with each motor answer |
| `MotorController.Handler.Transmit` | rosWorkspace/SubMotorController/src/motorController.cpp:98-135 | The request in hand is sent, again if need be, and the wait begins even when the port fails |
| `MotorController.Handler.SpinOnce` | rosWorkspace/SubMotorController/src/motorController.cpp:334-341 | A turn adds the frames read, at most one new request and at most one resend to the history, and the bytes sent are those of the history; no unanswered request was sent longer than the timeout ago |
| `MotorController.MilliSecsExact` | rosWorkspace/SubMotorController/src/motorController.cpp:250-254 | The interval is the whole milliseconds, or one more when the microseconds wrapped by a part of a millisecond, if and only if an int holds that |
| `MotorController.ReceivedHistory` | rosWorkspace/SubMotorController/src/motorController.cpp:228-248 | What one read adds to the history is what the whole stream would have added |

## Left out

- AddField: requires that the bytes copied lie in memory, also where the 16-bit test wraps and lets too many through
- ReadMulti: requires that the entries read lie in the destination, also where the 32-bit test wraps
- LookaheadCopyFrom: requires that the slots read lie in the source, also where the 32-bit test wraps
- InitStatic: requires a capacity of at most 2^31 and memory of at most 2^32 bytes, the conditions of `RingBuffers.WriteSlotExact` and `RingBuffers.ByteIndexExact`
- WriteMulti: the indices into the memory of the caller are not cut to 32 bits, here and in the other operations of the ring
- FillSlot: an entry written short keeps the old bytes of its slot behind it, and those are not described further
- KalmanPropagate: real arithmetic, with square root, sine, cosine and the arc functions by the equations and bounds of `AttitudeFilters.Sound`; rounding is not modelled
- KalmanUpdate: requires non-zero measurement vectors, the condition of `AttitudeFilters.MagnitudeZero`, and positive noise, the condition of `KalmanMath.NoiseExact`; the local array for the new covariance is modelled with the six entries that are written, although it is declared with five
- TrainingSeparates: that the program's own entropy and search have the property is a condition on the samples and not proved of logarithms
- ChunkedTraining: the entropy logarithms are a function of the data that may be any function; the theorems hold for all of them
- GetBestSplit: what the program starts asynchronously is run one after the other
- SearchesAgree: costs are real numbers as far as they are doubles, and the overflow of the chunk bounds is left out: beyond 715827882 (`BestSplit.ProductsFit`) the code's bounds are undefined
- WideAgrees: the same overflow is left out
- ChunksTile: the same overflow is left out
- Load: where the recursion never ends, or ends on a failed stream with an unset number, the result is no tree; `TreeStream.LoadEnds` says which is which
- Grow: the data arrays are left to be collected, where the code deletes them
- FindBlob: requires an object value that differs from its mark, the condition of `Blobs.MarkMustDiffer`; pixel values are integers and not bytes
- Select: `make_heap` and `pop_heap` are given by their contract and not by one implementation, so what is said of the third blob is what some library within the contract does
- ChangeState: not called from a trigger or timer while another change or a sweep is going on, all timers of one change are started at one reading of the clock, and setting up and tearing down are notices and not published messages
- CheckTimers: all timers are compared with one reading of the clock
- TimerAccepted: the conversion of the number is a function of its text; an exception in it, which ends the change of state halfway, is left out
- AddTimer: the same exception is left out
- AddTimers: the same exception is left out
- AddTriggers: the conversion of the trigger's value, and an exception in it, are left out
- CheckQuery: the data bytes a query does not set are given as an input
- AnswersBelong: copies of a request that do not reach the controller whole are not answered, and the controller answers in order
- Splitting the class files into sections and lines, firing triggers and their comparison operators, and the effects' messages
- Registering and deleting descriptor callbacks, and the command and response helpers of the MIP interface
- The ring buffer's lookahead of several entries and its access by element pointer
- Null pointers, uninitialised rings and interfaces, memory from malloc, and aliased buffers
- Serial ports, sockets, ROS topics, the simulator, the console and the Arduino headers
- Colour conversion, rectangles, confidence numbers and the tracking of blobs over frames
- Gyro bias calibration and the sampling of the sensors
