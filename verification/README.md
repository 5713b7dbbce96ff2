# Verified models of the robot's drivers, controller and estimator

This project models the parts of the repository whose correctness is not visible from one function
body, and proves them in Dafny 4.11. Code that changes state step by step is written as methods and
classes proved against specification functions; threads are state machines whose steps are the
code's own lock sections, and every claim about them holds for every interleaving.
`dafny verify dfyconfig.toml` checks everything.

## The pieces

**Serial link** (`Bytes`, `BitWords`, `Crc16`, `CrcDetection`, `CrcOrder`, `CrcPolynomial`, `Scanning`,
`Frames`, `KnownValues`, `Receiver`, `EmptyFrames`, `ReceiverProperties`, `Hunting`). The CRC-16 of
"MODBUS over Serial Line Specification and Implementation Guide V1.02" (sections 2.5.1.2 and 6.2.2) as
a byte loop, as a bit-serial register and as polynomial long division, and which errors it detects; the
printer; the resynchronising buffer parser as the only greedy leftmost scan; the byte-at-a-time receiver
with timeouts, and how it finds the next frame; and the comparison of the two decoders.

**Image and cloud pairing** (`Matching`, `PairQueues`, `Stamps`). The 50 ms matcher over two bounded
queues: optimality of the greedy drain by an exchange argument, independence of the interleaving, the
stamp arithmetic in machine integers.

**Queues between threads** (`Logging`, `RingQueue`, `LivoxWakeup`, `ImuQueue`). The batching file
writer, the lidar packet ring with wrapping 32-bit counters and no lock, the signal-only-if-zero
semaphore with its draining consumer, and the drop-oldest queue of inertial samples with its thread.

**Pursuit controller** (`Plane`, `Quadratics`, `LookAhead`, `ArcLength`, `Curvature`, `Velocity`).
Look-ahead point on the circle, arc length along the path, circle through three points, PID regulator
and the two limiters. Doubles are real numbers; `hypot` and `sqrt` are parameters known by their
defining equations.

**Estimator** (`Space`, `Angles`, `Rotation`, `GravityAlignment`, `TimeGroups`, `Measurement`).
Rodrigues' formula and the three exponentials, gravity alignment and running means, grouping by time
and the two-pass measurement rows. `sin`, `cos`, `acos` and `sqrt` are parameters: the circle equation
and the addition laws, the principal arc cosine, and where it matters that angles are in radians.

**Depth image** (`DepthImage`). Splatting a cloud onto an image, pixel by pixel.

`RealAlgebra` and `Options` hold what several pieces share.

## What the proofs found

- `pb_serial_comm/README.md:12` and `frame.hpp` allow payloads of 0 to 255 bytes. The buffer parser
  accepts an empty payload; the receive loop drops it, because length 0 is also its mark for a timed-out
  payload. It does so cleanly: no zero-length frame's checksum contains the start marker, so hunting
  inside the dropped frame finds nothing (`EmptyFrames.NoMarkerInEmptyCrc`,
  `ReceiverProperties.ReceiverMatchesParser`).
- The pairing loop looks at both fronts under the locks and pops them in a second lock section, on both
  sides when they match and on the older side otherwise. The pop removes only what was looked at if and
  only if the queue of every side it takes has room for what arrives in between
  (`PairQueues.PopsHeldIff`). Otherwise it removes a message nobody looked at, which is never paired
  (`PairQueues.EvictionLosesNext`); `PairQueues.MessageLost` is such a run from the start. An overflow on
  the side that the pop leaves alone does no harm (`PairQueues.OverflowWithoutHarm`).
- Frames enqueued after `shutdown` began can still reach the file, in full batches; frames enqueued after
  the worker left are lost. The written frames are exactly those enqueued before stop if and only if less
  than a batch was enqueued between stop and the worker's leaving (`Logging.ExactlyBeforeStopIff`).
  `Logging.StragglersWritten` and `Logging.FrameLostAfterShutdown` are such runs from the start.
- A lidar that starts sampling while packets are queued for it can be left unserved until the next
  packet of any lidar; a change to sampling keeps the no-lost-wake-up invariant exactly when nothing is
  queued or somebody will look anyway (`LivoxWakeup.StepKeepsWatchIff`, `LivoxWakeup.StrandedPacket`,
  `LivoxWakeup.NextPacketServes`).
- `stop_imu_thread` clears its flag without the queue's lock. If the notification falls between the
  thread's test of its wait predicate and its wait, joining does not return until another sample arrives
  (`ImuQueue.StopReturnsIff`, `ImuQueue.MissedStop`, `ImuQueue.NextSampleReleasesStop`).
- `Set_init` cuts off the parallel case at a sine of 1e-6 but the exponential it calls returns the
  identity up to an angle of 1e-5. Beyond the first test gravity is aligned if and only if the cosine is
  below that of 1e-5 (`GravityAlignment.AlignsByCosine`); `GravityAlignment.MisalignedInput` is an input
  between the two thresholds that stays as it is. In its antiparallel branch the result is minus the
  identity, which is not a rotation (`GravityAlignment.RotationIff`, `GravityAlignment.OppositeInput`).
- `calculateCurvature` uses the carrot's straight distance from the robot as its length along the path.
  The forward point lies ahead of the carrot if and only if the path to the carrot is longer than that by
  at most the forward distance (`Curvature.PointsBracketCarrot`); on a path that turns back it does not
  (`Curvature.FoldedCarrot`, `Curvature.FarPointBehind`).
- `time_compressing` of an empty cloud gives one group of one point, so the callers' test for an empty
  list of groups never fires (`TimeGroups.GroupsAddUpIff`).

## Model

| member | source | states |
|---|---|---|
| Crc16.Compute | pb_serial_comm/src/frame.cpp:20-34 | the nested word loop computes the bit-serial shift register over all message bits, for every message |
| Crc16.FeedWindow | pb_serial_comm/src/frame.cpp:23-31 | feeding up to sixteen bits one at a time equals mixing them in at once and shifting that often, which is why the byte loop works |
| KnownValues.DeviceTwoFunctionSeven | pb_serial_comm/src/frame.cpp:20-34 | the checksum of the specification's example 02 07 is 1241, in hexadecimal |
| CrcPolynomial.CrcIsRemainder | pb_serial_comm/src/frame.cpp:20-34 | a register value is the CRC if and only if it is a remainder of the message polynomial (initial value on top, sixteen zeros below) modulo x^16+x^15+x^2+1 |
| CrcPolynomial.LongDivision | pb_serial_comm/src/frame.cpp:23-31 | quotient times modulus plus remainder gives back the dividend |
| CrcPolynomial.RemainderUnique | pb_serial_comm/src/frame.cpp:23-31 | no other quotient and remainder of degree below sixteen do |
| CrcDetection.FeedLinear | pb_serial_comm/src/frame.cpp:20-34 | the register is linear over exclusive or, jointly in start value and message |
| CrcDetection.ResidueIff | pb_serial_comm/src/frame.cpp:55-59 | a message followed by two bytes leaves residue zero if and only if the two bytes are its CRC, low byte first |
| CrcDetection.ResidueOfSent | pb_serial_comm/src/frame.cpp:55-59 | appending the low and then the high byte always leaves residue zero |
| CrcDetection.CrcParity | pb_serial_comm/src/frame.cpp:20-34 | the bit parity of the CRC is the parity of all message bits |
| CrcDetection.CorruptionDetected | pb_serial_comm/src/frame.cpp:92-105 | a codeword of any length changed within sixteen consecutive bits, or in any odd number of bits, fails the CRC comparison |
| CrcDetection.AdjacentBytesAreBurst | pb_serial_comm/src/frame.cpp:92-105 | changing any two adjacent bytes, or one, is such a burst |
| CrcOrder.ShiftsAreProduct | pb_serial_comm/src/frame.cpp:23-31 | shifting the word m times multiplies it by the m-th power of x modulo the generator |
| CrcOrder.PowerIsOneIff | pb_serial_comm/src/frame.cpp:23-31 | a power of x is one modulo the generator if and only if its exponent is a multiple of 32767 |
| CrcOrder.TwoFlipsMissedIff | pb_serial_comm/src/frame.cpp:92-105 | in a codeword of any length two flipped bits pass the CRC comparison if and only if they are a multiple of 32767 apart |
| CrcOrder.FewFlipsDetected | pb_serial_comm/src/frame.cpp:92-105 | so in a codeword of at most 4095 bytes, and no frame is longer, any one to three flipped bits are detected |
| CrcOrder.CodewordsFarApart | pb_serial_comm/src/frame.cpp:55-59 | two codewords of one such length differ in an even number of bits, at least four, and not within sixteen |
| Frames.PackFrame | pb_serial_comm/src/frame.cpp:36-62 | the printer's field-by-field output is the frame's encoding |
| KnownValues.ExampleFrame | pb_serial_comm/src/frame.cpp:36-62 | command 1 with the payload 7 is A5 01 01 07 60 52 5A, in hexadecimal |
| Frames.ChecksRecogniseEncodings | pb_serial_comm/src/frame.cpp:75-105 | the parser's tests at an offset pass if and only if the buffer holds there the complete encoding of the frame they delimit |
| Frames.FrameIsDelimited | pb_serial_comm/src/frame.cpp:75-90 | the only frame that can start at an offset is the one its length byte delimits |
| Frames.ParseIsGreedy | pb_serial_comm/src/frame.cpp:64-115 | the parse is the one and only set of ordered disjoint hits that are encodings, such that every frame start not inside a hit is a hit |
| Scanning.ScanUnique | pb_serial_comm/src/frame.cpp:71-112 | that description determines the scan |
| Frames.CheckTail | pb_serial_comm/src/frame.cpp:92-105 | the checksum and end-marker tests decide whether the candidate passes |
| Frames.ParseFrames | pb_serial_comm/src/frame.cpp:64-115 | the loop appends exactly the frames of the greedy scan, in order, to what was there, and returns their number |
| Frames.RoundTrip | pb_serial_comm/src/frame.cpp:36-115 | parsing the concatenation of any list of packed frames gives back that list, whatever marker bytes the payloads contain |
| Frames.RoundTripIff | pb_serial_comm/src/frame.cpp:36-115 | a single frame survives the trip if and only if its payload fits the length byte |
| Frames.CorruptedFrameRejected | pb_serial_comm/src/frame.cpp:92-105 | a frame in a buffer hit by a burst of at most sixteen bits, an odd number of flips or any two, length byte unchanged, is not accepted at its offset |
| Receiver.SerialPort.ReadByte | pb_serial_comm/src/serial_comm_node.cpp:150-153 | one read gives the next byte or a timeout |
| Receiver.ReceiveLoop | pb_serial_comm/src/serial_comm_node.cpp:150-200 | the loop delivers exactly the frames of the turn-by-turn specification, in order, and reads everything |
| Receiver.ReceiveTurn | pb_serial_comm/src/serial_comm_node.cpp:150-200 | one pass of the loop body, with every early exit |
| Receiver.ReceiveData | pb_serial_comm/src/serial_comm_node.cpp:166-172 | the payload loop reads the payload or stops at the first timeout |
| Receiver.CheckCandidate | pb_serial_comm/src/serial_comm_node.cpp:183-199 | the last tests of a received candidate |
| ReceiverProperties.DeliveredIsEncoded | pb_serial_comm/src/serial_comm_node.cpp:150-200 | every delivered frame is a contiguous run of bytes without timeout that is its encoding, and the runs are disjoint and in order |
| ReceiverProperties.TimeoutSplits | pb_serial_comm/src/serial_comm_node.cpp:150-182 | after any timeout the receiver is hunting: what follows does not depend on what came before, nor the other way round |
| ReceiverProperties.ResumesAfterTimeout | pb_serial_comm/src/serial_comm_node.cpp:150-200 | the next cleanly sent nonempty frame after a timeout is delivered, whatever came before |
| ReceiverProperties.EmptyFrameDropped | pb_serial_comm/src/serial_comm_node.cpp:173-175 | a cleanly sent empty frame is dropped and hunting in its tail loses nothing else |
| ReceiverProperties.ReceiverMatchesParser | pb_serial_comm/src/serial_comm_node.cpp:150-200 | on cleanly sent frames with timeouts between them the receiver delivers what the buffer parser finds, less the empty frames; the two agree if and only if there are none |
| Hunting.FrameBehindNoise | pb_serial_comm/src/serial_comm_node.cpp:150-156 | behind any timeouts and bytes other than the start marker a clean nonempty frame is delivered |
| Hunting.FrameBehindJunk | pb_serial_comm/src/serial_comm_node.cpp:150-199 | and behind any sequence of noise, candidates broken off by a timeout, empty ones, and complete ones that fail the end-marker or checksum test, all described by the reads alone |
| Hunting.FirstDelivered | pb_serial_comm/src/serial_comm_node.cpp:150-200 | every script is such pieces, or such pieces up to a clean nonempty frame, which is the first one delivered; nothing is delivered if and only if it is pieces to its end |
| EmptyFrames.NoMarkerInEmptyCrc | pb_serial_comm/src/serial_comm_node.cpp:173-175 | no command's zero-length frame has a checksum byte equal to the start marker |
| Matching.DrainIncreasing | odin_ros_driver/include/host_sdk_sample.h:393-452 | the drain's pairs are within 50 ms and strictly increasing on both sides, so no message is used twice |
| Matching.DrainIsMatching | odin_ros_driver/include/host_sdk_sample.h:393-452 | the drain is a one-to-one matching of as many pairs |
| Matching.ExchangeFront | odin_ros_driver/include/host_sdk_sample.h:436-447 | when both fronts match, any matching can be rearranged to use them at the cost of at most one pair |
| Matching.DrainOptimal | odin_ros_driver/include/host_sdk_sample.h:393-452 | on sorted queues no one-to-one matching within 50 ms has more pairs than the greedy drain |
| Matching.DrainWithinFiftyMs | odin_ros_driver/include/host_sdk_sample.h:415-420 | with the number: the drain pairs stamps at most 50,000,000 ns apart, as many as anyone can on sorted queues |
| Matching.DrainMirrored | odin_ros_driver/include/host_sdk_sample.h:393-452 | draining with the two sides exchanged makes the same pairs, exchanged |
| PairQueues.SafeInterleaving | odin_ros_driver/include/host_sdk_sample.h:398-447 | in every interleaving both queues hold at most ten messages, a pop never meets an empty queue, and nothing is paired twice or out of order |
| PairQueues.PopsHeldIff | odin_ros_driver/include/host_sdk_sample.h:398-447 | in every run, whatever arrives between peek and pop, each front is still the one that was peeked if and only if its queue has room for its arrivals; and the pop removes nothing but what was peeked if and only if every side it takes has room |
| PairQueues.OverflowWithoutHarm | odin_ros_driver/include/host_sdk_sample.h:419-433 | a run from the start in which the image queue overflows while the pop takes only the cloud, as it was peeked |
| PairQueues.EvictionLosesNext | odin_ros_driver/include/host_sdk_sample.h:423-447 | in every run, on either side and in either branch: when the held message of a side the pop takes was evicted, the pop removes the next one, which is never paired or queued again |
| PairQueues.MessageLost | odin_ros_driver/include/host_sdk_sample.h:844-850 | a run from the start, of ten images, a cloud and one more image between peek and pop, that loses the second image for good |
| PairQueues.InterleavingIrrelevant | odin_ros_driver/include/host_sdk_sample.h:383-452 | without eviction the emitted pairs are a prefix of the one-shot drain of the complete streams, and all of it once the loop is quiet |
| PairQueues.InterleavingOptimal | odin_ros_driver/include/host_sdk_sample.h:383-452 | on sorted streams a quiet loop has then made as many pairs as any matching could |
| PairQueues.SettleIsRun | odin_ros_driver/include/host_sdk_sample.h:393-452 | an undisturbed call is a run of peeks and pops that ends quiet |
| PairQueues.OnePairIff | odin_ros_driver/include/host_sdk_sample.h:415-447 | an image and a cloud are emitted if and only if they are at most 50,000,000 ns apart, either way; otherwise exactly the later one is kept |
| PairQueues.Pairing.PublishRgb | odin_ros_driver/include/host_sdk_sample.h:844-850 | caching an image is the arrival step |
| PairQueues.Pairing.PublishPcd | odin_ros_driver/include/host_sdk_sample.h:756-762 | caching a cloud is the arrival step |
| PairQueues.Pairing.LookAtFronts | odin_ros_driver/include/host_sdk_sample.h:398-410 | the first lock section is the peek step |
| PairQueues.Pairing.PopAndProcess | odin_ros_driver/include/host_sdk_sample.h:412-450 | the second lock section is the pop step |
| PairQueues.Pairing.TryProcessPair | odin_ros_driver/include/host_sdk_sample.h:383-452 | the loop alone reaches the settled state |
| Stamps.TimeDiffExact | odin_ros_driver/include/host_sdk_sample.h:412-417 | for all int32 seconds and uint32 nanoseconds the wrapped 64-bit difference is the exact difference and has an absolute value |
| Stamps.ConversionExact | odin_ros_driver/include/host_sdk_sample.h:185-191 | the unsigned conversion is the instant modulo 2^64 |
| Logging.NothingLost | odin_ros_driver/include/data_logger.h:136-193 | in every interleaving file, batch in hand, queued batches and pending frames are all enqueued frames in order; only the shutdown batch may be short; a waiting worker with work has a notification coming |
| Logging.PauseWrites | odin_ros_driver/include/data_logger.h:166-193 | in every run, whenever the producers pause before stop, the worker alone writes everything but the frames too few for a batch, and waits |
| Logging.FailedOpenWritesNothing | odin_ros_driver/include/data_logger.h:166-172 | in every run, once opening the file has failed, the worker has left and the file stays empty |
| Logging.FileAfterExit | odin_ros_driver/include/data_logger.h:146-193 | after the worker left with the file opened, the file is everything enqueued before stop plus as many full batches as were completed until it left |
| Logging.ExactlyBeforeStopIff | odin_ros_driver/include/data_logger.h:146-193 | the written frames are exactly those before stop if and only if less than a batch was enqueued between stop and leaving |
| Logging.FileFrozen | odin_ros_driver/include/data_logger.h:166-193 | after the worker left nothing reaches the file |
| Logging.LateFrameLost | odin_ros_driver/include/data_logger.h:136-145 | in every run a frame enqueued after that is accepted and never written |
| Logging.StragglersWritten | odin_ros_driver/include/data_logger.h:146-191 | for every batch size a run from the start in which a full batch enqueued after stop is the whole file, though nothing was enqueued before stop |
| Logging.FrameLostAfterShutdown | odin_ros_driver/include/data_logger.h:136-158 | a run from the start in which a frame enqueued after the worker left never reaches the file |
| Logging.ShutdownAdvances | odin_ros_driver/include/data_logger.h:146-193 | after stop every step but an enqueue uses up one of finitely many steps left, or does nothing |
| Logging.NextAdvances | odin_ros_driver/include/data_logger.h:166-193 | and until the worker has left, the worker or a thread about to notify it has such a step |
| Logging.ShutdownReturns | odin_ros_driver/include/data_logger.h:146-193 | in every run, once the writer is stopped and the producers pause, the worker alone leaves, with all enqueued frames in the file but those too few for a batch after stop |
| Logging.Writer.SwapPendingUnlocked | odin_ros_driver/include/data_logger.h:160-165 | pending frames become one batch, if there are any |
| Logging.Writer.Enqueue | odin_ros_driver/include/data_logger.h:136-145 | the lock section is the enqueue step |
| Logging.Writer.Shutdown | odin_ros_driver/include/data_logger.h:146-158 | the lock section is the stop step, once |
| Logging.Writer.TakeBatch | odin_ros_driver/include/data_logger.h:173-183 | the worker's lock section is the check step: next batch, leave, or wait |
| Logging.Writer.WriteBatch | odin_ros_driver/include/data_logger.h:184-191 | writing the batch frame by frame appends its concatenation |
| RingQueue.MaskIsRemainder | livox_ros_driver2/src/comm/ldq.cpp:101-101 | masking with a power of two less one is the remainder |
| RingQueue.PowerOf2Test | livox_ros_driver2/src/comm/ldq.h:37-37 | the bit test recognises exactly the powers of two |
| RingQueue.RoundupPowerOf2 | livox_ros_driver2/src/comm/ldq.h:39-50 | the smallest power of two that is large enough, capped at 2^31 |
| RingQueue.PushAppends | livox_ros_driver2/src/comm/ldq.cpp:134-148 | storing at the masked write counter and advancing it, wrap-around included, appends to the queue |
| RingQueue.PopDrops | livox_ros_driver2/src/comm/ldq.cpp:90-124 | advancing the read counter drops the front, which is what the masked slot holds |
| RingQueue.StoreInvisible | livox_ros_driver2/src/comm/ldq.cpp:134-148 | a packet being stored is invisible until the write counter moves and never touches the slot being read |
| RingQueue.RingIsFifo | livox_ros_driver2/src/comm/ldq.cpp:90-148 | in every interleaving of one writer's and one reader's store, advance, copy and advance steps, what is popped followed by the ring is what was pushed |
| RingQueue.RingFromEmpty | livox_ros_driver2/src/comm/ldq.cpp:34-148 | so in every run from an empty ring nothing is lost, repeated or reordered |
| RingQueue.TransfersGoThrough | livox_ros_driver2/src/comm/ldq.cpp:90-148 | with neither under way, a push goes through and appends whenever there is room, and a pop goes through and takes the front whenever there is a packet |
| RingQueue.LidarDataQueue.constructor | livox_ros_driver2/src/comm/ldq.cpp:34-63 | an empty ring of the size rounded up to a power of two |
| RingQueue.LidarDataQueue.IsFull | livox_ros_driver2/src/comm/ldq.cpp:130-130 | true exactly when the ring holds as many packets as it has slots |
| RingQueue.LidarDataQueue.IsEmpty | livox_ros_driver2/src/comm/ldq.cpp:132-132 | true exactly when it holds none |
| RingQueue.LidarDataQueue.PushAny | livox_ros_driver2/src/comm/ldq.cpp:134-148 | appends to a ring that is not full |
| RingQueue.LidarDataQueue.Pop | livox_ros_driver2/src/comm/ldq.cpp:90-124 | takes the front, or fails and changes nothing on an empty ring |
| LivoxWakeup.StepKeepsWatchIff | livox_ros_driver2/src/lds.cpp:200-211 | one step keeps "every nonempty queue of a sampling lidar will be looked at" if and only if it is not a switch to sampling of an unwatched nonempty lidar |
| LivoxWakeup.NoLostWakeupOnRun | livox_ros_driver2/src/lddc.cpp:83-92 | in every interleaving of any number of producers and the sweep, a nonempty queue of a sampling lidar finds the count positive, a producer on its way to signal, or the sweep not past it |
| LivoxWakeup.EveryRun | livox_ros_driver2/src/lds.cpp:185-212 | from the start every run conserves packets, keeps the count at most the number of producers, and loses no wake-up as long as lidars start sampling harmlessly |
| LivoxWakeup.StrandedPacket | livox_ros_driver2/src/call_back/livox_lidar_callback.cpp:142-142 | a run in which a lidar starts sampling late and its packet is left with every thread at rest |
| LivoxWakeup.CountBoundedOnRun | livox_ros_driver2/src/lds.cpp:200-211 | the semaphore's count never exceeds the number of producers: with one producer it is at most one |
| LivoxWakeup.ConservesOnRun | livox_ros_driver2/src/lds.cpp:200-211 | lidar by lidar, accepted is popped followed by queued, within capacity |
| LivoxWakeup.QuietMeansDelivered | livox_ros_driver2/src/lddc.cpp:83-92 | with every thread at rest everything accepted for a sampling lidar has been popped |
| LivoxWakeup.PauseDelivers | livox_ros_driver2/src/lddc.cpp:125-136 | once the producers pause, the consumer alone comes to rest and has delivered everything accepted for the sampling lidars |
| LivoxWakeup.NextPacketServes | livox_ros_driver2/src/lds.cpp:185-212 | from any state, stranded packets or not, the next packet of any lidar has everything accepted for the sampling lidars delivered, whether or not its own queue has room |
| LivoxWakeup.SwitchedOffIsLeft | livox_ros_driver2/src/lddc.cpp:83-92 | a lidar that is switched off keeps what is queued for it, unless its queue is being drained just then |
| LivoxWakeup.Lds.Signal | livox_ros_driver2/src/comm/semaphore.cpp:30-35 | adds exactly one to the count |
| LivoxWakeup.Lds.PushLidarData | livox_ros_driver2/src/lds.cpp:185-212 | an undisturbed call is a run of the producer's steps, with its new state |
| LivoxWakeup.Lds.QueuePop | livox_ros_driver2/src/comm/ldq.cpp:116-124 | popping is the drain step |
| LivoxWakeup.Lds.PublishOne | livox_ros_driver2/src/lddc.cpp:156-168 | one round pops a packet and publishes it if it has points |
| LivoxWakeup.Lds.PollingLidarPointCloudData | livox_ros_driver2/src/lddc.cpp:118-136 | the drain loop empties the lidar's queue, as a run of the consumer's steps |
| LivoxWakeup.Lds.DistributePointCloudData | livox_ros_driver2/src/lddc.cpp:72-93 | one wake-up empties the queues of exactly the sampling lidars, as a run of the consumer's steps |
| ImuQueue.EveryRun | odin_ros_driver/src/host_sdk_sample.cpp:929-953 | in every interleaving: at most 8000 samples queued, a contiguous suffix of those received since the last clearing; published samples in order without repetition; every sample accounted for; no sample without a wake-up |
| ImuQueue.EveryRunPublishes | odin_ros_driver/src/host_sdk_sample.cpp:929-953 | from every reachable state with the flag set, when no more samples come, the thread with its outstanding notification comes to wait with an empty queue, having published exactly what was in hand and queued |
| ImuQueue.LossAtEightThousand | odin_ros_driver/src/host_sdk_sample.cpp:1043-1053 | a sample is lost exactly when 8000 are queued, and then it is the oldest |
| ImuQueue.NothingLostIff | odin_ros_driver/src/host_sdk_sample.cpp:1043-1053 | published, in hand and queued are exactly what was received if and only if nothing was lost to a full queue or a clearing |
| ImuQueue.StopReturnsIff | odin_ros_driver/src/host_sdk_sample.cpp:982-995 | after the notification the thread ends on its own if and only if it had not already decided to wait |
| ImuQueue.MissedStop | odin_ros_driver/src/host_sdk_sample.cpp:929-935 | a run in which the notification is missed and joining blocks |
| ImuQueue.NextSampleReleasesStop | odin_ros_driver/src/host_sdk_sample.cpp:1043-1053 | the next sample lets the blocked stop return |
| ImuQueue.ImuDispatcher.LidarDataCallback | odin_ros_driver/src/host_sdk_sample.cpp:1043-1053 | the critical section appends, dropping the oldest sample of a full queue |
| ImuQueue.ImuDispatcher.ProcessPending | odin_ros_driver/src/host_sdk_sample.cpp:941-953 | the inner loop alone is a run of the thread's steps and publishes the whole queue in order, or nothing once stopped |
| ImuQueue.ImuDispatcher.ClearQueue | odin_ros_driver/src/host_sdk_sample.cpp:991-995 | the queue is emptied and what it held is counted as lost |
| LookAhead.WellDefined | pb_omni_pid_pursuit_controller/src/omni_pid_pursuit_controller.cpp:394-425 | with exactly one end inside the circle the segment has a length and the square root's argument is positive |
| LookAhead.IntersectionLeaving | pb_omni_pid_pursuit_controller/src/omni_pid_pursuit_controller.cpp:394-425 | from inside to not inside, the closed form is the segment's one and only crossing of the circle: inside before it, outside after it |
| LookAhead.IntersectionEntering | pb_omni_pid_pursuit_controller/src/omni_pid_pursuit_controller.cpp:410-423 | with the ends exchanged the sign makes it the same point |
| LookAhead.FindFirstFar | pb_omni_pid_pursuit_controller/src/omni_pid_pursuit_controller.cpp:366-370 | the first pose at least the look-ahead distance away, or none |
| LookAhead.GetLookAheadPoint | pb_omni_pid_pursuit_controller/src/omni_pid_pursuit_controller.cpp:363-392 | last pose, first far pose or the crossing, by case, with frame, stamp, height and heading; the last pose when all are nearer, and never a point nearer than the look-ahead distance otherwise |
| LookAhead.CarrotIsFirstOnCircle | pb_omni_pid_pursuit_controller/src/omni_pid_pursuit_controller.cpp:363-392 | the interpolated point is on the circle and every earlier segment of the plan is strictly inside |
| ArcLength.CalculateCumulativeDistances | pb_omni_pid_pursuit_controller/src/omni_pid_pursuit_controller.cpp:630-643 | the running lengths of the path, one for an empty path |
| ArcLength.LowerBound | pb_omni_pid_pursuit_controller/src/omni_pid_pursuit_controller.cpp:658-660 | binary search finds the first entry not below the target |
| ArcLength.FindPoseAtDistance | pb_omni_pid_pursuit_controller/src/omni_pid_pursuit_controller.cpp:645-682 | every case, in bounds and without division by zero, with ratio in (0, 1] |
| ArcLength.FoundAtDistance | pb_omni_pid_pursuit_controller/src/omni_pid_pursuit_controller.cpp:645-682 | for every nonempty path and target the pose found has as its length along the path the target clamped to [0, total] |
| ArcLength.ChordAtMostArc | pb_omni_pid_pursuit_controller/src/omni_pid_pursuit_controller.cpp:549-566 | two points of the path are no further apart than their distances along it |
| ArcLength.DistanceDeterminesPlace | pb_omni_pid_pursuit_controller/src/omni_pid_pursuit_controller.cpp:645-682 | a distance along the path determines the place |
| Curvature.CircleThroughThree | pb_omni_pid_pursuit_controller/src/omni_pid_pursuit_controller.cpp:575-589 | the computed centre is equally far from all three points whenever they are not on a line |
| Curvature.RadiusOfCircle | pb_omni_pid_pursuit_controller/src/omni_pid_pursuit_controller.cpp:575-594 | the result is that distance, or the large constant for a tiny circle |
| Curvature.CollinearIff | pb_omni_pid_pursuit_controller/src/omni_pid_pursuit_controller.cpp:579-588 | the denominator vanishes exactly for three points on one line |
| Curvature.StraightRadius | pb_omni_pid_pursuit_controller/src/omni_pid_pursuit_controller.cpp:579-593 | and then the radius is 1e9 |
| Curvature.CalculateCurvature | pb_omni_pid_pursuit_controller/src/omni_pid_pursuit_controller.cpp:549-573 | the curvature is positive, finite and that of the circle through the carrot and two points of the path, whose lengths along it are the carrot's straight distance less the backward and plus the forward distance |
| Curvature.CurvatureUnique | pb_omni_pid_pursuit_controller/src/omni_pid_pursuit_controller.cpp:549-573 | a path and a carrot have one such curvature |
| Curvature.StraightCurvature | pb_omni_pid_pursuit_controller/src/omni_pid_pursuit_controller.cpp:549-593 | a path and a carrot on one line have the curvature 1e-9, and so has an empty path |
| Curvature.PointsBracketCarrot | pb_omni_pid_pursuit_controller/src/omni_pid_pursuit_controller.cpp:549-566 | for a carrot on the path, the exact conditions under which the near point lies behind it and the far point ahead; the near one does whenever the path starts within the backward distance |
| Curvature.FoldedCarrot | pb_omni_pid_pursuit_controller/src/omni_pid_pursuit_controller.cpp:363-392 | on a path that turns back the controller's look-ahead point for distance two is the path's end |
| Curvature.FarPointBehind | pb_omni_pid_pursuit_controller/src/omni_pid_pursuit_controller.cpp:559-566 | and the far point found for it lies behind it, at 2.7 along the path against 4 |
| Curvature.OuterPointsAreNear | pb_omni_pid_pursuit_controller/src/omni_pid_pursuit_controller.cpp:549-566 | the outer two points are at most the two distances apart |
| Velocity.PID.Calculate | pb_omni_pid_pursuit_controller/src/pid.cpp:22-57 | output within bounds, integral within [-1, 1], new memory; the integral contributes before it is clamped |
| Velocity.GainsAct | pb_omni_pid_pursuit_controller/src/pid.cpp:27-46 | each gain adds its own multiple of the error, of its sum or of its slope, and without gains there is no output |
| Velocity.ConstantError | pb_omni_pid_pursuit_controller/src/pid.cpp:22-57 | after a reset a constant error, from the second period on, has the output kp e + ki times its sum within the bounds |
| Velocity.IntegralIsSumIff | pb_omni_pid_pursuit_controller/src/pid.cpp:30-38 | all along a run the clamped integral is the plain sum of errors times dt if and only if no partial sum leaves [-1, 1] |
| Velocity.RatioBetween | pb_omni_pid_pursuit_controller/src/omni_pid_pursuit_controller.cpp:527-534 | the reduction ratio stays between its value at high curvature and one |
| Velocity.RatioFalls | pb_omni_pid_pursuit_controller/src/omni_pid_pursuit_controller.cpp:527-534 | more curvature never gives a larger ratio |
| Velocity.RatioIsAffine | pb_omni_pid_pursuit_controller/src/omni_pid_pursuit_controller.cpp:531-533 | between the bounds the reduction is in proportion to the way from the lower bound |
| Velocity.StraightUnlimited | pb_omni_pid_pursuit_controller/src/omni_pid_pursuit_controller.cpp:519-547 | on a straight path the velocity is not limited, whatever is remembered |
| Velocity.LimitedFloor | pb_omni_pid_pursuit_controller/src/omni_pid_pursuit_controller.cpp:543-545 | the limited velocity is never below the smaller of the velocity and twice the approach velocity, and never above the velocity |
| Velocity.VelocityController.ApplyCurvatureLimitation | pb_omni_pid_pursuit_controller/src/omni_pid_pursuit_controller.cpp:519-547 | the velocity limited by the curvature of the path at the carrot, which is also what is remembered |
| Velocity.VelocityController.ApplyApproachVelocityScaling | pb_omni_pid_pursuit_controller/src/omni_pid_pursuit_controller.cpp:486-517 | the velocity scaled by the distance to the last pose when the path is shorter than the approach distance: never above the velocity, never below the smaller of it and the approach velocity, and unchanged on a longer path |
| Velocity.ApproachIsProportional | pb_omni_pid_pursuit_controller/src/omni_pid_pursuit_controller.cpp:486-517 | on a short path velocities are as the last pose's distance is to the approach distance, unless below the approach velocity; nothing changes at the approach distance |
| Velocity.ToLastIsDistance | pb_omni_pid_pursuit_controller/src/omni_pid_pursuit_controller.cpp:494-498 | that distance is the one of the path's last pose from the robot |
| Velocity.VelocityController.ComputeLinearVelocity | pb_omni_pid_pursuit_controller/src/omni_pid_pursuit_controller.cpp:236-251 | one control cycle on a plan and a carrot is one cycle of the run specification, whose inputs are the carrot's distance (zero when the robot turns first), the curvature there, the plan's length and the distance to its end |
| Velocity.EveryOutcomeWithinBounds | pb_omni_pid_pursuit_controller/src/omni_pid_pursuit_controller.cpp:246-251 | over every run each velocity lies in [v_min, v_max] and never above the regulator's output, and the integral in [-1, 1] |
| Velocity.SlewLimited | pb_omni_pid_pursuit_controller/src/omni_pid_pursuit_controller.cpp:535-546 | one curved step changes the velocity by at most the slew, up to the two exceptions the code makes |
| Velocity.CurvedGrowth | pb_omni_pid_pursuit_controller/src/omni_pid_pursuit_controller.cpp:519-547 | after k consecutive curved steps the limited velocity is at most max(start, 2 min_approach) + k rate dt |
| Velocity.GapCloses | pb_omni_pid_pursuit_controller/src/omni_pid_pursuit_controller.cpp:535-546 | with constant demand and curvature the gap to the reduced velocity is exactly max(0, gap - k rate dt) after k steps |
| Rotation.TurnTwice | point_lio/include/so3_math.h:31-31 | turning twice about one axis is turning by the addition laws of sine and cosine |
| Rotation.RodriguesProduct | point_lio/include/so3_math.h:31-31 | the matrices of one axis multiply by the addition laws |
| Rotation.RodriguesOrthogonal | point_lio/include/so3_math.h:31-31 | R times its transpose is the identity for a unit axis and any s^2 + c^2 = 1 |
| Rotation.TurnKeepsCross | point_lio/include/so3_math.h:31-31 | R takes cross products to cross products, so it is no reflection |
| Rotation.ExpIsRotation | point_lio/include/so3_math.h:19-80 | all three exponentials are rotations for every argument, thresholds included |
| Rotation.ExpRateAdds | point_lio/include/so3_math.h:38-60 | with one angular velocity the rotations for two times multiply to that for their sum |
| Rotation.ExpTurns | point_lio/include/so3_math.h:19-36 | above its threshold the exponential keeps its argument, and turns what is across it by its length: cosine times the vector plus sine times axis cross vector |
| Rotation.ExpRateTurns | point_lio/include/so3_math.h:38-60 | the same by the angle |w| dt, with the sign of dt |
| Rotation.ExponentialsAgree | point_lio/include/so3_math.h:19-80 | above the thresholds the three exponentials agree |
| Rotation.TurnAboutThird | point_lio/include/so3_math.h:38-60 | turning about the third axis for dt takes the first axis to (cos dt, sin dt, 0) |
| Space.ApplySkew | point_lio/include/so3_math.h:10-16 | the skew matrix of v is the cross product with v |
| GravityAlignment.SetInit | point_lio/src/IMU_Processing.cpp:34-55 | the method's three branches, dividing by nothing that can be zero there |
| GravityAlignment.GeneralCase | point_lio/src/IMU_Processing.cpp:51-54 | beyond the first test the result is Rodrigues' matrix of the unit axis, the sine and the cosine between the gravities, or the identity below the second threshold |
| GravityAlignment.AlignsIff | point_lio/src/IMU_Processing.cpp:39-54 | in the general case the measured direction is taken exactly onto the configured one if and only if the angle exceeds 1e-5 |
| GravityAlignment.AlignsByCosine | point_lio/src/IMU_Processing.cpp:42-54 | equivalently if and only if the cosine is below that of 1e-5: always for a sine above 1e-5, never for one up to 5e-6 with the gravities on the same side |
| GravityAlignment.MisalignedInput | point_lio/src/IMU_Processing.cpp:45-54 | two gravities beyond the first test for which the result is the identity and does not align them |
| Angles.AcosExceedsIff | point_lio/src/IMU_Processing.cpp:52-52 | the principal arc cosine exceeds an angle exactly when its argument is below that angle's cosine |
| Angles.AcosUnique | point_lio/src/IMU_Processing.cpp:52-52 | its laws determine the arc cosine |
| Angles.AngleBySine | point_lio/src/IMU_Processing.cpp:45-52 | the angle is at least its sine and, when that is small against the cosine, at most twice its sine |
| GravityAlignment.RotationIff | point_lio/src/IMU_Processing.cpp:45-54 | the result is a rotation if and only if the antiparallel branch was not taken |
| GravityAlignment.OppositeInput | point_lio/src/IMU_Processing.cpp:45-50 | for exactly opposite gravities of any size the result is minus the identity, which is no rotation |
| GravityAlignment.CutOffCases | point_lio/src/IMU_Processing.cpp:45-50 | below the first threshold every vector stays as it is, or becomes its opposite, by the sign of the cosine |
| GravityAlignment.MeanStep | point_lio/src/IMU_Processing.cpp:80-81 | one incremental step turns the mean of n vectors into the mean of n + 1 |
| GravityAlignment.ImuProcess.Reset | point_lio/src/IMU_Processing.cpp:22-32 | means, counter and both flags restart; whether a first frame was seen stays |
| GravityAlignment.ImuProcess.ImuInit | point_lio/src/IMU_Processing.cpp:57-85 | the means are the arithmetic means of all samples since the first frame, whose first sample is not counted twice |
| GravityAlignment.ImuProcess.Process | point_lio/src/IMU_Processing.cpp:87-115 | initialising ends as soon as a hundred samples are averaged; the cloud is handed over exactly by the calls that find the unit disabled, or have samples and leave it initialised |
| DepthImage.ProjectCloudToDepth | odin_ros_driver/src/pointcloud_depth_converter.cpp:140-175 | every pixel holds the z of the last point that hits it, else of the first in-image point whose neighbourhood covers it, else zero |
| DepthImage.Splat | odin_ros_driver/src/pointcloud_depth_converter.cpp:154-170 | the two inner loops write the own pixel and the empty ones of the eight around it, and no other |
| DepthImage.SplatKeepsDepth | odin_ros_driver/src/pointcloud_depth_converter.cpp:144-172 | one more point takes the depth image of a cloud to that of the longer cloud |
| DepthImage.DepthUnique | odin_ros_driver/src/pointcloud_depth_converter.cpp:140-175 | the description determines the depth |
| DepthImage.RoundIsNearest | odin_ros_driver/src/pointcloud_depth_converter.cpp:149-150 | rounding is to the nearest integer, halves away from zero, and odd |
| DepthImage.ColumnByDistance | odin_ros_driver/src/pointcloud_depth_converter.cpp:149-149 | the column is u when x is less than half a pixel from u pixels at the point's depth, and only when it is no further |
| DepthImage.LineByDistance | odin_ros_driver/src/pointcloud_depth_converter.cpp:150-150 | the line is that of y in the same way |
| DepthImage.OnePoint | odin_ros_driver/src/pointcloud_depth_converter.cpp:140-175 | a single point gives its depth to its own pixel and the eight around it, by its coordinates, and to no other |
| DepthImage.TwoPoints | odin_ros_driver/src/pointcloud_depth_converter.cpp:154-170 | of two points the later takes a pixel both project to, and a neighbour leaves it alone |
| TimeGroups.TimeCompressing | point_lio/include/common_lib.h:115-139 | for every cloud, sorted or not, positive sizes that sum to the cloud and cut it exactly where the time rises; one group of one for the empty cloud |
| TimeGroups.GroupsAddUpIff | point_lio/include/common_lib.h:115-139 | the sizes sum to the cloud's if and only if it is not empty |
| TimeGroups.GroupOf | point_lio/include/common_lib.h:115-139 | every point is in some group |
| TimeGroups.GroupsDisjoint | point_lio/include/common_lib.h:115-139 | and in no other |
| TimeGroups.SameGroupIff | point_lio/include/common_lib.h:124-130 | in every cloud a point shares its predecessor's group if and only if its time is not larger |
| TimeGroups.SortedGroups | point_lio/include/common_lib.h:115-139 | in a sorted scan times are equal inside a group and strictly larger in every later group |
| Measurement.SelectPoint | point_lio/src/Estimator.cpp:121-174 | the first pass for one point marks it and keeps its plane exactly when it passes the tests |
| Measurement.SelectPoints | point_lio/src/Estimator.cpp:119-174 | the first pass marks exactly the accepted points of the window, leaves all others, and counts them |
| Measurement.FillRows | point_lio/src/Estimator.cpp:184-214 | the second pass fills exactly the counted rows, once each and in order, and never runs past them |
| Measurement.HModel | point_lio/src/Estimator.cpp:112-216 | both passes together: with an accepted point the rows are those of the accepted points and the count grows by them; with none the measurement is marked invalid and the rows of the previous call stay |
| Measurement.SelectedIsExact | point_lio/src/Estimator.cpp:119-174 | the rows' points are increasing and are all the accepted ones |
| Measurement.AcceptanceIsMonotone | point_lio/src/Estimator.cpp:121-165 | at least five neighbours are needed; a point on its plane with a positive norm passes, and so does one nearer its plane or with a larger norm than one that passes |
| Measurement.AcceptanceScales | point_lio/src/Estimator.cpp:164-165 | the norm weighs against the square of the distance, and at distance one against the threshold itself |
| Measurement.ResidualReachesPlane | point_lio/src/Estimator.cpp:207-210 | moving the world point by the residual along a unit normal puts it on its plane |
| Measurement.ChangedPoint | point_lio/src/Estimator.cpp:364-383 | where the world point goes when the pose is shifted and its matrices are turned to first order, as I + [w]x: a linear part, and the product of the two turns |
| Measurement.DistanceChange | point_lio/src/Estimator.cpp:190-199 | to first order in the turns the distance from the plane changes by the row times the change, plus that product along the normal |
| Measurement.RowIsDerivative | point_lio/src/Estimator.cpp:190-199 | along any first-order change of the pose the distance is a quadratic whose slope at zero is the row times the change: the twelve numbers are the derivatives by position, turn, sensor turn and sensor shift |
| Measurement.RowUnderMotion | point_lio/src/Estimator.cpp:190-199 | for every shift and rotation of body and sensor, however large, the exact change of the distance: the row times shifts, sines and axes, plus one term in each 1 - cosine and the product of the two motions |
| Measurement.SpunIsRotation | point_lio/src/Estimator.cpp:364-383 | a rotation turned about a unit axis is a rotation |
| Measurement.RowWithoutExtrinsics | point_lio/src/Estimator.cpp:200-206 | without extrinsic estimation the first six numbers are the derivatives by position and turn, and the rest are zero |
| Measurement.RowUnderRotation | point_lio/src/Estimator.cpp:200-206 | for every rotation of the body the distance changes by the sine times the row's turn part along the axis, plus a term in 1 - cosine |

## Left out

- ROS nodes, publishers, TF, parameters, launch files, the Odin and Livox SDKs, USB, opening and closing ports and files: input and output. A read of the port is "a byte or a timeout", the open file a boolean.
- Floating-point rounding: doubles and floats are real numbers, so overflow, not-a-number and the float casts of the depth image and of `pd2` are not modelled; where the code divides by zero and then tests for infinity, the model tests for zero.
- Payload contents: float32 values in serial payloads are bytes.
- `packFrame` with a null pointer and a positive length: the model's payload is the bytes themselves.
- Running state of the receive loop: the model's loop reads a finite script; leaving it through `running_` is not modelled.
- The processing of a matched pair, and the queue sizes recorded at the start of `try_process_pair`, which nothing uses.
- PairQueues.Pairing.PopAndProcess: the pop on an empty queue, which is undefined in the program, is shown never to happen and has no behaviour in the model.
- Livox `kPclPxyziMsg` and unknown transfer formats, under which the drain loop pops nothing, and the request to exit: draining is modelled for the three formats that pop.
- LivoxWakeup: producers push into a queue atomically. That is proved of the ring for one writer and one reader (`RingQueue.RingIsFifo`); with several producers on one lidar it is an assumption. The same protocol for inertial data (`lds.cpp:124-130`) is not modelled separately.
- RingQueue: counters and slots change in one order seen by both threads; weaker memory models are not captured.
- ImuQueue: one stop at a time, and `g_sendimu` constantly on.
- Lidar attach and detach callbacks: mostly SDK calls.
- Path pruning, transformation of the plan and collision sampling, which rest on nav2 helpers that are not part of this model.
- nav2's `calculate_path_length` is not part of this model; the length of a path is the sum of the distances between neighbouring poses, as `calculateCumulativeDistances` adds them.
- Velocity.VelocityController.ComputeLinearVelocity: the carrot is any pose, so the result holds for that of `LookAhead.GetLookAheadPoint`.
- GravityAlignment.ImuProcess.Process: the time of the last scan, which nothing here reads.
- The heading regulator, which is the same PID.
- `Log`, `RotMtoEuler` and the Jacobians beside `Exp`.
- Kalman filter, neighbour search and plane fitting: neighbour count and plane are inputs of the two passes.
- `h_model_output`, which is `h_model_input` with another state type.
- Depth post-processing, colouring, undistortion maps, teleop, image overlay, the ign_sim converter, firmware version comparison: easy members only.
