# Motion server: a verified model

This project models, in Dafny, the parts of an EtherCAT motion server where state, arithmetic
and layout meet, and proves what they keep over every input and every run:

- **the virtual CiA 402 servo** - a cyclic state machine over object dictionary commands, the PDS
  automaton and five motion modes (profile position, profile velocity, cyclic synchronous
  position, homing, jog);
- **the CPX-AP-I-EC process image** - module offsets, bit and analog packing, the split into
  object dictionary blocks, and one whole exchange through both sides;
- **IO-Link process data** - compiling a record into a field layout with a growing bit mask, and
  decoding big-endian input with it;
- **the prepare - send - receive protocol** of the in-process master, the CMMT codec and the object
  dictionary bridge that carry its values, and the bus and axis recovery machine on top;
- **timing and streams** - distributed-clock phases, the phase lock and schedule, line framing, the
  bounded output buffer, and re-serialised configuration lists.

Code that works by changing things step by step is a `class` or a `method` with loops
(`VirtualServo`, `CiA402.StateMachine`, `CpxPdo`, `CpxStation`, `OdBridge`, `ObjectDictionary`,
`MockMaster`, `Recovery`, `DistributedClock`, `ClientTransport`), proved equal to functions on values
(`ServoSpec`, `CpxCodec`, `MasterSpec`, ...), about which the whole-run theorems are stated. What those
functions compute is fixed in turn by laws that do not mention them: ramps, braking, buttons,
reports and phases are stated from the master's writes, bits and numbers alone.
`dafny verify dfyconfig.toml` checks everything.

Floats are `real`, byte images are sequences or arrays of 0..255, controlwords are 16-bit vectors.
A run is a sequence of arbitrary master writes, each followed by one model cycle; an SDO write,
which also runs one model cycle, is such a step. Clocks, sockets, connection attempts and the
answers of slaves are inputs. Related fields of the servo are grouped into small records
(`axis`, `pp`, `homing`, ...); `CpxPdo.ChannelStore` is one direction of one module, which stands
for an entry of `CPXRxPDO` or `CPXTxPDO` and for each half of `VirtualApModule`.

Where the code departs from the CiA 402 profile the model follows the code: "disable voltage"
needs controlword bits 0 to 2 all clear, no controlword enters FAULT, and a clear controlword
leaves every state.

Three properties needed a condition. The velocity envelope holds because 6083h and 6084h are
unsigned objects; `ServoEnvelope.EnvelopeIffUnsigned` shows that this is exactly what it needs,
since CSP clamps with a signed rate. Session and master agree unless an exchange is stranded: the
server catches communication exceptions only, so an answer that is too short, an endpoint or a
decoder that raises anything else leaves the server loop with the session NORMAL and the master in
the sent phase (`Recovery.AgreementOverRuns`, `Recovery.ShortAnswerStrands`). Printing and re-parsing
an indexed list is the identity exactly when no value contains a newline
(`ConfigText.IndexedListRoundTrip`), because the value pattern of the item expression does not match
across one; `ConfigText.NewlineBreaksRoundTrip` is an instance. Configuration files are read line by
line, so only an environment variable can carry such a value.

## Model

| member | source | states |
|---|---|---|
| CiA402.StateMachine.Process | device/cia402/state_machine.py:22-81 | one controlword moves the automaton as `Next` says, in every state |
| CiA402.StateMachine.GetStatusword | device/cia402/state_machine.py:83-97 | the base statusword of each state |
| CiA402.OperationEnabledIffLadder | device/cia402/state_machine.py:22-81 | a controlword trace from power-up ends in OPERATION_ENABLED exactly when it contains the last shutdown, a later switch-on and a still later enable operation that nothing undoes; FAULT is never reached |
| CiA402.Climb | device/cia402/state_machine.py:34-74 | every state of a power-up trace carries the rungs of the ladder below it |
| CiA402.Descend | device/cia402/state_machine.py:34-74 | from the shutdown on, each rung of a ladder in the trace is reached and kept |
| CiA402.FaultIsLeft | device/cia402/state_machine.py:22-32 | no controlword enters FAULT; one leaves it exactly with bit 7 set or bits 0 to 2 clear |
| ServoSafety.CommandsEffect | device/virtual_servo_drive/servo_model.py:44-140 | the object dictionary commands of an exchange leave the axis alone or stop it where it stands; a mode change stops it and ends homing unless it goes to homing; a device reset clears the controlword and restores the settings; a target inside the limits changes no motion |
| ServoSafety.StepKeepsGates | device/virtual_servo_drive/servo_model.py:93-95 | one exchange keeps the motion gates, and moves the axis only if it leaves the drive enabled |
| ServoSafety.MotionGates | device/virtual_servo_drive/servo_model.py:215-236 | over every run: a drive that is not enabled is at rest, has no set-point latched and was not moved by that exchange; an unreferenced axis in PP or CSP is at rest, across device resets too |
| ServoSafety.ModeKeepsGates | device/virtual_servo_drive/servo_model.py:225-236 | no mode handler breaks the gates, and none acts on a drive that is not enabled |
| ServoSafety.RunFollowsAutomaton | device/virtual_servo_drive/servo_model.py:215-223 | over every run the drive's state is the automaton's after the controlwords it saw, a reset counting as a clear controlword |
| ServoSafety.MotionNeedsLadder | device/virtual_servo_drive/servo_model.py:215-236 | over every run, a moving axis or a latched set-point means the controlwords contain the power-up ladder, not undone |
| ServoSafety.StatuswordRecoversState | motion_server/app/startup.py:222-234 | after every exchange of every run the published statusword masked with 006Fh identifies the automaton state, despite the added bits |
| ServoSafety.StatuswordMasks | device/virtual_servo_drive/servo_model.py:238-254 | target reached, set-point acknowledge, moving, limit and referenced bits never touch the state bits |
| ServoSafety.VelocityEnvelope | device/virtual_servo_drive/servo_model.py:299-438 | with both velocity limits kept non-zero, every exchange of every run leaves the velocity between them, over any interleaving of modes, halts, resets, enabling and disabling |
| ServoSafety.ModeKeepsEnvelope | device/virtual_servo_drive/servo_model.py:484-572 | every mode handler keeps an enveloped velocity enveloped |
| ServoSafety.CspKeepsEnvelope | device/virtual_servo_drive/servo_model.py:639-672 | the CSP velocity update stays between the limits, because the demand has the sign of the position error |
| ServoSafety.TargetTaken | device/virtual_servo_drive/servo_model.py:113-140 | on a referenced axis a target is taken exactly when it is new and inside the software limits, or unchanged and not the leftover of a rejected one; the limit warning and the lowered target-reached flag that follow, exactly |
| ServoSafety.UnreferencedTargetHeld | device/virtual_servo_drive/servo_model.py:113-119 | an unreferenced axis in PP or CSP keeps the target in force and the limit flags |
| ServoEnvelope.EnvelopeIffUnsigned | device/virtual_servo_drive/servo_model.py:639-672 | settings with given velocity limits keep every drive that ran from power-up inside the envelope, exactly when both rates 6083h and 6084h are non-negative |
| ServoEnvelope.NegativeRateEscapes | device/virtual_servo_drive/servo_model.py:658-672 | for any settings with a negative rate: a run from power-up, with the same limits and unsigned rates up to its last exchange, that ends outside the envelope |
| ServoEnvelope.NegativeRateStep | device/virtual_servo_drive/servo_model.py:658-672 | CSP clamps with a signed rate, so an exchange with a negative one adds its magnitude to the velocity |
| ServoEnvelope.JumpStep | device/virtual_servo_drive/servo_model.py:639-683 | one CSP exchange brings a referenced axis from rest to any velocity within the limit |
| ServoEnvelope.ReferencedRun | device/virtual_servo_drive/servo_model.py:215-293 | switching on and homing take a drive with any settings from power-up to a referenced axis at zero |
| ServoProfilePosition.AdvanceKeepsSide | device/virtual_servo_drive/servo_model.py:346-416 | one cycle of an active move stays on its side of the target or lands exactly on it with zero velocity; an approaching axis keeps approaching and stays between its position and the target |
| ServoProfilePosition.NeverCrossesTarget | device/virtual_servo_drive/servo_model.py:299-416 | over any run without halt or new set-point, from any initial velocity, whatever settings, targets, disabling and resets occur, the axis never crosses the latched target |
| ServoProfilePosition.StaysBetweenStartAndTarget | device/virtual_servo_drive/servo_model.py:346-416 | from rest the distance never grows: every position of the run lies between the one before and the target |
| ServoProfilePosition.StaysPut | device/virtual_servo_drive/servo_model.py:340-344 | once arrived, or once a move is given up at rest, the axis stays where it is with zero velocity |
| ServoProfilePosition.AdvanceLowersRank | device/virtual_servo_drive/servo_model.py:385-413 | every cycle of a move that does not end it lowers the rank (distance in strides, then speed in braking cycles), stop-short-and-restart cycles included |
| ServoProfilePosition.Progress | device/virtual_servo_drive/servo_model.py:346-416 | after n steady exchanges a move under way, at any speed within its cap, has arrived or has used up n of its rank |
| ServoProfilePosition.SetpointLatches | device/virtual_servo_drive/servo_model.py:319-344 | an exchange with a rising start bit latches exactly the set-points whose target is taken, and runs the first cycle of the move |
| ServoProfilePosition.SetpointNeverCrossed | device/virtual_servo_drive/servo_model.py:299-416 | from the exchange that latches a set-point on, at whatever velocity, the target is never crossed; from rest every position lies between the one before and the target |
| ServoProfilePosition.SetpointReachesTarget | device/virtual_servo_drive/servo_model.py:299-416 | an axis at rest that takes a set-point, with acceleration, deceleration and effective velocity positive and kept, is exactly on the target and at rest after the number of cycles the rank of the whole distance gives, and stays there |
| ServoProfilePosition.ReachesTarget | device/virtual_servo_drive/servo_model.py:346-416 | a move already under way reaches its latched target exactly, at rest, within the number of cycles its rank gives |
| ServoProfilePosition.PpSpeed | device/virtual_servo_drive/servo_model.py:372-399 | a profile position cycle either gains at least the acceleration step or the cap, or brakes by exactly the deceleration step, and brakes only at speed |
| ServoBraking.BrakesInTime | device/virtual_servo_drive/servo_model.py:372-413 | over a whole move from rest: the braking distance v^2/(2a) never exceeds the remaining distance by more than one cycle at the cap and one acceleration step; every exchange brakes by the deceleration step exactly when the braking distance has reached the remaining distance and speeds up to the cap before, and the move ends exactly when the axis is slow in the window or would reach the target |
| ServoBraking.StepBrakes | device/virtual_servo_drive/servo_model.py:360-413 | the same for one exchange of a move under way at any speed within its cap |
| ServoBraking.StoppingIsBraking | device/virtual_servo_drive/servo_model.py:374-384 | the stopping distance computed from position rates is the distance that braking one deceleration step per cycle needs, in every choice of units |
| ServoBraking.BrakingKeeps | device/virtual_servo_drive/servo_model.py:392-403 | a braking cycle never raises braking distance minus remaining distance |
| ServoBraking.SpeedingUpAdds | device/virtual_servo_drive/servo_model.py:392-403 | an accelerating cycle adds at most one cycle at the cap and one acceleration step to it |
| ServoJog.CommitmentKept | device/virtual_servo_drive/servo_model.py:538-551 | one cycle never increases the distance past a limit that the axis has run or is bound to run beyond the overrun |
| ServoJog.JogVelocityBrakes | device/virtual_servo_drive/servo_model.py:522-584 | at or past a limit the jog velocity towards the outside loses at least the smaller rate step each cycle |
| ServoJog.JogOverrunBound | device/virtual_servo_drive/servo_model.py:522-591 | entering jog at rest inside the limits, no sequence of buttons, speeds, halts, enabling and resets takes the axis past either software limit by more than r dt (V + V^2/(2d)) |
| ServoHoming.HomingStep | device/virtual_servo_drive/servo_model.py:261-293 | one homing exchange starts, counts down or completes homing, without moving the axis before the end; target reached falls at the start and rises at the end |
| ServoHoming.HomingTakesItsCycles | device/virtual_servo_drive/servo_model.py:261-293 | from the start edge the axis stands still and unreferenced for one cycle less than the whole cycles in 0.1 s, then is referenced at zero and at rest |
| ServoHoming.ReferenceNeedsHoming | device/virtual_servo_drive/servo_model.py:261-293 | over every run from power-up, a referenced axis means that an exchange completed homing, in homing mode, enabled, at zero |
| ServoVelocity.ReachesVelocity | device/virtual_servo_drive/servo_model.py:484-516 | under a steady demand the velocity ramps to the demand cut to its limit, gaining exactly the acceleration step or losing exactly the deceleration step per exchange, has it within the number of steps in the gap, and keeps it |
| ServoVelocity.RampLaw | device/virtual_servo_drive/servo_model.py:430-438 | whatever asks for the velocity - profile velocity, jog buttons, a halt - the gap to it closes by exactly the acceleration step towards a greater speed, by exactly the deceleration step towards a smaller one, and ends at it |
| ServoVelocity.StepRamps | device/virtual_servo_drive/servo_model.py:498-509 | one exchange moves the velocity one ramp step towards what it asks for and the axis by the new velocity |
| ServoVelocity.JogFollowsButtons | device/virtual_servo_drive/servo_model.py:526-533 | held inside the limits, bit 4 alone brings the axis to plus, bit 5 alone to minus the speed factor (1, 1/4 or 1/2) of the least configured limit (nothing if that is at most 1e-12), none or both to rest, along the exact ramp |
| ServoVelocity.JogAsks | device/virtual_servo_drive/servo_model.py:555-584 | the jog demand from controlword, limits and position: direction by bits 4 and 5, factor by bits 12 and 11, cap the least limit that is not zero, nothing at a software limit but the way back |
| ServoVelocity.HaltStops | device/virtual_servo_drive/servo_model.py:418-428 | a halt takes exactly one deceleration step off the speed per exchange in every motion mode until the axis is at rest, and never turns it round |
| ServoVelocity.CspFollows | device/virtual_servo_drive/servo_model.py:639-676 | one CSP exchange ramps the velocity towards five times the distance, cut to the limit of its direction, and the axis travels with it, on either side of the target |
| ServoVelocity.CspMovesTowardsTarget | device/virtual_servo_drive/servo_model.py:639-676 | from rest CSP moves towards its target, forwards or backwards, and in cycles of at most 0.2 s not past it |
| ServoReports.FeedbackIsTruthful | device/virtual_servo_drive/servo_model.py:440-442 | over every run 6064h and 606Ch are the axis position and velocity after each exchange that leaves the drive enabled in a motion mode, and after every exchange if they started so |
| ServoReports.StatuswordTellsTruth | device/virtual_servo_drive/servo_model.py:238-254 | over every run each added statusword bit says exactly what it stands for: target reached, set-point acknowledge, moving, software limit, referenced |
| ServoReports.TargetReachedExactly | device/virtual_servo_drive/servo_model.py:193-206 | while one target is tracked in PP or CSP, the target-reached flag is up exactly when the axis has been in the window for the window time, or was up before and the axis never left |
| ServoReports.ReachedElsewhere | device/virtual_servo_drive/servo_model.py:305-317 | the flag in jog, halt, profile velocity and on an unreferenced axis |
| ServoReports.AckFollowsStart | device/virtual_servo_drive/servo_model.py:319-338 | set-point acknowledge follows controlword bit 4 except while halted, unreferenced or refusing a new set-point |
| ServoReports.ResetEffect | device/virtual_servo_drive/servo_model.py:76-88 | an exchange with a device reset leaves the drive switched off and at rest where it was, in CSP with its own position as target, its reference kept |
| ServoReports.SaveIsAnswered | device/virtual_servo_drive/servo_model.py:53-61 | a new parameter save request is answered as done, and nothing else touches the answer |
| ServoReports.ScaleIsPowerOfTen | device/virtual_servo_drive/servo_model.py:444-462 | unit exponents of either sign scale by that negative power of ten, at least 1e-12 |
| VirtualServo.VirtualCiA402Servo.constructor | device/virtual_servo_drive/servo_model.py:6-40 | a new drive is switched off, at zero, unreferenced, with the dictionary's commands taken as already seen |
| VirtualServo.VirtualCiA402Servo.ModelUpdate | device/virtual_servo_drive/servo_model.py:93-95 | the in-place cycle has exactly the effect on the drive's whole state that the run theorems are about |
| VirtualServo.VirtualCiA402Servo.ApplyOdCommands | device/virtual_servo_drive/servo_model.py:44-74 | reset, save, mode and target commands in the code's order, the target read before a mode change can replace it |
| VirtualServo.VirtualCiA402Servo.ApplyDeviceResetResponse | device/virtual_servo_drive/servo_model.py:76-88 | exactly the configured values and the PDO objects are restored, other settings keep theirs, the position is kept, and the mode is adopted without a stop |
| VirtualServo.VirtualCiA402Servo.SetTargetPosition | device/virtual_servo_drive/servo_model.py:113-140 | an unreferenced PP or CSP axis keeps its old target, a target outside the limits stops and is rejected, any other is recorded |
| VirtualServo.VirtualCiA402Servo.ProcessCycle | device/virtual_servo_drive/servo_model.py:215-255 | automaton, mode handler and statusword of one cycle |
| VirtualServo.VirtualCiA402Servo.ProcessHoming | device/virtual_servo_drive/servo_model.py:261-293 | the homing handler's effect on the whole state |
| VirtualServo.VirtualCiA402Servo.ProcessPp | device/virtual_servo_drive/servo_model.py:299-344 | halt, missing reference, rejected, new and running set-points of profile position |
| VirtualServo.VirtualCiA402Servo.AdvancePp | device/virtual_servo_drive/servo_model.py:346-416 | one cycle of an active profile position move |
| VirtualServo.VirtualCiA402Servo.ProcessPv | device/virtual_servo_drive/servo_model.py:484-516 | the profile velocity handler's effect on the whole state |
| VirtualServo.VirtualCiA402Servo.ProcessJog | device/virtual_servo_drive/servo_model.py:522-553 | the jog handler's effect on the whole state |
| VirtualServo.VirtualCiA402Servo.ProcessCsp | device/virtual_servo_drive/servo_model.py:622-683 | the CSP handler's effect on the whole state |
| IoLink.MaskTest | device/io_link/iodd_process_data.py:106-108 | the conjunction of the growing mask and a field's mask is zero exactly when the field shares no bit with any accepted field |
| IoLink.CheckFields | device/io_link/iodd_process_data.py:101-110 | accepted are exactly the field sets inside the input, pairwise disjoint in bits and distinct in subindex |
| IoLink.Compile | device/io_link/iodd_process_data.py:61-116 | a layout is supported exactly when the record is acceptable, stated without masks, and then has exactly the record's fields |
| IoLink.DecodeProcessData | device/io_link/process_data.py:28-73 | configuration, validity, length and layout gates in order, then all fields of the profile's own bytes, boolean fields as status bits; a float that is not finite invalidates the data |
| IoLink.DecodedKinds | device/io_link/process_data.py:28-36 | which answer is given, exactly, from profile, validity, length, layout and finiteness of the float patterns |
| IoLink.DecodedField | device/io_link/process_data.py:38-73 | for any payload, the entry of every field: its place, its bits of the big-endian record, sign, float pattern, gradient and offset |
| IoLink.ExtractIsSlice | device/io_link/process_data.py:44 | shift and mask are division and remainder by powers of two |
| IoLink.MakeField | device/io_link/iodd_process_data.py:118-138 | which items make a field, and which field |
| IoLink.ExtractPacked | device/io_link/process_data.py:44 | shifting and masking a packed record gives each field its own code back |
| IoLink.RoundTrip | device/io_link/process_data.py:38-67 | for every accepted record and any values its fields can carry, packing them big-endian and decoding returns every value through its conversion, whatever padding follows |
| CpxLayout.AssignProcessImageOffsets | device/cpx_ap_i_ec/module_layout.py:258-272 | each module with bytes in a direction starts where the modules before it end; the others have no offset |
| CpxLayout.LayoutPartitions | device/cpx_ap_i_ec/module_layout.py:258-272 | module regions are ordered, disjoint, cover their channels, and together are exactly the module part of the image |
| CpxLayout.DigitalModule | device/cpx_ap_i_ec/module_layout.py:360-398 | a digital module takes the least whole bytes in each direction, and its ports carry the declared channels |
| CpxLayout.AnalogModule | device/cpx_ap_i_ec/module_layout.py:401-470 | an analog module takes channels times width bytes, and its ports carry the declared channels, width and sign |
| CpxLayout.IoLinkModule | device/cpx_ap_i_ec/module_layout.py:519-535 | an IO-Link module adds one status byte per port to its input data, and its ports carry bytes |
| CpxCodec.EncodeFrame | device/cpx_ap_i_ec/pdo_codec.py:17-43 | encoding a module changes no byte outside its region and never the image length, for images of any size |
| CpxCodec.PortReadBack | device/cpx_ap_i_ec/pdo_codec.py:74-156 | what is read back from a clear region is exactly the channels that fit the image, the rest false or zero |
| CpxCodec.ReadBack | device/cpx_ap_i_ec/pdo_codec.py:3-71 | in an image of any size every module of the station reads back its own channels as far as they fit: no module disturbs another |
| CpxCodec.FullImage | device/cpx_ap_i_ec/pdo_codec.py:3-71 | an image that holds the whole station loses nothing |
| CpxCodec.DigitalPlace | device/cpx_ap_i_ec/pdo_codec.py:74-94 | digital channel i of a module is bit i mod 8 of its byte i div 8 |
| CpxCodec.AnalogPlace | device/cpx_ap_i_ec/pdo_codec.py:97-131 | byte k of an analog channel is its 256^k digit, two's complement, low byte first |
| CpxCodec.IoLinkPlace | device/cpx_ap_i_ec/pdo_codec.py:134-156 | IO-Link bytes lie in the image as they are |
| CpxCodec.AnalogRange | device/cpx_ap_i_ec/pdo.py:134-149 | the range of an analog channel is exactly the values its bytes can carry |
| CpxCodec.DigitalChannelAlone | device/cpx_ap_i_ec/pdo_codec.py:74-94 | setting one digital channel changes that channel alone on read-back, truncated images included |
| CpxCodec.AnalogChannelAlone | device/cpx_ap_i_ec/pdo_codec.py:97-131 | setting one analog channel changes that channel alone on read-back, truncated images included |
| CpxPdo.WriteDigitalBits | device/cpx_ap_i_ec/pdo_codec.py:74-84 | bits OR-ed in place into the bytes that exist |
| CpxPdo.ReadDigitalBits | device/cpx_ap_i_ec/pdo_codec.py:87-94 | bits read, false beyond the end |
| CpxPdo.WriteAnalogValues | device/cpx_ap_i_ec/pdo_codec.py:97-115 | little-endian two's complement values in place, up to the first that does not fit |
| CpxPdo.ReadAnalogValues | device/cpx_ap_i_ec/pdo_codec.py:118-131 | values read, zero where they do not fit |
| CpxPdo.WriteBytes | device/cpx_ap_i_ec/pdo_codec.py:146-156 | bytes copied in place, padded with zeros and cut at the end |
| CpxPdo.ReadBytes | device/cpx_ap_i_ec/pdo_codec.py:134-143 | bytes read, padded with zeros beyond the end |
| CpxPdo.EncodeStores | device/cpx_ap_i_ec/pdo_codec.py:3-8 | a fresh image with every module's channels |
| CpxPdo.LoadStores | device/cpx_ap_i_ec/pdo_codec.py:10-14 | every module's channels replaced by what the image holds for it |
| CpxPdo.ValidateAnalogValue | device/cpx_ap_i_ec/pdo.py:134-149 | a value is accepted exactly when it fits the module's width and sign |
| CpxPdo.ChannelStore.SetDigital | device/cpx_ap_i_ec/pdo.py:28-33 | sets an existing channel, refuses any other, changes nothing else |
| CpxPdo.ChannelStore.SetAnalog | device/cpx_ap_i_ec/pdo.py:38-46 | sets an existing channel to a value in range, refuses anything else, changes nothing else |
| CpxPdo.ChannelStore.SetIoLink | device/virtual_cpx_ap_i_ec/module.py:96-103 | replaces the IO-Link bytes only by as many bytes |
| CpxStation.SelectedFixedPdo | device/cpx_ap_i_ec/pdo_configuration.py:141-151 | the first of the smallest fixed PDOs that hold the required bytes, or none when even the largest is too small |
| CpxStation.PdoBlocks | device/cpx_ap_i_ec/pdo_configuration.py:154-167 | one block per entry that is not padding, in order |
| CpxStation.BlocksFill | device/cpx_ap_i_ec/pdo_configuration.py:154-167 | whole-byte entries give blocks that fill the fixed PDO exactly; otherwise the blocks still hold every mapped bit |
| CpxStation.ImageSurvives | device/virtual_cpx_ap_i_ec/device.py:153-169 | an image cut into object dictionary blocks comes back whole, joined by the station or sent by the bridge |
| CpxStation.VirtualCpxApDevice.ModelUpdate | device/virtual_cpx_ap_i_ec/device.py:64-80 | every module takes its outputs from the joined output blocks, and the input blocks are the encoding of the modules' inputs |
| CpxStation.ExchangeDelivers | device/virtual_device/od_bridge.py:27-60 | for an assigned layout and large enough blocks, the way through encode, split, rejoin and decode is lossless in both directions |
| CpxStation.Exchange | ethercat/mock_slave.py:12-15 | after one exchange every virtual module's outputs equal the master's outputs at prepare time and every master input equals the module's input |
| ObjectDictionary.ValueRoundTrip | device/od_value_codec.py:28-68 | decoding undoes encoding for every value an integer or byte array type holds |
| ObjectDictionary.EveryCodeIsAValue | device/od_value_codec.py:28-68 | every byte string of a type's length is the encoding of exactly one value it holds |
| ObjectDictionary.ValueBytes | device/od_value_codec.py:28-68 | integers are little-endian two's complement, byte by byte |
| ObjectDictionary.StorageKeyInjective | device/virtual_device/od_model.py:131-135 | two objects share a storage key exactly when index and subindex agree |
| ObjectDictionary.VirtualOdModel.Write | device/virtual_device/od_model.py:107-111 | an existing object takes the value and is recorded as the last request; a missing one fails and changes nothing |
| ObjectDictionary.VirtualOdModel.WriteInternal | device/virtual_device/od_model.py:113-114 | an existing object takes the value without being recorded |
| OdBridge.VirtualOdBridge.RxPdoPayloadToOd | device/virtual_device/od_bridge.py:27-45 | a long enough payload is stored object by object; a short one, or a mapped object missing from the dictionary, fails after exactly the objects before it |
| OdBridge.VirtualOdBridge.OdToTxPdoPayload | device/virtual_device/od_bridge.py:47-60 | mapped objects encoded in order with padding as zeros, or failure where one cannot be encoded |
| OdBridge.StoredValue | device/virtual_device/od_bridge.py:30-45 | with distinct keys every mapped object ends up with its own slice of the payload |
| OdBridge.StoredElsewhere | device/virtual_device/od_bridge.py:30-45 | no other object changes |
| CmmtCodec.EncodeMapping | device/cmmt/pdo_codec.py:32-40 | fields packed in mapping order, or failure where a field is missing or out of range |
| CmmtCodec.DecodeMapping | device/cmmt/pdo_codec.py:20-50 | a payload shorter than the mapping is refused and changes nothing; otherwise every field takes its slice |
| CmmtCodec.DecodeUndoesEncode | device/cmmt/pdo_codec.py:32-63 | with distinct fields in range the payload has the mapping's size and decodes to the same fields, across padding and whatever follows |
| CmmtCodec.BridgeStoresFields | device/virtual_device/od_bridge.py:27-45 | the bridge, walking its own offsets, stores in each mapped object the value the master encoded |
| CmmtCodec.BridgeSendsWhatMasterEncodes | device/virtual_device/od_bridge.py:47-60 | a dictionary and a master object that agree produce the same payload |
| CmmtCodec.BridgeDeliversFields | device/cmmt/pdo_codec.py:20-50 | the values the drive holds at its transmit objects reach the master's fields unchanged |
| MasterSpec.ProtocolSafety | ethercat/mock_master.py:161-259 | over every trace, the process data calls accepted since connect or close are a prefix of prepare, send, receive, prepare, ...; the payloads in flight are the encodings taken at the matching prepare |
| MasterSpec.ReceiveDeliversPreparedOutputs | ethercat/mock_master.py:200-225 | an accepted receive has handed every endpoint the encoding its slave had at the matching prepare, stored and decoded its answer, and left the working counter at the number of slaves |
| MasterSpec.StartingOverClears | ethercat/mock_master.py:234-246 | closing and connecting leave no snapshot and no working counter of an earlier exchange, and touch nothing else of slaves and endpoints |
| MasterSpec.OutcomesExactly | ethercat/mock_master.py:161-232 | exactly when prepare, send and receive are accepted, and which refusals are communication exceptions: a closed transport, or a first unanswered endpoint that lost its connection |
| MasterSpec.RefusalsCommitNothing | ethercat/master_pdo_runtime.py:13-48 | a refused prepare or send changes nothing; a receive refused before decoding decodes no slave; one whose decoder raises has committed exactly the slaves before it |
| MockMaster.MockMaster.Connect | ethercat/mock_master.py:50-62 | only PRE-OP is accepted; process data starts over; refused profiles close again |
| MockMaster.MockMaster.EnterOperational | ethercat/mock_master.py:64-69 | only from PRE-OP |
| MockMaster.MockMaster.Shutdown | ethercat/mock_master.py:71-75 | transport closed, process data and every snapshot cleared |
| MockMaster.MockMaster.PrepareProcessdata | ethercat/mock_master.py:185-198 | all slaves encode before any is committed |
| MockMaster.MockMaster.SendProcessdata | ethercat/mock_master.py:161-183 | prepared snapshots become transmitted ones |
| MockMaster.MockMaster.DecodeInputs | ethercat/mock_master.py:222-223 | validated answers decoded and committed in order up to the first decoder that raises |
| MockMaster.MockMaster.ReceiveProcessdata | ethercat/mock_master.py:200-225 | endpoints served in order up to the first failure, all answers validated, then decoded; connection losses told from other exceptions |
| Recovery.ExchangeIsAnOutcome | motion_server/app/cycle.py:51-68 | exactly when an exchange of the master completes, loses communication, crashes while idle or crashes after send, with the working counter it leaves; close, connect and enter operational act on the master as recovery assumes |
| Recovery.ServerSession.WaitForStableProcessdata | motion_server/app/recovery.py:251-276 | succeeds exactly when three full working counters in a row are seen before an exception or the deadline |
| Recovery.ServerSession.ConnectUntil | motion_server/app/recovery.py:199-216 | connects in PRE-OP exactly when an attempt before the deadline succeeds, and leaves the transport closed otherwise |
| Recovery.ServerSession.ReconnectRuntime | motion_server/app/recovery.py:55-116 | refused for a foreign runtime or during a recovery; succeeds exactly when rediscovery, restoration and stable process data succeed in time, then NORMAL or FAULT on a running bus; otherwise BUS_DISCONNECTED on a closed one |
| Recovery.ServerSession.RestartAxisRuntime | motion_server/app/recovery.py:138-196 | the same refusals and conditions for an axis restart, which ends in FAULT on a running bus when it is only late |
| Recovery.ServerSession.MarkBusDisconnected | motion_server/app/recovery.py:38-52 | the transport is closed and the server BUS_DISCONNECTED |
| Recovery.ServerSession.RunCycle | motion_server/server.py:167-218 | a communication exception of exchange or monitor closes the bus; any other exception ends the server loop with session and master as they stand; otherwise the monitor may raise FAULT |
| Recovery.ServerSession.ResetFaults | motion_server/handlers/command/server.py:8-23 | FAULT is cleared exactly when no global fault is left |
| Recovery.AgreementOverRuns | motion_server/app/recovery.py:38-196 | over every run of cycles, failures, fault resets, reconnects and restarts: BUS_DISCONNECTED exactly when the transport is closed, NORMAL and FAULT only on an operational master in the idle phase, recovery flag clear - exactly when no cycle was stranded after prepare by an exception the server does not catch, and always while the server loop goes on |
| Recovery.ShortAnswerStrands | ethercat/master_pdo_runtime.py:28-39 | a slave that answers too few bytes crashes the exchange after send: the session stays NORMAL, the master in the sent phase |
| Recovery.RecoveryNeedsStableProcessdata | motion_server/app/recovery.py:219-276 | a disconnected server has left that state exactly when some recovery saw three full working counters in a row and no operation has closed the bus since |
| Recovery.StateIsLastDecision | motion_server/app/recovery.py:38-196 | over every run the server state is what the last deciding operation decided, read off the operations: FAULT after a monitor fault, a reconnect in time with a global fault, or a late restart; NORMAL after the others that restore, or a fault reset with no global fault left; BUS_DISCONNECTED after a communication failure or a failed recovery |
| Recovery.OneOperationDecides | motion_server/app/recovery.py:38-196 | what one operation decides of state, bus and loop |
| DistributedClock.WrappedErrorIsNearest | ethercat/distributed_clock.py:75-83 | the wrapped error is congruent to DC time minus target phase and at most half a cycle in magnitude |
| DistributedClock.TargetPhaseCompletes | ethercat/distributed_clock.py:37-38 | phase offset and target phase together are whole cycles |
| DistributedClock.DeadlineOnPhase | ethercat/distributed_clock.py:122-135 | a deadline waits more than nothing and at most a cycle, and lands on the target phase |
| DistributedClock.DeadlinesFollow | ethercat/distributed_clock.py:94-135 | with a constant clock offset, recomputing before a deadline repeats it and recomputing within a cycle after it gives exactly the next |
| DistributedClock.AbsoluteCycleDeadline | ethercat/distributed_clock.py:122-135 | the deadline for the estimated DC time, from the last receive stamps or the direct reading |
| DistributedClock.EstimateRuns | ethercat/distributed_clock.py:94-111 | the DC estimate runs with the monotonic clock through the last receive stamps, or is the direct reading |
| DistributedClock.DcPhaseLock.Update | ethercat/distributed_clock.py:43-73 | the PI update with both clamps; integral and correction stay bounded |
| DistributedClock.CorrectionOpposesError | ethercat/distributed_clock.py:63-73 | with unsigned gains the correction never adds to an error and integral of one sign, and strictly opposes it when gain, error and maximum are positive |
| DistributedClock.IntegralFollowsError | ethercat/distributed_clock.py:43-62 | the integral moves by the error until it meets its bound; without a time nothing changes, a disabled lock is cleared |
| DistributedClock.CorrectionShrinksError | ethercat/distributed_clock.py:43-83 | a proportional correction applied to the next transmission leaves a phase error of the same sign, smaller while it is worth a nanosecond |
| DistributedClock.PhaseLocks | ethercat/distributed_clock.py:43-83 | over any number of passes on time the phase error never changes sign or grows, and after as many passes as it has nanoseconds its correction is below one |
| DistributedClock.WaitUntil | motion_server/app/cycle.py:78-87 | waiting ends at the first clock reading that has reached the deadline |
| DistributedClock.ScheduleBound | motion_server/server.py:245-248 | over any run of phase errors, integral and correction stay within the maximum, and the next deadline lies in [start - T, start + T + maximum correction] |
| DistributedClock.OnTimeSchedule | motion_server/server.py:245-248 | a loop that keeps up has its deadline at the first one plus a period for every pass and all corrections |
| ClientTransport.ClientInput.ServiceChunk | motion_server/app/client_transport.py:28-42 | each chunk hands over the complete lines that are not blank and keeps the rest |
| ClientTransport.FrameConserves | motion_server/app/client_transport.py:28-30 | lines and rest put together again are the received text |
| ClientTransport.HandsOverExactly | motion_server/app/client_transport.py:31-42 | exactly the lines that are not blank are handed over, in order |
| ClientTransport.ChunkingIsInvisible | motion_server/app/client_transport.py:28-42 | lines handed over and text left depend only on the concatenated text, not on how it was chunked |
| ClientTransport.ClientOutput.SendClientMessage | motion_server/api/encoder.py:98-107 | a message is queued whole, or refused whole beyond 4 MiB |
| ClientTransport.ClientOutput.FlushClientOutput | motion_server/app/client_transport.py:55-67 | exactly the prefix the socket took leaves the buffer |
| ClientTransport.OutputConserved | motion_server/app/client_transport.py:55-67 | over any run, bytes sent followed by the buffer are the accepted payloads in order, and the buffer never exceeds 4 MiB |
| ClientTransport.NothingRefusedEarly | motion_server/api/encoder.py:98-107 | as long as no more than 4 MiB are queued every message is accepted, and what the socket took is what was sent |
| ConfigText.SplitIndexedConfigList | configuration/file_parser.py:72-88 | explicit indices are taken, missing ones continue from the last, empty entries are dropped |
| ConfigText.WrittenListParses | configuration/file_parser.py:72-88 | a list as written, with any whitespace: empty entries dropped, labels kept, other values numbered on from the one before |
| ConfigText.StripsPadding | configuration/file_parser.py:75-78 | stripping takes exactly the whitespace around a text |
| ConfigText.IndexedListRoundTrip | device/cpx_ap_i_ec/profile.py:30-33 | a list the parser produced, printed and parsed again, has the same indices and values exactly when no value contains a newline, so always when the text has none |
| ConfigText.NewlineBreaksRoundTrip | configuration/file_parser.py:5-6 | a value with a newline comes back changed |
| ConfigText.SplitModuleList | device/cpx_ap_i_ec/module_layout.py:275-282 | duplicate slots are refused, otherwise modules come out sorted by slot |
| ConfigText.SortedIsSorted | device/cpx_ap_i_ec/module_layout.py:275-282 | sorting by slot orders the modules and loses none |
| ConfigText.ModuleListRoundTrip | configuration/builder.py:320-327 | a module list printed by the profile and parsed again gives the same modules in slot order, or the same refusal of duplicate slots, whenever no value contains a newline; for distinct slots exactly then |
| ConfigText.NewlineChangesModules | configuration/file_parser.py:5-6 | with a newline in some value the re-parsed modules differ, however sorted |
| ConfigText.PortRoundTrip | configuration/models.py:178-206 | a port read from a declaration prints as a declaration of the same port |
| ConfigText.WrittenPort | configuration/models.py:178-206 | exactly which declarations of trimmed parts are accepted: not without a selector, and no profile for an empty name, "-", "none" or "null" |
| ConfigText.PortListRoundTrip | device/cpx_ap_i_ec/profile.py:34-37 | every IO-Link port list the parser produces survives printing and parsing again |

## Left out

- Control panels, ROS and MoveIt bridges, packaging, diagnostics scripts, command handlers: plumbing around this core.
- PySOEM transport: its process data automaton is the one `MasterSpec` states for the in-process master.
- ESI and IODD parsing: catalogs are inputs; sizes that cover the declared channels and whole-byte fixed PDO entries are preconditions where used.
- IODD conversion metadata beyond gradient, offset and unit, and the text of refusal reasons: a refused record is `Unsupported` without its reason.
- Floating point: rounding, overflow and non-finite intermediate results of real arithmetic are not modelled; IEEE decoding of a 32-bit pattern is a parameter.
- The object dictionary of the servo is a record of the objects the drive reads and writes, not the generic key-value store; `ObjectDictionary` models that store for the bridge.
- `overlay`, roles and string-typed objects of the virtual object dictionary: lookups and defaults only.
- `set_position_loop_gain`: nothing in the repository calls it; the gain is the constant 5.
- AP and ISDU gateway requests of the CPX station: they run only when the last object written is a request object, which no process data exchange leaves behind.
- ReconnectRuntime and RestartAxisRuntime: diagnostics other than the resulting runtime state are not modelled.
- ReceiveProcessdata: time stamps and the distributed clock reading are not modelled.
- RunCycle: exceptions of the trajectory update before the exchange and of the logging after it are not modelled; a communication exception there is the operation `BusFailure`.
- Digit classes are ASCII: other decimal digits, and underscores inside a port profile number, are not modelled.
- PhaseLocks: convergence is stated for a proportional lock; with an integral gain the integral left at zero error overshoots, and only the direction of the correction is claimed (`CorrectionOpposesError`).
- ServiceChunk: decoding of a chunk that splits a multi-byte character is not modelled; JSON parsing and dispatch of a line belong to the handlers.
- Cycle statistics, logging, runtime parameter cache, startup configuration.
