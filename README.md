# M8 data packet parser, modelled in Dafny

This project models `DataPacketParserM8`, the streaming decoder of the
Quanergy client library that turns already-deserialised M8 lidar data packets
into point clouds. The decoder keeps state from one call to the next:

- the cloud being collected and a scratch cloud used for organizing;
- the azimuth of the last appended firing;
- the packet and cloud counters;
- the return-selection mode and the minimum and maximum cloud sizes.

Each packet holds a sensor status, a protocol version, a time stamp and a
fixed number of firings. A firing holds an encoder position and, for each of
3 echo slots and each laser, a raw distance and a raw intensity.

A packet with a nonzero status is rejected; status 1 is the fatal
firmware-mismatch error. Otherwise the decoder works in this order:

1. It decides the spin direction from the first and last firing.
2. It decides once, for the whole packet, whether the cloud is already full.
3. For every firing, it tests whether the azimuth wrapped against the spin
   direction. A wrap closes the rotation: a cloud larger than the minimum size
   is stamped with the packet time, the cloud counter and the frame, and
   emitted. Unless every return is kept, the cloud is organized into
   ring-major order first. Then a fresh, empty, dense cloud takes its place.
4. Unless the cloud was full, it appends the firing's points according to the
   return selection and remembers the firing's azimuth.

Modules, in dependency order:

- `Wrappers` (`wrappers.dfy`): an `Option` type.
- `M8Packet` (`packet.dfy`): packets, firings, points, clouds and headers, the
  selection modes, and the packet time stamp.
- `AngleTables` (`angles.dfy`): the shifted encoder tick
  `(p + R/2) mod R` that both the horizontal table and the azimuth use, and
  its relation to exact degrees.
- `ReturnSelector` (`returns.dfy`): which echoes of a firing become points.
- `CloudOrganizer` (`organize.dfy`): the firing-order to ring-major reorder,
  as a specification function and as the double loop that computes it.
- `ScanAssembler` (`scan.dfy`): the effect of one firing and of one packet on
  the decoder state, as pure functions, with the properties proved about them.
- `Parser` (`parser.dfy`): the class `DataPacketParserM8`. It holds the two
  lookup tables as arrays and the running state as fields. Each method is
  proved to update that state exactly as the `ScanAssembler` functions say.

Modelling choices:

- Azimuths are integers, not floating point. An azimuth is represented by its
  shifted tick. The angle in degrees, `tick / R * 360 - 180`, is strictly
  increasing in the tick (`AngleTables.AzimuthIncreasing`), so comparing
  ticks decides exactly what comparing degrees decides
  (`AngleTables.BoundaryTestOnTicks`).
- The initial last azimuth of 65000 degrees is represented by the tick value
  `R`, which also lies above every real azimuth.
- The horizontal table stores the shifted tick of each raw position.
- Distances are the raw integers, and `None` stands for "not a number".
- The header constants are parameters of the constructor: the encoder ticks
  per rotation, the laser count, the firings per packet and the vertical
  angles. The constructor requires the first three to be positive and exactly
  one vertical angle per laser. The default selection mode, the defaults of
  both size limits and the frame identifier are also constructor parameters.
- The size limits are signed 32-bit values in the source, and it compares the
  cloud's unsigned `size()` with them. The model makes that conversion
  explicit (`ScanAssembler.AsSize`): a negative limit counts as 2^64 plus the
  limit. So a negative maximum is never reached and a negative minimum is
  never exceeded (`ScanAssembler.NegativeMaximumNeverFull`,
  `ScanAssembler.NegativeMinimumNeverEmits`).
- The return-selection values 0, 1 and 2 are named `Max`, `First` and `Last`.
  These names follow the comment at `data_packet_parser_m8.cpp:162`. The
  model depends only on the slot numbers.

Behaviour of the code worth noting:

- **Azimuth range.** The azimuth lies in [-180, 180): position R - R/2 gives
  -180 degrees, and no position gives +180.
- **Where a rotation ends.** The wrap that closes a rotation is the drop in
  azimuth from just below +180 to -180, at raw position R - R/2. It is not the
  raw encoder wrap from R to 0: positions R and 0 give the same azimuth
  (`AngleTables.HorizontalTableWraps`). Firings whose azimuths run
  monotonically in the spin direction close no rotation; a single drop (a
  single rise when spinning backward) closes exactly one
  (`ScanAssembler.ForwardSweepWithoutWrap`,
  `ScanAssembler.ForwardSweepWrapsOnce` and their backward mirrors).
- **Organize order.** Organizing keeps firing order within a ring. For 2
  lasers and 3 firings the result is `[f0c1, f1c1, f2c1, f0c0, f1c0, f2c0]`
  (`CloudOrganizer.OrganizedExample`).
- **Size-limit order.** The size limits do not always keep minimum ≤ maximum:
  raising only the minimum can leave it above the maximum
  (`ScanAssembler.SizeLimitsOrderNotKept`).
- **Maximum size.** The maximum size is not a hard cap. Fullness is decided
  once per packet, so a cloud can grow past the maximum by up to one packet's
  worth of points (`ScanAssembler.ParseBoundsCloudSize`). With a negative
  maximum the cloud is never full at all.
- **Emitted dense flag.** An organized cloud does not take the collected
  cloud's dense flag. It takes the scratch buffer's flag, which is left over
  from an earlier cloud (`ScanAssembler.Boundary`,
  `ScanAssembler.OrganizedDenseFlagIsStale`). This is modelled as the code
  has it.

## Model

| member | source | states |
|---|---|---|
| `Parser.DataPacketParserM8.constructor` | src/parsers/data_packet_parser_m8.cpp:15-42 | The configuration is set; both tables are filled; the state is the initial one: no packets, no clouds, two empty dense buffers, sentinel azimuth. The state invariant holds. |
| `Parser.HorizontalTable` | src/parsers/data_packet_parser_m8.cpp:22-35 | The table has R+1 entries; entry i is the shifted tick of i. |
| `Parser.VerticalTable` | src/parsers/data_packet_parser_m8.cpp:37-41 | The table is an exact copy of the per-laser vertical angles. |
| `Parser.DataPacketParserM8.SetReturnSelection` | src/parsers/data_packet_parser_m8.cpp:44-47 | Only the selection mode changes. |
| `Parser.DataPacketParserM8.SetCloudSizeLimits` | src/parsers/data_packet_parser_m8.cpp:49-55 | The limits become `CloudSizeLimits` of the old limits and the arguments; nothing else changes. |
| `ScanAssembler.CloudSizeLimits` | src/parsers/data_packet_parser_m8.cpp:49-55 | A non-positive argument keeps its limit. A positive minimum is stored as given and is ≥ 1. A positive maximum becomes the larger of itself and the new minimum, so it is ≥ both. |
| `ScanAssembler.SizeLimitsOrderNotKept` | src/parsers/data_packet_parser_m8.cpp:51-54 | Raising only the minimum (1, 5 with arguments 10, 0) gives limits (10, 5): minimum above maximum. |
| `Parser.DataPacketParserM8.Parse` | src/parsers/data_packet_parser_m8.cpp:57-218 | The new state and the result are exactly `ParsePacket` of the old configuration, the old state and the packet. A state that satisfies the invariant (azimuth in range, truthful dense flag) still satisfies it afterwards. |
| `Parser.DataPacketParserM8.ProcessFirings` | src/parsers/data_packet_parser_m8.cpp:89-215 | After the firing loop, the state is the one `Fold` gives for the firings in order, and the result reports the fold's last emitted cloud. |
| `Parser.DataPacketParserM8.ProcessFiring` | src/parsers/data_packet_parser_m8.cpp:92-214 | One pass of the loop body leaves the state `FiringStep` gives, including the full flag and the reported cloud. |
| `Parser.DataPacketParserM8.AppendFiringPoints` | src/parsers/data_packet_parser_m8.cpp:139-212 | The current cloud becomes `AppendFiring` of the old one: the laser loop appends the points of lasers 0 to L-1 in order. |
| `Parser.DataPacketParserM8.AppendLaser` | src/parsers/data_packet_parser_m8.cpp:147-211 | One laser appends exactly `LaserPoints`. The dense flag is cleared exactly when a single-slot mode selects a zero distance. |
| `Parser.DataPacketParserM8.OrganizeCloud` | src/parsers/data_packet_parser_m8.cpp:220-253 | The buffers become `OrganizeBuffers` of the old buffers; nothing else changes. |
| `CloudOrganizer.OrganizePoints` | src/parsers/data_packet_parser_m8.cpp:230-247 | The double loop, rings top-down and firings in order, produces exactly `Organized`. |
| `CloudOrganizer.OrganizeBuffers` | src/parsers/data_packet_parser_m8.cpp:220-253 | The old current cloud becomes the scratch buffer. The new current cloud has the organized points, the old header, height L and width size/L. Its dense flag is the scratch buffer's, not the organized cloud's. |
| `CloudOrganizer.Organized` | src/parsers/data_packet_parser_m8.cpp:230-247 | The ring-major order, top ring first and firings in order within a ring. It never holds more points than its input; `OrganizedAt` and `OrganizedLength` give it exactly. |
| `CloudOrganizer.OrganizedLength` | src/parsers/data_packet_parser_m8.cpp:234-247 | The organized cloud holds L*(size/L) points; the remainder past the last whole firing is dropped. |
| `CloudOrganizer.OrganizedAt` | src/parsers/data_packet_parser_m8.cpp:237-245 | Output[(L-1-i)*width + j] == input[j*L + i] for every ring i < L and firing j < width. |
| `CloudOrganizer.OrganizedKeepsWholeFirings` | src/parsers/data_packet_parser_m8.cpp:237-245 | Every input point of a whole firing appears in the output, at the position of its ring and firing. |
| `CloudOrganizer.OrganizedExample` | src/parsers/data_packet_parser_m8.cpp:236-247 | Points 0..5 with 2 lasers become [1,3,5,0,2,4]; a seventh point is dropped. |
| `CloudOrganizer.RingMajorAt` | src/parsers/data_packet_parser_m8.cpp:237-245 | In the first m rings built, ring i's column j is laser i of firing j. |
| `AngleTables.ShiftedTick` | src/parsers/data_packet_parser_m8.cpp:27 | The shifted tick is below R. |
| `AngleTables.ShiftedTickValue` | src/parsers/data_packet_parser_m8.cpp:27 | For positions ≤ R the shifted tick is i + R/2, or i + R/2 - R once that reaches R. |
| `AngleTables.HorizontalTableWraps` | src/parsers/data_packet_parser_m8.cpp:24-34 | Table entries 0 and R are equal (both R/2), and position R - R/2 maps to tick 0, the -pi entry. |
| `AngleTables.HorizontalTableIncreasing` | src/parsers/data_packet_parser_m8.cpp:24-34 | The table is strictly increasing on each side of the wrap point R - R/2. |
| `AngleTables.AzimuthIncreasing` | src/parsers/data_packet_parser_m8.cpp:95 | The azimuth in degrees lies in [-180, 180); one tick is below another exactly when its degrees are. |
| `AngleTables.BoundaryTestOnTicks` | src/parsers/data_packet_parser_m8.cpp:95-97 | For both spin directions, the wrap test on degrees (with the 65000 sentinel) agrees with the same test on ticks. |
| `M8Packet.SlotIndex` | src/parsers/data_packet_parser_m8.cpp:190-192 | A single-slot mode reads one of the slots 0, 1, 2. |
| `M8Packet.PacketStamp` | src/parsers/data_packet_parser_m8.cpp:68-76 | The stamp in whole microseconds is at least seconds*10^6. A sub-second field below one second keeps it below (seconds+1)*10^6. `StampTruncatesExactTime` gives its exact value. |
| `M8Packet.StampTruncatesExactTime` | src/parsers/data_packet_parser_m8.cpp:68-76 | The stamp is seconds*10^6 plus the sub-second field in 10 ns units (version ≤ 3) or in ns (later), truncated to whole microseconds. |
| `M8Packet.StampExamples` | src/parsers/data_packet_parser_m8.cpp:70-76 | Sub-second field 100 adds 1 µs for version 3 and nothing for version 4. |
| `M8Packet.ConcatNoNaN` | src/parsers/data_packet_parser_m8.cpp:169-208 | Appending points keeps "no NaN point" exactly when the appended points have none. |
| `ReturnSelector.SelectedDistance` | src/parsers/data_packet_parser_m8.cpp:196-205 | A raw distance of 0 becomes "not a number"; any other raw distance is kept. |
| `ReturnSelector.KeptSlotsExact` | src/parsers/data_packet_parser_m8.cpp:165-186 | `ALL` mode keeps a slot exactly when its distance is nonzero and, for slots 1 and 2, differs from slot 0's; at most 3 slots are kept. |
| `ReturnSelector.LaserPoints` | src/parsers/data_packet_parser_m8.cpp:147-211 | The points of one laser: exactly one in a single-slot mode, at most 3 in `ALL` mode. `AllModeLaser` and `SingleModeFiring` give them point by point. |
| `ReturnSelector.AllModeLaser` | src/parsers/data_packet_parser_m8.cpp:158-187 | In `ALL` mode a laser yields one point per kept slot, in slot order. Each point has that slot's distance and slot 0's intensity. Slots 1 and 2 are compared only against slot 0. |
| `ReturnSelector.AllModeLaserShape` | src/parsers/data_packet_parser_m8.cpp:158-187 | Every `ALL` mode point has a real, nonzero distance, the firing's angle and the laser's ring and vertical angle. |
| `ReturnSelector.SingleModeFiring` | src/parsers/data_packet_parser_m8.cpp:147-211 | A single-slot mode appends exactly one point per laser in laser order. Point j has ring j, the firing's h, vertical[j], and slot k's intensity and distance (NaN for 0). |
| `ReturnSelector.AllModeFiring` | src/parsers/data_packet_parser_m8.cpp:147-187 | In `ALL` mode a firing yields at most 3 points per laser. None is NaN, and each carries the firing's h and its ring's vertical angle. |
| `ReturnSelector.FiringPoints` | src/parsers/data_packet_parser_m8.cpp:147-212 | The points of lasers 0..n-1 in laser order: at most 3 per laser in any mode, exactly one per laser in a single-slot mode. |
| `ReturnSelector.KeepsDenseExactly` | src/parsers/data_packet_parser_m8.cpp:188-201 | A firing leaves the dense flag set exactly when it produces no NaN point. |
| `ReturnSelector.FiringKeepsDense` | src/parsers/data_packet_parser_m8.cpp:158-201 | `ALL` mode never clears the dense flag. A single-slot mode clears it exactly when some laser's selected distance is 0. |
| `ScanAssembler.SpinDirection` | src/parsers/data_packet_parser_m8.cpp:81-85 | The direction is ±1. For positions at most 4000 apart it is +1 exactly when the positions do not decrease (equal gives +1). Further apart, the sign flips. |
| `ScanAssembler.IsBoundary` | src/parsers/data_packet_parser_m8.cpp:97 | Spinning forward, a boundary means the azimuth fell below the last one. Spinning backward, it means the azimuth rose above it. |
| `ScanAssembler.PacketDirection` | src/parsers/data_packet_parser_m8.cpp:81-85 | The spin direction of a packet, `SpinDirection` of its first and last position, is ±1. |
| `ScanAssembler.AsSize` | src/parsers/data_packet_parser_m8.cpp:87-99 | A limit compared with `size()` counts as itself when nonnegative and as 2^64 plus itself when negative. |
| `ScanAssembler.NegativeMaximumNeverFull` | src/parsers/data_packet_parser_m8.cpp:87 | With a negative 32-bit maximum, a cloud of fewer than 2^64 - 2^31 points is never full. |
| `ScanAssembler.NegativeMinimumNeverEmits` | src/parsers/data_packet_parser_m8.cpp:99-134 | With a negative 32-bit minimum, closing a rotation never emits such a cloud and leaves the counter alone. |
| `ScanAssembler.SentinelBoundary` | src/parsers/data_packet_parser_m8.cpp:97 | Against the initial sentinel, every firing is a boundary when spinning forward and none is when spinning backward. |
| `ScanAssembler.AppendFiring` | src/parsers/data_packet_parser_m8.cpp:139-212 | Appending keeps the header, the grid shape and the existing points as a prefix. It adds at most 3*L points and never sets a cleared dense flag. |
| `ScanAssembler.SingleModeAppend` | src/parsers/data_packet_parser_m8.cpp:188-211 | In a single-slot mode the cloud grows by exactly L points, with point j of the firing at offset j. |
| `ScanAssembler.AppendKeepsDenseFlag` | src/parsers/data_packet_parser_m8.cpp:196-201 | Appending a firing to a cloud whose dense flag is truthful keeps the flag truthful. |
| `ScanAssembler.Boundary` | src/parsers/data_packet_parser_m8.cpp:97-134 | The cloud is emitted exactly when its size exceeds the minimum, compared as an unsigned value. The emitted header is (packet time, counter before the increment, frame). The counter goes up by one. The organized or unorganized form depends on the mode. The old cloud becomes the scratch buffer when organized. In every case the fresh cloud is empty and dense and the full flag is cleared. |
| `ScanAssembler.OrganizedDenseFlagIsStale` | src/parsers/data_packet_parser_m8.cpp:226-228 | A cloud with a NaN point, organized into the initial scratch buffer, is reported dense. |
| `ScanAssembler.FiringStep` | src/parsers/data_packet_parser_m8.cpp:92-214 | A boundary firing starts the new cloud with exactly its own points. A non-boundary firing on a full cloud changes nothing, not even the last azimuth. Otherwise the firing is appended and its azimuth remembered. |
| `ScanAssembler.Fold` | src/parsers/data_packet_parser_m8.cpp:89-215 | `FiringStep` over the firings in order. Each firing closes at most one rotation, so the counter grows by at most the number of firings. |
| `ScanAssembler.FoldConcat` | src/parsers/data_packet_parser_m8.cpp:89-215 | Folding two runs of firings one after the other is folding their concatenation. |
| `ScanAssembler.NoWrapAppendsAll` | src/parsers/data_packet_parser_m8.cpp:89-215 | If no firing lies behind its predecessor in the spin direction, no rotation is closed: every firing is appended in order and the last azimuth is the last firing's. |
| `ScanAssembler.OneWrapClosesOnce` | src/parsers/data_packet_parser_m8.cpp:89-215 | With one wrap between two runs that do not wrap, exactly one rotation is closed. The counter grows by one exactly when the first run's cloud exceeds the minimum, and the current cloud holds exactly the firings from the wrap on. |
| `ScanAssembler.ForwardSweepWithoutWrap` | src/parsers/data_packet_parser_m8.cpp:89-215 | Spinning forward with azimuths that never decrease (from the last one on), every firing is appended and no cloud is closed. |
| `ScanAssembler.ForwardSweepWrapsOnce` | src/parsers/data_packet_parser_m8.cpp:89-215 | Spinning forward with a single drop in azimuth, exactly one rotation is closed and the current cloud holds the firings from the drop on. |
| `ScanAssembler.BackwardSweepWithoutWrap` | src/parsers/data_packet_parser_m8.cpp:89-215 | Spinning backward with azimuths that never increase, every firing is appended and no cloud is closed. |
| `ScanAssembler.BackwardSweepWrapsOnce` | src/parsers/data_packet_parser_m8.cpp:89-215 | Spinning backward with a single rise in azimuth, exactly one rotation is closed and the current cloud holds the firings from the rise on. |
| `ScanAssembler.TwoWrapsEmitBoth` | src/parsers/data_packet_parser_m8.cpp:97-121 | Two wraps in a row, each closing a cloud above the minimum, in `ALL` mode: the counter grows by two and the emitted cloud is the second, holding the one firing between the wraps. |
| `ScanAssembler.FullFoldChangesNothing` | src/parsers/data_packet_parser_m8.cpp:133-137 | A fold that ends full changed nothing. The flag is cleared only at a boundary and never set again within the packet. |
| `ScanAssembler.FullWithoutBoundary` | src/parsers/data_packet_parser_m8.cpp:87-137 | Firings without a boundary against a full cloud leave the scan unchanged. |
| `ScanAssembler.FoldGrowth` | src/parsers/data_packet_parser_m8.cpp:87-212 | Unless the fold ends full, the cloud holds at most its starting points (none if it started full) plus 3*L per firing. |
| `ScanAssembler.FoldEmitsLast` | src/parsers/data_packet_parser_m8.cpp:117-121 | The counter never decreases. The emitted cloud changes only when the counter moves. It is then the last one closed, numbered one below the final counter. |
| `ScanAssembler.FoldAzimuthInRange` | src/parsers/data_packet_parser_m8.cpp:214 | The last azimuth stays a valid tick or the sentinel. |
| `ScanAssembler.FoldKeepsDenseFlag` | src/parsers/data_packet_parser_m8.cpp:129-201 | The current cloud's dense flag stays truthful over the firings. In `ALL` mode every emitted cloud's flag is truthful too. |
| `ScanAssembler.StepKeepsDenseFlag` | src/parsers/data_packet_parser_m8.cpp:129-201 | One firing keeps the current cloud's dense flag truthful, and in `ALL` mode the emitted cloud's flag too. |
| `ScanAssembler.StartScan` | src/parsers/data_packet_parser_m8.cpp:87 | The full flag is set at the start of the packet exactly when the size is at least the maximum, compared as an unsigned value. |
| `ScanAssembler.Report` | src/parsers/data_packet_parser_m8.cpp:120-121 | A cloud is reported exactly when one was emitted, and it is that cloud. |
| `ScanAssembler.ParsePacket` | src/parsers/data_packet_parser_m8.cpp:57-218 | A nonzero status leaves the state unchanged and reports no cloud; the result is the firmware-mismatch error exactly when the status is 1. Status 0 increments the packet counter. |
| `ScanAssembler.ParseAccepted` | src/parsers/data_packet_parser_m8.cpp:68-90 | A status-0 packet is the fold of its firings, with the packet stamp and direction, from the scan start. |
| `ScanAssembler.ParseReportsLastCloud` | src/parsers/data_packet_parser_m8.cpp:107-121 | A new cloud is reported exactly when the cloud counter advanced. The reported cloud has the packet time, the new counter minus one, and the frame. |
| `ScanAssembler.FullPacketIsSkipped` | src/parsers/data_packet_parser_m8.cpp:87-137 | A packet arriving with a full cloud and no boundary changes only the packet counter and reports nothing. |
| `ScanAssembler.ParseBoundsCloudSize` | src/parsers/data_packet_parser_m8.cpp:87-137 | After a packet the cloud is unchanged or smaller than the unsigned maximum (at least 1) plus 3*L*F. |
| `ScanAssembler.ParseKeepsInvariant` | src/parsers/data_packet_parser_m8.cpp:57-218 | Every packet keeps the last azimuth in range and the dense flag truthful. In `ALL` mode each reported cloud's dense flag is truthful too. |
| `ScanAssembler.TwoRotationsInOnePacket` | src/parsers/data_packet_parser_m8.cpp:117-121 | A concrete packet with two boundaries: both clouds are counted; only the second (sequence 1) is reported. |
| `ScanAssembler.InitialState` | src/parsers/data_packet_parser_m8.cpp:15-21 | The initial state has zero counters, two empty dense clouds and the 65000-degree sentinel, and it satisfies the invariant. |

## Left out

- Console logging on nonzero status and on size-limit violations (lines 62, 103-104 and 125-126) is left out: it is output only and changes no state.
- Floating point is left out. The radians of the horizontal table, the degrees of the azimuth and the distances in meters are not modelled. The distance scale is 0.01 in both branches of lines 141-145, and distances are kept as raw integers.
- `M8Packet.StampTruncatesExactTime`: states the stamp as exact arithmetic truncated to whole microseconds. The double-precision products at lines 73 and 76, and their rounding, are not verified. At present-day seconds adjacent doubles of the sum are 0.25 apart, so the source's stamp can exceed the model's by 1 µs: version 4, seconds 1 700 000 000 and sub-second field 999 999 900 give 1700000001000000 in the source and 1700000000999999 here.
- Integer widths are left out. Counters, positions, distances and intensities are unbounded naturals, so wrap-around of the packet and cloud counters is not modelled. The size limits and the arguments of `setCloudSizeLimits` are unbounded integers instead of 32-bit values. Their comparison with the unsigned cloud size is modelled (`ScanAssembler.AsSize`, modulo 2^64, which is the C++ conversion for every 32-bit value); a 64-bit `size_t` is assumed.
- The spin direction subtracts positions as signed integers. This matches 16-bit positions promoted to `int`; the position type is declared in a header that is not part of this model.
- `Parser.DataPacketParserM8.Parse` requires every position of a status-0 packet to be at most R. A larger position reads past the end of the horizontal table (line 139), which the source does not guard against.
- The header constants are left as parameters: `M8_NUM_ROT_ANGLES`, `M8_NUM_LASERS`, `M8_FIRING_PER_PKT`, the contents of `M8_VERTICAL_ANGLES` and the default limits and mode. The header that defines them is not part of this model.
- The frame identifier comes from the base class `DataPacketParser`, which is not part of this model. It is a constructor parameter here, and no setter for it is modelled.
- Shared-pointer ownership is modelled as values: `reset`, `swap` and handing the emitted cloud to the caller. The emitted cloud is returned as a value, not shared.
- The point-cloud container's internals are modelled as plain sequences: `push_back`, `clear`, `reserve`, and the width and height bookkeeping the container does on its own. Only organizing writes the grid shape in this model.
- The firmware-mismatch exception is modelled as the result value `FirmwareVersionMismatch`, which leaves the state unchanged. It is raised before any field is written.
