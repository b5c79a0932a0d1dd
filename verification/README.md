# Verified model of the PERIDOT software stack

A Dafny model, with proofs, of the wire protocol that a small Nios II device speaks with its host,
and of the services on top of it. `dafny verify dfyconfig.toml` checks the whole project.

## What is modelled

* **Framing** (`AvalonSt`, `HostBridge`, `SourceRun`, `Demux`, `Exposure`, `BadCuts`, `EndToEnd`,
  `RawDelivery`, `RawCalls`, `RawBeside`). The software host bridge
  multiplexes channels on one byte stream in the Avalon-ST packets-to-bytes format. `AvalonSt` has a
  reference decoder written from the format, not from the code. The encoder, with its staging buffer
  and its omitted channel prefixes, is proved against it; the demultiplexer, which works in place on
  reads of arbitrary size, is proved to refine it; and the composition is the identity, whatever the
  cutting, for exactly the runs of calls that `RawCalls.EverythingArrivesIff` describes.
* **RPC** (`RpcSink`, `RpcServerSink`, `RpcSlot`, `RpcReply`, `RpcService`, `RpcLifecycle`,
  `RpcRoundTrip`). The sink deframes requests
  under back-pressure, a one-slot mailbox hands them to any number of workers, and each job is
  answered and freed. The sink appears twice: as a state machine, on which the runs are reasoned
  about, and as a class that changes its fields and buffers in place and is proved equal to it. The
  slot is a state machine over single steps of all threads; `RpcLifecycle` puts requests, replies and
  failing allocations into its runs, and `RpcRoundTrip` puts the line at both ends.
* **BSON** (`Bytes`, `Bson`, `BsonWriter`, `BsonReader`, `BsonEdit`). `Bson` is a printer and parser pair
  over recursive documents (BSON specification 1.1). The in-place setters, the scanner, the getters,
  shrinking and element copying work on arrays and are proved against it.
* **The pipe** (`Capacity`, `HostPipe`, `PipeCalls`, `PipeRing`). The ring between a sink and a reader, in single steps
  of both sides, byte by byte, each from a snapshot of the offsets; and the same two functions on an array.
* **The Avalon-MM sink** (`AvmSink`), a second deframer that answers reads of a small window.
* **Digests** (`Crc32`, `Crc32Vector`, `Words`, `Md5`, `Md5Vector`) against their mathematical definitions (RFC 2083,
  RFC 1321), with a published value of each worked out.
* **Remote files** (`VfdTable`, `VfdOpens`, `ClientPaths`). The table of virtual descriptors, in single steps of
  opens racing with cleanups, and the list of permitted paths.

Reads from and writes to the host, the outcome of `malloc`, the result of `open` and what a called
method does are parameters. A C string is modelled by its bytes before the NUL. Bytes are integers
from 0 to 255 except in the digests, which are on bit-vectors; machine words are little-endian.

## Where the code falls short of what one would expect

The model does what the code does. Where a property fails, a concrete run shows it, and the exact
condition under which it holds is proved.

* A raw channel does not always get its bytes back. The `memmove` that drops a special byte starts at the
  head of the buffer (`RawSinkGetsWrongBytes`), and a channel prefix that ends a read is delivered as data
  (`PlainSelectSpoils`). As long as other raw channels are spared such things, every cutting delivers what is
  sent on a raw channel if and only if that is plain bytes outside packets and the line, once on the channel,
  never selects a channel again (`RawArrivesForAnyCutIff`; within one stretch that stays on the channel,
  `RawArrivesIff`).
* Raw data can take a packetized channel with it (`RawByteLosesPacket`, `PacketAfterRawCanBeLost`). Over all
  channels together, every cutting is right if and only if no raw channel is disturbed like that and no packet
  is exposed as in the next point (`EverythingArrivesIff`).
* A read that ends between the escape and the body of an escaped channel number leaves a stray escape
  with the old sink (`EscapedNumberSpoilsPacket`). `PacketsArriveForAnyCut` says exactly for which calls
  some cutting spoils a packet; with channel numbers outside 0x7a..0x7d none does.
* A packet can post although it leaves no job (`ShortPacketPostsWithoutJob`); `PostsMatchJobs` says exactly
  which packets do, all of them shorter than 5 bytes. Some schedule of the workers then loses a job if and
  only if one is completed after such a post (`CanLoseIff`, `RequestsCanBeLostIff`); and with two workers or
  more some schedule frees that job twice (`JobFreedTwice`, `CanFreeTwiceIff`). One worker never does
  (`AloneAlways`).
* A packet that is cut off leaves its buffer with the sink, and a later frame can hand it to a worker half
  filled (`HeldBufferBecomesJob`) or overrun it (`OverlongFrame`). `FrameResynchronises` says exactly what
  becomes of one frame.
* A length field below 4 is granted a buffer that its own four bytes do not fit into; on bracketed streams
  nothing else makes the sink store outside an allocation (`FaultsIff`).
* The pipe's reader can sleep beside stored bytes for good (`WakeUpIsLost`); `WakeUpIsLostIff` says exactly
  in which runs, and `CanMissIff` for which capacities there are any. Order and content are safe in every interleaving.
* A read of the Avalon-MM sink stays in its window if and only if address plus size does not wrap around
  (`ReadStaysInWindow`).
* `validate_path` stops at the first entry that the path merely starts with and that does not grant the
  access (`ShorterNameShadows`); `ValidatePath` states exactly what is permitted.

## Model

| member | source | states |
|---|---|---|
| `EndToEnd.PacketsArriveForAnyCut` | peridot_sw_hostbridge_gen2/HAL/src/peridot_sw_hostbridge_gen2.c:115-320 | for every run of escaped source calls that spares the raw channels, and each registered channel: every cutting of the line into reads of up to READ_BUFFER_LEN bytes hands its sink bytes that deframe to exactly the packets sent on it, in order, if and only if the calls never leave the channel by an escaped number and then send on it first a packet whose first byte needs no escape |
| `EndToEnd.PacketsArrive` | peridot_sw_hostbridge_gen2/HAL/src/peridot_sw_hostbridge_gen2.c:115-320 | for one cutting: the same if no read ends between the escape and the body of a channel number, or the calls expose no packet on that channel |
| `EndToEnd.PlainNumbersArrive` | peridot_sw_hostbridge_gen2/HAL/src/peridot_sw_hostbridge_gen2.c:115-320 | with channel numbers that need no escape, every cutting delivers every packet |
| `EndToEnd.HarmfulReadsSpoil` | peridot_sw_hostbridge_gen2/HAL/src/peridot_sw_hostbridge_gen2.c:131-173 | for calls that expose a packet, a cutting of their line that does not deliver what was sent |
| `EndToEnd.EscapedNumberSpoilsPacket` | peridot_sw_hostbridge_gen2/HAL/src/peridot_sw_hostbridge_gen2.c:138-160 | such a run, byte by byte: the second packet on channel 1 arrives as 63 instead of 43 |
| `EndToEnd.ExposingLine` | peridot_sw_hostbridge_gen2/HAL/src/peridot_sw_hostbridge_gen2.c:265-320 | the two reads of that run are a cutting of what the encoder puts on the line for three packets |
| `EndToEnd.Transfer` | peridot_sw_hostbridge_gen2/HAL/src/peridot_sw_hostbridge_gen2.c:115-320 | the encoder loop on one bridge and the receiver loop on another, run on their fields and buffers, with raw channels registered or not, achieve this for every channel |
| `EndToEnd.SendAll` | peridot_sw_hostbridge_gen2/HAL/src/peridot_sw_hostbridge_gen2.c:265-320 | a run of source calls leaves exactly the specified line and the last channel number |
| `EndToEnd.RequestsArrive` | peridot_rpc_server/HAL/src/peridot_rpc_server.c:75-145 | down to the slot: under any such cutting and any schedule of push-back and of emptying the slot, the jobs are the admitted requests, in order, each once |
| `EndToEnd.RequestsCanBeLostIff` | peridot_rpc_server/HAL/src/peridot_rpc_server.c:132-141 | in single steps of sink and workers, with the posts that the delivered bytes make: some schedule loses a request if and only if a packet posts without a job before one with a job |
| `EndToEnd.RequestsCanBeFreedTwiceIff` | peridot_rpc_server/HAL/src/peridot_rpc_server.c:132-141 | and some schedule frees a request twice if and only if, besides, there are two workers or more |
| `EndToEnd.HandedIsSane` | peridot_rpc_server/HAL/src/peridot_rpc_server.c:75-145 | the delivered bytes are bracketed and deframe to the packets sent; they make the sink store outside an allocation if and only if a packet sent has a length field below 4 that is within the maximum and granted |
| `EndToEnd.DocumentsAreNotLost` | peridot_rpc_server/HAL/src/peridot_rpc_server.c:132-141 | so no schedule loses a request if every packet has at least 5 bytes |
| `RpcRoundTrip.DocumentsAreAnswered` | peridot_rpc_server/HAL/src/peridot_rpc_server.c:75-414 | documents sent on the channel among other calls, any cutting, any schedule, any failing allocations: the workers serve exactly the documents let in, in order; at rest each has had exactly the replies due; and what is sent, put on the line as packets, is recovered from it |
| `RpcRoundTrip.DocumentsCanBeAnswered` | peridot_rpc_server/HAL/src/peridot_rpc_server.c:75-414 | and with at least one worker there is a schedule for these packets after which nothing is under way and every document let in has had its replies |
| `RpcRoundTrip.DocumentsBecomeJobs` | peridot_rpc_server/HAL/src/peridot_rpc_server.c:75-145 | every document not above the maximum whose buffer is granted becomes one job with its bytes and one post, nothing else does, and nothing is stored outside an allocation |
| `RpcRoundTrip.DocsAdmitted` | peridot_rpc_server/HAL/src/peridot_rpc_server.c:103-135 | the sink admits the encodings of exactly those documents |
| `RpcRoundTrip.JobsParse` | peridot_rpc_server/HAL/src/peridot_rpc_server.c:277-300 | each job parses as its document |
| `RawCalls.EverythingArrivesIff` | peridot_sw_hostbridge_gen2/HAL/src/peridot_sw_hostbridge_gen2.c:115-320 | for every run of escaped source calls over any registered channels, raw and packetized: every cutting delivers everything sent on every channel if and only if no raw channel is disturbed and no packet of another one is exposed |
| `RawCalls.RawArrivesForAnyCutIff` | peridot_sw_hostbridge_gen2/HAL/src/peridot_sw_hostbridge_gen2.c:115-320 | for one raw channel, beside other raw channels that are spared: every cutting hands it exactly the data sent if and only if all that is sent on it is plain bytes outside packets and no channel is selected while the line stands on it |
| `RawCalls.RawSentArrives` | peridot_sw_hostbridge_gen2/HAL/src/peridot_sw_hostbridge_gen2.c:131-173 | one half, for one cutting: an undisturbed raw channel is handed exactly what was sent on it |
| `RawCalls.DisturbanceSpoils` | peridot_sw_hostbridge_gen2/HAL/src/peridot_sw_hostbridge_gen2.c:131-173 | the other half: whatever disturbs a raw channel, some cutting spoils what it is handed, whatever the other channels are |
| `RawCalls.PlainSelectSpoils` | peridot_sw_hostbridge_gen2/HAL/src/peridot_sw_hostbridge_gen2.c:135-137 | a channel prefix read apart from its number is delivered as data to the raw channel that the line is leaving, and otherwise not |
| `RawCalls.EscapedSelectSpoils` | peridot_sw_hostbridge_gen2/HAL/src/peridot_sw_hostbridge_gen2.c:138-160 | leaving it by an escaped number delivers 7c or 7d 7d, as the number is cut |
| `RawCalls.SpecialByteSpoils` | peridot_sw_hostbridge_gen2/HAL/src/peridot_sw_hostbridge_gen2.c:138-153 | a byte to be escaped is delivered with or without the escape undone, as the pair is cut |
| `RawCalls.PacketSpoils` | peridot_sw_hostbridge_gen2/HAL/src/peridot_sw_hostbridge_gen2.c:161-170 | anything sent as a packet: a read can deliver the end mark that is to be dropped |
| `RawCalls.EndOfPacketInside` | peridot_sw_hostbridge_gen2/HAL/src/peridot_sw_hostbridge_gen2.c:161-170 | that read: the end mark between two bytes of data is moved to the front and delivered |
| `RawCalls.ServeSingleBytes` | peridot_sw_hostbridge_gen2/HAL/src/peridot_sw_hostbridge_gen2.c:131-173 | read byte by byte the bridge stands where the decoder does, and no raw sink is handed 7a or 7b |
| `RawCalls.ServeAllShifts` | peridot_sw_hostbridge_gen2/HAL/src/peridot_sw_hostbridge_gen2.c:131-173 | what reads hand to the sinks does not depend on what was handed before |
| `RawCalls.SuppliedStep` | peridot_sw_hostbridge_gen2/HAL/src/peridot_sw_hostbridge_gen2.c:132-171 | every byte keeps what an undisturbed raw sink has been handed equal to what the decoder has put out on its channel |
| `RawCalls.UndisturbedIsSpared` | peridot_sw_hostbridge_gen2/HAL/src/peridot_sw_hostbridge_gen2.c:138-170 | raw channels that are not disturbed never make the bridge drop or rewrite a byte |
| `RawBeside.PacketAfterRawCanBeLost` | peridot_sw_hostbridge_gen2/HAL/src/peridot_sw_hostbridge_gen2.c:131-173 | a packet sent right after the line stood on a raw channel can be lost if the raw data ended in a byte to be escaped, or if the packet's channel number is escaped |
| `RawBeside.EscapeMeetsNumber` | peridot_sw_hostbridge_gen2/HAL/src/peridot_sw_hostbridge_gen2.c:138-160 | in one read the escape of such a byte is applied to the next channel number instead |
| `RawBeside.StartMeetsPrefix` | peridot_sw_hostbridge_gen2/HAL/src/peridot_sw_hostbridge_gen2.c:138-160 | an escaped number read whole leaves prefix and escape pending, and the start of the packet is taken for the number |
| `RawBeside.RawByteLosesPacket` | peridot_sw_hostbridge_gen2/HAL/src/peridot_sw_hostbridge_gen2.c:138-160 | for example: 7a on raw channel 2, then the packet 41 on channel 1, in the reads 7c 02 and 7d 5a 7c 01 7a 7b 41: channel 1 is handed nothing |
| `RawDelivery.RawArrivesIff` | peridot_sw_hostbridge_gen2/HAL/src/peridot_sw_hostbridge_gen2.c:138-170 | from any state in which the line stands on a raw channel, and as long as it stays there, every cutting of the escaped form of some data delivers the data if and only if no byte of it needs escaping |
| `RawDelivery.PlainReads` | peridot_sw_hostbridge_gen2/HAL/src/peridot_sw_hostbridge_gen2.c:131-173 | plain bytes reach a raw sink as they are, whatever the cutting |
| `RawDelivery.EscapedPair` | peridot_sw_hostbridge_gen2/HAL/src/peridot_sw_hostbridge_gen2.c:138-153 | an escape and its body in one read reach a raw sink as the bare body |
| `RawDelivery.BadReadsSpoil` | peridot_sw_hostbridge_gen2/HAL/src/peridot_sw_hostbridge_gen2.c:138-153 | for data with a byte that needs escaping, a cutting after which the sink has something else |
| `RawDelivery.BadReadsCut` | peridot_sw_hostbridge_gen2/HAL/src/peridot_sw_hostbridge_gen2.c:300-313 | that cutting is one of the escaped form of the data |
| `RawDelivery.ScanGrows` | peridot_sw_hostbridge_gen2/HAL/src/peridot_sw_hostbridge_gen2.c:131-173 | what a sink has been handed is never taken back, also on raw channels |
| `RawDelivery.RawSinkGetsWrongBytes` | peridot_sw_hostbridge_gen2/HAL/src/peridot_sw_hostbridge_gen2.c:138-145 | the escaped form of 41 7a is delivered as 7d 7d: the shift that drops an escape moves the start of the buffer |
| `Exposure.RiskOfRun` | peridot_sw_hostbridge_gen2/HAL/src/peridot_sw_hostbridge_gen2.c:265-320 | read off the line, an escape can be waiting at a sink, and a packet can be spoilt by it, exactly when the calls show it |
| `Exposure.RiskOfCall` | peridot_sw_hostbridge_gen2/HAL/src/peridot_sw_hostbridge_gen2.c:265-320 | the same for one call: its number, if it leaves the channel escaped, and its first byte |
| `Exposure.RiskOfFrame` | peridot_sw_hostbridge_gen2/HAL/src/peridot_sw_hostbridge_gen2.c:294-313 | the first byte of a frame spends the waiting escape, and is spoilt unless it is escaped itself |
| `Exposure.PlainNumbersExposeNothing` | peridot_sw_hostbridge_gen2/HAL/src/peridot_sw_hostbridge_gen2.c:270-283 | without escaped channel numbers nothing is exposed |
| `Exposure.CalmRun` | peridot_sw_hostbridge_gen2/HAL/src/peridot_sw_hostbridge_gen2.c:138-170 | if raw channels are only sent plain bytes outside packets, and left by plain numbers, the line never makes a raw sink drop or rewrite anything |
| `Exposure.UnusedRawIsSpared` | peridot_sw_hostbridge_gen2/HAL/src/peridot_sw_hostbridge_gen2.c:270-286 | in particular if no call names a raw channel |
| `BadCuts.CallEffect` | peridot_sw_hostbridge_gen2/HAL/src/peridot_sw_hostbridge_gen2.c:131-173 | what one call does to the sink of each channel when its number is read whole or cut between escape and body: which escape waits there, and which packet it gets |
| `BadCuts.SelectEffect` | peridot_sw_hostbridge_gen2/HAL/src/peridot_sw_hostbridge_gen2.c:135-160 | leaving a channel by an escaped number clears the waiting escape there, and leaves one if the number was cut |
| `BadCuts.ServeSelectCut` | peridot_sw_hostbridge_gen2/HAL/src/peridot_sw_hostbridge_gen2.c:135-173 | the cut number hands prefix and escape to the sink being left, and still selects the right channel |
| `BadCuts.ServeSelect` | peridot_sw_hostbridge_gen2/HAL/src/peridot_sw_hostbridge_gen2.c:135-160 | the whole number hands it the prefix if the number is escaped, and nothing otherwise |
| `BadCuts.CleanArrives` | peridot_sw_hostbridge_gen2/HAL/src/peridot_sw_hostbridge_gen2.c:115-320 | read with whole numbers, any calls deliver every packet |
| `BadCuts.RiskyLeaves` | peridot_sw_hostbridge_gen2/HAL/src/peridot_sw_hostbridge_gen2.c:115-320 | cut inside the last escaped number by which the line left a channel, they leave an escape waiting there |
| `BadCuts.HarmfulSpoils` | peridot_sw_hostbridge_gen2/HAL/src/peridot_sw_hostbridge_gen2.c:115-320 | and if a packet is exposed it comes out wrong and stays so |
| `BadCuts.JoinHarmful` | peridot_sw_hostbridge_gen2/HAL/src/peridot_sw_hostbridge_gen2.c:122-127 | the reads are a cutting of the line, none longer than the read buffer |
| `AvalonSt.EscapeXorInvolutive` | peridot_sw_hostbridge_gen2/HAL/inc/peridot_sw_hostbridge_gen2.h:13-20 | undoing the escape exclusive-or gives the byte back |
| `AvalonSt.EscapeXorFlipsBit5` | peridot_sw_hostbridge_gen2/HAL/inc/peridot_sw_hostbridge_gen2.h:13-20 | the escape exclusive-or flips bit 5 of a byte and no other |
| `AvalonSt.EscapedForms` | peridot_sw_hostbridge_gen2/HAL/inc/peridot_sw_hostbridge_gen2.h:13-20 | 7a, 7b, 7c and 7d go on the line as 7d 5a, 7d 5b, 7d 5c and 7d 5d, and every other byte as itself |
| `AvalonSt.EscapedFrame` | peridot_sw_hostbridge_gen2/HAL/src/peridot_sw_hostbridge_gen2.c:291-315 | the packet of those four bytes, as a frame, byte for byte |
| `AvalonSt.TakeEscaped` | peridot_sw_hostbridge_gen2/HAL/src/peridot_sw_hostbridge_gen2.c:300-313 | a reference decoder reads escaped bytes as the bytes themselves, whatever they are, and the escaped form is legal |
| `AvalonSt.TakeFrame` | peridot_sw_hostbridge_gen2/HAL/src/peridot_sw_hostbridge_gen2.c:291-315 | a frame is legal between packets and decodes to exactly its payload, first and last byte marked |
| `AvalonSt.TakeAllConcat` | peridot_sw_hostbridge_gen2/HAL/src/peridot_sw_hostbridge_gen2.c:265-320 | decoding, and legality, of a line written in two parts is that of the parts in turn |
| `HostBridge.Bridge.Source` | peridot_sw_hostbridge_gen2/HAL/src/peridot_sw_hostbridge_gen2.c:265-320 | the call adds to the line the channel prefix if the channel changed or reset is set, then the payload verbatim, escaped or framed; and records the channel |
| `HostBridge.SourceOfSpecial` | peridot_sw_hostbridge_gen2/HAL/src/peridot_sw_hostbridge_gen2.c:265-320 | for example the packet 7b: first on channel 1, again on it, with a reset, and next on channel 7c, byte for byte |
| `HostBridge.SourceUnpacketized` | peridot_sw_hostbridge_gen2/HAL/src/peridot_sw_hostbridge_gen2.c:286-313 | the byte 7b without a packet: as it is on a packetized channel, 7d 5b on a raw one |
| `HostBridge.Bridge.WriteSelect` | peridot_sw_hostbridge_gen2/HAL/src/peridot_sw_hostbridge_gen2.c:271-284 | the three-byte buffer holds the prefix and the number, escaped if need be |
| `HostBridge.Bridge.WritePayload` | peridot_sw_hostbridge_gen2/HAL/src/peridot_sw_hostbridge_gen2.c:291-315 | the flushes of the staging buffer add up to the frame, or the escaped payload, of the whole input; the loop ends |
| `HostBridge.FillBuffer` | peridot_sw_hostbridge_gen2/HAL/src/peridot_sw_hostbridge_gen2.c:294-314 | one filling consumes input, stays within WRITE_BUFFER_LEN + 2 bytes and is the next part of the escaped form |
| `HostBridge.StageNext` | peridot_sw_hostbridge_gen2/HAL/src/peridot_sw_hostbridge_gen2.c:301-312 | one turn of the inner loop appends the next byte's escaped form, with the end mark before the last byte |
| `HostBridge.StageByte` | peridot_sw_hostbridge_gen2/HAL/src/peridot_sw_hostbridge_gen2.c:302-311 | at most three bytes are stored, and they are the end mark, the escape and the byte that are due |
| `HostBridge.WrittenNext` | peridot_sw_hostbridge_gen2/HAL/src/peridot_sw_hostbridge_gen2.c:300-313 | the escaped form of one more byte is that of the bytes before it, continued |
| `HostBridge.Find` | peridot_sw_hostbridge_gen2/HAL/src/peridot_sw_hostbridge_gen2.c:61-70 | the first registered channel of that number, or none exactly if no channel has it |
| `HostBridge.Bridge.FindChannel` | peridot_sw_hostbridge_gen2/HAL/src/peridot_sw_hostbridge_gen2.c:61-70 | the list walk finds that channel |
| `HostBridge.Bridge.RegisterChannel` | peridot_sw_hostbridge_gen2/HAL/src/peridot_sw_hostbridge_gen2.c:220-232 | appends the channel, or answers -EEXIST and changes nothing if the number is taken; numbers stay distinct |
| `HostBridge.FindAppend` | peridot_sw_hostbridge_gen2/HAL/src/peridot_sw_hostbridge_gen2.c:220-232 | a channel appended is found by its number and hides no earlier one |
| `HostBridge.AppendKeepsDistinct` | peridot_sw_hostbridge_gen2/HAL/src/peridot_sw_hostbridge_gen2.c:224-230 | appending a channel whose number is new keeps numbers distinct |
| `HostBridge.Bridge.WriteToChannel` | peridot_sw_hostbridge_gen2/HAL/src/peridot_sw_hostbridge_gen2.c:80-106 | the sink, if there is one, is handed exactly buffer[from..to], after what it was handed before |
| `HostBridge.Bridge.ScanDataByte` | peridot_sw_hostbridge_gen2/HAL/src/peridot_sw_hostbridge_gen2.c:154-170 | a channel number flushes the old sink and selects the new one; a special byte is dropped on a raw channel |
| `HostBridge.Bridge.ScanByte` | peridot_sw_hostbridge_gen2/HAL/src/peridot_sw_hostbridge_gen2.c:133-170 | one turn of the read loop changes buffer, indexes, flags and sinks as specified |
| `HostBridge.Bridge.Service` | peridot_sw_hostbridge_gen2/HAL/src/peridot_sw_hostbridge_gen2.c:115-174 | one read of up to READ_BUFFER_LEN bytes, processed in place, gives the specified deliveries and flags |
| `HostBridge.MemMoveDown` | peridot_sw_hostbridge_gen2/HAL/src/peridot_sw_hostbridge_gen2.c:143 | the overlapping move shifts the start of the buffer down by one |
| `SourceRun.TakeSelect` | peridot_sw_hostbridge_gen2/HAL/src/peridot_sw_hostbridge_gen2.c:270-286 | a channel prefix and number make an idle decoder stand on that channel and change nothing else |
| `SourceRun.TakeCall` | peridot_sw_hostbridge_gen2/HAL/src/peridot_sw_hostbridge_gen2.c:265-320 | after each call the decoder stands on the call's channel and has put out the call's bytes, although the prefix may be left out |
| `SourceRun.RunDecodes` | peridot_sw_hostbridge_gen2/HAL/src/peridot_sw_hostbridge_gen2.c:265-320 | over any run of escaped calls the line is legal, the decoder stands where source_channel_number says, and every byte comes out on its channel |
| `SourceRun.AssembleCall` | peridot_sw_hostbridge_gen2/HAL/src/peridot_sw_hostbridge_gen2.c:291-315 | the bytes of one call add one packet to its own channel and none to another |
| `SourceRun.RunAssembles` | peridot_sw_hostbridge_gen2/HAL/src/peridot_sw_hostbridge_gen2.c:265-320 | the packets of a run, channel by channel, are exactly those sent |
| `Demux.DemuxRefinesDecoder` | peridot_sw_hostbridge_gen2/HAL/src/peridot_sw_hostbridge_gen2.c:115-185 | the code's own passes over any cutting of a legal line that is calm on raw channels: each registered sink's bytes deframe to the packets the reference decoder finds on that channel, if no read ends inside an escaped number or none could do harm |
| `Demux.ServeAllIsServeReads` | peridot_sw_hostbridge_gen2/HAL/src/peridot_sw_hostbridge_gen2.c:131-173 | on such a line the passes over the buffer, raw branches included, do what the byte-by-byte demultiplexer does |
| `Demux.ServeIsServeRead` | peridot_sw_hostbridge_gen2/HAL/src/peridot_sw_hostbridge_gen2.c:131-173 | for one read that sends a raw sink nothing to drop or rewrite |
| `Demux.TracksStep` | peridot_sw_hostbridge_gen2/HAL/src/peridot_sw_hostbridge_gen2.c:132-171 | one turn of the loop with its indexes is one step of that demultiplexer |
| `Demux.CalmIsGentle` | peridot_sw_hostbridge_gen2/HAL/src/peridot_sw_hostbridge_gen2.c:138-170 | the condition on the line gives the one on each byte |
| `Demux.AgreesStep` | peridot_sw_hostbridge_gen2/HAL/src/peridot_sw_hostbridge_gen2.c:132-171 | every byte keeps decoder, demultiplexer and each channel's deframer in agreement, but for a harmful one |
| `Demux.SimulatesAll` | peridot_sw_hostbridge_gen2/HAL/src/peridot_sw_hostbridge_gen2.c:132-171 | over any legal stretch of the line |
| `Demux.SimulatesEndOfRead` | peridot_sw_hostbridge_gen2/HAL/src/peridot_sw_hostbridge_gen2.c:173 | ending a read changes no agreement, even between a channel prefix and its number, where the prefix has been handed to the old sink |
| `Demux.ServeReadsSimulates` | peridot_sw_hostbridge_gen2/HAL/src/peridot_sw_hostbridge_gen2.c:115-185 | over any sequence of reads |
| `Demux.NoRisk` | peridot_sw_hostbridge_gen2/HAL/src/peridot_sw_hostbridge_gen2.c:138-160 | if no read ends inside an escaped number, no escape is ever left waiting |
| `Demux.Receive` | peridot_sw_hostbridge_gen2/HAL/src/peridot_sw_hostbridge_gen2.c:177-185 | the receiver loop, on a bridge with any channels, leaves what the passes over the reads leave |
| `Demux.AcceptFrame` | peridot_rpc_server/HAL/src/peridot_rpc_server.c:83-141 | from any state whatever, a frame adds exactly one packet, its payload, but for the first byte if an escape was pending |
| `Demux.AcceptSpecial` | peridot_rpc_server/HAL/src/peridot_rpc_server.c:83-141 | for example 7a 7b 7d 5b is received as the packet 7b |
| `Demux.AcceptBody` | peridot_rpc_server/HAL/src/peridot_rpc_server.c:92-141 | the rest of a frame completes the packet that its first byte has opened |
| `Demux.FrameRecoveredIff` | peridot_rpc_server/HAL/src/peridot_rpc_server.c:83-99 | the payload is recovered if and only if no escape was pending or its first byte is sent escaped anyway |
| `RpcSink.BackPressureIsInvisible` | peridot_rpc_server/HAL/src/peridot_rpc_server.c:80-144 | under any schedule of offers, of any sizes, and of takes, the jobs are those of a sink that is never held up, for every byte stream |
| `RpcSink.FeedKeepsPace` | peridot_rpc_server/HAL/src/peridot_rpc_server.c:80-144 | one offer, resumed where the returned count says, loses and repeats no byte |
| `RpcSink.FeedStopsForJob` | peridot_rpc_server/HAL/src/peridot_rpc_server.c:80-144 | an offer is refused only from the first byte on that finds a job pending |
| `RpcSink.CanDrain` | peridot_rpc_server/HAL/src/peridot_rpc_server.c:80-144 | so some schedule takes in any stream, and hands over all its jobs |
| `RpcSink.StoreByteInPacket` | peridot_rpc_server/HAL/src/peridot_rpc_server.c:103-141 | the length bytes, the allocation, the data bytes and the last byte of a packet, one at a time: what is stored, dropped and handed over |
| `RpcSink.FollowsStep` | peridot_rpc_server/HAL/src/peridot_rpc_server.c:80-142 | every byte keeps the sink in agreement with a deframer and with the admission of its packets |
| `RpcSink.FollowsRun` | peridot_rpc_server/HAL/src/peridot_rpc_server.c:80-142 | over any stream |
| `RpcSink.SinkAdmitsPackets` | peridot_rpc_server/HAL/src/peridot_rpc_server.c:75-145 | unless something is stored outside an allocation, the jobs are, in order, exactly the packets whose length field is at most the maximum and equal to their length and whose buffer was granted |
| `RpcSink.FaultsIff` | peridot_rpc_server/HAL/src/peridot_rpc_server.c:103-128 | on any bracketed stream something is stored outside an allocation if and only if some packet has a length field below 4 that is within the maximum and granted |
| `RpcSink.OfferIsSafe` | peridot_rpc_server/HAL/src/peridot_rpc_server.c:75-145 | an offer, at any point of any schedule, stores nothing outside an allocation unless the stream does so to a sink that is never held up |
| `RpcSink.FrameResynchronises` | peridot_rpc_server/HAL/src/peridot_rpc_server.c:84-141 | exactly what one frame does from any state without a pending job or escape, even inside a packet whose buffer is still held: whether it stores outside an allocation, and otherwise which job it makes, which can be the held buffer |
| `RpcSink.FirstFrame` | peridot_rpc_server/HAL/src/peridot_rpc_server.c:75-145 | a frame to a new sink becomes a job if and only if it is as long as its first four bytes say, at most the maximum, and granted |
| `RpcSink.HeldBufferBecomesJob` | peridot_rpc_server/HAL/src/peridot_rpc_server.c:92-139 | for example: a packet of 10 bytes cut off after 5, then the packet 1: the job is the buffer of 10 with the five bytes in it |
| `RpcSink.FrameAdmitted` | peridot_rpc_server/HAL/src/peridot_rpc_server.c:84-141 | a frame to a sink that holds no buffer, or with a length field that replaces it, is admitted as on a new sink |
| `RpcSink.ShortFrame` | peridot_rpc_server/HAL/src/peridot_rpc_server.c:103-139 | a frame below 4 bytes makes a job if and only if a buffer is held and its own and the stale length bytes give its size; the job is that buffer |
| `RpcSink.OverlongFrame` | peridot_rpc_server/HAL/src/peridot_rpc_server.c:103-135 | a frame with a length field above the maximum makes no job, and overruns a held buffer if and only if it is longer than that |
| `RpcSink.OverrunFrame` | peridot_rpc_server/HAL/src/peridot_rpc_server.c:106-114 | a frame with a length field below 4 that is granted overruns its buffer |
| `RpcSink.HeldAlways` | peridot_rpc_server/HAL/src/peridot_rpc_server.c:103-128 | a held buffer always has at least its length field and no more than the maximum, in every run without such a store |
| `RpcSink.PostsFollowPackets` | peridot_rpc_server/HAL/src/peridot_rpc_server.c:103-141 | the posts of a run, in order, and whether each has a job, are exactly those that its packets call for, stale length bytes and failed allocations included |
| `RpcSink.PostsMatchJobs` | peridot_rpc_server/HAL/src/peridot_rpc_server.c:132-141 | the semaphore is posted once for every job if and only if no packet is shorter than 4 bytes and as long as its own and the stale length bytes say, or nothing but a length of 4 that was not granted |
| `RpcSink.PostOfLastByte` | peridot_rpc_server/HAL/src/peridot_rpc_server.c:103-141 | the last byte of a packet posts with a job, without one, or not at all, as the packet says |
| `RpcSink.LengthStep` | peridot_rpc_server/HAL/src/peridot_rpc_server.c:103-115 | every byte keeps the length bytes what the packets so far have made of them |
| `RpcSink.ShortPacketPostsWithoutJob` | peridot_rpc_server/HAL/src/peridot_rpc_server.c:132-139 | a packet of the single byte 1 on a fresh sink posts without a job |
| `RpcServerSink.Server.Accept` | peridot_rpc_server/HAL/src/peridot_rpc_server.c:75-145 | the loop over one buffer, on the server's fields and allocated jobs, is the specified one, and returns the specified count, unless it stores outside an allocation |
| `RpcServerSink.Server.TakeByte` | peridot_rpc_server/HAL/src/peridot_rpc_server.c:81-141 | one byte |
| `RpcServerSink.Server.TakeData` | peridot_rpc_server/HAL/src/peridot_rpc_server.c:100-141 | one byte of a packet, escapes undone |
| `RpcServerSink.Server.PutByte` | peridot_rpc_server/HAL/src/peridot_rpc_server.c:103-128 | a byte goes to the length, to the job or nowhere; a packet that is too long is dropped |
| `RpcServerSink.Server.StoreLengthByte` | peridot_rpc_server/HAL/src/peridot_rpc_server.c:103-115 | a length byte; the fourth one allocates |
| `RpcServerSink.Server.Allocate` | peridot_rpc_server/HAL/src/peridot_rpc_server.c:106-114 | allocates exactly if the length is within the maximum, and copies the length |
| `RpcServerSink.Server.StoreDataByte` | peridot_rpc_server/HAL/src/peridot_rpc_server.c:126-128 | a data byte is stored at the offset, inside the allocation, over a byte of a cut packet if there is one |
| `RpcServerSink.Server.Handover` | peridot_rpc_server/HAL/src/peridot_rpc_server.c:136-141 | the finished job, if there is one, becomes the pending one; posts in either case |
| `RpcServerSink.Server.DropPacket` | peridot_rpc_server/HAL/src/peridot_rpc_server.c:117-125 | forgets the packet and waits for the next |
| `RpcServerSink.FaultSticks` | peridot_rpc_server/HAL/src/peridot_rpc_server.c:75-145 | a store outside an allocation is never taken back, so that a run without a fault has none at any step |
| `RpcSlot.CanLoseIff` | peridot_rpc_server/HAL/src/peridot_rpc_server.c:80-139 | with any number of workers: some schedule loses a job if and only if a packet without a job posts before one with a job is completed |
| `RpcSlot.HandoffIsAQueue` | peridot_rpc_server/HAL/src/peridot_rpc_server.c:80-139 | otherwise, in any interleaving, jobs are taken in order, each once, by one worker, and a waiting job is never overwritten |
| `RpcSlot.NothingLost` | peridot_rpc_server/HAL/src/peridot_rpc_server.c:285-293 | and every completed job has been taken or waits |
| `RpcSlot.LosingAllLeads` | peridot_rpc_server/HAL/src/peridot_rpc_server.c:136-139 | the schedule that loses the first job after an empty post, and handles every other packet on its own |
| `RpcSlot.LostForever` | peridot_rpc_server/HAL/src/peridot_rpc_server.c:285-293 | a completed job that is neither in the slot nor seen by a worker is never taken |
| `RpcSlot.JobsEndOnce` | peridot_rpc_server/HAL/src/peridot_rpc_server.c:240-346 | with one worker in every run, with more in every run in which no job follows an empty post: every job is freed at most once and sent at most what is due to it; once nothing is under way every job taken has been freed once and sent exactly that |
| `RpcSlot.CanFreeTwiceIff` | peridot_rpc_server/HAL/src/peridot_rpc_server.c:80-139 | some schedule that completes given packets frees a job twice if and only if one posts without a job before one with a job and there are two workers or more |
| `RpcSlot.DoublingLeads` | peridot_rpc_server/HAL/src/peridot_rpc_server.c:285-293 | that schedule: the worker woken for nothing and the one woken for the job both read the slot before either clears it |
| `RpcSlot.JobFreedTwice` | peridot_rpc_server/HAL/src/peridot_rpc_server.c:285-293 | for example on a new system, with an empty packet and a request |
| `RpcSlot.AloneAlways` | peridot_rpc_server/HAL/src/peridot_rpc_server.c:277-346 | one worker keeps every job with it, queued once or freed once, and sent what is due, in every run whatever |
| `RpcSlot.CanServeAll` | peridot_rpc_server/HAL/src/peridot_rpc_server.c:80-346 | from a new system with a worker, for any packets and any plan: a schedule that completes them, takes and frees every job in order, and sends exactly what is due |
| `RpcSlot.AllServedAnswers` | peridot_rpc_server/HAL/src/peridot_rpc_server.c:240-346 | after it nothing is under way, each job has been freed once and has had its reply |
| `RpcSlot.TokenStep` | peridot_rpc_server/HAL/src/peridot_rpc_server.c:136-139 | while a job waits, the right to take it is in exactly one place |
| `RpcSlot.EmptyStep` | peridot_rpc_server/HAL/src/peridot_rpc_server.c:136-139 | a packet without a job finds the slot empty and nothing in flight |
| `RpcSlot.DrainedStep` | peridot_rpc_server/HAL/src/peridot_rpc_server.c:285-293 | after it the slot stays empty until a job is completed |
| `RpcSlot.AccountedStep` | peridot_rpc_server/HAL/src/peridot_rpc_server.c:277-346 | every step keeps each taken job with one worker, or queued, or freed |
| `RpcSlot.AnsweredStep` | peridot_rpc_server/HAL/src/peridot_rpc_server.c:240-346 | every step keeps what each job has been sent in line with whether it was freed |
| `RpcSlot.InvAlways` | peridot_rpc_server/HAL/src/peridot_rpc_server.c:80-346 | all of them hold in every reachable state of a run in which no job follows an empty post |
| `RpcLifecycle.AnsweredExactlyOnce` | peridot_rpc_server/HAL/src/peridot_rpc_server.c:240-414 | over the same runs: at rest every request with an id has been answered exactly once unless there was no room for the reply and, after a success, none for an internal error; a valid notification never |
| `RpcLifecycle.EveryRequestIsSettled` | peridot_rpc_server/HAL/src/peridot_rpc_server.c:240-414 | and the bytes sent are the encoded reply with that id and outcome; each request is freed exactly once |
| `RpcLifecycle.OnlyNotificationsAreUnanswered` | peridot_rpc_server/HAL/src/peridot_rpc_server.c:300-345 | a request comes to nothing to send if and only if it is a valid notification, now or when its method calls back |
| `RpcLifecycle.RepliesCarry` | peridot_rpc_server/HAL/src/peridot_rpc_server.c:277-414 | what a client parses from the replies due to a request: one with its id and outcome, one with an internal error, or none, as the allocations go |
| `RpcReply.SendReply` | peridot_rpc_server/HAL/src/peridot_rpc_server.c:352-414 | on every path, retry included: what is sent is the reply, or an internal error, or nothing; job and document are freed once |
| `RpcReply.TryReply` | peridot_rpc_server/HAL/src/peridot_rpc_server.c:360-411 | measured, allocated and written, the reply is byte for byte the encoded document |
| `RpcReply.MeasureReply` | peridot_rpc_server/HAL/src/peridot_rpc_server.c:361-380 | reply_len is exactly the length of the document to be written, on every branch |
| `RpcReply.WriteReply` | peridot_rpc_server/HAL/src/peridot_rpc_server.c:395-410 | filling a buffer of that length never passes its end and gives the whole reply |
| `RpcReply.WriteHeading` | peridot_rpc_server/HAL/src/peridot_rpc_server.c:395-397 | the version and the echoed id |
| `RpcReply.SetLast` | peridot_rpc_server/HAL/src/peridot_rpc_server.c:364-380 | the result, null or error element, measured or written |
| `RpcReply.ReplyEchoesId` | peridot_rpc_server/HAL/src/peridot_rpc_server.c:395-408 | parsing the reply gives an id with the type and value of the request's exactly if it had one, and exactly one of result and error |
| `RpcReply.ReplyCarries` | peridot_rpc_server/HAL/src/peridot_rpc_server.c:395-410 | on the parsed reply: "jsonrpc" is "2.0", "id" is the request's, and "result" is the returned document or null, or "error" is the given document or one whose "code" is the error number |
| `RpcReply.MemberNames` | peridot_rpc_server/HAL/src/peridot_rpc_server.c:361-409 | the names of the members, letter by letter |
| `RpcReply.ReplySize` | peridot_rpc_server/HAL/src/peridot_rpc_server.c:361-380 | the sizes of the parts add up |
| `RpcReply.ErrorDocFits` | peridot_rpc_server/HAL/src/peridot_rpc_server.c:354-378 | the error document built in the 16-byte buffer takes 15 bytes |
| `RpcService.Service` | peridot_rpc_server/HAL/src/peridot_rpc_server.c:277-346 | one call answers, stays silent or leaves the job queued as the request, the method list and the method's outcome demand, and frees accordingly |
| `RpcService.Dispatch` | peridot_rpc_server/HAL/src/peridot_rpc_server.c:316-346 | the part from the method call on |
| `RpcService.AsyncReply` | peridot_rpc_server/HAL/src/peridot_rpc_server.c:240-253 | the callback answers exactly if the request had an id, and frees job and document once |
| `RpcService.FindMethod` | peridot_rpc_server/HAL/src/peridot_rpc_server.c:58-69 | the first entry of that name |
| `RpcService.FindEntry` | peridot_rpc_server/HAL/src/peridot_rpc_server.c:58-69 | the result is an entry of exactly that name with none before it; there is none if and only if no entry has the name |
| `RpcService.UnregisteredMethod` | peridot_rpc_server/HAL/src/peridot_rpc_server.c:313-346 | a request for a name that no method has is answered with the code -32601 if it has an id, and not at all otherwise |
| `RpcService.SyncMethod` | peridot_rpc_server/HAL/src/peridot_rpc_server.c:314-345 | a request for the name of a synchronous method calls the first one registered by it and is answered with its document, with null, or with its error number |
| `RpcService.AsyncMethod` | peridot_rpc_server/HAL/src/peridot_rpc_server.c:321-345 | one for an asynchronous method is answered now only if that could not be started |
| `RpcService.MalformedRequest` | peridot_rpc_server/HAL/src/peridot_rpc_server.c:296-311 | a request without any of the four members is answered with the code -32700, one without version 2.0 or a method name with -32600 |
| `RpcService.SentCarries` | peridot_rpc_server/HAL/src/peridot_rpc_server.c:352-414 | what a client parses from what is sent: the outcome, or the code -32603 if only an internal error found room |
| `RpcService.CallCarries` | peridot_rpc_server/HAL/src/peridot_rpc_server.c:240-253 | the same from the document and the error number that a callback reports |
| `RpcService.StringOfElement` | peridot_rpc_server/HAL/src/bson.c:211-229 | a string is its text up to the first NUL, and no other element is one |
| `RpcService.ReplyWith` | peridot_rpc_server/HAL/src/peridot_rpc_server.c:344-345 | the reply carries the id that the lookup found in the job |
| `Bytes.GetPut` | peridot_rpc_server/HAL/src/bson.c:10-23 | a 32-bit integer written and read back, negative ones included |
| `Bytes.PutGet` | peridot_rpc_server/HAL/src/bson.c:10-23 | four bytes read and written back |
| `Bytes.LittleEndian` | peridot_rpc_server/HAL/src/bson.c:10-23 | for example 04030201 and -2, byte for byte |
| `Bson.ParseAfterEncode` | peridot_rpc_server/HAL/src/bson.c:306-427 | for every document, at every depth: parsing by repeated measuring gives back all keys, types and values in order |
| `Bson.EncodeAfterParse` | peridot_rpc_server/HAL/src/bson.c:95-171 | and whatever parses is the encoding of what was parsed, so no two byte strings parse alike |
| `Bson.MeasureIsExact` | peridot_rpc_server/HAL/src/bson.c:25-93 | measuring a value of any kind, whatever follows, gives its exact length |
| `Bson.MeasureByKind` | peridot_rpc_server/HAL/src/bson.c:25-93 | the measured length of every kind, in numbers; -1 for negative lengths and unknown kinds |
| `Bson.RegexCutOff` | peridot_rpc_server/HAL/src/bson.c:67-76 | a regular expression that is not finished before the end of the document measures -1 |
| `Bson.Tags` | peridot_rpc_server/HAL/src/bson.c:30-80 | the number of each kind |
| `Bson.HelloWorld` | peridot_rpc_server/HAL/src/bson.c:306-330 | the specification's example {"hello": "world"}, byte for byte |
| `Bson.ElementBytes` | peridot_rpc_server/HAL/src/bson.c:306-427 | an element of every kind that has a setter, byte for byte |
| `Bson.DocParses` | peridot_rpc_server/HAL/src/bson.c:25-93 | a document in its wrapping parses back |
| `Bson.FieldsParse` | peridot_rpc_server/HAL/src/bson.c:123-165 | a list of elements up to the end marker parses back |
| `Bson.ValueParses` | peridot_rpc_server/HAL/src/bson.c:25-93 | a value of any kind parses back from its own bytes |
| `Bson.ValuePrints` | peridot_rpc_server/HAL/src/bson.c:25-93 | a parsed value, printed, is the bytes it was parsed from |
| `Bson.DocPrints` | peridot_rpc_server/HAL/src/bson.c:95-171 | and so is a parsed document |
| `Bson.FieldsPrint` | peridot_rpc_server/HAL/src/bson.c:123-165 | and so is a parsed list of elements |
| `BsonWriter.SetString` | peridot_rpc_server/HAL/src/bson.c:306-330 | appends exactly that element, in place; the return value is how much the document grows, also when only measuring; nothing behind it changes |
| `BsonWriter.SetSubelement` | peridot_rpc_server/HAL/src/bson.c:332-352 | the same for an element given by its bytes |
| `BsonWriter.SetSubdocument` | peridot_rpc_server/HAL/src/bson.c:354-362 | the same for an embedded document |
| `BsonWriter.SetArray` | peridot_rpc_server/HAL/src/bson.c:364-367 | the same for an array |
| `BsonWriter.SetBoolean` | peridot_rpc_server/HAL/src/bson.c:369-373 | the same for a boolean |
| `BsonWriter.SetInt32` | peridot_rpc_server/HAL/src/bson.c:375-378 | the same for an integer |
| `BsonWriter.SetNull` | peridot_rpc_server/HAL/src/bson.c:385-388 | the same for null |
| `BsonWriter.SetBinary` | peridot_rpc_server/HAL/src/bson.c:390-427 | the same for a zeroed binary, whose buffer starts where the returned pointer says; a negative length is refused |
| `BsonWriter.CreateEmpty` | peridot_rpc_server/HAL/src/bson.c:297-304 | the five bytes of the empty document |
| `BsonWriter.EncodeAppend` | peridot_rpc_server/HAL/src/bson.c:325-329 | one more element makes the document longer by exactly its own length |
| `BsonWriter.BodyAppend` | peridot_rpc_server/HAL/src/bson.c:306-330 | and leaves all bytes of the earlier elements in place |
| `BsonWriter.GoodAppend` | peridot_rpc_server/HAL/src/bson.c:306-330 | a well-formed element keeps the document well-formed, and no other does |
| `BsonReader.GetProps` | peridot_rpc_server/HAL/src/bson.c:95-171 | for distinct keys: returns how many are present, and sets every offset to the first element of that name or to -1 |
| `BsonReader.ReadElement` | peridot_rpc_server/HAL/src/bson.c:126-138 | from the start of one element, its name and the start of the next |
| `BsonReader.Note` | peridot_rpc_server/HAL/src/bson.c:140-158 | one element fills in the offset of its name if it is asked for and not found yet, and no other |
| `BsonReader.AllFoundIsFinal` | peridot_rpc_server/HAL/src/bson.c:150-153 | returning early changes nothing: all offsets already are those of the whole document |
| `BsonReader.FoundNext` | peridot_rpc_server/HAL/src/bson.c:148-156 | the count goes up exactly with a name not met before |
| `BsonReader.FirstIndex` | peridot_rpc_server/HAL/src/bson.c:147-149 | the first element of that name, or -1 exactly if there is none |
| `BsonReader.AppendKeepsOffsets` | peridot_rpc_server/HAL/src/bson.c:306-352 | an append keeps every offset found |
| `BsonReader.ElementPieces` | peridot_rpc_server/HAL/src/bson.c:126-138 | at its offset an element shows its type, its name, its value and the elements after it |
| `BsonReader.ElementMeasures` | peridot_rpc_server/HAL/src/bson.c:160-164 | skipping the measured length ends exactly at the next element |
| `BsonReader.SeekData` | peridot_rpc_server/HAL/src/bson.c:173-209 | finds the value exactly if the element exists and has one of the two types |
| `BsonReader.GetString` | peridot_rpc_server/HAL/src/bson.c:211-229 | the text, up to a NUL, of a string element; nothing for other types |
| `BsonReader.GetSubdocument` | peridot_rpc_server/HAL/src/bson.c:231-238 | the complete bytes of the embedded document or array |
| `BsonReader.GetBinary` | peridot_rpc_server/HAL/src/bson.c:240-263 | the bytes of a binary exactly if it is not empty |
| `BsonReader.GetBoolean` | peridot_rpc_server/HAL/src/bson.c:265-272 | the value, or the default for other types |
| `BsonReader.GetInt32` | peridot_rpc_server/HAL/src/bson.c:274-281 | the value, or the default for other types |
| `BsonEdit.ShrinkBinary` | peridot_rpc_server/HAL/src/bson.c:429-456 | shrinking the last element gives the very document that appending the first k bytes would have given; refused, without change, exactly if another element follows or it would grow |
| `BsonEdit.ReadBinary` | peridot_rpc_server/HAL/src/bson.c:431-435 | the length word and the byte after the binary tell its length and whether it is last |
| `BsonEdit.WriteShrunk` | peridot_rpc_server/HAL/src/bson.c:448-455 | the three stores turn the old layout into the new one |
| `BsonEdit.ShrunkLayout` | peridot_rpc_server/HAL/src/bson.c:448-455 | the document with the shorter binary, piece by piece, from the longer one's bytes |
| `BsonEdit.Fill` | peridot_client_fs/HAL/src/peridot_client_fs.c:316 | reading into the buffer puts the content in front of the zeros and changes nothing else |
| `BsonEdit.ReadReply` | peridot_client_fs/HAL/src/peridot_client_fs.c:305-327 | after shrinking and appending the length, the reply is data and length, and has stayed inside its allocation |
| `BsonEdit.ReadReplyNames` | peridot_client_fs/HAL/src/peridot_client_fs.c:305-325 | whose members are called "data" and "length" |
| `BsonEdit.SetElement` | peridot_rpc_server/HAL/src/bson.c:458-492 | appends another document's element, of any type, under a new name; nothing if there is none |
| `HostPipe.PipeIsAQueue` | peridot_sw_hostbridge_gen2/HAL/src/peridot_sw_hostbridge_gen2_pipe.c:40-154 | every step of either side, from stale snapshots, keeps the invariant: bytes accepted are bytes read, then bytes stored, and each side stays in its own cells |
| `HostPipe.NothingLostOrReordered` | peridot_sw_hostbridge_gen2/HAL/src/peridot_sw_hostbridge_gen2_pipe.c:40-154 | in every reachable state, accepted == consumed ++ contents, and one cell is free |
| `PipeCalls.ReadAlone` | peridot_sw_hostbridge_gen2/HAL/src/peridot_sw_hostbridge_gen2_pipe.c:46-87 | in single steps, a read of a ring that is not empty returns the oldest bytes, as many as asked for or there are, and removes exactly those |
| `PipeCalls.ReadSleeps` | peridot_sw_hostbridge_gen2/HAL/src/peridot_sw_hostbridge_gen2_pipe.c:52-60 | a read of an empty one goes to sleep until there is a post |
| `PipeCalls.WriteAlone` | peridot_sw_hostbridge_gen2/HAL/src/peridot_sw_hostbridge_gen2_pipe.c:105-153 | in single steps, a sink call takes as many bytes as there is room for, puts them behind the others, and posts exactly if the ring was empty |
| `PipeCalls.WriteRefused` | peridot_sw_hostbridge_gen2/HAL/src/peridot_sw_hostbridge_gen2_pipe.c:124-127 | and takes nothing if the ring is full |
| `HostPipe.ReaderKeepsInv` | peridot_sw_hostbridge_gen2/HAL/src/peridot_sw_hostbridge_gen2_pipe.c:46-86 | each reader step |
| `HostPipe.WriterKeepsInv` | peridot_sw_hostbridge_gen2/HAL/src/peridot_sw_hostbridge_gen2_pipe.c:105-153 | each writer step |
| `HostPipe.WriterStoreKeepsInv` | peridot_sw_hostbridge_gen2/HAL/src/peridot_sw_hostbridge_gen2_pipe.c:141-143 | a stored byte overwrites no unread cell |
| `HostPipe.WriterCommitKeepsInv` | peridot_sw_hostbridge_gen2/HAL/src/peridot_sw_hostbridge_gen2_pipe.c:144-147 | committing appends exactly the bytes copied |
| `HostPipe.ReaderCommitKeepsInv` | peridot_sw_hostbridge_gen2/HAL/src/peridot_sw_hostbridge_gen2_pipe.c:78-84 | committing removes exactly the bytes copied out |
| `HostPipe.SplitsAddUp` | peridot_sw_hostbridge_gen2/HAL/src/peridot_sw_hostbridge_gen2_pipe.c:52-76 | the two runs together are the least of the request and what is available or free, and wrap only at the end |
| `Capacity.RoundupPow2` | peridot_sw_hostbridge_gen2/HAL/src/peridot_sw_hostbridge_gen2_pipe.c:11-20 | the least power of two not below the argument; 0 exactly if there is none or the argument is 0 |
| `Capacity.TopOnesStep` | peridot_sw_hostbridge_gen2/HAL/src/peridot_sw_hostbridge_gen2_pipe.c:14-18 | each shift-and-or step doubles the number of leading ones |
| `Capacity.MaskIsWrap` | peridot_sw_hostbridge_gen2/HAL/src/peridot_sw_hostbridge_gen2_pipe.c:83 | for a power of two, masking an offset is wrapping it |
| `HostPipe.WakeUpIsLostIff` | peridot_sw_hostbridge_gen2/HAL/src/peridot_sw_hostbridge_gen2_pipe.c:55-59 | in any run the reader ends up asleep beside stored bytes with nothing posted or due if and only if some step was a commit whose snapshot was not empty onto a ring drained since, with the reader asleep and no post left |
| `HostPipe.MissedStep` | peridot_sw_hostbridge_gen2/HAL/src/peridot_sw_hostbridge_gen2_pipe.c:149-151 | the same for one step; so what has been missed is missed for good |
| `HostPipe.NoLostWakeUp` | peridot_sw_hostbridge_gen2/HAL/src/peridot_sw_hostbridge_gen2_pipe.c:55-59 | seen from outside: a reader asleep with nothing posted and no call under way has nothing to read if and only if the run has no such commit |
| `HostPipe.CalmRunLosesNothing` | peridot_sw_hostbridge_gen2/HAL/src/peridot_sw_hostbridge_gen2_pipe.c:105-151 | and has none if the reader never commits within a sink call |
| `HostPipe.WakeUpIsLost` | peridot_sw_hostbridge_gen2/HAL/src/peridot_sw_hostbridge_gen2_pipe.c:149-151 | a schedule that gets there, in every ring of three cells or more, and stays there |
| `HostPipe.CanMissIff` | peridot_sw_hostbridge_gen2/HAL/src/peridot_sw_hostbridge_gen2_pipe.c:149-151 | so some schedule loses a wake-up if and only if the ring has three cells or more |
| `HostPipe.SmallRing` | peridot_sw_hostbridge_gen2/HAL/src/peridot_sw_hostbridge_gen2_pipe.c:110-139 | in a smaller one a call that sees a stored byte sees no room, and commits nothing |
| `PipeRing.RingBuffer.constructor` | peridot_sw_hostbridge_gen2/HAL/src/peridot_sw_hostbridge_gen2_pipe.c:161-186 | the capacity is the power of two not below the one asked for |
| `PipeRing.RingBuffer.Sink` | peridot_sw_hostbridge_gen2/HAL/src/peridot_sw_hostbridge_gen2_pipe.c:99-154 | uninterrupted: stores as much as fits, at the end of the queue, and posts exactly if it was empty |
| `PipeRing.RingBuffer.PlanWrite` | peridot_sw_hostbridge_gen2/HAL/src/peridot_sw_hostbridge_gen2_pipe.c:110-139 | full exactly if one cell is left; otherwise the split as specified |
| `PipeRing.RingBuffer.CopyRun` | peridot_sw_hostbridge_gen2/HAL/src/peridot_sw_hostbridge_gen2_pipe.c:141-143 | the two copies store the data at the end of the ring's contents |
| `PipeRing.RingBuffer.StoreRunAt` | peridot_sw_hostbridge_gen2/HAL/src/peridot_sw_hostbridge_gen2_pipe.c:141-147 | copies and commit together extend the contents by exactly the data |
| `PipeRing.RingBuffer.Moved` | peridot_sw_hostbridge_gen2/HAL/src/peridot_sw_hostbridge_gen2_pipe.c:79-84 | the offset after a transfer, masked |
| `PipeRing.RingBuffer.Read` | peridot_sw_hostbridge_gen2/HAL/src/peridot_sw_hostbridge_gen2_pipe.c:46-87 | uninterrupted: returns and removes the front of the queue, as much as asked for or there is, or finds it empty and leaves it so |
| `PipeRing.StoreRunExtends` | peridot_sw_hostbridge_gen2/HAL/src/peridot_sw_hostbridge_gen2_pipe.c:141-147 | storing at the write offset extends the contents by exactly the data |
| `AvmSink.EveryPacketIsAnswered` | peridot_sw_hostbridge_gen2/HAL/src/peridot_sw_hostbridge_gen2_avm.c:43-125 | over any byte stream: the header index stays in bounds and every packet causes exactly one source call, the one its content demands |
| `AvmSink.StoreFollows` | peridot_sw_hostbridge_gen2/HAL/src/peridot_sw_hostbridge_gen2_avm.c:72-122 | one data byte: header, dispatch on the command, and the answer on the last byte |
| `AvmSink.ReadIsAnswered` | peridot_sw_hostbridge_gen2/HAL/src/peridot_sw_hostbridge_gen2_avm.c:101-111 | a read is answered with memory exactly if it lies inside the window, or its end wraps around 2^32; with a single zero otherwise |
| `AvmSink.ReadStaysInWindow` | peridot_sw_hostbridge_gen2/HAL/src/peridot_sw_hostbridge_gen2_avm.c:105 | the answer depends on no memory outside the window if and only if address plus size does not wrap |
| `AvmSink.ReadInBytes` | peridot_sw_hostbridge_gen2/HAL/src/peridot_sw_hostbridge_gen2_avm.c:99-112 | the answer to a read in the packet's own bytes: size and address, high-order byte first, against the window 10000000 to 1000000f |
| `AvmSink.OthersInBytes` | peridot_sw_hostbridge_gen2/HAL/src/peridot_sw_hostbridge_gen2_avm.c:83-121 | any other packet is answered with its command, bit 7 flipped, and three zeros; 7f in a header alone resets the channel |
| `AvmSink.ToggleFlipsBit7` | peridot_sw_hostbridge_gen2/HAL/src/peridot_sw_hostbridge_gen2_avm.c:98 | the exclusive-or with 80 flips bit 7 and no other |
| `AvmSink.HeaderOnly` | peridot_sw_hostbridge_gen2/HAL/src/peridot_sw_hostbridge_gen2_avm.c:98-104 | toggling the command and clearing the second byte does not disturb address and size |
| `AvmSink.Master.Accept` | peridot_sw_hostbridge_gen2/HAL/src/peridot_sw_hostbridge_gen2_avm.c:43-125 | the loop on the fields and the header buffer |
| `AvmSink.Master.StoreByte` | peridot_sw_hostbridge_gen2/HAL/src/peridot_sw_hostbridge_gen2_avm.c:72-95 | one data byte on the fields |
| `AvmSink.Master.EndPacket` | peridot_sw_hostbridge_gen2/HAL/src/peridot_sw_hostbridge_gen2_avm.c:96-121 | the answer to a packet |
| `Crc32.Calc` | digests/HAL/src/crc32.c:57-66 | the table loop computes the bit-serial reflected division by 0xedb88320 with both complements (RFC 2083, sections 3.4 and 15) |
| `Crc32Vector.CheckValue` | digests/HAL/src/crc32.c:57-66 | the digest of "123456789" is cbf43926 |
| `Crc32Vector.TableEntries` | digests/HAL/src/crc32.c:43-54 | entries 0, 1, 128 and 255 of the table, in numbers |
| `Crc32.Init` | digests/HAL/src/crc32.c:43-54 | entry i of the table is i after eight shift steps |
| `Crc32.TableStep` | digests/HAL/src/crc32.c:63 | one table step is eight steps of the division |
| `Crc32.ShiftsByTable` | digests/HAL/src/crc32.c:63 | eight shifts of a word: those of its low byte, exclusive-or the rest moved down |
| `Crc32.DivideByte` | digests/HAL/src/crc32.c:46-53 | dividing by the bits of a byte one by one is adding it and shifting eight times |
| `Crc32.DivideWord` | digests/HAL/src/crc32.c:48-51 | the same for any number of bits up to 32 |
| `Crc32.ShiftsLinear` | digests/HAL/src/crc32.c:50 | shifting is linear over exclusive-or |
| `Crc32.ShiftsInjective` | digests/HAL/src/crc32.c:50 | and loses nothing |
| `Crc32.NumberInjective` | digests/HAL/src/crc32.c:57-66 | up to 32 bits are determined by the word they form |
| `Crc32.WindowSeparates` | digests/HAL/src/crc32.c:57-66 | two bit strings that differ only in up to 32 consecutive bits leave different remainders |
| `Crc32.BurstDetected` | digests/HAL/src/crc32.c:57-66 | so messages that differ in such a burst, at any bit position, have different digests |
| `Crc32.FourByteWindowDetected` | digests/HAL/src/crc32.c:57-66 | in particular messages that differ only within four consecutive bytes |
| `Crc32.BitsInjective` | digests/HAL/src/crc32.c:57-66 | a message is determined by its bits |
| `Md5.Calc` | digests/HAL/src/md5.c:51-126 | for every message below 2^28 bytes the result is the digest of RFC 1321, sections 3.1 to 3.5 |
| `Md5Vector.DigestOfAbc` | digests/HAL/src/md5.c:4-126 | the digest of "abc" is 900150983cd24fb0d6963f7d28e17f72 (RFC 1321, section A.5), operation by operation |
| `Words.RotatedBits` | digests/HAL/src/md5.c:46-49 | rotation moves the low bits up and brings the bits that leave at the top in at the bottom, in order |
| `Words.BitsOfF` | digests/HAL/src/md5.c:95 | where X is set Y, elsewhere Z |
| `Words.BitsOfG` | digests/HAL/src/md5.c:98 | where Z is set X, elsewhere Y |
| `Words.BitsOfH` | digests/HAL/src/md5.c:101 | Z, and the opposite where X and Y differ |
| `Words.BitsOfI` | digests/HAL/src/md5.c:104 | Y where Z is set and X is not, and the opposite elsewhere |
| `Md5.WordBytesInOrder` | digests/HAL/src/md5.c:110-111 | each byte of the block is in its place in its word, the low-order byte first |
| `Md5.StreamsOn` | digests/HAL/src/md5.c:63-119 | over any message, a further block is processed from the state that the blocks before it have led to |
| `Md5.RunChunk` | digests/HAL/src/md5.c:63-119 | one turn of the outer loop is one block of section 3.4 |
| `Md5.RunRounds` | digests/HAL/src/md5.c:94-115 | 64 turns of the rotating registers are the four rounds of section 3.4 |
| `Md5.OneTurn` | digests/HAL/src/md5.c:94-114 | one turn, with its function and word index |
| `Md5.TurnIsOperate` | digests/HAL/src/md5.c:108-114 | rotating the registers and setting B is the operation [abcd k s i] on the register it names |
| `Md5.WordIndexIsLinear` | digests/HAL/src/md5.c:95-107 | the masked linear index gives the order in which the rounds take the words |
| `Md5.NextInput` | digests/HAL/src/md5.c:74-92 | what the loop reads is block j of the padded message, also when len has become negative |
| `Md5.FillBlock` | digests/HAL/src/md5.c:79-90 | the temporary block: rest of the message, the bit 1, zeros, the length |
| `Md5.BuiltBlock` | digests/HAL/src/md5.c:74-92 | that block is the padded message's, byte for byte |
| `Md5.PaddedAt` | digests/HAL/src/md5.c:55-56 | every byte of the padded message, by position (sections 3.1 and 3.2) |
| `VfdTable.NoDescriptorLeaks` | peridot_client_fs/HAL/src/peridot_client_fs.c:166-196 | any opens racing with any cleanups: every open descriptor is in exactly one slot or with exactly one thread, and so is closed at most once |
| `VfdTable.CleanupEmptiesTable` | peridot_client_fs/HAL/src/peridot_client_fs.c:709-730 | when a cleanup is through, every slot is free, or canceled and reserved by an open in flight |
| `VfdTable.CleanupStopsOpens` | peridot_client_fs/HAL/src/peridot_client_fs.c:183-196 | an open in flight at that point never installs its descriptor, whatever happens later |
| `VfdOpens.OpenInstallsIff` | peridot_client_fs/HAL/src/peridot_client_fs.c:173-196 | over every run: an open that has ended has installed its descriptor if and only if the system gave it one and no cleanup passed its slot while it was reserved |
| `VfdOpens.CommitInstallsIff` | peridot_client_fs/HAL/src/peridot_client_fs.c:183-196 | at the commit the descriptor goes into the reserved slot, or the slot is freed and the descriptor left to be closed, exactly as that says |
| `VfdOpens.InstalledStays` | peridot_client_fs/HAL/src/peridot_client_fs.c:709-730 | an installed descriptor stays in its slot until a cleanup takes it out |
| `VfdOpens.OpenAloneInstalls` | peridot_client_fs/HAL/src/peridot_client_fs.c:160-196 | on a table with a free slot an open alone ends installed, its descriptor in the first one |
| `VfdOpens.OpenAloneFails` | peridot_client_fs/HAL/src/peridot_client_fs.c:173-181 | if the system refuses, the table is as before |
| `VfdOpens.OpenAloneFull` | peridot_client_fs/HAL/src/peridot_client_fs.c:166-171 | without a free slot the system is not asked |
| `VfdOpens.CleanupAloneCloses` | peridot_client_fs/HAL/src/peridot_client_fs.c:709-730 | a cleanup alone closes every descriptor in the table, frees their slots, cancels every reservation and lets go of the lock |
| `VfdTable.InvAlways` | peridot_client_fs/HAL/src/peridot_client_fs.c:35-49 | the invariant holds in every reachable state |
| `VfdTable.ReservedStep` | peridot_client_fs/HAL/src/peridot_client_fs.c:35-54 | every step keeps each marked slot with exactly one open |
| `VfdTable.ConservedStep` | peridot_client_fs/HAL/src/peridot_client_fs.c:173-196 | every step keeps every open descriptor in exactly one place |
| `VfdTable.ConservedCommit` | peridot_client_fs/HAL/src/peridot_client_fs.c:183-193 | the commit moves the descriptor into its slot, or leaves it to be closed |
| `VfdTable.ConservedObtain` | peridot_client_fs/HAL/src/peridot_client_fs.c:173 | a new descriptor is with the thread that asked for it |
| `VfdTable.ConservedTake` | peridot_client_fs/HAL/src/peridot_client_fs.c:716-724 | cleanup takes a descriptor out of its slot before closing it |
| `VfdTable.ConservedClose` | peridot_client_fs/HAL/src/peridot_client_fs.c:193 | a descriptor closed was open, and nothing holds it afterwards |
| `VfdTable.SweptStep` | peridot_client_fs/HAL/src/peridot_client_fs.c:712-726 | no step undoes what a cleanup has swept |
| `VfdTable.DoomedStep` | peridot_client_fs/HAL/src/peridot_client_fs.c:183-196 | every step keeps a canceled open canceled |
| `VfdTable.DoomedForever` | peridot_client_fs/HAL/src/peridot_client_fs.c:183-196 | over any run |
| `ClientPaths.Paths.AddList` | peridot_client_fs/HAL/src/peridot_client_fs.c:671-697 | appends one entry for each non-empty piece, in order; a trailing slash marks a directory |
| `ClientPaths.SeekSeparator` | peridot_client_fs/HAL/src/peridot_client_fs.c:634-643 | the first colon, or the end |
| `ClientPaths.Paths.AddPath` | peridot_client_fs/HAL/src/peridot_client_fs.c:645-669 | appends the entry |
| `ClientPaths.SplitAfterJoin` | peridot_client_fs/HAL/src/peridot_client_fs.c:671-697 | joining pieces with colons and splitting again gives them back |
| `ClientPaths.PiecesConcat` | peridot_client_fs/HAL/src/peridot_client_fs.c:671-697 | a colon separates wherever it stands: the pieces of two lists joined by one are those of the first, then those of the second |
| `ClientPaths.OnePiece` | peridot_client_fs/HAL/src/peridot_client_fs.c:671-697 | what has no colon is one piece, or none if it is empty |
| `ClientPaths.EntryOfDirectory` | peridot_client_fs/HAL/src/peridot_client_fs.c:684-688 | for example "/dev/" is the directory "/dev" |
| `ClientPaths.PiecesAreProper` | peridot_client_fs/HAL/src/peridot_client_fs.c:675-683 | no piece is empty or holds a colon |
| `ClientPaths.Paths.ValidatePath` | peridot_client_fs/HAL/src/peridot_client_fs.c:56-105 | a path is permitted if and only if some entry names it and every entry up to there that the path starts with grants the access |
| `ClientPaths.CoversPairs` | peridot_client_fs/HAL/src/peridot_client_fs.c:60-88 | which mode grants which, pair by pair |
| `ClientPaths.CoversByMode` | peridot_client_fs/HAL/src/peridot_client_fs.c:60-88 | only the last two bits of a mode count |
| `ClientPaths.OneDirectory` | peridot_client_fs/HAL/src/peridot_client_fs.c:56-105 | a directory alone permits itself, with or without a trailing slash, and what lies below it |
| `ClientPaths.OneFile` | peridot_client_fs/HAL/src/peridot_client_fs.c:56-105 | a file alone permits itself only |
| `ClientPaths.ShorterNameShadows` | peridot_client_fs/HAL/src/peridot_client_fs.c:80-88 | so an earlier entry whose name is only a prefix of the path can forbid what a later one permits |

## Left out

- `named_fifo` and `rubic_agent`: not modelled; the pipe is the ring buffer that is proved, and the RPC slot the
  handoff to workers.
- Writes that a packetized channel sends verbatim: they put bytes on the line that the caller has framed, and
  runs that mix them in are not covered.
- EndToEnd.PacketsArriveForAnyCut: beside raw channels that are disturbed, nothing is claimed for one channel alone;
  `RawCalls.EverythingArrivesIff` covers all channels together, `RawBeside.PacketAfterRawCanBeLost` one packet.
- HostBridge.Bridge.WriteToChannel: a sink takes what it is handed at once; the retries after a short count are
  modelled as the schedule of offers in `RpcSink`. Partial writes to the host likewise append atomically, and the
  lock of the source function makes its calls atomic.
- RpcSink.SinkAdmitsPackets: streams in which packets start inside packets are excluded; what one such start
  leads to is `RpcSink.FrameResynchronises`.
- RpcSink.FrameResynchronises: after a store outside an allocation nothing more is stated. A pending escape is
  excluded here; `Demux.AcceptFrame` says what it does to the packet.
- RpcServerSink.Server.Accept: the precondition is that no store falls outside an allocation; `RpcSink.FaultsIff` and
  `RpcSink.OfferIsSafe` say when. Which buffers the sink frees, or forgets to free, is not modelled.
- RpcSlot.JobsEndOnce: that every run ends, or that a worker is eventually scheduled, is not stated.
- RpcService.Service: requests are well-formed documents; the parameters of the called method are not
  inspected; replies stay below 2^31 bytes. The methods themselves are parameters.
- BsonReader.GetProps: documents are well-formed, so that the answer -1 for malformed ones is not modelled; keys are
  distinct. The getters likewise.
- Bson.ParseAfterEncode: without type 0x0f, whose length the code does not measure as the specification has it,
  without the min and max keys, which it does not know, and with doubles only as eight opaque bytes.
- BsonEdit.ShrinkBinary: the new length is not negative.
- `bson_get_double` and `bson_set_double`, `bson_dump`, `bson_alloc`, `bson_free`.
- Md5.Calc: inputs of 2^28 bytes and more, whose bit count overflows the 32-bit word; the constants that
  the code derives from the sine are taken from RFC 1321.
- Crc32.Calc: on the generated table; that the 256 literals of the static table are those entries is not checked.
- PipeRing.RingBuffer.constructor: a requested capacity of 0 or above 2^31, which the rounding turns into 0, is excluded.
- VfdTable.NoDescriptorLeaks: without `fs.close`, `fs.read`, `fs.write` and the other handlers; a `fs.close` beside a cleanup is
  not covered.
- ClientPaths.Paths.AddPath: the allocation of an entry always succeeds (a failure skips that entry). An entry is
  a value; that names are not copied is not modelled.
- Thread creation, driver calls, UART, the rewiring of descriptors in `mkpipe`, JSON boot files, Tcl.
