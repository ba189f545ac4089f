# ThroughputTest, modelled in Dafny

ThroughputTest is a Bukkit plugin that measures how fast a client accepts
chunk data. It intercepts four chunk-related packet types through
ProtocolLib. An operator command switches between a synchronous packet
listener and an asynchronous handler, and every online player is kicked so
that they reconnect under the new listener. The plugin also builds a
placeholder chunk payload: 24 single-valued chunk sections, where the lower
8 sections are filled with block 14 and the upper 16 with air.

This project models that core in six modules:

- `Options`: the `Option` datatype.
- `VarInts`: the VarInt encoding the section encoder uses.
  - A Java `int` is encoded as unsigned LEB128 over its 32 bits.
  - A decoder is included so the encoding can be proved correct.
- `Buffers`: a Netty `ByteBuf` modelled as an append-only byte sequence. It
  includes the big-endian 16-bit write and the copy out to an array.
- `ChunkSections`:
  - `createEmptySection` and `createEmptyChunk` as methods over arrays,
    proved against the functions `EmptySection` and `EmptyChunk`.
  - A parser that reads sections back.
  - `System.arraycopy`.
- `PacketFilter`: the set of packet types the plugin listens to, which are
  the candidates the running server supports.
- `Plugin`:
  - the plugin object as a class;
  - the listener toggle of `onCommand`;
  - `onEnable`, `onDisable`, `onPlayerJoin` and `getListenerMessage`.

  ProtocolLib and Bukkit appear in `Plugin` in two ways:
  - as the registration state their calls leave behind (sync listener
    registered, async handler registered, async handler running);
  - as an ordered log of every call the plugin makes on them.

  The toggle is a pure function on that state, `Toggle`, and the class's
  methods are proved against it.

The main facts proved:

- Every VarInt read of an encoded value returns that value and its length.
  In the other direction, a minimal read re-encodes to the bytes read.
- Every encoded section parses back to its fields.
- `createEmptySection` writes exactly the section layout, 7 bytes plus the
  block id's VarInt. That is 8 bytes when the id is in [0, 128).
- `createEmptyChunk` copies section i to bytes [8i, 8i + 8) and stays in
  bounds. The result is 192 bytes, and it parses back section by section.
- A toggle keeps "exactly the pipeline the flag names is installed". Two
  toggles restore the state. During a transition the two pipelines are never
  active at the same time.
- A foreign command changes nothing.
- Every message names the mode it reports.

## Model

| member | source | states |
|---|---|---|
| VarInts.Unsigned32 | src/main/java/dev/imprex/protocol/ThroughputTest.java:47 | the value the VarInt writer encodes for a Java int: below 2^32, congruent to the int modulo 2^32, and equal to it when the int is non-negative |
| VarInts.VarInt32 | src/main/java/dev/imprex/protocol/ThroughputTest.java:47-52 | the VarInt of a Java int takes 1 to 5 bytes, and exactly 1 byte if and only if the int is in [0, 128) |
| VarInts.VarIntLengthBound | src/main/java/dev/imprex/protocol/ThroughputTest.java:47 | the VarInt of n fits in k bytes if and only if n < 128^k |
| VarInts.VarIntContinuation | src/main/java/dev/imprex/protocol/ThroughputTest.java:47 | every VarInt byte but the last has the continuation bit set, and the last byte has it clear |
| VarInts.ReadVarIntStops | src/main/java/dev/imprex/protocol/ThroughputTest.java:47 | the reader fails exactly when no byte below 128 occurs; otherwise it stops at the first such byte |
| VarInts.ReadVarIntOfVarInt | src/main/java/dev/imprex/protocol/ThroughputTest.java:47-52 | reading the VarInt of n from the front of any byte string gives back n and the VarInt's length |
| VarInts.VarIntOfReadVarInt | src/main/java/dev/imprex/protocol/ThroughputTest.java:47-52 | a successful read with no redundant trailing zero group returns bytes that are exactly the VarInt of the value read |
| Buffers.BigEndianShort | src/main/java/dev/imprex/protocol/ThroughputTest.java:44 | writeShort puts two bytes, which read back big-endian give the low 16 bits of the value |
| Buffers.ByteBuf.constructor | src/main/java/dev/imprex/protocol/ThroughputTest.java:43 | a new buffer has nothing written |
| Buffers.ByteBuf.WriteShort | src/main/java/dev/imprex/protocol/ThroughputTest.java:44 | appends the big-endian 16-bit form of the value and nothing else |
| Buffers.ByteBuf.WriteByte | src/main/java/dev/imprex/protocol/ThroughputTest.java:46-50 | appends the low byte of the value and nothing else |
| Buffers.ByteBuf.CopyWritten | src/main/java/dev/imprex/protocol/ThroughputTest.java:54 | a fresh array holding exactly the bytes up to the writer index |
| Buffers.WriteVarInt | src/main/java/dev/imprex/protocol/ThroughputTest.java:47-52 | appends the VarInt of the int and nothing else |
| ChunkSections.ParseContainerOfEncode | src/main/java/dev/imprex/protocol/ThroughputTest.java:46-52 | a palette container (header byte, value VarInt, data-length VarInt) parses back to itself and its length, whatever follows |
| ChunkSections.ParseSectionOfEncode | src/main/java/dev/imprex/protocol/ThroughputTest.java:42-55 | any section with a 16-bit block count parses back to its count, block container and biome container, and reports its own length |
| ChunkSections.EmptySectionLayout | src/main/java/dev/imprex/protocol/ThroughputTest.java:42-55 | the section is the count (0 for air, 4096 otherwise), 0, the id's VarInt, 0, 0, 0, 0; it is 7 bytes plus the id's VarInt, and 8 bytes if and only if the id is in [0, 128) |
| ChunkSections.UsedSections | src/main/java/dev/imprex/protocol/ThroughputTest.java:58-62 | the block-14 section is 10 00 00 0E 00 00 00 00 and the air section is eight zero bytes |
| ChunkSections.EmptySectionBlockId | src/main/java/dev/imprex/protocol/ThroughputTest.java:47-48 | for every non-negative id, the VarInt at offset 3 reads back the id and the next reads back palette size 0 |
| ChunkSections.CreateEmptySection | src/main/java/dev/imprex/protocol/ThroughputTest.java:42-55 | returns a fresh array whose bytes are exactly the section for the id |
| ChunkSections.ArrayCopy | src/main/java/dev/imprex/protocol/ThroughputTest.java:63 | the destination range is overwritten with the source range; bytes before and after it are unchanged |
| ChunkSections.SectionsAppend | src/main/java/dev/imprex/protocol/ThroughputTest.java:61-64 | concatenating one more section extends the chunk bytes by that section |
| ChunkSections.SectionsAt | src/main/java/dev/imprex/protocol/ThroughputTest.java:60-63 | with 8-byte sections, the chunk is 8 bytes per section and section i is at bytes [8i, 8i + 8) |
| ChunkSections.ChunkStep | src/main/java/dev/imprex/protocol/ThroughputTest.java:61-64 | one loop round: after copying section i to offset 8i, the first 8(i + 1) bytes are the first i + 1 sections |
| ChunkSections.CreateEmptyChunk | src/main/java/dev/imprex/protocol/ThroughputTest.java:57-67 | returns a fresh array whose bytes are exactly the 24 sections (block 14 below section 8, air above); every copy is in bounds |
| ChunkSections.EmptyChunkLayout | src/main/java/dev/imprex/protocol/ThroughputTest.java:57-67 | the chunk is 24 times the air section's length, 192 bytes, and bytes [8i, 8i + 8) are the block-14 section for i < 8 and the air section otherwise |
| ChunkSections.UsedSectionParses | src/main/java/dev/imprex/protocol/ThroughputTest.java:62 | the block-14 and air sections parse back to their fields in 8 bytes, whatever follows |
| ChunkSections.EmptyChunkParses | src/main/java/dev/imprex/protocol/ThroughputTest.java:57-67 | parsing the chunk from byte 8i gives the fields of section i (count 4096 with block 14, or count 0 with air) and length 8 |
| PacketFilter.SupportedTypes | src/main/java/dev/imprex/protocol/ThroughputTest.java:33-38 | a type is kept if and only if it is a candidate and supported; no more types than candidates |
| PacketFilter.PacketTypes | src/main/java/dev/imprex/protocol/ThroughputTest.java:33-38 | PACKET_TYPES holds exactly the supported types among the four packet types |
| Plugin.Kicks | src/main/java/dev/imprex/protocol/ThroughputTest.java:127-131 | one kick per online player, in order, each with the given message |
| Plugin.Toggle | src/main/java/dev/imprex/protocol/ThroughputTest.java:105-125 | the current mode's three transition calls in order, then the flag flips: the result names the other mode |
| Plugin.ConsistentExactlyOne | src/main/java/dev/imprex/protocol/ThroughputTest.java:105-125 | in a consistent state exactly one pipeline is active, and it is the sync one if and only if the flag says sync |
| Plugin.ToggleConsistent | src/main/java/dev/imprex/protocol/ThroughputTest.java:105-125 | a toggle flips the flag and leaves exactly the newly named pipeline installed |
| Plugin.ToggleTwice | src/main/java/dev/imprex/protocol/ThroughputTest.java:105-125 | toggling twice from a consistent state restores the same flag and registrations |
| Plugin.TransitionNeverOverlaps | src/main/java/dev/imprex/protocol/ThroughputTest.java:105-125 | at no point of a transition are both pipelines active; after its first and second calls, none is |
| Plugin.KickMessageNamesMode | src/main/java/dev/imprex/protocol/ThroughputTest.java:127-130 | the kick message names the mode it is sent for |
| Plugin.AcceptedCommandNames | src/main/java/dev/imprex/protocol/ThroughputTest.java:101 | a command name is accepted if and only if it has 10 characters that lower-case to "throughput" |
| Plugin.ThroughputTest.constructor | src/main/java/dev/imprex/protocol/ThroughputTest.java:74-75 | the plugin starts in sync mode with nothing registered and no calls made |
| Plugin.ThroughputTest.Perform | src/main/java/dev/imprex/protocol/ThroughputTest.java:107-121 | logs the call and applies its effect (Apply) to the registration state; the mode flag is unchanged |
| Plugin.ThroughputTest.OnEnable | src/main/java/dev/imprex/protocol/ThroughputTest.java:78-85 | registers the sync listener, then the join hook; from the initial state this leaves a consistent sync state |
| Plugin.ThroughputTest.OnDisable | src/main/java/dev/imprex/protocol/ThroughputTest.java:88-92 | kicks every online player with the shutdown notice and changes no registration |
| Plugin.ThroughputTest.OnPlayerJoin | src/main/java/dev/imprex/protocol/ThroughputTest.java:95-97 | sends the joining player the status message and changes nothing else |
| Plugin.ThroughputTest.GetListenerMessage | src/main/java/dev/imprex/protocol/ThroughputTest.java:136-140 | the status message names the listener currently in use |
| Plugin.ThroughputTest.KickAll | src/main/java/dev/imprex/protocol/ThroughputTest.java:127-131 | appends one kick per player in order and changes no registration |
| Plugin.ThroughputTest.SwapListener | src/main/java/dev/imprex/protocol/ThroughputTest.java:105-125 | flips the flag, makes the teardown-then-setup calls of the current mode in order, and keeps the state consistent |
| Plugin.ThroughputTest.OnCommand | src/main/java/dev/imprex/protocol/ThroughputTest.java:100-134 | handles the command if and only if its name equals "throughput" ignoring case. If it does not, nothing changes. If it does, the state is toggled, the transition calls are made, then every online player is kicked with the message naming the new mode. Consistency is kept. |

## Left out

- The source of `ByteBufUtil.writeVarInt` is not available. `Buffers.WriteVarInt`
  assumes it writes the standard Minecraft VarInt over the 32 bits of a Java `int`,
  so a negative id takes 5 bytes.
- The VarInt reader (`ReadVarInt`) exists only to state the round trip. It does
  not reject reads longer than 5 bytes, as a protocol reader would.
- Bytes are unsigned 0..255. Java's signed `byte` view of the same bits is not modelled.
- `Unpooled.buffer(8)` takes a capacity hint. Buffer capacity and growth are not
  modelled: the buffer is an unbounded sequence.
- ArrayCopy: `System.arraycopy`'s `IndexOutOfBoundsException` is not modelled. The
  method requires its ranges in bounds, and every call in `createEmptyChunk` is
  proved to meet that.
- The `EMPTY_CHUNK` static field is the result of `CreateEmptyChunk`. It is not a
  separate member.
- `onPacketReceiving` is not modelled. It formats a float from the acknowledgement
  packet and sends it to the player, which involves floating-point formatting and
  a ProtocolLib accessor.
- `onPacketSending` is not modelled either: its body is entirely commented out.
- The packet listener's construction parameters (game phase, plugin, types) are
  not modelled.
- ProtocolLib's async handler thread is not modelled, and neither are its packet
  queue or the semantics of stopping it. The model keeps only the registered and
  running flags.
- Players' sessions and the actual disconnect are not modelled. Online players are
  a sequence parameter, and a kick is a logged call.
- AcceptedCommandNames: `equalsIgnoreCase` is modelled with ASCII case mapping only.
  The Unicode case mapping of non-ASCII characters is not modelled.
- `protocolManager` and `asynchronousManager` are null before `onEnable`, so
  `onCommand` before `onEnable` would fail on a null reference. That failure is
  not modelled.
- Collaborator calls always succeed in the model. In `onCommand` (lines 107-121) a
  call that throws propagates after the earlier calls have run, for example with
  the sync listener removed and `usingSyncListener` still true. Failing calls are
  not modelled.
- The command's sender, label and arguments are not modelled, because the code
  ignores them.
