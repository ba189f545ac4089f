/**
 * The synthetic chunk payload of ThroughputTest: one chunk section holding a
 * single block state and no biome data, and the 24-section "empty chunk"
 * built once from it.
 */
module ChunkSections {
  import opened Options
  import opened VarInts
  import opened Buffers

  /** Number of non-air blocks written for a section of a solid block. */
  const FullSectionBlockCount: nat := 4096
  const SectionsPerChunk: nat := 24
  /** Sections 0 up to (excluding) this index carry the placeholder block. */
  const PlaceholderSections: nat := 8
  const PlaceholderBlockId: int32 := 14
  const AirBlockId: int32 := 0

  /** A single-valued paletted container: bits-per-entry byte, the value, the data array length. */
  datatype Container = Container(bitsPerEntry: byte, value: nat, dataLength: nat)

  /** The fields of one chunk section, in wire order. */
  datatype SectionFields = SectionFields(blockCount: nat, blocks: Container, biomes: Container)

  function EncodeContainer(c: Container): seq<byte>
  {
    [c.bitsPerEntry] + VarInt(c.value) + VarInt(c.dataLength)
  }

  /** A section on the wire: the 16-bit block count, then the block and biome containers. */
  function EncodeSection(f: SectionFields): seq<byte>
  {
    BigEndianShort(f.blockCount) + EncodeContainer(f.blocks) + EncodeContainer(f.biomes)
  }

  datatype ParsedContainer = ParsedContainer(container: Container, length: nat)
  datatype ParsedSection = ParsedSection(fields: SectionFields, length: nat)

  function ParseContainer(s: seq<byte>): (r: Option<ParsedContainer>)
    ensures r.Some? ==> r.value.length <= |s|
  {
    if |s| == 0 then None
    else match ReadVarInt(s[1..])
      case None => None
      case Some(value) =>
        match ReadVarInt(s[1 + value.length..])
        case None => None
        case Some(size) =>
          Some(ParsedContainer(Container(s[0], value.value, size.value), 1 + value.length + size.length))
  }

  /** Reads one section from the front of s. */
  function ParseSection(s: seq<byte>): (r: Option<ParsedSection>)
    ensures r.Some? ==> 0 < r.value.length <= |s|
  {
    if |s| < 2 then None
    else match ParseContainer(s[2..])
      case None => None
      case Some(blocks) =>
        match ParseContainer(s[2 + blocks.length..])
        case None => None
        case Some(biomes) =>
          Some(ParsedSection(SectionFields(ReadShort(s), blocks.container, biomes.container),
                             2 + blocks.length + biomes.length))
  }

  /** The fields createEmptySection writes for a block id. */
  function EmptySectionFields(blockId: int32): SectionFields
  {
    SectionFields(if blockId == 0 then 0 else FullSectionBlockCount,
                  Container(0, Unsigned32(blockId), 0),
                  Container(0, 0, 0))
  }

  /** The bytes createEmptySection returns. */
  function EmptySection(blockId: int32): seq<byte>
  {
    EncodeSection(EmptySectionFields(blockId))
  }

  /** The block id of the section at a vertical index of the empty chunk. */
  function BlockIdAt(i: nat): int32
  {
    if i < PlaceholderSections then PlaceholderBlockId else AirBlockId
  }

  /** The block ids of the 24 sections of the empty chunk, bottom to top. */
  function ChunkBlockIds(): seq<int32>
  {
    seq(SectionsPerChunk, i requires 0 <= i => BlockIdAt(i))
  }

  /** The sections of the given block ids, concatenated in order. */
  function Sections(ids: seq<int32>): seq<byte>
  {
    if ids == [] then [] else EmptySection(ids[0]) + Sections(ids[1..])
  }

  /** The payload createEmptyChunk returns. */
  function EmptyChunk(): seq<byte>
  {
    Sections(ChunkBlockIds())
  }

  // ---------------------------------------------------------------------
  // The encoder and parser are inverse

  /** How ParseContainer proceeds once both VarInts have been read. */
  lemma ParseContainerStep(s: seq<byte>, value: VarIntRead, size: VarIntRead)
    requires 1 <= |s|
    requires ReadVarInt(s[1..]) == Some(value)
    requires ReadVarInt(s[1 + value.length..]) == Some(size)
    ensures ParseContainer(s)
         == Some(ParsedContainer(Container(s[0], value.value, size.value), 1 + value.length + size.length))
  {
  }

  /** How ParseSection proceeds once both containers have been read. */
  lemma ParseSectionStep(s: seq<byte>, blocks: ParsedContainer, biomes: ParsedContainer)
    requires 2 <= |s|
    requires ParseContainer(s[2..]) == Some(blocks)
    requires ParseContainer(s[2 + blocks.length..]) == Some(biomes)
    ensures ParseSection(s)
         == Some(ParsedSection(SectionFields(ReadShort(s), blocks.container, biomes.container),
                               2 + blocks.length + biomes.length))
  {
  }

  /** Parsing an encoded container gives back the container and its length, whatever follows. */
  lemma ParseContainerOfEncode(c: Container, rest: seq<byte>)
    ensures ParseContainer(EncodeContainer(c) + rest)
         == Some(ParsedContainer(c, |EncodeContainer(c)|))
  {
    var value, size := VarInt(c.value), VarInt(c.dataLength);
    var s := [c.bitsPerEntry] + value + size + rest;
    assert s == EncodeContainer(c) + rest;
    assert ReadVarInt(s[1..]) == Some(VarIntRead(c.value, |value|)) by {
      assert s[1..] == value + (size + rest);
      ReadVarIntOfVarInt(c.value, size + rest);
    }
    assert ReadVarInt(s[1 + |value|..]) == Some(VarIntRead(c.dataLength, |size|)) by {
      assert s[1 + |value|..] == size + rest;
      ReadVarIntOfVarInt(c.dataLength, rest);
    }
    ParseContainerStep(s, VarIntRead(c.value, |value|), VarIntRead(c.dataLength, |size|));
  }

  lemma SectionCountParses(f: SectionFields, rest: seq<byte>)
    requires f.blockCount < 0x1_0000
    ensures 2 <= |EncodeSection(f) + rest|
    ensures ReadShort(EncodeSection(f) + rest) == f.blockCount
  {
    var count := BigEndianShort(f.blockCount);
    var s := count + (EncodeContainer(f.blocks) + EncodeContainer(f.biomes) + rest);
    assert s == EncodeSection(f) + rest;
    assert s[0] == count[0] && s[1] == count[1];
  }

  lemma SectionBlocksParse(f: SectionFields, rest: seq<byte>)
    ensures 2 <= |EncodeSection(f) + rest|
    ensures ParseContainer((EncodeSection(f) + rest)[2..])
         == Some(ParsedContainer(f.blocks, |EncodeContainer(f.blocks)|))
  {
    var tail := EncodeContainer(f.biomes) + rest;
    assert (EncodeSection(f) + rest)[2..] == EncodeContainer(f.blocks) + tail;
    ParseContainerOfEncode(f.blocks, tail);
  }

  lemma SectionBiomesParse(f: SectionFields, rest: seq<byte>)
    ensures 2 + |EncodeContainer(f.blocks)| <= |EncodeSection(f) + rest|
    ensures ParseContainer((EncodeSection(f) + rest)[2 + |EncodeContainer(f.blocks)|..])
         == Some(ParsedContainer(f.biomes, |EncodeContainer(f.biomes)|))
  {
    assert (EncodeSection(f) + rest)[2 + |EncodeContainer(f.blocks)|..] == EncodeContainer(f.biomes) + rest;
    ParseContainerOfEncode(f.biomes, rest);
  }

  /** Parsing an encoded section gives back its fields and its length, whatever follows. */
  lemma ParseSectionOfEncode(f: SectionFields, rest: seq<byte>)
    requires f.blockCount < 0x1_0000
    ensures ParseSection(EncodeSection(f) + rest) == Some(ParsedSection(f, |EncodeSection(f)|))
  {
    var s := EncodeSection(f) + rest;
    var blocks := ParsedContainer(f.blocks, |EncodeContainer(f.blocks)|);
    var biomes := ParsedContainer(f.biomes, |EncodeContainer(f.biomes)|);
    assert 2 <= |s| && ReadShort(s) == f.blockCount by {
      SectionCountParses(f, rest);
    }
    assert ParseContainer(s[2..]) == Some(blocks) by {
      SectionBlocksParse(f, rest);
    }
    assert ParseContainer(s[2 + blocks.length..]) == Some(biomes) by {
      SectionBiomesParse(f, rest);
    }
    assert |EncodeSection(f)| == 2 + blocks.length + biomes.length;
    ParseSectionStep(s, blocks, biomes);
  }

  // ---------------------------------------------------------------------
  // The layout of one section

  /**
   * createEmptySection writes the 16-bit count (0 for air, 4096 otherwise),
   * a zero byte, the block id's VarInt, VarInt 0, a zero byte and two VarInt 0s.
   */
  lemma EmptySectionLayout(blockId: int32)
    ensures EmptySection(blockId)
         == BigEndianShort(if blockId == 0 then 0 else 4096) + [0] + VarInt32(blockId) + [0] + [0] + [0] + [0]
    ensures ReadShort(EmptySection(blockId)) == if blockId == 0 then 0 else 4096
    ensures |EmptySection(blockId)| == 7 + |VarInt32(blockId)|
    ensures |EmptySection(blockId)| == 8 <==> 0 <= blockId < 128
  {
  }

  /** The two sections the empty chunk uses, byte by byte. */
  lemma UsedSections()
    ensures EmptySection(PlaceholderBlockId) == [0x10, 0, 0, 14, 0, 0, 0, 0]
    ensures EmptySection(AirBlockId) == [0, 0, 0, 0, 0, 0, 0, 0]
  {
    EmptySectionLayout(PlaceholderBlockId);
    EmptySectionLayout(AirBlockId);
  }

  /** The VarInt at offset 3 holds the block id, and the one after it holds 0. */
  lemma EmptySectionBlockId(blockId: int32)
    requires 0 <= blockId
    ensures ReadVarInt(EmptySection(blockId)[3..]) == Some(VarIntRead(blockId, |VarInt32(blockId)|))
    ensures ReadVarInt(EmptySection(blockId)[3 + |VarInt32(blockId)|..]) == Some(VarIntRead(0, 1))
  {
    var s := EmptySection(blockId);
    assert s[3..] == VarInt(blockId as nat) + [0, 0, 0, 0];
    ReadVarIntOfVarInt(blockId as nat, [0, 0, 0, 0]);
    assert s[3 + |VarInt32(blockId)|..] == [0, 0, 0, 0];
  }

  // ---------------------------------------------------------------------
  // The layout of the chunk

  lemma {:induction false} SectionsAppend(ids: seq<int32>, id: int32)
    ensures Sections(ids + [id]) == Sections(ids) + EmptySection(id)
  {
    if ids != [] {
      assert (ids + [id])[1..] == ids[1..] + [id];
      SectionsAppend(ids[1..], id);
    }
  }

  /** When every section takes 8 bytes, section i sits at bytes [8i, 8i + 8). */
  lemma {:induction false} SectionsAt(ids: seq<int32>, i: nat)
    requires forall j :: 0 <= j < |ids| ==> |EmptySection(ids[j])| == 8
    requires i < |ids|
    ensures |Sections(ids)| == 8 * |ids|
    ensures Sections(ids)[8 * i..8 * i + 8] == EmptySection(ids[i])
  {
    var head, tail := EmptySection(ids[0]), Sections(ids[1..]);
    assert Sections(ids) == head + tail;
    if |ids| == 1 {
      assert tail == [];
    } else {
      SectionsAt(ids[1..], if i == 0 then 0 else i - 1);
      if 0 < i {
        assert (head + tail)[8 * i..8 * i + 8] == tail[8 * (i - 1)..8 * (i - 1) + 8];
      }
    }
  }

  /** Every section of the empty chunk is one of the two 8-byte sections. */
  lemma ChunkSectionsUsed()
    ensures |ChunkBlockIds()| == SectionsPerChunk
    ensures forall j :: 0 <= j < SectionsPerChunk ==> ChunkBlockIds()[j] == BlockIdAt(j)
    ensures forall j :: 0 <= j < SectionsPerChunk ==> |EmptySection(ChunkBlockIds()[j])| == 8
  {
    UsedSections();
  }

  /**
   * The empty chunk is 24 sections of 8 bytes: section i is the placeholder
   * block's section for i < 8 and the air section above.
   */
  lemma EmptyChunkLayout(i: nat)
    requires i < SectionsPerChunk
    ensures |EmptyChunk()| == SectionsPerChunk * |EmptySection(AirBlockId)| == 192
    ensures EmptyChunk()[8 * i..8 * i + 8]
         == if i < PlaceholderSections then EmptySection(PlaceholderBlockId) else EmptySection(AirBlockId)
  {
    ChunkSectionsUsed();
    SectionsAt(ChunkBlockIds(), i);
  }

  /** A suffix is the slice up to any later offset followed by the rest. */
  lemma SuffixSplit(s: seq<byte>, k: nat, m: nat)
    requires k <= m <= |s|
    ensures s[k..] == s[k..m] + s[m..]
  {
  }

  /** Either section the chunk uses parses back to its fields and 8 bytes, whatever follows. */
  lemma UsedSectionParses(blockId: int32, rest: seq<byte>)
    requires blockId == PlaceholderBlockId || blockId == AirBlockId
    ensures ParseSection(EmptySection(blockId) + rest) == Some(ParsedSection(EmptySectionFields(blockId), 8))
  {
    UsedSectionLength(blockId);
    ParseSectionOfEncode(EmptySectionFields(blockId), rest);
  }

  /** Read back from byte 8i, the empty chunk holds the fields of section i. */
  lemma EmptyChunkParses(i: nat)
    requires i < SectionsPerChunk
    ensures 8 * i + 8 <= |EmptyChunk()|
    ensures ParseSection(EmptyChunk()[8 * i..]) == Some(ParsedSection(EmptySectionFields(BlockIdAt(i)), 8))
  {
    var blockId, chunk := BlockIdAt(i), EmptyChunk();
    assert |EmptySection(blockId)| == 8 by {
      UsedSectionLength(blockId);
    }
    assert 8 * i + 8 <= |chunk| && chunk[8 * i..8 * i + 8] == EmptySection(blockId) by {
      EmptyChunkLayout(i);
    }
    SuffixSplit(chunk, 8 * i, 8 * i + 8);
    UsedSectionParses(blockId, chunk[8 * i + 8..]);
  }

  // ---------------------------------------------------------------------
  // The code that builds the payload

  /** createEmptySection: the section bytes written through a ByteBuf. */
  method CreateEmptySection(blockId: int32) returns (section: array<byte>)
    ensures fresh(section)
    ensures section[..] == EmptySection(blockId)
  {
    var buffer := new ByteBuf();
    buffer.WriteShort(if blockId == 0 then 0 else 4096);

    buffer.WriteByte(0);
    WriteVarInt(buffer, blockId);
    WriteVarInt(buffer, 0);

    buffer.WriteByte(0);
    WriteVarInt(buffer, 0);
    WriteVarInt(buffer, 0);

    section := buffer.CopyWritten();
    EmptySectionLayout(blockId);
  }

  /** System.arraycopy between byte arrays, for a range inside both arrays. */
  method ArrayCopy(src: array<byte>, srcPos: nat, dest: array<byte>, destPos: nat, length: nat)
    requires srcPos + length <= src.Length
    requires destPos + length <= dest.Length
    modifies dest
    ensures dest[..] == old(dest[..destPos]) + old(src[srcPos..srcPos + length]) + old(dest[destPos + length..])
  {
    forall k | destPos <= k < destPos + length {
      dest[k] := src[srcPos + k - destPos];
    }
  }

  /**
   * One round of createEmptyChunk's loop: copying section i over bytes
   * [8i, 8i + 8) extends the built prefix by that section.
   */
  lemma ChunkStep(before: seq<byte>, after: seq<byte>, i: nat, blockId: int32)
    requires i < SectionsPerChunk && blockId == BlockIdAt(i)
    requires |before| == 192 && |EmptySection(blockId)| == 8
    requires before[..8 * i] == Sections(ChunkBlockIds()[..i])
    requires after == before[..8 * i] + EmptySection(blockId) + before[8 * i + 8..]
    ensures after[..8 * (i + 1)] == Sections(ChunkBlockIds()[..i + 1])
  {
    assert after[..8 * i + 8] == before[..8 * i] + EmptySection(blockId);
    assert ChunkBlockIds()[..i + 1] == ChunkBlockIds()[..i] + [blockId];
    SectionsAppend(ChunkBlockIds()[..i], blockId);
  }

  /** Both sections the chunk uses are 8 bytes long. */
  lemma UsedSectionLength(blockId: int32)
    requires blockId == PlaceholderBlockId || blockId == AirBlockId
    ensures |EmptySection(blockId)| == 8
  {
    UsedSections();
  }

  /**
   * createEmptyChunk: the array is sized from the air section, and section i
   * is copied to section.length * i using the length of the section just
   * built; both stay in bounds because both sections are 8 bytes long.
   */
  method CreateEmptyChunk() returns (chunk: array<byte>)
    ensures fresh(chunk)
    ensures chunk[..] == EmptyChunk()
  {
    var section := CreateEmptySection(AirBlockId);
    UsedSectionLength(AirBlockId);

    chunk := new byte[section.Length * 24];
    for i := 0 to 24
      invariant chunk.Length == 192
      invariant chunk[..8 * i] == Sections(ChunkBlockIds()[..i])
    {
      var blockId := if i < 8 then PlaceholderBlockId else AirBlockId;
      section := CreateEmptySection(blockId);
      UsedSectionLength(blockId);
      ghost var before := chunk[..];
      ArrayCopy(section, 0, chunk, section.Length * i, section.Length);
      ChunkStep(before, chunk[..], i, blockId);
    }
    assert ChunkBlockIds()[..24] == ChunkBlockIds();
  }
}
