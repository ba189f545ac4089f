/**
 * PACKET_TYPES: the four chunk-streaming packet types of interest, kept when
 * the running protocol version supports them and silently dropped otherwise.
 */
module PacketFilter {
  datatype PacketType =
    | MapChunk            // server: chunk data
    | ChunkBatchStart     // server: batch start marker
    | ChunkBatchFinished  // server: batch finish marker
    | ChunkBatchReceived  // client: batch acknowledgement

  /** The candidate list, in source order. */
  const Candidates: seq<PacketType> := [MapChunk, ChunkBatchStart, ChunkBatchFinished, ChunkBatchReceived]

  /** The set a stream filter over the candidates collects. */
  function SupportedTypes(candidates: seq<PacketType>, isSupported: PacketType -> bool): (r: set<PacketType>)
    ensures forall t :: t in r <==> t in candidates && isSupported(t)
    ensures |r| <= |candidates|
  {
    if candidates == [] then {}
    else
      var rest := SupportedTypes(candidates[1..], isSupported);
      if isSupported(candidates[0]) then {candidates[0]} + rest else rest
  }

  /** The packet types the listener is bound to, for a protocol version's support query. */
  function PacketTypes(isSupported: PacketType -> bool): (r: set<PacketType>)
    ensures forall t :: t in r <==> isSupported(t)
  {
    CandidatesCoverAllTypes();
    SupportedTypes(Candidates, isSupported)
  }

  /** Every packet type of this model is one of the candidates. */
  lemma CandidatesCoverAllTypes()
    ensures forall t :: t in Candidates
  {
    forall t ensures t in Candidates {
      match t
      case MapChunk => assert Candidates[0] == t;
      case ChunkBatchStart => assert Candidates[1] == t;
      case ChunkBatchFinished => assert Candidates[2] == t;
      case ChunkBatchReceived => assert Candidates[3] == t;
    }
  }
}
