/** The pipeline's chunks in the shared segment. */
module PipelineLayout {
  import Bytes
  import opened SharedMemory
  import opened Spans
  import opened PipelineModel
  import PipelineInvariant
  import PipelineSafety
  import PipelineOwnership

  /** c is a pipeline that works in a segment with map m. */
  predicate WorksIn(c: Config, m: MemoryMap) {
    Fits(m) && c.dataOffset == DataOffset(m) && c.dataSize == m.dataSize && c.dataCnt == m.dataCnt
  }

  /** The offset of a chunk, computed in size_t. */
  function ChunkOffset(m: MemoryMap, i: nat): nat {
    Add64(DataOffset(m), Mul64(m.dataSize, i))
  }

  lemma SumFits(base: nat, span: nat)
    requires base + span < Bytes.TWO_TO_64
    ensures Add64(base, span % Bytes.TWO_TO_64) == base + span
  {
  }

  /** The computation does not wrap, and gives the offset the pipeline knows. */
  lemma ChunkOffsetFits(c: Config, m: MemoryMap, i: nat)
    requires WorksIn(c, m) && i < m.dataCnt
    ensures ChunkOffset(m, i) == ChunkAt(m, i) == c.Offsets()[i]
  {
    ChunkInside(m, i);
    RegionsTile(m);
    SumFits(DataOffset(m), Span(m.dataSize, i));
    OffsetIs(c, m, i);
  }

  lemma OffsetIs(c: Config, m: MemoryMap, i: nat)
    requires WorksIn(c, m) && i < m.dataCnt
    ensures ChunkAt(m, i) == c.Offsets()[i]
  {
    SpanIsProduct(m.dataSize, i);
  }

  /** pipeline_thread fills the ring with the offset of every chunk. */
  method FillRing(m: MemoryMap, ghost c: Config) returns (ring: array<nat>)
    requires WorksIn(c, m)
    ensures fresh(ring) && ring[..] == c.Offsets()
  {
    ring := new nat[m.dataCnt];
    for i := 0 to m.dataCnt
      invariant ring[..i] == c.Offsets()[..i]
    {
      ChunkOffsetFits(c, m, i);
      ring[i] := ChunkOffset(m, i);
    }
  }

  /** In every reachable state, a byte of the chunk that a thread and its child work
      on belongs to no other thread's chunk, to no process slot and to no
      description. */
  lemma WorkedOnExclusively(m: MemoryMap, c: Config, mem: map<nat, Chunk>, es: seq<Event>, k: nat, byte: nat)
    requires WorksIn(c, m) && RunOf(c, mem, es)
    requires var s := StateAfter(c, mem, es);
             k < |s.mods| && PipelineInvariant.Held(s.mods[k]) && PipelineOwnership.InChunk(c, s.mods[k].offs, byte)
    ensures DataOffset(m) <= byte < DescriptionOffset(m)
    ensures forall i: nat | i < m.processCnt :: SlotAt(m, i) + m.processSize <= byte
    ensures var s := StateAfter(c, mem, es);
            forall j: nat | j < |s.mods| && j != k && PipelineInvariant.Held(s.mods[j]) ::
               !PipelineOwnership.InChunk(c, s.mods[j].offs, byte)
  {
    var s := StateAfter(c, mem, es);
    PipelineSafety.Reachable(c, mem, es);
    PipelineOwnership.HeldCounts(c, s, k);
    var x: nat :| x < c.dataCnt && c.Offsets()[x] == s.mods[k].offs;
    OffsetIs(c, m, x);
    ChunkInside(m, x);
    forall i: nat | i < m.processCnt ensures SlotAt(m, i) + m.processSize <= byte {
      SlotInside(m, i);
    }
    forall j: nat | j < |s.mods| && j != k && PipelineInvariant.Held(s.mods[j])
      ensures !PipelineOwnership.InChunk(c, s.mods[j].offs, byte)
    {
      PipelineOwnership.ExclusiveBytes(c, mem, es, j, k, byte);
    }
  }
}
