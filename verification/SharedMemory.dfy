/** The layout of the shared segment: map, process table, chunks, descriptions. */
module SharedMemory {
  import opened Bytes
  import opened Spans

  /** memory_map_t, 48 bytes with its padding. */
  datatype MemoryMap = MemoryMap(
    processCnt: nat, processSize: nat,
    dataCnt: nat, dataSize: nat,
    zoneCnt: nat, zoneSize: nat)

  const MAP_STRUCT_SIZE: nat := 48
  const DESCRIPTOR_DATA_MAX_LEN: nat := 16384

  // Sizes and offsets are computed in size_t.

  function Add64(a: nat, b: nat): nat {
    (a + b) % TWO_TO_64
  }

  function Mul64(a: nat, b: nat): nat {
    Span(a, b) % TWO_TO_64
  }

  /** (((size) + 255) >> 8) << 8 */
  function Align(size: nat): nat {
    Add64(size, 255) / 256 * 256
  }

  function MapSize(): nat {
    Align(MAP_STRUCT_SIZE)
  }

  function ProcessBytes(m: MemoryMap): nat {
    Align(Mul64(m.processSize, m.processCnt))
  }

  function DataBytes(m: MemoryMap): nat {
    Align(Mul64(m.dataSize, m.dataCnt))
  }

  function DescriptionBytes(m: MemoryMap): nat {
    Align(Mul64(m.zoneSize, m.zoneCnt))
  }

  function ProcessOffset(m: MemoryMap): nat {
    MapSize()
  }

  function DataOffset(m: MemoryMap): nat {
    Add64(MapSize(), ProcessBytes(m))
  }

  function DescriptionOffset(m: MemoryMap): nat {
    Add64(Add64(MapSize(), ProcessBytes(m)), DataBytes(m))
  }

  function SegmentSize(m: MemoryMap): nat {
    Add64(Add64(Add64(MapSize(), ProcessBytes(m)), DataBytes(m)), DescriptionBytes(m))
  }

  /** The numbers fit size_t. */
  predicate Fits(m: MemoryMap) {
    256 + (Span(m.processSize, m.processCnt) + 255) + (Span(m.dataSize, m.dataCnt) + 255)
    + (Span(m.zoneSize, m.zoneCnt) + 255) < TWO_TO_64
  }

  /** The smallest multiple of 256 that is not less. */
  lemma AlignMeans(size: nat)
    requires size + 255 < TWO_TO_64
    ensures Align(size) % 256 == 0 && size <= Align(size) < size + 256
  {
  }

  /** The sums of the offset functions, for regions of p, d and z bytes. */
  lemma SumsFit(p: nat, d: nat, z: nat)
    requires 256 + (p + 255) + (d + 255) + (z + 255) < TWO_TO_64
    ensures Align(p) % 256 == 0 && p <= Align(p)
    ensures Align(d) % 256 == 0 && d <= Align(d)
    ensures Align(z) % 256 == 0 && z <= Align(z)
    ensures (256 + Align(p)) % 256 == 0 && (256 + Align(p) + Align(d)) % 256 == 0
    ensures Add64(256, Align(p)) == 256 + Align(p)
    ensures Add64(Add64(256, Align(p)), Align(d)) == 256 + Align(p) + Align(d)
    ensures Add64(Add64(Add64(256, Align(p)), Align(d)), Align(z)) == 256 + Align(p) + Align(d) + Align(z) < TWO_TO_64
  {
    AlignMeans(p);
    AlignMeans(d);
    AlignMeans(z);
  }

  lemma SpansFit(m: MemoryMap)
    requires Fits(m)
    ensures ProcessBytes(m) == Align(Span(m.processSize, m.processCnt))
    ensures DataBytes(m) == Align(Span(m.dataSize, m.dataCnt))
    ensures DescriptionBytes(m) == Align(Span(m.zoneSize, m.zoneCnt))
  {
    assert Mul64(m.processSize, m.processCnt) == Span(m.processSize, m.processCnt);
    assert Mul64(m.dataSize, m.dataCnt) == Span(m.dataSize, m.dataCnt);
    assert Mul64(m.zoneSize, m.zoneCnt) == Span(m.zoneSize, m.zoneCnt);
  }

  /** The four regions follow each other without gap or overlap, fill the segment,
      start at multiples of 256 and have room for what they are for. */
  lemma RegionsTile(m: MemoryMap)
    requires Fits(m)
    ensures ProcessOffset(m) == 256 >= MAP_STRUCT_SIZE
    ensures DataOffset(m) == ProcessOffset(m) + ProcessBytes(m)
    ensures DescriptionOffset(m) == DataOffset(m) + DataBytes(m)
    ensures SegmentSize(m) == DescriptionOffset(m) + DescriptionBytes(m) < TWO_TO_64
    ensures DataOffset(m) % 256 == 0 && DescriptionOffset(m) % 256 == 0
    ensures Span(m.processSize, m.processCnt) <= ProcessBytes(m)
    ensures Span(m.dataSize, m.dataCnt) <= DataBytes(m)
    ensures Span(m.zoneSize, m.zoneCnt) <= DescriptionBytes(m)
  {
    SpansFit(m);
    assert MapSize() == 256;
    SumsFit(Span(m.processSize, m.processCnt), Span(m.dataSize, m.dataCnt), Span(m.zoneSize, m.zoneCnt));
  }

  lemma {:induction false} ElementInside(i: nat, cnt: nat, size: nat)
    requires i < cnt
    ensures Span(size, i) + size <= Span(size, cnt)
  {
    if i + 1 < cnt {
      ElementInside(i, cnt - 1, size);
    }
  }

  /** Where the slot of process i and chunk i begin. */
  function SlotAt(m: MemoryMap, i: nat): nat {
    ProcessOffset(m) + Span(m.processSize, i)
  }

  function ChunkAt(m: MemoryMap, i: nat): nat {
    DataOffset(m) + Span(m.dataSize, i)
  }

  /** Slots are inside the process table, chunks inside the data region; so neither
      overlaps the map, the other, or the descriptions. */
  lemma SlotInside(m: MemoryMap, i: nat)
    requires Fits(m) && i < m.processCnt
    ensures MAP_STRUCT_SIZE <= ProcessOffset(m) <= SlotAt(m, i) && SlotAt(m, i) + m.processSize <= DataOffset(m)
    ensures SlotAt(m, i) == ProcessOffset(m) + i * m.processSize
  {
    RegionsTile(m);
    ElementInside(i, m.processCnt, m.processSize);
    SpanIsProduct(m.processSize, i);
  }

  lemma ChunkInside(m: MemoryMap, i: nat)
    requires Fits(m) && i < m.dataCnt
    ensures DataOffset(m) <= ChunkAt(m, i) && ChunkAt(m, i) + m.dataSize <= DescriptionOffset(m) <= SegmentSize(m)
    ensures ChunkAt(m, i) == DataOffset(m) + i * m.dataSize
  {
    RegionsTile(m);
    ElementInside(i, m.dataCnt, m.dataSize);
    SpanIsProduct(m.dataSize, i);
  }

  /** Different slots share no byte, nor do different chunks. */
  lemma {:induction false} ElementsApart(m: MemoryMap, i: nat, j: nat)
    requires i < j
    ensures SlotAt(m, i) + m.processSize <= SlotAt(m, j)
    ensures ChunkAt(m, i) + m.dataSize <= ChunkAt(m, j)
  {
    ElementInside(i, j, m.processSize);
    ElementInside(i, j, m.dataSize);
  }

  // --------------------------------------------------------- the segment

  function Patched(bs: seq<byte>, at: nat, data: seq<byte>): (r: seq<byte>)
    requires at + |data| <= |bs|
    ensures |r| == |bs|
  {
    bs[..at] + data + bs[at + |data|..]
  }

  /** The bytes from `at` on are those of data, and all others what they were. */
  lemma PatchedAt(bs: seq<byte>, at: nat, data: seq<byte>, i: nat)
    requires at + |data| <= |bs| && i < |bs|
    ensures Patched(bs, at, data)[i] == if at <= i < at + |data| then data[i - at] else bs[i]
  {
    if i >= at + |data| {
      assert bs[at + |data|..][i - at - |data|] == bs[i];
    }
  }

  /** What threads and children store while the pipeline runs: fields of a process
      slot and bytes of a chunk. */
  datatype Store = ToSlot(i: nat, offset: nat, data: seq<byte>) | ToChunk(i: nat, offset: nat, data: seq<byte>)

  predicate StoreInside(m: MemoryMap, s: Store) {
    if s.ToSlot? then s.i < m.processCnt && s.offset + |s.data| <= m.processSize
    else s.i < m.dataCnt && s.offset + |s.data| <= m.dataSize
  }

  function Address(m: MemoryMap, s: Store): nat {
    (if s.ToSlot? then SlotAt(m, s.i) else ChunkAt(m, s.i)) + s.offset
  }

  /** A store goes to its place in the slot or the chunk. */
  lemma StoreBetween(m: MemoryMap, s: Store)
    requires Fits(m) && StoreInside(m, s)
    ensures Address(m, s) == s.offset + if s.ToSlot? then ProcessOffset(m) + s.i * m.processSize
                                        else DataOffset(m) + s.i * m.dataSize
    ensures MAP_STRUCT_SIZE <= Address(m, s) && Address(m, s) + |s.data| <= DescriptionOffset(m) <= SegmentSize(m)
  {
    RegionsTile(m);
    if s.ToSlot? {
      SlotInside(m, s.i);
    } else {
      ChunkInside(m, s.i);
    }
  }

  function Stored(m: MemoryMap, bs: seq<byte>, stores: seq<Store>): (r: seq<byte>)
    requires Fits(m) && |bs| == SegmentSize(m) && forall i | 0 <= i < |stores| :: StoreInside(m, stores[i])
    ensures |r| == |bs|
    decreases |stores|
  {
    if stores == [] then bs
    else
      StoreBetween(m, stores[0]);
      Stored(m, Patched(bs, Address(m, stores[0]), stores[0].data), stores[1..])
  }

  /** The description segment after dclprocessor_init: the length of the JSON text in
      a size_t, then the text. */
  function Described(m: MemoryMap, bs: seq<byte>, json: seq<byte>): (r: seq<byte>)
    requires Fits(m) && |bs| == SegmentSize(m) && SIZE_T_LEN + |json| <= DescriptionBytes(m)
    ensures |r| == |bs|
  {
    RegionsTile(m);
    var at := DescriptionOffset(m);
    Patched(Patched(bs, at, Encoded(|json|, SIZE_T_LEN)), at + SIZE_T_LEN, json)
  }

  /** What dclprocessor_get makes of it. */
  function Description(m: MemoryMap, bs: seq<byte>): seq<byte>
    requires Fits(m) && |bs| == SegmentSize(m) && SIZE_T_LEN <= DescriptionBytes(m)
    requires SIZE_T_LEN + DescribedLength(m, bs) <= DescriptionBytes(m)
  {
    RegionsTile(m);
    var at := DescriptionOffset(m) + SIZE_T_LEN;
    bs[at..at + DescribedLength(m, bs)]
  }

  function DescribedLength(m: MemoryMap, bs: seq<byte>): nat
    requires Fits(m) && |bs| == SegmentSize(m) && SIZE_T_LEN <= DescriptionBytes(m)
  {
    RegionsTile(m);
    Little(bs[DescriptionOffset(m)..DescriptionOffset(m) + SIZE_T_LEN])
  }

  /** No store reaches the map at the start or the descriptions at the end. */
  lemma {:induction false} StoresSpareEnds(m: MemoryMap, bs: seq<byte>, stores: seq<Store>)
    requires Fits(m) && |bs| == SegmentSize(m) && forall i | 0 <= i < |stores| :: StoreInside(m, stores[i])
    ensures MAP_STRUCT_SIZE <= DescriptionOffset(m) <= |bs|
    ensures Stored(m, bs, stores)[..MAP_STRUCT_SIZE] == bs[..MAP_STRUCT_SIZE]
    ensures Stored(m, bs, stores)[DescriptionOffset(m)..] == bs[DescriptionOffset(m)..]
    decreases |stores|
  {
    RegionsTile(m);
    if stores != [] {
      StoreBetween(m, stores[0]);
      var next := Patched(bs, Address(m, stores[0]), stores[0].data);
      assert next[..MAP_STRUCT_SIZE] == bs[..MAP_STRUCT_SIZE];
      assert next[DescriptionOffset(m)..] == bs[DescriptionOffset(m)..];
      StoresSpareEnds(m, next, stores[1..]);
    }
  }

  /** A length field and a text read back from any bytes that agree from `at` on. */
  lemma ReadsBack(at: nat, d: seq<byte>, r: seq<byte>, field: seq<byte>, json: seq<byte>)
    requires |field| == SIZE_T_LEN && at + SIZE_T_LEN + |json| <= |d| == |r|
    requires d[at..at + SIZE_T_LEN] == field
    requires d[at + SIZE_T_LEN..at + SIZE_T_LEN + |json|] == json
    requires r[at..] == d[at..]
    ensures r[at..at + SIZE_T_LEN] == field
    ensures r[at + SIZE_T_LEN..at + SIZE_T_LEN + |json|] == json
  {
    SliceOfTail(d, r, at, at, at + SIZE_T_LEN);
    SliceOfTail(d, r, at, at + SIZE_T_LEN, at + SIZE_T_LEN + |json|);
  }

  /** Whatever threads and children store in the process table and the chunks, the
      description written at initialisation is read back unchanged. */
  lemma DescriptionSurvives(m: MemoryMap, bs: seq<byte>, json: seq<byte>, stores: seq<Store>)
    requires Fits(m) && |bs| == SegmentSize(m) && SIZE_T_LEN + |json| <= DescriptionBytes(m)
    requires forall i | 0 <= i < |stores| :: StoreInside(m, stores[i])
    ensures var r := Stored(m, Described(m, bs, json), stores);
            && MAP_STRUCT_SIZE <= |r| && r[..MAP_STRUCT_SIZE] == bs[..MAP_STRUCT_SIZE]
            && DescribedLength(m, r) == |json| && Description(m, r) == json
            && DescriptionOffset(m) + SIZE_T_LEN + |json| <= |r|
            && r[DescriptionOffset(m)..][..SIZE_T_LEN] == Encoded(|json|, SIZE_T_LEN)
            && r[DescriptionOffset(m)..][SIZE_T_LEN..SIZE_T_LEN + |json|] == json
  {
    var d := Described(m, bs, json);
    RegionsTile(m);
    StoresSpareEnds(m, d, stores);
    ReadsBack(DescriptionOffset(m), d, Stored(m, d, stores), Encoded(|json|, SIZE_T_LEN), json);
    DecodeLength(|json|);
  }

  /** With the zone every pipeline reserves, that is for texts up to 16376 bytes. */
  lemma DescriptionRoom(m: MemoryMap, json: seq<byte>)
    requires Fits(m) && m.zoneCnt == 1 && m.zoneSize == DESCRIPTOR_DATA_MAX_LEN
    ensures SIZE_T_LEN + |json| <= DescriptionBytes(m) <==> |json| <= 16376
  {
  }

  lemma Rejoin(a: array<byte>, n: nat)
    requires n <= a.Length
    ensures a[..] == a[..n] + a[n..]
  {
  }

  /** It does not fit: the last byte of a text of 16377 bytes would be stored behind the
      segment. */
  lemma TextTooLong(m: MemoryMap, json: seq<byte>)
    requires Fits(m) && m.zoneCnt == 1 && m.zoneSize == DESCRIPTOR_DATA_MAX_LEN && |json| == 16377
    ensures DescriptionOffset(m) + SIZE_T_LEN + |json| == SegmentSize(m) + 1
  {
    RegionsTile(m);
    SpansFit(m);
    assert Span(DESCRIPTOR_DATA_MAX_LEN, 1) == Span(DESCRIPTOR_DATA_MAX_LEN, 0) + DESCRIPTOR_DATA_MAX_LEN;
  }

  class Segment {
    const layout: MemoryMap
    const bytes: array<byte>

    ghost predicate Valid()
    {
      Fits(layout) && bytes.Length == SegmentSize(layout)
    }

    constructor (m: MemoryMap)
      requires Fits(m)
      ensures Valid() && layout == m && fresh(bytes)
    {
      layout := m;
      bytes := new byte[SegmentSize(m)];
    }

    method WriteData(offset: nat, data: seq<byte>)
      requires Valid() && DataOffset(layout) + offset + |data| <= bytes.Length
      modifies bytes
      ensures bytes[..] == Patched(old(bytes[..]), DataOffset(layout) + offset, data)
    {
      Fill(bytes, DataOffset(layout) + offset, data);
      Rejoin(bytes, DataOffset(layout) + offset + |data|);
    }

    method WriteProcesses(offset: nat, data: seq<byte>)
      requires Valid() && ProcessOffset(layout) + offset + |data| <= bytes.Length
      modifies bytes
      ensures bytes[..] == Patched(old(bytes[..]), ProcessOffset(layout) + offset, data)
    {
      Fill(bytes, ProcessOffset(layout) + offset, data);
      Rejoin(bytes, ProcessOffset(layout) + offset + |data|);
    }

    method WriteDescriptions(offset: nat, data: seq<byte>)
      requires Valid() && DescriptionOffset(layout) + offset + |data| <= bytes.Length
      modifies bytes
      ensures bytes[..] == Patched(old(bytes[..]), DescriptionOffset(layout) + offset, data)
    {
      Fill(bytes, DescriptionOffset(layout) + offset, data);
      Rejoin(bytes, DescriptionOffset(layout) + offset + |data|);
    }

    method ReadDescriptions(offset: nat, size: nat) returns (data: seq<byte>)
      requires Valid() && DescriptionOffset(layout) + offset + size <= bytes.Length
      ensures data == bytes[DescriptionOffset(layout) + offset..DescriptionOffset(layout) + offset + size]
    {
      var at := DescriptionOffset(layout) + offset;
      data := bytes[at..at + size];
    }

    /** The server's part of dclprocessor_init. */
    method PutDescription(json: seq<byte>)
      requires Valid() && SIZE_T_LEN + |json| <= DescriptionBytes(layout)
      modifies bytes
      ensures bytes[..] == Described(layout, old(bytes[..]), json)
    {
      RegionsTile(layout);
      WriteDescriptions(0, Encoded(|json|, SIZE_T_LEN));
      WriteDescriptions(SIZE_T_LEN, json);
    }

    /** The client's part, dclprocessor_get. */
    method GetDescription() returns (json: seq<byte>)
      requires Valid() && SIZE_T_LEN <= DescriptionBytes(layout)
      requires SIZE_T_LEN + DescribedLength(layout, bytes[..]) <= DescriptionBytes(layout)
      ensures json == Description(layout, bytes[..])
    {
      RegionsTile(layout);
      var field := ReadDescriptions(0, SIZE_T_LEN);
      var at := DescriptionOffset(layout);
      assert bytes[..][at..at + SIZE_T_LEN] == field;
      json := ReadDescriptions(SIZE_T_LEN, Little(field));
      assert bytes[..][at + SIZE_T_LEN..at + SIZE_T_LEN + Little(field)] == json;
    }
  }
}
