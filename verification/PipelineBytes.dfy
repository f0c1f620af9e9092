/** The pipeline on the bytes of the shared segment: whatever threads and children do,
    the segment shows the slots and chunks of the model, and nothing else in it
    changes. */
module PipelineBytes {
  import opened Bytes
  import opened SharedMemory
  import opened PipelineModel
  import opened PipelineInvariant
  import PipelineSafety
  import PipelineOwnership
  import PipelineLayout

  /** How a slot and the content of a chunk are laid out in bytes. */
  datatype Images = Images(slot: Slot -> seq<byte>, chunk: Chunk -> seq<byte>)

  /** The pipeline c works in a segment with map m; module k has process slot ids[k]. */
  datatype Setting = Setting(c: Config, m: MemoryMap, ids: seq<nat>, images: Images) {
    ghost predicate Valid() {
      && PipelineLayout.WorksIn(c, m) && c.Valid() && |ids| == c.modules
      && (forall k | 0 <= k < |ids| :: ids[k] < m.processCnt)
      && (forall j, k | 0 <= j < k < |ids| :: ids[j] != ids[k])
      && (forall x :: |images.slot(x)| == m.processSize)
      && (forall d :: |images.chunk(d)| == m.dataSize)
    }
  }

  function Slots(s: State): (slots: seq<Slot>)
    ensures |slots| == |s.mods|
  {
    seq(|s.mods|, k requires 0 <= k < |s.mods| => s.mods[k].slot)
  }

  function Slice(bs: seq<byte>, at: nat, n: nat): seq<byte>
    requires at + n <= |bs|
  {
    bs[at..at + n]
  }

  /** The process table shows the slots. */
  ghost predicate ShowsSlots(g: Setting, slots: seq<Slot>, bs: seq<byte>)
    requires g.Valid() && |slots| == |g.ids| && |bs| == SegmentSize(g.m)
  {
    forall k: nat | k < |slots| ::
      && SlotAt(g.m, g.ids[k]) + g.m.processSize <= |bs|
      && Slice(bs, SlotAt(g.m, g.ids[k]), g.m.processSize) == g.images.slot(slots[k])
  }

  /** The data region shows the chunks. */
  ghost predicate ShowsChunks(g: Setting, mem: map<nat, Chunk>, bs: seq<byte>)
    requires g.Valid() && |bs| == SegmentSize(g.m)
  {
    forall i: nat | i < g.m.dataCnt ::
      && ChunkAt(g.m, i) + g.m.dataSize <= |bs|
      && Slice(bs, ChunkAt(g.m, i), g.m.dataSize) == g.images.chunk(Read(mem, ChunkAt(g.m, i)))
  }

  ghost predicate Shows(g: Setting, s: State, bs: seq<byte>)
    requires g.Valid() && |s.mods| == g.c.modules && |bs| == SegmentSize(g.m)
  {
    ShowsSlots(g, Slots(s), bs) && ShowsChunks(g, s.mem, bs)
  }

  // ------------------------------------------------------------- one store

  lemma SliceOfPatched(bs: seq<byte>, at: nat, data: seq<byte>, lo: nat, n: nat)
    requires at + |data| <= |bs| && lo + n <= |bs|
    requires lo + n <= at || at + |data| <= lo
    ensures Slice(Patched(bs, at, data), lo, n) == Slice(bs, lo, n)
  {
  }

  lemma PatchedSlice(bs: seq<byte>, at: nat, data: seq<byte>)
    requires at + |data| <= |bs|
    ensures Slice(Patched(bs, at, data), at, |data|) == data
  {
  }

  lemma SlotsApart(m: MemoryMap, i: nat, j: nat)
    requires i != j
    ensures SlotAt(m, i) + m.processSize <= SlotAt(m, j) || SlotAt(m, j) + m.processSize <= SlotAt(m, i)
  {
    ElementsApart(m, if i < j then i else j, if i < j then j else i);
  }

  lemma ChunksApart(m: MemoryMap, i: nat, j: nat)
    requires i != j
    ensures ChunkAt(m, i) + m.dataSize <= ChunkAt(m, j) || ChunkAt(m, j) + m.dataSize <= ChunkAt(m, i)
  {
    ElementsApart(m, if i < j then i else j, if i < j then j else i);
  }

  lemma SlotStored(g: Setting, slots: seq<Slot>, mem: map<nat, Chunk>, bs: seq<byte>, k: nat, x: Slot)
    requires g.Valid() && |slots| == |g.ids| && |bs| == SegmentSize(g.m) && k < |slots|
    requires ShowsSlots(g, slots, bs) && ShowsChunks(g, mem, bs)
    ensures var at, data := SlotAt(g.m, g.ids[k]), g.images.slot(x);
            && at + |data| <= |bs|
            && ShowsSlots(g, slots[k := x], Patched(bs, at, data)) && ShowsChunks(g, mem, Patched(bs, at, data))
  {
    var at, data := SlotAt(g.m, g.ids[k]), g.images.slot(x);
    var r := Patched(bs, at, data);
    SlotInside(g.m, g.ids[k]);
    forall j: nat | j < |slots|
      ensures Slice(r, SlotAt(g.m, g.ids[j]), g.m.processSize) == g.images.slot(slots[k := x][j])
    {
      if j == k {
        PatchedSlice(bs, at, data);
      } else {
        SlotsApart(g.m, g.ids[j], g.ids[k]);
        SliceOfPatched(bs, at, data, SlotAt(g.m, g.ids[j]), g.m.processSize);
      }
    }
    forall i: nat | i < g.m.dataCnt
      ensures Slice(r, ChunkAt(g.m, i), g.m.dataSize) == Slice(bs, ChunkAt(g.m, i), g.m.dataSize)
    {
      ChunkInside(g.m, i);
      SliceOfPatched(bs, at, data, ChunkAt(g.m, i), g.m.dataSize);
    }
  }

  lemma ChunkStored(g: Setting, slots: seq<Slot>, mem: map<nat, Chunk>, bs: seq<byte>, i: nat, d: Chunk)
    requires g.Valid() && |slots| == |g.ids| && |bs| == SegmentSize(g.m) && i < g.m.dataCnt
    requires ShowsSlots(g, slots, bs) && ShowsChunks(g, mem, bs)
    ensures var at, data := ChunkAt(g.m, i), g.images.chunk(d);
            && at + |data| <= |bs|
            && ShowsSlots(g, slots, Patched(bs, at, data)) && ShowsChunks(g, mem[at := d], Patched(bs, at, data))
  {
    var at, data := ChunkAt(g.m, i), g.images.chunk(d);
    var r := Patched(bs, at, data);
    ChunkInside(g.m, i);
    forall j: nat | j < g.m.dataCnt
      ensures Slice(r, ChunkAt(g.m, j), g.m.dataSize) == g.images.chunk(Read(mem[at := d], ChunkAt(g.m, j)))
    {
      if j == i {
        PatchedSlice(bs, at, data);
      } else {
        ChunkInside(g.m, j);
        ChunksApart(g.m, i, j);
        SliceOfPatched(bs, at, data, ChunkAt(g.m, j), g.m.dataSize);
      }
    }
    forall k: nat | k < |slots|
      ensures Slice(r, SlotAt(g.m, g.ids[k]), g.m.processSize) == Slice(bs, SlotAt(g.m, g.ids[k]), g.m.processSize)
    {
      SlotInside(g.m, g.ids[k]);
      SliceOfPatched(bs, at, data, SlotAt(g.m, g.ids[k]), g.m.processSize);
    }
  }

  // ---------------------------------------------------------------- a step

  ghost predicate IsChunk(c: Config, o: nat, i: nat) {
    i < c.dataCnt && c.Offsets()[i] == o
  }

  ghost function ChunkIndex(c: Config, o: nat): (i: nat)
    requires o in c.Offsets()
    ensures IsChunk(c, o, i)
  {
    var i: nat :| i < |c.Offsets()| && c.Offsets()[i] == o;
    i
  }

  lemma ThreadMoveWrites(r: Role, v: View, exit: bool, live: bool)
    requires ThreadReady(r, v, exit, live)
    ensures var w, o := ThreadMove(r, v, exit, live), v.me.offs;
            w.mem == v.mem || (Held(v.me) && w.mem == v.mem[o := Read(w.mem, o)])
  {
  }

  lemma ChildMoveWrites(c: Config, k: nat, m: Module, mem: map<nat, Chunk>, item: Chunk, status: int)
    requires ChildReady(m) && ModuleInv(RoleOf(c, k), m)
    ensures var (m', mem') := ChildMove(c, k, m, mem, item, status); var o := m.offs;
            mem' == mem || (Held(m) && mem' == mem[o := Read(mem', o)])
  {
  }

  lemma StepSlots(c: Config, s: State, e: Event)
    requires Enabled(c, s, e)
    ensures var t := Apply(c, s, e);
            && |t.mods| == |s.mods|
            && Slots(t) == if e.ThreadStep? || e.ChildStep? then Slots(s)[e.k := t.mods[e.k].slot] else Slots(s)
  {
  }

  /** A step changes at most the chunk its module holds. */
  lemma StepWrites(c: Config, s: State, e: Event)
    requires c.Valid() && Inv(c, s) && Enabled(c, s, e)
    ensures var t := Apply(c, s, e);
            t.mem != s.mem ==>
              && (e.ThreadStep? || e.ChildStep?)
              && s.mods[e.k].offs in c.Offsets()
              && t.mem == s.mem[s.mods[e.k].offs := Read(t.mem, s.mods[e.k].offs)]
  {
    if e.ThreadStep? {
      ThreadMoveWrites(RoleOf(c, e.k), ViewOf(s, e.k), s.exit, s.live);
    } else if e.ChildStep? {
      assert Local(c, s.mods, e.k);
      ChildMoveWrites(c, e.k, s.mods[e.k], s.mem, e.item, e.status);
    }
    if (e.ThreadStep? || e.ChildStep?) && Held(s.mods[e.k]) {
      PipelineOwnership.HeldCounts(c, s, e.k);
    }
  }

  /** The stores that change a slot from x to y. */
  function SlotStores(g: Setting, k: nat, x: Slot, y: Slot): seq<Store>
    requires k < |g.ids|
  {
    if x == y then [] else [ToSlot(g.ids[k], 0, g.images.slot(y))]
  }

  /** The stores that change the chunk at o so that the chunks become mem'. */
  ghost function ChunkStores(g: Setting, o: nat, mem: map<nat, Chunk>, mem': map<nat, Chunk>): seq<Store>
    requires mem != mem' ==> o in g.c.Offsets()
  {
    if mem == mem' then [] else [ToChunk(ChunkIndex(g.c, o), 0, g.images.chunk(Read(mem', o)))]
  }

  /** The stores of a step: into its module's slot and the chunk its module holds. */
  ghost function StoresOf(g: Setting, s: State, e: Event): seq<Store>
    requires g.Valid() && Inv(g.c, s) && Enabled(g.c, s, e)
  {
    if !e.ThreadStep? && !e.ChildStep? then []
    else
      StepWrites(g.c, s, e);
      StepSlots(g.c, s, e);
      var t := Apply(g.c, s, e);
      SlotStores(g, e.k, s.mods[e.k].slot, t.mods[e.k].slot) + ChunkStores(g, s.mods[e.k].offs, s.mem, t.mem)
  }

  lemma {:induction false} StoredTwice(m: MemoryMap, bs: seq<byte>, a: seq<Store>, b: seq<Store>)
    requires Fits(m) && |bs| == SegmentSize(m)
    requires forall i | 0 <= i < |a| :: StoreInside(m, a[i])
    requires forall i | 0 <= i < |b| :: StoreInside(m, b[i])
    ensures Stored(m, bs, a + b) == Stored(m, Stored(m, bs, a), b)
    decreases |a|
  {
    if a == [] {
      assert a + b == b;
    } else {
      StoreBetween(m, a[0]);
      assert (a + b)[1..] == a[1..] + b;
      StoredTwice(m, Patched(bs, Address(m, a[0]), a[0].data), a[1..], b);
    }
  }

  lemma StoredOne(m: MemoryMap, bs: seq<byte>, x: Store)
    requires Fits(m) && |bs| == SegmentSize(m) && StoreInside(m, x)
    ensures Address(m, x) + |x.data| <= |bs|
    ensures Stored(m, bs, [x]) == Patched(bs, Address(m, x), x.data)
  {
    StoreBetween(m, x);
    assert [x][1..] == [];
  }

  lemma SlotStoresShow(g: Setting, slots: seq<Slot>, mem: map<nat, Chunk>, bs: seq<byte>, k: nat, y: Slot)
    requires g.Valid() && |slots| == |g.ids| && k < |slots| && |bs| == SegmentSize(g.m)
    requires ShowsSlots(g, slots, bs) && ShowsChunks(g, mem, bs)
    ensures var stores := SlotStores(g, k, slots[k], y);
            && (forall i | 0 <= i < |stores| :: StoreInside(g.m, stores[i]))
            && ShowsSlots(g, slots[k := y], Stored(g.m, bs, stores)) && ShowsChunks(g, mem, Stored(g.m, bs, stores))
  {
    if slots[k] == y {
      assert slots[k := y] == slots;
    } else {
      StoredOne(g.m, bs, SlotStores(g, k, slots[k], y)[0]);
      SlotStored(g, slots, mem, bs, k, y);
    }
  }

  lemma ChunkStoreShows(g: Setting, slots: seq<Slot>, i: nat, d: Chunk, mem: map<nat, Chunk>, bs: seq<byte>)
    requires g.Valid() && |slots| == |g.ids| && |bs| == SegmentSize(g.m) && i < g.m.dataCnt
    requires ShowsSlots(g, slots, bs) && ShowsChunks(g, mem, bs)
    ensures var x := ToChunk(i, 0, g.images.chunk(d));
            && StoreInside(g.m, x)
            && ShowsSlots(g, slots, Stored(g.m, bs, [x]))
            && ShowsChunks(g, mem[ChunkAt(g.m, i) := d], Stored(g.m, bs, [x]))
  {
    StoredOne(g.m, bs, ToChunk(i, 0, g.images.chunk(d)));
    ChunkStored(g, slots, mem, bs, i, d);
  }

  lemma ChunkStoresShow(g: Setting, slots: seq<Slot>, o: nat, mem: map<nat, Chunk>, mem': map<nat, Chunk>,
                        bs: seq<byte>)
    requires g.Valid() && |slots| == |g.ids| && |bs| == SegmentSize(g.m)
    requires ShowsSlots(g, slots, bs) && ShowsChunks(g, mem, bs)
    requires mem != mem' ==> o in g.c.Offsets() && mem' == mem[o := Read(mem', o)]
    ensures var stores := ChunkStores(g, o, mem, mem');
            && (forall i | 0 <= i < |stores| :: StoreInside(g.m, stores[i]))
            && ShowsSlots(g, slots, Stored(g.m, bs, stores)) && ShowsChunks(g, mem', Stored(g.m, bs, stores))
  {
    if mem != mem' {
      var i := ChunkIndex(g.c, o);
      PipelineLayout.OffsetIs(g.c, g.m, i);
      ChunkStoreShows(g, slots, i, Read(mem', o), mem, bs);
    }
  }

  lemma BothStoresShow(g: Setting, slots: seq<Slot>, mem: map<nat, Chunk>, mem': map<nat, Chunk>, bs: seq<byte>,
                       k: nat, y: Slot, o: nat)
    requires g.Valid() && |slots| == |g.ids| && k < |slots| && |bs| == SegmentSize(g.m)
    requires ShowsSlots(g, slots, bs) && ShowsChunks(g, mem, bs)
    requires mem != mem' ==> o in g.c.Offsets() && mem' == mem[o := Read(mem', o)]
    ensures var stores := SlotStores(g, k, slots[k], y) + ChunkStores(g, o, mem, mem');
            && (forall i | 0 <= i < |stores| :: StoreInside(g.m, stores[i]))
            && ShowsSlots(g, slots[k := y], Stored(g.m, bs, stores)) && ShowsChunks(g, mem', Stored(g.m, bs, stores))
  {
    var a, b := SlotStores(g, k, slots[k], y), ChunkStores(g, o, mem, mem');
    SlotStoresShow(g, slots, mem, bs, k, y);
    ChunkStoresShow(g, slots[k := y], o, mem, mem', Stored(g.m, bs, a));
    StoredTwice(g.m, bs, a, b);
  }

  lemma StepShows(g: Setting, s: State, e: Event, bs: seq<byte>)
    requires g.Valid() && Inv(g.c, s) && Enabled(g.c, s, e) && |bs| == SegmentSize(g.m) && Shows(g, s, bs)
    ensures var stores := StoresOf(g, s, e);
            && (forall i | 0 <= i < |stores| :: StoreInside(g.m, stores[i]))
            && |Apply(g.c, s, e).mods| == g.c.modules
            && Shows(g, Apply(g.c, s, e), Stored(g.m, bs, stores))
  {
    var t := Apply(g.c, s, e);
    StepWrites(g.c, s, e);
    StepSlots(g.c, s, e);
    if e.ThreadStep? || e.ChildStep? {
      BothStoresShow(g, Slots(s), s.mem, t.mem, bs, e.k, t.mods[e.k].slot, s.mods[e.k].offs);
    }
  }

  // ----------------------------------------------------------------- a run

  /** The stores of all steps, one after the other. */
  ghost function RunStores(g: Setting, s: State, es: seq<Event>): seq<Store>
    requires g.Valid() && Inv(g.c, s) && Legal(g.c, s, es)
    decreases |es|
  {
    if es == [] then []
    else
      PipelineSafety.StepKeeps(g.c, s, es[0]);
      StoresOf(g, s, es[0]) + RunStores(g, Apply(g.c, s, es[0]), es[1..])
  }

  lemma {:induction false} RunShows(g: Setting, s: State, es: seq<Event>, bs: seq<byte>)
    requires g.Valid() && Inv(g.c, s) && Legal(g.c, s, es) && |bs| == SegmentSize(g.m) && Shows(g, s, bs)
    ensures var stores := RunStores(g, s, es);
            && (forall i | 0 <= i < |stores| :: StoreInside(g.m, stores[i]))
            && |After(g.c, s, es).mods| == g.c.modules
            && Shows(g, After(g.c, s, es), Stored(g.m, bs, stores))
    decreases |es|
  {
    if es != [] {
      var first := StoresOf(g, s, es[0]);
      PipelineSafety.StepKeeps(g.c, s, es[0]);
      StepShows(g, s, es[0], bs);
      RunShows(g, Apply(g.c, s, es[0]), es[1..], Stored(g.m, bs, first));
      StoredTwice(g.m, bs, first, RunStores(g, Apply(g.c, s, es[0]), es[1..]));
    }
  }

  /** After any run of the pipeline, in any interleaving, the bytes of the segment are
      those of the slots and chunks of the model, and the description written at
      initialisation reads back unchanged. */
  lemma SegmentAfterRun(g: Setting, mem: map<nat, Chunk>, es: seq<Event>, bs: seq<byte>, json: seq<byte>)
    requires g.Valid() && RunOf(g.c, mem, es)
    requires |bs| == SegmentSize(g.m) && SIZE_T_LEN + |json| <= DescriptionBytes(g.m)
    requires Shows(g, Start(g.c, mem), Described(g.m, bs, json))
    ensures Inv(g.c, Start(g.c, mem))
    ensures var stores := RunStores(g, Start(g.c, mem), es);
            && (forall i | 0 <= i < |stores| :: StoreInside(g.m, stores[i]))
            && |StateAfter(g.c, mem, es).mods| == g.c.modules
            && var r := Stored(g.m, Described(g.m, bs, json), stores);
               && Shows(g, StateAfter(g.c, mem, es), r)
               && MAP_STRUCT_SIZE <= |r| && r[..MAP_STRUCT_SIZE] == bs[..MAP_STRUCT_SIZE]
               && DescribedLength(g.m, r) == |json| && Description(g.m, r) == json
  {
    PipelineSafety.StartHolds(g.c, mem);
    RunShows(g, Start(g.c, mem), es, Described(g.m, bs, json));
    DescriptionSurvives(g.m, bs, json, RunStores(g, Start(g.c, mem), es));
  }
}
