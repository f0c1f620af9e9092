/** Who may touch which shared memory, in every reachable state: each chunk is in
    one place, each mailbox and each slot has one user at a time. */
module PipelineOwnership {
  import opened PipelineModel
  import opened PipelineInvariant
  import opened PipelineSafety
  import PipelineRefinement

  /** Conservation: the ring and what the threads and mailboxes have are together
      a permutation of the chunk offsets. */
  lemma ChunkConservation(c: Config, mem: map<nat, Chunk>, es: seq<Event>)
    requires RunOf(c, mem, es)
    ensures var s := StateAfter(c, mem, es);
            multiset(s.ring) + Total(Loads(s.mods)) == multiset(c.Offsets())
  {
    Reachable(c, mem, es);
  }

  lemma HeldCounts(c: Config, s: State, k: nat)
    requires c.Valid() && Inv(c, s) && k < |s.mods| && Held(s.mods[k])
    ensures |s.ring| < c.dataCnt && s.mods[k].offs in c.Offsets()
  {
    var o := s.mods[k].offs;
    var total := Total(Loads(s.mods));
    TotalCovers(Loads(s.mods), k, o);
    assert o in Load(s.mods[k]);
    assert o in total;
    assert |total| > 0;
    assert |multiset(s.ring) + total| == |s.ring| + |total|;
    assert |multiset(c.Offsets())| == c.dataCnt;
    assert o in Everywhere(s);
  }

  /** A thread that is about to push a chunk finds room for it: the ring holds at
      most dataCnt offsets. */
  lemma PushFindsRoom(c: Config, mem: map<nat, Chunk>, es: seq<Event>, k: nat)
    requires RunOf(c, mem, es) && k < |StateAfter(c, mem, es).mods|
    requires var p := StateAfter(c, mem, es).mods[k].pc; p.Drop? || p.Recycle?
    ensures |StateAfter(c, mem, es).ring| < c.dataCnt
  {
    Reachable(c, mem, es);
    HeldCounts(c, StateAfter(c, mem, es), k);
  }

  /** The bytes of a chunk. */
  predicate InChunk(c: Config, o: nat, byte: nat) {
    o <= byte < o + c.dataSize
  }

  /** Chunks held by different modules share no byte, and the one a child works on
      is the one its thread holds. */
  lemma ExclusiveBytes(c: Config, mem: map<nat, Chunk>, es: seq<Event>, j: nat, k: nat, byte: nat)
    requires RunOf(c, mem, es)
    requires var s := StateAfter(c, mem, es);
             && j < |s.mods| && k < |s.mods| && j != k && Held(s.mods[j]) && Held(s.mods[k])
    ensures var s := StateAfter(c, mem, es);
            && !(InChunk(c, s.mods[j].offs, byte) && InChunk(c, s.mods[k].offs, byte))
            && (s.mods[k].child.pc.Acting? ==> s.mods[k].slot.offs == s.mods[k].offs)
            && s.mods[k].offs !in s.ring
  {
    var s := StateAfter(c, mem, es);
    Reachable(c, mem, es);
    assert Local(c, s.mods, k);
    var a, b := s.mods[j].offs, s.mods[k].offs;
    OwnedOnce(c, s, j, k, a);
    OwnedOnce(c, s, k, j, b);
    HeldCounts(c, s, j);
    HeldCounts(c, s, k);
    var x: nat :| x < c.dataCnt && c.Offsets()[x] == a;
    var y: nat :| y < c.dataCnt && c.Offsets()[y] == b;
    assert a in Load(s.mods[j]) && b in Load(s.mods[k]);
    if x < y {
      OffsetsDistinct(c, x, y);
    } else if y < x {
      OffsetsDistinct(c, y, x);
    }
  }

  /** A chunk changes only by a step of the module that holds it. */
  lemma OnlyHolderWrites(c: Config, mem: map<nat, Chunk>, es: seq<Event>, e: Event, k: nat)
    requires RunOf(c, mem, es) && k < |StateAfter(c, mem, es).mods| && Held(StateAfter(c, mem, es).mods[k])
    requires Enabled(c, StateAfter(c, mem, es), e)
    requires !(e.ThreadStep? && e.k == k) && !(e.ChildStep? && e.k == k)
    ensures var s := StateAfter(c, mem, es);
            Read(Apply(c, s, e).mem, s.mods[k].offs) == Read(s.mem, s.mods[k].offs)
  {
    var s := StateAfter(c, mem, es);
    Reachable(c, mem, es);
    PipelineRefinement.StepSparesOthers(c, s, e, k);
    assert s.mods[k].offs in Load(s.mods[k]);
  }

  /** Mailbox exclusion: exactly one of `new_cmd`, `result`, the writer and the
      reader has the token of a mailbox; so every message is read once, in order,
      as it was written, and the pair is complete while it is read. */
  lemma MailboxExclusion(c: Config, mem: map<nat, Chunk>, es: seq<Event>, k: nat)
    requires RunOf(c, mem, es) && 1 <= k < |StateAfter(c, mem, es).mods|
    ensures var s := StateAfter(c, mem, es);
            var p, m := s.mods[k - 1], s.mods[k];
            && m.box.newCmd + m.box.result + One(Writing(p.pc)) + One(Reading(m.pc)) == 1
            && p.posted == m.taken + Unread(m)
            && (m.pc.Ack? ==> (if m.cmd.Stop? then Quit else Work(m.offs)) == p.posted[|m.taken|])
  {
    Reachable(c, mem, es);
    assert Local(c, StateAfter(c, mem, es).mods, k);
  }

  /** The thread is between the stores to its slot and the post that follows. */
  predicate Filling(p: Pc) {
    p.JobCmd? || p.JobOffs? || p.JobPost? || p.QuitCmd? || p.QuitPost?
  }

  /** Child rendezvous: the job and the result semaphore are never both up, the
      child does not use the slot while its thread fills it, and what it reads is what
      the thread wrote.  A process thread drops its chunk exactly if the status the
      action returned for that chunk is neither 0 nor -1; after -1, and only then, the
      child has left, and its slot says 0. */
  lemma ChildRendezvous(c: Config, mem: map<nat, Chunk>, es: seq<Event>, k: nat)
    requires RunOf(c, mem, es) && k < |StateAfter(c, mem, es).mods|
    ensures var m := StateAfter(c, mem, es).mods[k];
            && m.slot.semJob + m.slot.semResult <= 1
            && (Filling(m.pc) ==> !Busy(m.child.pc) && m.slot.semJob == 0)
            && (m.child.pc.Acting? ==> m.pc.JobWait? && m.slot.cmd.Job? && m.slot.offs == m.offs)
            && (m.child.pc.Leaving? || m.child.pc.Exited? ==> m.slot.cmdResult == 0)
            && (RoleOf(c, k).Process? ==> (m.child.left <==> m.seen != [] && c.action(k, m.seen).1 == -1))
            && (RoleOf(c, k).Process? && (m.pc.JobTest? || m.pc.Drop? || Sending(m.pc)) ==>
                  && m.child.log != [] && m.child.log[|m.child.log| - 1] == Work(m.offs) && m.seen != []
                  && var status := c.action(k, m.seen).1;
                     && (m.slot.cmdResult == 0 <==> status == 0 || status == -1)
                     && (status != -1 ==> m.slot.cmdResult == status)
                     && (m.pc.Drop? ==> status != 0 && status != -1)
                     && (Sending(m.pc) ==> status == 0 || status == -1))
  {
    Reachable(c, mem, es);
    PipelineRefinement.ReachableContent(c, mem, es);
    assert Local(c, StateAfter(c, mem, es).mods, k);
    assert PipelineRefinement.Content(c, StateAfter(c, mem, es), k);
  }

  /** A chunk that the finalization is about to give back holds what it was given with
      its first byte, if any, set to 0. */
  lemma ReturnedEmpty(c: Config, mem: map<nat, Chunk>, es: seq<Event>, k: nat)
    requires RunOf(c, mem, es) && k < |StateAfter(c, mem, es).mods| && StateAfter(c, mem, es).mods[k].pc.Recycle?
    ensures var m := StateAfter(c, mem, es).mods[k];
            && m.seen != []
            && var before, after := m.seen[|m.seen| - 1], Read(StateAfter(c, mem, es).mem, m.offs);
               && |after| == |before|
               && (after != "" ==> after[0] == '\0' && after[1..] == before[1..])
  {
    PipelineRefinement.ReachableContent(c, mem, es);
    assert PipelineRefinement.Content(c, StateAfter(c, mem, es), k);
  }
}
