/** When a source leaves its receive loop, and that it takes no frame after it has been
    told to. */
module CollectorLoops {
  import opened CollectorModel
  import opened CollectorInvariant
  import opened CollectorVerdicts

  /** What the head of the loop looks at: whether the stream of a camera was stopped, or
      the exit flag of a TCP source set. */
  predicate Told(camera: bool, x: Source) {
    if camera then x.stopped else x.exit
  }

  predicate OutOfLoop(p: SourcePc) {
    p.End? || p.Finished?
  }

  lemma StaysTold(c: Config, s: System, e: Event, i: nat)
    requires c.Valid() && |s.sources| == |c.camera| && i < |s.sources| && Enabled(c, s, e)
    requires Told(c.camera[i], s.sources[i])
    ensures i < |Apply(c, s, e).sources| && Told(c.camera[i], Apply(c, s, e).sources[i])
  {
  }

  /** The thread has left its loop because it was told to or because a read failed. */
  ghost predicate LeftFor(c: Config, s: System, i: nat, failed: bool)
    requires i < |s.sources| == |c.camera|
  {
    OutOfLoop(s.sources[i].pc) ==> failed || Told(c.camera[i], s.sources[i])
  }

  lemma LeftStep(c: Config, s: System, e: Event, i: nat, failed: bool)
    requires c.Valid() && |s.sources| == |c.camera| && i < |s.sources| && Enabled(c, s, e)
    requires LeftFor(c, s, i, failed)
    ensures |Apply(c, s, e).sources| == |c.camera| && LeftFor(c, Apply(c, s, e), i, failed || e == ReadFails(i))
  {
    if OutOfLoop(s.sources[i].pc) && Told(c.camera[i], s.sources[i]) {
      StaysTold(c, s, e, i);
    }
  }

  lemma {:induction false} LeftRun(c: Config, s: System, es: seq<Event>, i: nat, failed: bool)
    requires c.Valid() && |s.sources| == |c.camera| && i < |s.sources| && Legal(c, s, es)
    requires LeftFor(c, s, i, failed)
    ensures var t := After(c, s, es); |t.sources| == |c.camera| && LeftFor(c, t, i, failed || ReadFails(i) in es)
    decreases |es|
  {
    if es != [] {
      LeftStep(c, s, es[0], i, failed);
      LeftRun(c, Apply(c, s, es[0]), es[1..], i, failed || es[0] == ReadFails(i));
      assert ReadFails(i) in es <==> es[0] == ReadFails(i) || ReadFails(i) in es[1..];
    }
  }

  /** In every run a source has left its loop only if a read of it failed, or if its
      stream was stopped or, with TCP, its exit flag set. */
  lemma LeavesOnlyIfTold(c: Config, es: seq<Event>, i: nat)
    requires c.Valid() && Legal(c, Start(c), es) && i < |c.camera|
    ensures var s := After(c, Start(c), es);
            && |s.sources| == |c.camera|
            && var x := s.sources[i];
               x.pc.End? || x.pc.Finished? ==> ReadFails(i) in es || (if c.camera[i] then x.stopped else x.exit)
  {
    LeftRun(c, Start(c), es, i, false);
  }

  /** Source i stands at the head of its loop, told to leave, or has left it. */
  ghost predicate Leaving(c: Config, s: System, i: nat)
    requires i < |s.sources| == |c.camera|
  {
    OutOfLoop(s.sources[i].pc) || (s.sources[i].pc.Loop? && Told(c.camera[i], s.sources[i]))
  }

  lemma LeavingStep(c: Config, s: System, e: Event, i: nat)
    requires c.Valid() && |s.sources| == |c.camera| && i < |s.sources| && Enabled(c, s, e)
    requires Leaving(c, s, i)
    ensures var t := Apply(c, s, e);
            && |t.sources| == |c.camera| && Leaving(c, t, i)
            && Objects(t.store, i) == Objects(s.store, i) && Verdict(s, e, i) == []
  {
    var t := Apply(c, s, e);
    if s.sources[i].pc.Loop? {
      StaysTold(c, s, e, i);
    }
    if e.SourceStep? && s.sources[e.i].pc.Add? {
      ObjectsOneMore(s.store, Stored(s.sources[e.i].obj, e.i, e.frame), i);
    } else {
      assert t.store == s.store;
    }
  }

  lemma {:induction false} LeavingRun(c: Config, s: System, fs: seq<Event>, i: nat)
    requires c.Valid() && |s.sources| == |c.camera| && i < |s.sources| && Legal(c, s, fs)
    requires Leaving(c, s, i)
    ensures var t := After(c, s, fs);
            && |t.sources| == |c.camera| && Leaving(c, t, i)
            && Objects(t.store, i) == Objects(s.store, i) && Verdicts(c, s, fs, i) == []
    decreases |fs|
  {
    if fs != [] {
      LeavingStep(c, s, fs[0], i);
      LeavingRun(c, Apply(c, s, fs[0]), fs[1..], i);
    }
  }

  /** A source that is told to leave while it stands at the head of its loop judges and
      adds no frame in any continuation. */
  lemma ToldTakesNone(c: Config, es: seq<Event>, fs: seq<Event>, i: nat)
    requires c.Valid() && Legal(c, Start(c), es) && Legal(c, After(c, Start(c), es), fs) && i < |c.camera|
    requires var s := After(c, Start(c), es);
             i < |s.sources| && s.sources[i].pc.Loop? && if c.camera[i] then s.sources[i].stopped else s.sources[i].exit
    ensures var s, t := After(c, Start(c), es), After(c, After(c, Start(c), es), fs);
            && Verdicts(c, s, fs, i) == [] && Objects(t.store, i) == Objects(s.store, i)
            && i < |t.sources| && (t.sources[i].pc.Loop? || t.sources[i].pc.End? || t.sources[i].pc.Finished?)
  {
    Reachable(c, es);
    LeavingRun(c, After(c, Start(c), es), fs, i);
  }
}
