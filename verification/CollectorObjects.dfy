/** Objects are published in order, complete, and do not change afterwards. */
module CollectorObjects {
  import opened CollectorModel
  import opened CollectorInvariant

  lemma {:induction false} ContentsOfOthers(store: seq<Stored>, added: Stored, obj: nat)
    requires added.obj != obj
    ensures Contents(store + [added], obj) == Contents(store, obj)
  {
    assert (store + [added])[..|store|] == store;
  }

  lemma StepKeepsPublished(c: Config, s: System, e: Event, p: nat)
    requires Inv(c, s) && NoLateFrame(s) && Enabled(c, s, e) && p < |s.published|
    ensures var t := Apply(c, s, e); s.published <= t.published && Contents(t.store, p) == Contents(s.store, p)
  {
    if e.SourceStep? {
      assert SourceInv(c, s, e.i);
      if s.sources[e.i].pc.Add? {
        AddsToCurrent(c, s, e.i);
        ContentsOfOthers(s.store, Stored(s.sources[e.i].obj, e.i, e.frame), p);
      } else {
        assert Apply(c, s, e).store == s.store;
      }
    }
  }

  lemma {:induction false} RunKeepsPublished(c: Config, s: System, fs: seq<Event>, p: nat)
    requires Inv(c, s) && NoLateFrame(s) && Careful(c, s, fs) && p < |s.published|
    ensures Legal(c, s, fs)
    ensures var t := After(c, s, fs); s.published <= t.published && Contents(t.store, p) == Contents(s.store, p)
    decreases |fs|
  {
    if fs != [] {
      StepKeeps(c, s, fs[0]);
      CarefulStep(c, s, fs[0]);
      StepKeepsPublished(c, s, fs[0], p);
      RunKeepsPublished(c, Apply(c, s, fs[0]), fs[1..], p);
    }
  }

  /** When first_action takes a name from collector->data, every source has settled
      the number of its frames for that object, and one that is still running has
      been told to exit.  If no watchdog was hasty, none is about to add a frame. */
  lemma PublishOnlyWhenComplete(c: Config, es: seq<Event>, i: nat)
    requires c.Valid() && Legal(c, Start(c), es) && i < |c.camera|
    ensures var s := After(c, Start(c), es);
            && |s.sources| == |c.camera|
            && (s.action.Take? ==>
                  && s.name == |s.published|
                  && Settled(c, i, s.sources[i].exit, s.name, Frames(s.store, s.name, i))
                  && (Inside(c.camera[i], s.sources[i].pc) ==> s.sources[i].exit && s.sources[i].quit)
                  && (Careful(c, Start(c), es) ==> !s.sources[i].pc.Add?))
  {
    Reachable(c, es);
    var s := After(c, Start(c), es);
    assert SourceInv(c, s, i);
    if s.action.Take? {
      TakenIsSettled(c, s, i);
    }
    if Careful(c, Start(c), es) {
      CarefulRun(c, Start(c), es);
    }
  }

  /** Whatever happens after the name of an object has been taken, exit_flags
      raised in between included, the object keeps the frames it had. */
  lemma PublishedNeverChanges(c: Config, es: seq<Event>, fs: seq<Event>, p: nat)
    requires c.Valid() && Careful(c, Start(c), es)
    requires Legal(c, Start(c), es) && Careful(c, After(c, Start(c), es), fs)
    requires p < |After(c, Start(c), es).published|
    ensures var s := After(c, Start(c), es);
            Legal(c, s, fs) && var t := After(c, s, fs);
            && s.published <= t.published
            && s.published[p] == p
            && Contents(t.store, p) == Contents(s.store, p)
  {
    StartHolds(c);
    CarefulRun(c, Start(c), es);
    RunKeepsPublished(c, After(c, Start(c), es), fs, p);
  }

  /** Source i is inside add_frame for object p although its watchdog has posted. */
  ghost predicate Late(s: System, p: nat, i: nat)
    requires i < |s.sources|
  {
    s.sources[i].pc.Add? && s.sources[i].quit && s.sources[i].obj == p
  }

  lemma FramesAdded(store: seq<Stored>, added: seq<Stored>, p: nat, i: nat)
    requires |added| <= 1
    ensures Frames(store + added, p, i) == Frames(store, p, i) +
              One(added != [] && added[0].obj == p && added[0].source == i)
  {
    if added == [] {
      assert store + added == store;
    } else {
      assert added == [added[0]];
      FramesOfOthers(store, added[0], p, i);
    }
  }

  /** How many frames of source i object p has or is still to get. */
  ghost function Owed(s: System, p: nat, i: nat): nat
    requires i < |s.sources|
  {
    Frames(s.store, p, i) + One(Late(s, p, i))
  }

  lemma OwedBySource(c: Config, s: System, e: Event, p: nat)
    requires Inv(c, s) && e.SourceStep? && Enabled(c, s, e) && p < |s.published|
    ensures Owed(Apply(c, s, e), p, e.i) <= Owed(s, p, e.i)
  {
    assert SourceInv(c, s, e.i);
    FramesAdded(s.store, SourceMove(c, e.i, s.sources[e.i], e.detected, e.frame).1, p, e.i);
    if s.sources[e.i].pc.Add? && !s.sources[e.i].quit {
      AddsToCurrent(c, s, e.i);
    }
  }

  lemma OwedByOtherSource(c: Config, s: System, e: Event, p: nat, i: nat)
    requires c.Valid() && |s.sources| == |c.camera| && i < |s.sources|
    requires e.SourceStep? && e.i != i && Enabled(c, s, e)
    ensures Owed(Apply(c, s, e), p, i) == Owed(s, p, i)
  {
    FramesAdded(s.store, SourceMove(c, e.i, s.sources[e.i], e.detected, e.frame).1, p, i);
  }

  /** A step beside the receiving threads makes no source late that has its token. */
  lemma OwedAside(c: Config, s: System, e: Event, p: nat, i: nat)
    requires Inv(c, s) && Enabled(c, s, e) && p < |s.published| && i < |s.sources| && !e.SourceStep?
    ensures i < |Apply(c, s, e).sources| && Owed(Apply(c, s, e), p, i) <= Owed(s, p, i)
  {
    assert SourceInv(c, s, i);
    var t := Apply(c, s, e);
    assert t.store == s.store;
    if s.sources[i].pc.Add? && !s.sources[i].quit {
      AddsToCurrent(c, s, i);
      assert !Late(t, p, i);
    }
  }

  lemma OwedByOthers(c: Config, s: System, e: Event, p: nat, i: nat)
    requires Inv(c, s) && Enabled(c, s, e) && p < |s.published| && i < |s.sources|
    requires !(e.SourceStep? && e.i == i)
    ensures i < |Apply(c, s, e).sources| && Owed(Apply(c, s, e), p, i) <= Owed(s, p, i)
  {
    if e.SourceStep? {
      OwedByOtherSource(c, s, e, p, i);
    } else {
      OwedAside(c, s, e, p, i);
    }
  }

  lemma {:induction false} OwedOnlyFalls(c: Config, s: System, fs: seq<Event>, p: nat, i: nat)
    requires Inv(c, s) && Legal(c, s, fs) && p < |s.published| && i < |s.sources|
    ensures i < |After(c, s, fs).sources| && Owed(After(c, s, fs), p, i) <= Owed(s, p, i)
    decreases |fs|
  {
    if fs != [] {
      var e := fs[0];
      StepKeeps(c, s, e);
      if e.SourceStep? && e.i == i {
        OwedBySource(c, s, e, p);
      } else {
        OwedByOthers(c, s, e, p, i);
      }
      OwedOnlyFalls(c, Apply(c, s, e), fs[1..], p, i);
    }
  }

  /** In all runs, hasty watchdogs included: once an object has been published, a TCP
      source adds no frame to it, and a camera at most one, namely the one inside
      whose add_frame it was, for that object, when its watchdog posted. */
  lemma AtMostOneLateFrame(c: Config, es: seq<Event>, fs: seq<Event>, p: nat, i: nat)
    requires c.Valid() && Legal(c, Start(c), es) && Legal(c, After(c, Start(c), es), fs)
    requires p < |After(c, Start(c), es).published| && i < |c.camera|
    ensures var s, t := After(c, Start(c), es), After(c, After(c, Start(c), es), fs);
            && |s.sources| == |c.camera|
            && Frames(t.store, p, i) <= Frames(s.store, p, i) + One(c.camera[i] && Late(s, p, i))
  {
    Reachable(c, es);
    assert SourceInv(c, After(c, Start(c), es), i);
    OwedOnlyFalls(c, After(c, Start(c), es), fs, p, i);
  }

  /** Frames per object: none for the name present at start and the first one
      dispatched; for every later one between 1 and the limit from each source
      that has not been told to exit, and exactly the limit if the source has no
      detection callback. */
  lemma FramesPerObject(c: Config, es: seq<Event>, p: nat, i: nat)
    requires c.Valid() && Legal(c, Start(c), es) && i < |c.camera|
    requires p < |After(c, Start(c), es).published|
    ensures var s := After(c, Start(c), es);
            var n := Frames(s.store, p, i);
            && |s.sources| == |c.camera|
            && n <= c.limit
            && (p < 2 ==> n == 0)
            && (p >= 2 && c.adds && !s.sources[i].exit ==> 1 <= n && (!c.detects[i] ==> n == c.limit))
  {
    Reachable(c, es);
    assert SourceInv(c, After(c, Start(c), es), i);
  }

  /** The round token: while the collector has not been stopped exactly one of the
      two semaphores, first_action and the collector thread has it, and exactly one
      of a source's two semaphores, the source and the collector has that source's.
      So collector->data is not read while it is written, a source that has not given
      up its token does not use its name while it is copied, and no two sources are
      more than one round apart. */
  lemma BarrierToken(c: Config, es: seq<Event>, i: nat, j: nat)
    requires c.Valid() && Legal(c, Start(c), es) && i < |c.camera| && j < |c.camera|
    ensures var s := After(c, Start(c), es);
            && |s.sources| == |c.camera|
            && (!s.exit ==> s.dataReady + s.emptyReady + One(ActionInside(s.action)) + One(CollectorInside(s)) == 1)
            && var x := s.sources[i];
               && (!x.quit ==> x.empty + x.ready + One(Inside(c.camera[i], x.pc)) + One(Held(s, i)) == 1)
               && (x.quit ==> x.exit)
               && (x.pc.First? ==> x.dog.Watching? && !x.quit)
               && (!x.dog.Watching? ==> x.stopped && x.exit)
               && !(s.action.Writing? && s.collector.Copying?)
               && (!x.quit ==> !(s.collector == Copying(i) && x.pc.Add?))
               && (!s.exit ==> x.obj <= s.sources[j].obj + 1)
  {
    Reachable(c, es);
    assert SourceInv(c, After(c, Start(c), es), i) && SourceInv(c, After(c, Start(c), es), j);
  }

  /** When the collector thread has copied the name in collector->data to all sources, it
      is the name of every source. */
  lemma NameHandedOut(c: Config, es: seq<Event>, i: nat)
    requires c.Valid() && Legal(c, Start(c), es) && i < |c.camera|
    ensures var s := After(c, Start(c), es);
            && |s.sources| == |c.camera|
            && (s.collector.LoopTest? && !s.exit ==> s.sources[i].obj == s.name)
  {
    Reachable(c, es);
    assert SourceInv(c, After(c, Start(c), es), i);
  }

  // --------------------------------------------------- camera sources

  /** No run ever changes an object after it was published. */
  ghost predicate AllRunsSafe(c: Config)
    requires c.Valid()
  {
    forall es, fs, p: nat ::
      Legal(c, Start(c), es) && Legal(c, After(c, Start(c), es), fs) && p < |After(c, Start(c), es).published| ==>
        Contents(After(c, After(c, Start(c), es), fs).store, p) == Contents(After(c, Start(c), es).store, p)
  }

  lemma {:induction false} TcpRunsAreCareful(c: Config, s: System, es: seq<Event>)
    requires c.Valid() && Legal(c, s, es) && forall i | 0 <= i < |c.camera| :: !c.camera[i]
    ensures Careful(c, s, es)
    decreases |es|
  {
    if es != [] {
      TcpRunsAreCareful(c, Apply(c, s, es[0]), es[1..]);
    }
  }

  /** With TCP sources only, every run is safe, whatever their number. */
  lemma TcpSourcesAreSafe(c: Config)
    requires c.Valid() && forall i | 0 <= i < |c.camera| :: !c.camera[i]
    ensures AllRunsSafe(c)
  {
    forall es, fs, p: nat |
      Legal(c, Start(c), es) && Legal(c, After(c, Start(c), es), fs) && p < |After(c, Start(c), es).published|
      ensures Contents(After(c, After(c, Start(c), es), fs).store, p) == Contents(After(c, Start(c), es).store, p)
    {
      TcpRunsAreCareful(c, Start(c), es);
      TcpRunsAreCareful(c, After(c, Start(c), es), fs);
      PublishedNeverChanges(c, es, fs, p);
    }
  }
}
