/** Whether the threads around the collector get on. */
module CollectorProgress {
  import opened CollectorModel
  import CollectorEnd
  import opened CollectorInvariant
  import opened CollectorRuns

  /** A step of a thread that is more than polling: once the collector's exit flag is
      set, first_action only comes back. */
  predicate Working(s: System, e: Event) {
    !e.RaiseExit? && !e.ReadFails? && !(e.ActionStep? && s.action.Call? && s.exit)
  }

  /** The collector waits for source i, which cannot step: it has ended, told to exit or,
      if it is a camera, after a failed read; or it has been told to exit and waits for
      the collector. */
  ghost predicate WaitsInVain(c: Config, s: System, i: nat) {
    && i < |s.sources| == |c.camera| && (s.collector == Gather(i) || s.collector == FinalWait(i))
    && var x := s.sources[i];
       && x.ready == 0 && !DogReady(c, i, x)
       && (x.pc.Finished? || (x.pc.WaitEmpty? && x.empty == 0)) && (x.exit || (c.camera[i] && x.pc.Finished?))
  }

  /** If neither the collector nor first_action can get on, the collector has ended or
      waits for a source. */
  lemma WaitsForSource(s: System)
    requires PlaceInv(s) && TokenInv(s) && !CollectorReady(s) && (ActionReady(s) ==> s.action.Call? && s.exit)
    ensures s.collector.CollectorDone? ||
            ((s.collector.Gather? || s.collector.FinalWait?) && s.collector.i < |s.sources| &&
             s.sources[s.collector.i].ready == 0)
  {
  }

  lemma WaitedFor(c: Config, s: System, i: nat)
    requires Inv(c, s) && CollectorEnd.Begun(s)
    requires i < |s.sources| && (s.collector == Gather(i) || s.collector == FinalWait(i))
    requires s.sources[i].ready == 0 && !SourceReady(s.sources[i]) && !DogReady(c, i, s.sources[i])
    ensures WaitsInVain(c, s, i)
  {
    assert SourceInv(c, s, i);
  }

  ghost predicate CanWork(c: Config, s: System) {
    exists e :: Working(s, e) && Enabled(c, s, e)
  }

  lemma SourceWorks(c: Config, s: System, i: nat)
    requires Inv(c, s) && CollectorEnd.Begun(s)
    requires i < |s.sources| && (s.collector == Gather(i) || s.collector == FinalWait(i))
    requires s.sources[i].ready == 0
    ensures CanWork(c, s) || WaitsInVain(c, s, i)
  {
    if DogReady(c, i, s.sources[i]) {
      assert Working(s, DogStep(i)) && Enabled(c, s, DogStep(i));
    } else if SourceReady(s.sources[i]) {
      var e := SourceStep(i, false, 0);
      assert Working(s, e) && Enabled(c, s, e);
    } else {
      WaitedFor(c, s, i);
    }
  }

  lemma SomebodyWorks(c: Config, s: System)
    requires Inv(c, s) && CollectorEnd.Begun(s)
    ensures CanWork(c, s) || s.collector.CollectorDone? || exists i: nat :: WaitsInVain(c, s, i)
  {
    if CollectorReady(s) {
      assert Working(s, CollectorStep) && Enabled(c, s, CollectorStep);
    } else if ActionReady(s) && !(s.action.Call? && s.exit) {
      assert Working(s, ActionStep) && Enabled(c, s, ActionStep);
    } else {
      WaitsForSource(s);
      if !s.collector.CollectorDone? {
        SourceWorks(c, s, s.collector.i);
      }
    }
  }

  /** In every reachable state some thread can make a step that is more than polling,
      or the collector thread has ended, or it waits in vain for a source. */
  lemma NoDeadlock(c: Config, es: seq<Event>)
    requires c.Valid() && Legal(c, Start(c), es)
    ensures var s := After(c, Start(c), es);
            CanWork(c, s) || s.collector.CollectorDone? || exists i: nat :: WaitsInVain(c, s, i)
  {
    CollectorEnd.ReachableBegun(c, es);
    SomebodyWorks(c, After(c, Start(c), es));
  }

  lemma StepKeepsVain(c: Config, s: System, e: Event, i: nat)
    requires c.Valid() && WaitsInVain(c, s, i) && Enabled(c, s, e) && (s.sources[i].exit || Own(e))
    ensures var t := Apply(c, s, e); WaitsInVain(c, t, i) && (s.sources[i].exit ==> t.sources[i].exit)
  {
  }

  /** Then it waits for ever: if the source has been told to exit, in any continuation,
      otherwise as long as nobody outside sets its flag. */
  lemma {:induction false} InVainForEver(c: Config, s: System, fs: seq<Event>, i: nat)
    requires c.Valid() && WaitsInVain(c, s, i) && Legal(c, s, fs) && (s.sources[i].exit || OwnRun(fs))
    ensures WaitsInVain(c, After(c, s, fs), i)
    decreases |fs|
  {
    if fs != [] {
      assert OwnRun(fs) ==> Own(fs[0]) && OwnRun(fs[1..]);
      StepKeepsVain(c, s, fs[0], i);
      InVainForEver(c, Apply(c, s, fs[0]), fs[1..], i);
    }
  }

  /** Setting the flag of a camera that has not been told to exit ends the wait: its
      watchdog posts. */
  lemma ToldFromOutside(c: Config, es: seq<Event>, i: nat) returns (t: System)
    requires c.Valid() && Legal(c, Start(c), es) && WaitsInVain(c, After(c, Start(c), es), i)
    requires !After(c, Start(c), es).sources[i].exit
    ensures Reaches(c, After(c, Start(c), es), t) && !WaitsInVain(c, t, i)
  {
    Reachable(c, es);
    var s := After(c, Start(c), es);
    assert SourceInv(c, s, i);
    t := DogPosts(c, s, i);
  }

  // ------------------------------------------------ one of several has ended

  /** How many objects can still be published once source i posts no more. */
  ghost function Left(s: System, i: nat): nat
    requires i < |s.sources|
  {
    One(s.action.Take?) + s.dataReady + One(s.collector.Gather? && i < s.collector.i) + s.sources[i].ready
  }

  /** Source i has ended, the watchdog of a camera too or nobody has told it to; and the
      collector has not. */
  ghost predicate Ended(c: Config, s: System, i: nat) {
    && |s.sources| == |c.camera| && i < |c.camera| && !s.exit
    && (s.collector.Gather? ==> s.collector.i <= |s.sources|)
    && !s.collector.StopAll? && !s.collector.Stop? && !s.collector.FinalWait?
    && var x := s.sources[i];
       x.pc.Finished? && (c.camera[i] ==> x.dog.Gone? || Untold(x)) && (|c.camera| == 1 ==> Untold(x))
  }

  predicate Untold(x: Source) {
    x.dog.Watching? && !x.exit && !x.stopped
  }

  lemma StepKeepsEnded(c: Config, s: System, e: Event, i: nat)
    requires c.Valid() && Ended(c, s, i) && Enabled(c, s, e)
    requires Own(e) || (|c.camera| >= 2 && (c.camera[i] ==> s.sources[i].dog.Gone?))
    ensures var t := Apply(c, s, e); Ended(c, t, i) && (s.sources[i].dog.Gone? ==> t.sources[i].dog.Gone?)
  {
  }

  lemma StepStarves(c: Config, s: System, e: Event, i: nat)
    requires c.Valid() && Ended(c, s, i) && Enabled(c, s, e)
    ensures var t := Apply(c, s, e);
            |t.sources| == |s.sources| && |t.published| + Left(t, i) <= |s.published| + Left(s, i)
  {
  }

  lemma {:induction false} RunStarves(c: Config, s: System, fs: seq<Event>, i: nat)
    requires c.Valid() && Ended(c, s, i) && Legal(c, s, fs)
    requires OwnRun(fs) || (|c.camera| >= 2 && (c.camera[i] ==> s.sources[i].dog.Gone?))
    ensures |After(c, s, fs).published| <= |s.published| + Left(s, i)
    decreases |fs|
  {
    if fs != [] {
      assert OwnRun(fs) ==> Own(fs[0]) && OwnRun(fs[1..]);
      StepKeepsEnded(c, s, fs[0], i);
      StepStarves(c, s, fs[0], i);
      RunStarves(c, Apply(c, s, fs[0]), fs[1..], i);
    }
  }

  /** Source i has ended and posts no more in fs. */
  ghost predicate HasEnded(c: Config, s: System, i: nat, fs: seq<Event>)
    requires i < |s.sources| == |c.camera|
  {
    s.sources[i].pc.Finished? && (c.camera[i] ==> s.sources[i].dog.Gone? || (!s.sources[i].exit && OwnRun(fs)))
  }

  /** Once one of several sources has ended, nothing is published any more but what
      is under way: at most two objects if that source kept to its token. */
  lemma CaptureStops(c: Config, es: seq<Event>, fs: seq<Event>, i: nat)
    requires c.Valid() && |c.camera| >= 2 && i < |c.camera|
    requires Legal(c, Start(c), es) && Legal(c, After(c, Start(c), es), fs)
    ensures var s := After(c, Start(c), es);
            && |s.sources| == |c.camera|
            && (HasEnded(c, s, i, fs) ==>
                  && |After(c, s, fs).published| <= |s.published| + Left(s, i)
                  && (!s.sources[i].quit ==> Left(s, i) <= 2))
  {
    Reachable(c, es);
    var s := After(c, Start(c), es);
    assert SourceInv(c, s, i);
    if HasEnded(c, s, i, fs) {
      RunStarves(c, s, fs, i);
    }
  }

  /** If already the first read of a TCP source fails, no run publishes more than two
      objects, whatever the others receive. */
  lemma OneReadFails(c: Config, i: nat) returns (s: System)
    requires c.Valid() && |c.camera| >= 2 && i < |c.camera| && !c.camera[i]
    ensures Arrives(c, Start(c), s) && |s.sources| == |c.camera| && s.sources[i].pc.Finished?
    ensures forall fs :: Legal(c, s, fs) ==> |After(c, s, fs).published| <= 2
  {
    var b := Start(c);
    var r := OneRound(c);
    var u := Admitted(c, r, i);
    OwnOnward(c, b, r, u);
    s := StreamFails(c, u, i);
    OwnOnward(c, b, u, s);
    forall fs | Legal(c, s, fs) ensures |After(c, s, fs).published| <= 2 {
      RunStarves(c, s, fs, i);
    }
  }

  /** The thread that receives the packets of a camera ends after a failed read, and its
      watchdog goes on: nothing is published any more, with one source or several. */
  lemma CameraBreaks(c: Config, i: nat) returns (s: System)
    requires c.Valid() && i < |c.camera| && c.camera[i]
    ensures Arrives(c, Start(c), s) && |s.sources| == |c.camera| && s.sources[i].pc.Finished? && !s.sources[i].exit
    ensures forall fs :: Legal(c, s, fs) && OwnRun(fs) ==> |After(c, s, fs).published| <= 1
  {
    var b := Start(c);
    var r := OneRound(c);
    var u := Admitted(c, r, i);
    OwnOnward(c, b, r, u);
    OwnThen(c, b, u, ReadFails(i));
    s := Apply(c, u, ReadFails(i));
    forall fs | Legal(c, s, fs) && OwnRun(fs) ensures |After(c, s, fs).published| <= 1 {
      RunStarves(c, s, fs, i);
    }
  }
}
