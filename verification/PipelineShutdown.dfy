/** Exit: everything in the pipeline is worked off, every thread and child ends,
    and nothing is touched after it has been destroyed. */
module PipelineShutdown {
  import opened PipelineModel
  import opened PipelineInvariant
  import PipelineSafety
  import PipelineRefinement
  import PipelineSequential
  import opened PipelineLiveness

  function DroppedIn(mods: seq<Module>): nat {
    if mods == [] then 0 else DroppedIn(mods[..|mods| - 1]) + mods[|mods| - 1].dropped
  }

  lemma DoneLink(r: Role, p: Module, m: Module)
    requires ModuleInv(Process, p) || ModuleInv(Source, p)
    requires ModuleInv(r, m) && !r.Source? && LinkInv(p, m) && MailInv(p, m) && m.pc.Done? && p.pc.Done?
    ensures m.box.newCmd == 0 && Unread(m) == []
  {
    assert m.taken[|m.taken| - 1] == Quit == p.posted[|m.taken| - 1];
  }

  /** A module whose thread and whose predecessor's thread have ended has nothing. */
  lemma DoneEmpty(c: Config, s: State, k: nat)
    requires Inv(c, s) && AllDone(s) && k < |s.mods|
    ensures !Held(s.mods[k]) && !Mailed(s.mods[k]) && Load(s.mods[k]) == multiset{}
    ensures !Fresh(s.mods[k]) && !Processed(s.mods[k])
  {
    assert Local(c, s.mods, k);
    if k > 0 {
      assert Local(c, s.mods, k - 1);
      DoneLink(RoleOf(c, k), s.mods[k - 1], s.mods[k]);
    }
    assert !Held(s.mods[k]) && !Mailed(s.mods[k]);
  }

  lemma {:induction false} FinalStages(c: Config, s: State, k: nat)
    requires Inv(c, s) && AllDone(s) && k < |s.mods|
    requires forall j: nat | j < |s.mods| :: PipelineRefinement.Content(c, s, j)
    ensures k > 0 ==> s.mods[k].seen == PipelineSequential.Stage(c, k - 1, s.mods[0].seen)
    ensures k + 1 < c.modules ==> s.mods[k].out == PipelineSequential.Stage(c, k, s.mods[0].seen)
  {
    assert PipelineRefinement.Content(c, s, k);
    DoneEmpty(c, s, k);
    if k > 0 {
      FinalStages(c, s, k - 1);
    }
  }

  lemma {:induction false} CapturedSplit(c: Config, s: State, k: nat)
    requires Inv(c, s) && AllDone(s) && k + 1 < |s.mods|
    requires forall j: nat | j < |s.mods| :: PipelineRefinement.Content(c, s, j)
    ensures |s.mods[0].seen| == DroppedIn(s.mods[..k + 1]) + |s.mods[k + 1].seen|
  {
    assert Local(c, s.mods, k) && PipelineRefinement.Content(c, s, k + 1);
    DoneEmpty(c, s, k);
    DoneEmpty(c, s, k + 1);
    assert s.mods[..k + 1][..k] == s.mods[..k];
    assert DroppedIn(s.mods[..k + 1]) == DroppedIn(s.mods[..k]) + s.mods[k].dropped;
    if k > 0 {
      CapturedSplit(c, s, k - 1);
    } else {
      assert s.mods[..0] == [];
    }
  }

  lemma AllBack(c: Config, s: State)
    requires Inv(c, s) && AllDone(s)
    ensures multiset(s.ring) == multiset(c.Offsets())
  {
    forall m | m in s.mods ensures Load(m) == multiset{} {
      var k: nat :| k < |s.mods| && s.mods[k] == m;
      DoneEmpty(c, s, k);
    }
    PipelineSafety.NothingCarried(s.mods);
    assert multiset(s.ring) + multiset{} == multiset(s.ring);
  }

  lemma ChildEnded(c: Config, s: State, k: nat)
    requires Inv(c, s) && AllDone(s) && k < c.modules - 1
    ensures s.mods[k].child.pc.Exited? && OneQuit(s.mods[k].child.log, true)
    ensures |s.mods[k].child.log| == |s.mods[k].seen| + 1
  {
    assert Local(c, s.mods, k);
  }

  lemma LastDropsNothing(c: Config, s: State)
    requires Inv(c, s)
    ensures s.mods[c.modules - 1].dropped == 0
  {
    assert Local(c, s.mods, c.modules - 1);
  }

  /** What every module was given in the end is what the sequential run gives it. */
  ghost predicate AllGiven(c: Config, s: State)
    requires c.Valid() && |s.mods| == c.modules
  {
    var p := PipelineSequential.SequentialRun(c, s.mods[0].seen);
    && s.mods[c.modules - 1].seen == p.finished
    && forall k | 1 <= k < c.modules :: s.mods[k].seen == p.given[k]
  }

  lemma EverythingGiven(c: Config, s: State)
    requires c.Valid() && Inv(c, s) && AllDone(s) && forall j: nat | j < |s.mods| :: PipelineRefinement.Content(c, s, j)
    ensures AllGiven(c, s)
  {
    PipelineSequential.SequentialMeetsStages(c, s.mods[0].seen);
    forall k: nat | 1 <= k < c.modules ensures s.mods[k].seen == PipelineSequential.Stage(c, k - 1, s.mods[0].seen) {
      FinalStages(c, s, k);
    }
  }

  /** Terminal accounting: once every thread has ended, all chunks are back in the
      ring, every module was given and the finalization got exactly what the
      sequential run gives and yields, captured = dropped + finalized, and each child
      has left after exactly one STOP, which came after all its jobs. */
  lemma TerminalAccounting(c: Config, mem: map<nat, Chunk>, es: seq<Event>)
    requires RunOf(c, mem, es) && AllDone(StateAfter(c, mem, es))
    ensures var s := StateAfter(c, mem, es);
            && |s.mods| == c.modules
            && multiset(s.ring) == multiset(c.Offsets())
            && AllGiven(c, s)
            && |s.mods[0].seen| == DroppedIn(s.mods) + |s.mods[c.modules - 1].seen|
            && forall k | 0 <= k < c.modules - 1 ::
                 s.mods[k].child.pc.Exited? && OneQuit(s.mods[k].child.log, true)
                 && |s.mods[k].child.log| == |s.mods[k].seen| + 1
  {
    var s := StateAfter(c, mem, es);
    var last := c.modules - 1;
    PipelineSafety.Reachable(c, mem, es);
    PipelineRefinement.ReachableContent(c, mem, es);
    AllBack(c, s);
    EverythingGiven(c, s);
    CapturedSplit(c, s, last - 1);
    LastDropsNothing(c, s);
    assert s.mods[..last + 1] == s.mods;
    forall k: nat | k < last
      ensures s.mods[k].child.pc.Exited? && OneQuit(s.mods[k].child.log, true)
      ensures |s.mods[k].child.log| == |s.mods[k].seen| + 1
    {
      ChildEnded(c, s, k);
    }
  }

  /** Draining: after exit has been raised, in whatever order threads and children
      go on, they take at most DrainRank many steps.  When none of them can step
      any more, all threads have ended if and only if no child left on its own; and
      then every captured item has visited all modules it visits in the sequential
      run. */
  lemma DrainingShutdown(c: Config, mem: map<nat, Chunk>, es: seq<Event>, fs: seq<Event>)
    requires RunOf(c, mem, es) && StateAfter(c, mem, es).exit && Legal(c, StateAfter(c, mem, es), fs)
    ensures var s := StateAfter(c, mem, es);
            && |s.mods| == c.modules && Steps(fs) <= DrainRank(c, s)
            && RunOf(c, mem, es + fs)
            && var t := StateAfter(c, mem, es + fs);
               && (AllDone(t) ==> Stuck(c, t))
               && (Stuck(c, t) ==> (AllDone(t) <==> !SomeChildLeft(t)))
               && |t.mods| == c.modules && (AllDone(t) ==> AllGiven(c, t))
  {
    var s := StateAfter(c, mem, es);
    PipelineSafety.Reachable(c, mem, es);
    RankBoundsSteps(c, s, fs);
    PipelineSafety.AfterTwo(c, Start(c, mem), es, fs);
    PipelineSafety.Reachable(c, mem, es + fs);
    var t := StateAfter(c, mem, es + fs);
    if AllDone(t) {
      TerminalAccounting(c, mem, es + fs);
      NoneLeft(c, t);
    } else if Stuck(c, t) && !SomeChildLeft(t) {
      StuckMeansDone(c, t);
    }
  }

  lemma NoneLeft(c: Config, t: State)
    requires Inv(c, t) && AllDone(t)
    ensures !SomeChildLeft(t) && Stuck(c, t)
  {
    forall k: nat | k < |t.mods| ensures !t.mods[k].child.left && StuckAt(c, t, k) {
      assert Local(c, t.mods, k);
      DoneIsStuck(c, t, k);
    }
  }

  lemma DoneIsStuck(c: Config, t: State, k: nat)
    requires k < |t.mods| == c.modules && ChildInv(RoleOf(c, k), t.mods[k]) && t.mods[k].pc.Done?
    ensures !t.mods[k].child.left && StuckAt(c, t, k)
  {
  }

  /** e uses the semaphores or the mailbox fields of module k. */
  predicate Touches(s: State, e: Event, k: nat)
    requires e.ThreadStep? ==> e.k < |s.mods|
  {
    e.ThreadStep? &&
    var p := s.mods[e.k].pc;
    || (e.k == k && (p.Idle? || Reading(p)))
    || (e.k + 1 == k && (p.SendWait? || p.HaltWait? || Writing(p)))
  }

  lemma DoneStep(c: Config, s: State, e: Event, k: nat)
    requires |s.mods| == c.modules && k < |s.mods| && s.mods[k].pc.Done? && Enabled(c, s, e)
    ensures k < |Apply(c, s, e).mods| && Apply(c, s, e).mods[k].pc.Done?
  {
    if e.ChildStep? {
      ChildKeepsLinks(c, e.k, s.mods[e.k], s.mem, e.item, e.status);
    }
  }

  lemma {:induction false} DoneStays(c: Config, s: State, fs: seq<Event>, k: nat)
    requires Inv(c, s) && Legal(c, s, fs) && k < |s.mods| && s.mods[k].pc.Done?
    ensures var t := After(c, s, fs); Inv(c, t) && k < |t.mods| && t.mods[k].pc.Done?
    decreases |fs|
  {
    if fs != [] {
      PipelineSafety.StepKeeps(c, s, fs[0]);
      DoneStep(c, s, fs[0], k);
      DoneStays(c, Apply(c, s, fs[0]), fs[1..], k);
    }
  }

  lemma DoneUntouched(c: Config, s: State, k: nat, e: Event)
    requires k < |s.mods| == c.modules && Local(c, s.mods, k) && s.mods[k].pc.Done? && Enabled(c, s, e)
    ensures !Touches(s, e, k)
  {
  }

  /** Safe teardown: once thread k can be joined, no thread uses the semaphores of
      module k in any continuation; so they can be destroyed whatever the order in
      which the modules are listed. */
  lemma TeardownSafe(c: Config, mem: map<nat, Chunk>, es: seq<Event>, k: nat, fs: seq<Event>, e: Event)
    requires RunOf(c, mem, es)
    requires var s := StateAfter(c, mem, es); k < |s.mods| && s.mods[k].pc.Done? && Legal(c, s, fs)
    requires Enabled(c, After(c, StateAfter(c, mem, es), fs), e)
    ensures !Touches(After(c, StateAfter(c, mem, es), fs), e, k)
  {
    var s := StateAfter(c, mem, es);
    PipelineSafety.Reachable(c, mem, es);
    DoneStays(c, s, fs, k);
    assert Local(c, After(c, s, fs).mods, k);
    DoneUntouched(c, After(c, s, fs), k, e);
  }
}
