/** What the two flags from outside do: nothing is captured unless the pipeline has
    been live, no thread leaves its loop unless exit has been raised, and after that
    the end can be reached. */
module PipelineFlags {
  import opened PipelineModel
  import opened PipelineInvariant
  import PipelineLiveness
  import PipelineSafety

  /** The state that was set last. */
  function LiveBy(es: seq<Event>): bool {
    if es == [] then false
    else if es[|es| - 1].SetLive? then es[|es| - 1].on
    else LiveBy(es[..|es| - 1])
  }

  predicate ExitBy(es: seq<Event>) {
    RaiseExit in es
  }

  predicate FlagsAre(s: State, live: bool, exit: bool) {
    s.live == live && s.exit == exit
  }

  lemma OneFlagStep(c: Config, s: State, e: Event)
    requires Enabled(c, s, e)
    ensures FlagsAre(Apply(c, s, e), if e.SetLive? then e.on else s.live, s.exit || e.RaiseExit?)
  {
  }

  lemma Split(c: Config, s: State, es: seq<Event>)
    requires Legal(c, s, es) && es != []
    ensures var n := |es| - 1;
            && Legal(c, s, es[..n]) && Enabled(c, After(c, s, es[..n]), es[n])
            && After(c, s, es) == Apply(c, After(c, s, es[..n]), es[n])
    decreases |es|
  {
    var n := |es| - 1;
    if n > 0 {
      Split(c, Apply(c, s, es[0]), es[1..]);
      assert es[1..][..n - 1] == es[..n][1..];
    } else {
      assert es[1..] == [];
    }
  }

  /** The flags are what the run has made them. */
  lemma {:induction false} FlagsOfRun(c: Config, mem: map<nat, Chunk>, es: seq<Event>)
    requires RunOf(c, mem, es)
    ensures FlagsAre(StateAfter(c, mem, es), LiveBy(es), ExitBy(es))
    decreases |es|
  {
    if es != [] {
      var n := |es| - 1;
      Split(c, Start(c, mem), es);
      FlagsOfRun(c, mem, es[..n]);
      OneFlagStep(c, StateAfter(c, mem, es[..n]), es[n]);
      assert es == es[..n] + [es[n]];
    }
  }

  /** After the first n events or later, the live state was `live`. */
  ghost predicate Found(live: bool, n: nat, es: seq<Event>) {
    exists i :: n <= i <= |es| && LiveBy(es[..i]) == live
  }

  lemma FoundNow(n: nat, es: seq<Event>)
    requires n <= |es|
    ensures Found(LiveBy(es), n, es)
  {
    assert es[..|es|] == es;
  }

  lemma FoundLater(live: bool, m: nat, n: nat, es: seq<Event>, fs: seq<Event>)
    requires m <= n && es <= fs && Found(live, n, es)
    ensures Found(live, m, fs)
  {
    var i :| n <= i <= |es| && LiveBy(es[..i]) == live;
    assert fs[..i] == es[..i];
  }

  // ------------------------------------------------------------- not live

  /** The source has not taken a chunk it still has. */
  predicate AtGate(p: Pc) {
    p.Idle? || p.Gate? || Halting(p)
  }

  /** t differs from s in nothing the source captures or hands on: at most it has sent
      its STOPs. */
  predicate NothingCaptured(m: Module, n: Module) {
    && AtGate(n.pc)
    && n.seen == m.seen && n.out == m.out && n.dropped == m.dropped
    && (n.posted == m.posted || n.posted == m.posted + [Quit])
    && (Closed(n.pc) == Closed(m.pc) ==> n.posted == m.posted)
  }

  lemma GateStep(c: Config, s: State, e: Event)
    requires Inv(c, s) && Enabled(c, s, e) && !s.live && e != SetLive(true) && AtGate(s.mods[0].pc)
    ensures var t := Apply(c, s, e);
            && |t.mods| == |s.mods| && !t.live && NothingCaptured(s.mods[0], t.mods[0])
            && (Closed(s.mods[0].pc) ==> Closed(t.mods[0].pc))
  {
    assert Local(c, s.mods, 0);
    if e.ThreadStep? {
      PipelineSafety.ThreadStepModules(c, s, e.k);
      if e.k == 0 {
        GateMove(ViewOf(s, 0), s.exit);
      }
    }
  }

  lemma GateMove(v: View, exit: bool)
    requires ThreadReady(Source, v, exit, false) && Allowed(Source, v.me.pc) && AtGate(v.me.pc)
    ensures var m := ThreadMove(Source, v, exit, false).me;
            NothingCaptured(v.me, m) && (Closed(v.me.pc) ==> Closed(m.pc))
  {
  }

  lemma CapturedTwice(a: Module, b: Module, c: Module)
    requires NothingCaptured(a, b) && NothingCaptured(b, c)
    requires (Closed(a.pc) ==> Closed(b.pc)) && (Closed(b.pc) ==> Closed(c.pc))
    ensures NothingCaptured(a, c)
  {
  }

  lemma {:induction false} StaysAtGate(c: Config, s: State, fs: seq<Event>)
    requires Inv(c, s) && Legal(c, s, fs) && !s.live && SetLive(true) !in fs && AtGate(s.mods[0].pc)
    ensures var t := After(c, s, fs);
            && |t.mods| == |s.mods| && !t.live && NothingCaptured(s.mods[0], t.mods[0])
            && (Closed(s.mods[0].pc) ==> Closed(t.mods[0].pc))
    decreases |fs|
  {
    if fs != [] {
      var t := Apply(c, s, fs[0]);
      assert fs[0] in fs && forall f | f in fs[1..] :: f in fs;
      PipelineSafety.StepKeeps(c, s, fs[0]);
      GateStep(c, s, fs[0]);
      StaysAtGate(c, t, fs[1..]);
      CapturedTwice(s.mods[0], t.mods[0], After(c, t, fs[1..]).mods[0]);
    }
  }

  /** From m to n the source has taken no chunk, given its child no job, and posted
      nothing but its STOP. */
  predicate Uncaptured(m: Module, n: Module) {
    && !n.pc.Pop? && !Holding(n.pc)
    && n.seen == m.seen && n.out == m.out
    && (n.posted == m.posted || n.posted == m.posted + [Quit])
  }

  lemma GateMeans(m: Module, n: Module)
    requires NothingCaptured(m, n)
    ensures Uncaptured(m, n)
  {
  }

  lemma StaysUncaptured(c: Config, s: State, fs: seq<Event>)
    requires Inv(c, s) && Legal(c, s, fs) && !s.live && SetLive(true) !in fs
    requires s.mods[0].pc.Idle? || s.mods[0].pc.Gate?
    ensures var n := After(c, s, fs).mods; n != [] && Uncaptured(s.mods[0], n[0])
  {
    StaysAtGate(c, s, fs);
    GateMeans(s.mods[0], After(c, s, fs).mods[0]);
  }

  /** A pipeline that is not live captures nothing: while nobody sets it live, a source
      that stands at the head of its loop takes no chunk, gives its child no job and
      posts nothing but its STOP. */
  lemma NotLiveNoCapture(c: Config, mem: map<nat, Chunk>, es: seq<Event>, fs: seq<Event>)
    requires RunOf(c, mem, es) && !LiveBy(es) && SetLive(true) !in fs
    requires var s := StateAfter(c, mem, es);
             s.mods != [] && (s.mods[0].pc.Idle? || s.mods[0].pc.Gate?) && Legal(c, s, fs)
    ensures var s := StateAfter(c, mem, es); var n := After(c, s, fs).mods; n != [] && Uncaptured(s.mods[0], n[0])
  {
    PipelineSafety.Reachable(c, mem, es);
    FlagsOfRun(c, mem, es);
    StaysUncaptured(c, StateAfter(c, mem, es), fs);
  }

  // ------------------------------------------------------------------ exit

  lemma HaltStep(c: Config, s: State, e: Event)
    requires Inv(c, s) && Enabled(c, s, e) && (Halting(s.mods[0].pc) ==> s.exit)
    ensures var t := Apply(c, s, e); t.mods != [] && (Halting(t.mods[0].pc) ==> t.exit)
  {
    assert Local(c, s.mods, 0);
    if e.ThreadStep? {
      PipelineSafety.ThreadStepModules(c, s, e.k);
      if e.k == 0 {
        HaltMove(ViewOf(s, 0), s.exit, s.live);
      }
    }
  }

  lemma HaltMove(v: View, exit: bool, live: bool)
    requires ThreadReady(Source, v, exit, live) && Allowed(Source, v.me.pc) && (Halting(v.me.pc) ==> exit)
    ensures Halting(ThreadMove(Source, v, exit, live).me.pc) ==> exit
  {
  }

  lemma {:induction false} SourceHalts(c: Config, s: State, es: seq<Event>)
    requires Inv(c, s) && Legal(c, s, es) && (Halting(s.mods[0].pc) ==> s.exit)
    ensures var t := After(c, s, es); t.mods != [] && (Halting(t.mods[0].pc) ==> t.exit)
    decreases |es|
  {
    if es != [] {
      PipelineSafety.StepKeeps(c, s, es[0]);
      HaltStep(c, s, es[0]);
      SourceHalts(c, Apply(c, s, es[0]), es[1..]);
    }
  }

  lemma {:induction false} HaltsAfterSource(c: Config, s: State, k: nat)
    requires Inv(c, s) && k < |s.mods| && Halting(s.mods[k].pc)
    ensures Halting(s.mods[0].pc)
  {
    if k > 0 {
      assert Local(c, s.mods, k);
      HaltsAfterSource(c, s, k - 1);
    }
  }

  /** No thread leaves its loop before exit has been raised. */
  lemma HaltsOnlyOnExit(c: Config, mem: map<nat, Chunk>, es: seq<Event>, k: nat)
    requires RunOf(c, mem, es)
    requires k < |StateAfter(c, mem, es).mods| && Halting(StateAfter(c, mem, es).mods[k].pc)
    ensures ExitBy(es)
  {
    PipelineSafety.StartHolds(c, mem);
    PipelineSafety.Reachable(c, mem, es);
    SourceHalts(c, Start(c, mem), es);
    HaltsAfterSource(c, StateAfter(c, mem, es), k);
    FlagsOfRun(c, mem, es);
  }

  /** From every state with exit set the end can be reached. */
  lemma {:induction false} Drained(c: Config, s: State) returns (fs: seq<Event>)
    requires c.Valid() && Inv(c, s) && s.exit
    ensures Legal(c, s, fs) && forall f | f in fs :: PipelineLiveness.Internal(f)
    ensures var t := After(c, s, fs); PipelineLiveness.AllDone(t) || PipelineLiveness.SomeChildLeft(t)
    decreases PipelineLiveness.DrainRank(c, s)
  {
    if PipelineLiveness.Stuck(c, s) {
      fs := [];
      if !PipelineLiveness.SomeChildLeft(s) {
        PipelineLiveness.StuckMeansDone(c, s);
      }
    } else {
      var k: nat :| k < |s.mods| && !PipelineLiveness.StuckAt(c, s, k);
      var e := if Enabled(c, s, ThreadStep(k)) then ThreadStep(k) else ChildStep(k, "", 0);
      PipelineLiveness.StepRankFalls(c, s, e);
      PipelineSafety.StepKeeps(c, s, e);
      var rest := Drained(c, Apply(c, s, e));
      fs := [e] + rest;
      assert fs[1..] == rest;
    }
  }

  /** Every reachable state has a continuation in which exit is raised and then threads
      and children alone come to the end: all threads have ended, or a child has left. */
  lemma EndInReach(c: Config, mem: map<nat, Chunk>, es: seq<Event>) returns (fs: seq<Event>)
    requires RunOf(c, mem, es)
    ensures Legal(c, StateAfter(c, mem, es), fs)
    ensures fs != [] && fs[0] == RaiseExit && forall i | 0 < i < |fs| :: PipelineLiveness.Internal(fs[i])
    ensures var t := After(c, StateAfter(c, mem, es), fs);
            PipelineLiveness.AllDone(t) || PipelineLiveness.SomeChildLeft(t)
  {
    var s := StateAfter(c, mem, es);
    PipelineSafety.Reachable(c, mem, es);
    PipelineSafety.StepKeeps(c, s, RaiseExit);
    var rest := Drained(c, Apply(c, s, RaiseExit));
    fs := [RaiseExit] + rest;
    assert fs[1..] == rest;
  }
}
