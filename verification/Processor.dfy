/** What holds of pipeline and collector together. */
module Processor {
  import C = CollectorModel
  import CollectorEnd
  import CollectorInvariant
  import CollectorProgress
  import CollectorRuns
  import P = PipelineModel
  import PipelineInvariant
  import PipelineLiveness
  import PipelineSafety
  import PipelineSequential
  import opened ProcessorModel

  /** A run of the whole is a run of either side. */
  lemma {:induction false} Projects(c: Config, s: System, es: seq<Event>)
    requires c.Valid() && Legal(c, s, es)
    ensures P.Legal(c.pipe, s.pipe, Pipes(es)) && P.After(c.pipe, s.pipe, Pipes(es)) == After(c, s, es).pipe
    ensures C.Legal(c.coll, s.coll, Colls(es)) && C.After(c.coll, s.coll, Colls(es)) == After(c, s, es).coll
    decreases |es|
  {
    if es != [] {
      Projects(c, Apply(c, s, es[0]), es[1..]);
      if es[0].Pipe? {
        assert Pipes(es)[1..] == Pipes(es[1..]) && Colls(es) == Colls(es[1..]);
      } else {
        assert Colls(es)[1..] == Colls(es[1..]) && Pipes(es) == Pipes(es[1..]);
      }
    }
  }

  // --------------------------------------------------------- captured names

  function Texts(c: Config, names: seq<nat>): seq<P.Chunk> {
    seq(|names|, i requires 0 <= i < |names| => c.text(names[i]))
  }

  /** A name has been taken whose call has not come back. */
  predicate Taken(s: System) {
    s.coll.action.Generate? || s.coll.action.Write? || s.coll.action.Writing? || s.coll.action.PostEmptyReady? ||
    s.reply.Named?
  }

  /** The names whose calls have come back. */
  function Delivered(s: System): seq<nat> {
    if Taken(s) && s.coll.published != [] then s.coll.published[..|s.coll.published| - 1] else s.coll.published
  }

  /** Where the call is, and what the child has captured so far. */
  ghost predicate CallInv(c: Config, s: System) {
    && |s.pipe.mods| == c.pipe.modules >= 2
    && (!s.coll.action.Call? ==> Calling(s.pipe) && s.reply.Pending?)
    && (!s.reply.Pending? ==> Calling(s.pipe))
    && (Taken(s) ==> s.coll.published != [])
    && (s.reply.Named? ==> s.reply.name == s.coll.published[|s.coll.published| - 1])
    && (s.reply.Unnamed? ==> s.coll.exit)
  }

  ghost predicate CaptureInv(c: Config, s: System)
    requires |s.pipe.mods| >= 2
  {
    var seen, names := s.pipe.mods[0].seen, Delivered(s);
    && |names| <= |seen| && seen[..|names|] == Texts(c, names)
    && s.pipe.mods[0].slot.cmdResult == 0 && !s.pipe.mods[0].child.left
    && (|names| < |seen| ==> s.coll.exit && s.coll.action.Call? && !s.reply.Named?)
  }

  lemma StartCaptures(c: Config, mem: map<nat, P.Chunk>)
    requires c.Valid()
    ensures CallInv(c, Start(c, mem)) && CaptureInv(c, Start(c, mem))
  {
  }

  /** What stays of the source's module while its child is in its action. */
  ghost predicate Spared(m: P.Module, n: P.Module) {
    && n.seen == m.seen && n.child.left == m.child.left
    && (n.slot.cmdResult == m.slot.cmdResult || n.slot.cmdResult == 0)
    && (m.child.pc.Acting? ==> n.child == m.child)
  }

  lemma ThreadSparesCall(c: P.Config, s: P.State, k: nat)
    requires PipelineInvariant.Inv(c, s) && P.Enabled(c, s, P.ThreadStep(k))
    ensures var t := P.Apply(c, s, P.ThreadStep(k)); |t.mods| == |s.mods| && Spared(s.mods[0], t.mods[0])
  {
    assert PipelineInvariant.Local(c, s.mods, 0);
    PipelineSafety.ThreadStepModules(c, s, k);
  }

  /** Nobody else touches the source's child in its action, nor what it has captured. */
  lemma PipeSparesCall(c: P.Config, s: P.State, e: P.Event)
    requires PipelineInvariant.Inv(c, s) && P.Enabled(c, s, e) && !Returns(s, e)
    ensures var t := P.Apply(c, s, e); |t.mods| == |s.mods| && Spared(s.mods[0], t.mods[0])
  {
    if e.ThreadStep? {
      ThreadSparesCall(c, s, e.k);
    }
  }

  lemma ReturnCaptures(c: P.Config, s: P.State, e: P.Event)
    requires |s.mods| == c.modules >= 2 && P.Enabled(c, s, e) && Returns(s, e) && e.status == 0
    ensures var t := P.Apply(c, s, e);
            && |t.mods| == |s.mods| && t.mods[0].seen == s.mods[0].seen + [e.item] && !Calling(t)
            && t.mods[0].slot.cmdResult == 0 && !t.mods[0].child.left
  {
  }

  lemma PipeStepCaptures(c: Config, s: System, e: Event)
    requires c.Valid() && PipelineInvariant.Inv(c.pipe, s.pipe) && CallInv(c, s) && CaptureInv(c, s)
    requires e.Pipe? && Enabled(c, s, e)
    ensures CallInv(c, Apply(c, s, e)) && CaptureInv(c, Apply(c, s, e))
  {
    if Returns(s.pipe, e.p) {
      ReturnCaptures(c.pipe, s.pipe, e.p);
      var t, names := Apply(c, s, e), Delivered(s);
      if s.reply.Named? {
        assert Delivered(t) == names + [s.reply.name];
        assert t.pipe.mods[0].seen[..|names| + 1] == Texts(c, Delivered(t));
      }
    } else {
      PipeSparesCall(c.pipe, s.pipe, e.p);
    }
  }

  lemma CollStepCaptures(c: Config, s: System, e: Event)
    requires c.Valid() && CallInv(c, s) && CaptureInv(c, s) && e.Coll? && Enabled(c, s, e)
    ensures CallInv(c, Apply(c, s, e)) && CaptureInv(c, Apply(c, s, e))
  {
    assert e.c.ActionStep? && s.coll.action.Take? ==>
      (s.coll.published + [s.coll.name])[..|s.coll.published|] == s.coll.published;
  }

  lemma {:induction false} RunCaptures(c: Config, s: System, es: seq<Event>)
    requires c.Valid() && PipelineInvariant.Inv(c.pipe, s.pipe) && CallInv(c, s) && CaptureInv(c, s)
    requires Legal(c, s, es)
    ensures CallInv(c, After(c, s, es)) && CaptureInv(c, After(c, s, es))
    decreases |es|
  {
    if es != [] {
      if es[0].Pipe? {
        PipelineSafety.StepKeeps(c.pipe, s.pipe, es[0].p);
        PipeStepCaptures(c, s, es[0]);
      } else {
        CollStepCaptures(c, s, es[0]);
      }
      RunCaptures(c, Apply(c, s, es[0]), es[1..]);
    }
  }

  /** What holds after every run from the start. */
  lemma Reachable(c: Config, mem: map<nat, P.Chunk>, es: seq<Event>)
    requires c.Valid() && Legal(c, Start(c, mem), es)
    ensures var s := After(c, Start(c, mem), es);
            && CallInv(c, s) && CaptureInv(c, s)
            && PipelineInvariant.Inv(c.pipe, s.pipe) && CollectorInvariant.Inv(c.coll, s.coll)
            && CollectorEnd.Begun(s.coll) && CollectorEnd.LastServed(s.coll)
  {
    StartCaptures(c, mem);
    PipelineSafety.StartHolds(c.pipe, mem);
    RunCaptures(c, Start(c, mem), es);
    Projects(c, Start(c, mem), es);
    PipelineSafety.Reachable(c.pipe, mem, Pipes(es));
    CollectorEnd.ReachableBegun(c.coll, Colls(es));
    CollectorEnd.ReachableServed(c.coll, Colls(es));
  }

  /** Every name first_action takes goes into the pipeline once, in the order in which
      they are generated, when its call comes back; nothing else does as long as the
      collector has not been told to exit. */
  lemma CapturedNames(c: Config, mem: map<nat, P.Chunk>, es: seq<Event>)
    requires c.Valid() && Legal(c, Start(c, mem), es)
    ensures var s := After(c, Start(c, mem), es);
            && |s.pipe.mods| == c.pipe.modules
            && var names, seen := Delivered(s), s.pipe.mods[0].seen;
               && (forall k | 0 <= k < |names| :: names[k] == k)
               && |s.coll.published| <= |names| + 1
               && |names| <= |seen| && seen[..|names|] == Texts(c, names)
               && (!s.coll.exit ==> seen == Texts(c, names))
               && s.pipe.mods[0].slot.cmdResult == 0 && !s.pipe.mods[0].child.left
  {
    Reachable(c, mem, es);
  }

  /** When the call comes back, the chunk holds the name that was taken; if none was, it
      holds what it held before. */
  lemma CallReturns(c: Config, s: System, p: P.Event)
    requires c.Valid() && Enabled(c, s, Pipe(p)) && Returns(s.pipe, p) && s.pipe.mods != []
    ensures var o, t := s.pipe.mods[0].slot.offs, P.Apply(c.pipe, s.pipe, p);
            && P.Read(t.mem, o) == (if s.reply.Named? then c.text(s.reply.name) else P.Read(s.pipe.mem, o))
            && forall i | i != o :: P.Read(t.mem, i) == P.Read(s.pipe.mem, i)
  {
  }

  /** So what reaches the finalization are the results of the sequential program on the
      published names. */
  lemma PublishedInOrder(c: Config, mem: map<nat, P.Chunk>, es: seq<Event>)
    requires c.Valid() && Legal(c, Start(c, mem), es) && !After(c, Start(c, mem), es).coll.exit
    ensures var s := After(c, Start(c, mem), es);
            && |s.pipe.mods| == c.pipe.modules
            && s.pipe.mods[c.pipe.modules - 1].seen
               <= PipelineSequential.SequentialRun(c.pipe, Texts(c, Delivered(s))).finished
  {
    CapturedNames(c, mem, es);
    Projects(c, Start(c, mem), es);
    PipelineSequential.SequentialRefinement(c.pipe, mem, Pipes(es));
  }

  // ----------------------------------------------------------------- progress

  /** A step of a thread or child that is more than polling. */
  predicate Works(s: System, e: Event) {
    match e
    case Pipe(p) =>
      PipelineLiveness.Internal(p) && (p.ThreadStep? ==> p.k < |s.pipe.mods|) && !PipelineLiveness.Polls(s.pipe, p)
    case Coll(a) => !a.ReadFails? && !a.RaiseExit?
  }

  ghost predicate CanWork(c: Config, s: System) {
    exists e :: Works(s, e) && Enabled(c, s, e)
  }

  /** The source's child waits in first_action for an object that does not come. */
  ghost predicate HangsIn(c: Config, s: System, i: nat) {
    && Calling(s.pipe) && s.reply.Pending? && s.coll.action.WaitData? && s.coll.dataReady == 0
    && CollectorProgress.WaitsInVain(c.coll, s.coll, i)
  }

  lemma CallWorks(c: Config, s: System)
    requires c.Valid() && Calling(s.pipe) && CallInv(c, s)
    requires CollectorInvariant.Inv(c.coll, s.coll) && CollectorEnd.Begun(s.coll) && CollectorEnd.LastServed(s.coll)
    ensures CanWork(c, s) || exists i: nat :: HangsIn(c, s, i)
  {
    if !s.reply.Pending? {
      var e := Pipe(P.ChildStep(0, Captured(c, s), 0));
      assert Works(s, e) && Enabled(c, s, e);
    } else if C.ActionReady(s.coll) {
      assert Works(s, Coll(C.Event.ActionStep)) && Enabled(c, s, Coll(C.Event.ActionStep));
    } else {
      CollectorProgress.SomebodyWorks(c.coll, s.coll);
      if CollectorProgress.CanWork(c.coll, s.coll) {
        var a :| CollectorProgress.Working(s.coll, a) && C.Enabled(c.coll, s.coll, a);
        assert Works(s, Coll(a)) && Enabled(c, s, Coll(a));
      } else {
        var i: nat :| CollectorProgress.WaitsInVain(c.coll, s.coll, i);
        assert HangsIn(c, s, i);
      }
    }
  }

  /** In every reachable state in which the pipeline is live or has been told to exit,
      some thread or child on either side can work, or all threads of the pipeline have
      ended, or a child has left, or the source's child hangs in first_action. */
  lemma NoDeadlock(c: Config, mem: map<nat, P.Chunk>, es: seq<Event>)
    requires c.Valid() && Legal(c, Start(c, mem), es)
    requires var p := After(c, Start(c, mem), es).pipe; p.exit || p.live
    ensures var s := After(c, Start(c, mem), es);
            || CanWork(c, s) || PipelineLiveness.AllDone(s.pipe) || PipelineLiveness.SomeChildLeft(s.pipe)
            || exists i: nat :: HangsIn(c, s, i)
  {
    var s := After(c, Start(c, mem), es);
    Reachable(c, mem, es);
    Projects(c, Start(c, mem), es);
    PipelineLiveness.NoDeadlock(c.pipe, mem, Pipes(es));
    if Calling(s.pipe) {
      CallWorks(c, s);
    } else if !PipelineLiveness.AllDone(s.pipe) && !PipelineLiveness.SomeChildLeft(s.pipe) {
      var p :| PipelineLiveness.Internal(p) && P.Enabled(c.pipe, s.pipe, p) && !PipelineLiveness.Polls(s.pipe, p);
      assert Works(s, Pipe(p)) && Enabled(c, s, Pipe(p));
    }
  }

  lemma HangStep(c: Config, s: System, e: Event, i: nat)
    requires c.Valid() && PipelineInvariant.Inv(c.pipe, s.pipe) && HangsIn(c, s, i) && Enabled(c, s, e)
    requires s.coll.sources[i].exit || (e.Coll? ==> CollectorRuns.Own(e.c))
    ensures var t := Apply(c, s, e);
            && HangsIn(c, t, i) && |t.pipe.mods| == |s.pipe.mods| && t.pipe.mods[0].seen == s.pipe.mods[0].seen
            && (s.coll.sources[i].exit ==> t.coll.sources[i].exit)
  {
    if e.Pipe? {
      PipeSparesCall(c.pipe, s.pipe, e.p);
    } else {
      CollectorProgress.StepKeepsVain(c.coll, s.coll, e.c, i);
    }
  }

  /** The events of the collector's side are those of the modelled code. */
  ghost predicate Own(es: seq<Event>) {
    forall e | e in es :: e.Coll? ==> CollectorRuns.Own(e.c)
  }

  lemma {:induction false} HangStays(c: Config, s: System, fs: seq<Event>, i: nat)
    requires c.Valid() && PipelineInvariant.Inv(c.pipe, s.pipe) && HangsIn(c, s, i) && Legal(c, s, fs)
    requires s.coll.sources[i].exit || Own(fs)
    ensures var t := After(c, s, fs);
            PipelineInvariant.Inv(c.pipe, t.pipe) && HangsIn(c, t, i) && t.pipe.mods[0].seen == s.pipe.mods[0].seen
    decreases |fs|
  {
    if fs != [] {
      assert Own(fs) ==> Own([fs[0]]) && Own(fs[1..]);
      assert fs[0] in [fs[0]];
      HangStep(c, s, fs[0], i);
      if fs[0].Pipe? {
        PipelineSafety.StepKeeps(c.pipe, s.pipe, fs[0].p);
      }
      HangStays(c, Apply(c, s, fs[0]), fs[1..], i);
    }
  }

  /** Then the call never comes back: in no continuation does the child capture anything
      more, and the threads of the pipeline never all end. */
  lemma HangIsFinal(c: Config, mem: map<nat, P.Chunk>, es: seq<Event>, fs: seq<Event>, i: nat)
    requires c.Valid() && Legal(c, Start(c, mem), es) && HangsIn(c, After(c, Start(c, mem), es), i)
    requires Legal(c, After(c, Start(c, mem), es), fs)
    requires After(c, Start(c, mem), es).coll.sources[i].exit || Own(fs)
    ensures var s, t := After(c, Start(c, mem), es), After(c, After(c, Start(c, mem), es), fs);
            && Calling(s.pipe) && Calling(t.pipe) && t.pipe.mods[0].seen == s.pipe.mods[0].seen
            && !PipelineLiveness.AllDone(t.pipe)
  {
    Reachable(c, mem, es);
    HangStays(c, After(c, Start(c, mem), es), fs, i);
    assert PipelineInvariant.Local(c.pipe, After(c, After(c, Start(c, mem), es), fs).pipe.mods, 0);
  }

  /** Once one of several sources has ended, the child captures no more items than there
      are objects published or under way. */
  lemma CapturesStop(c: Config, mem: map<nat, P.Chunk>, es: seq<Event>, fs: seq<Event>, i: nat)
    requires c.Valid() && |c.coll.camera| >= 2 && i < |c.coll.camera|
    requires Legal(c, Start(c, mem), es) && Legal(c, After(c, Start(c, mem), es), fs)
    ensures var s, t := After(c, Start(c, mem), es), After(c, After(c, Start(c, mem), es), fs);
            && |s.coll.sources| == |c.coll.camera| && |t.pipe.mods| == c.pipe.modules
            && (CollectorProgress.HasEnded(c.coll, s.coll, i, Colls(fs)) ==>
                  |t.pipe.mods[0].seen| <= |s.coll.published| + CollectorProgress.Left(s.coll, i))
  {
    var s := After(c, Start(c, mem), es);
    Reachable(c, mem, es);
    Projects(c, Start(c, mem), es);
    Projects(c, s, fs);
    RunCaptures(c, s, fs);
    CollectorInvariant.RunKeeps(c.coll, s.coll, Colls(fs));
    CollectorProgress.CaptureStops(c.coll, Colls(es), Colls(fs), i);
  }
}
