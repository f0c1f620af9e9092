/** What the status -1 does: the child leaves, and the pipeline can never end. */
module PipelineLost {
  import opened PipelineModel
  import PipelineInvariant
  import opened PipelineSafety
  import opened PipelineLiveness
  import PipelineShutdown

  lemma LeftStep(c: Config, s: State, e: Event, k: nat)
    requires |s.mods| == c.modules && k < |s.mods| && Enabled(c, s, e)
    requires s.mods[k].child.left && (s.mods[k].child.pc.Leaving? || s.mods[k].child.pc.Exited?)
    ensures k < |Apply(c, s, e).mods| && Apply(c, s, e).mods[k].child.left
  {
  }

  lemma {:induction false} LeftStays(c: Config, s: State, fs: seq<Event>, k: nat)
    requires PipelineInvariant.Inv(c, s) && Legal(c, s, fs) && k < |s.mods| && s.mods[k].child.left
    ensures var t := After(c, s, fs); PipelineInvariant.Inv(c, t) && k < |t.mods| && t.mods[k].child.left
    decreases |fs|
  {
    if fs != [] {
      StepKeeps(c, s, fs[0]);
      assert s.mods[k].child.pc.Leaving? || s.mods[k].child.pc.Exited? by {
        assert PipelineInvariant.Local(c, s.mods, k);
      }
      LeftStep(c, s, fs[0], k);
      LeftStays(c, Apply(c, s, fs[0]), fs[1..], k);
    }
  }

  /** Once a child has left, no continuation ends all threads. */
  lemma LeavingIsFinal(c: Config, mem: map<nat, Chunk>, es: seq<Event>, fs: seq<Event>)
    requires RunOf(c, mem, es) && SomeChildLeft(StateAfter(c, mem, es)) && Legal(c, StateAfter(c, mem, es), fs)
    ensures !AllDone(After(c, StateAfter(c, mem, es), fs))
  {
    var s := StateAfter(c, mem, es);
    Reachable(c, mem, es);
    var k: nat :| k < |s.mods| && s.mods[k].child.left;
    LeftStays(c, s, fs, k);
    if AllDone(After(c, s, fs)) {
      PipelineShutdown.NoneLeft(c, After(c, s, fs));
    }
  }

  /** The source has seen that the pipeline is live. */
  lemma Woken(c: Config, mem: map<nat, Chunk>) returns (es: seq<Event>)
    requires c.Valid()
    ensures RunOf(c, mem, es)
    ensures var t := StateAfter(c, mem, es);
            && |t.mods| == c.modules && t.ring != [] && t.live && !t.exit
            && t.mods[0] == Initial().(pc := Gate)
  {
    es := [SetLive(true)];
    var s := Start(c, mem);
    OneMore(c, s, [], SetLive(true));
    assert [] + es == es;
    var t := Apply(c, s, SetLive(true));
    OneMore(c, s, es, ThreadStep(0));
    es := es + [ThreadStep(0)];
  }

  /** The source has taken its first chunk. */
  lemma FirstChunk(c: Config, mem: map<nat, Chunk>) returns (es: seq<Event>)
    requires c.Valid()
    ensures RunOf(c, mem, es)
    ensures var t := StateAfter(c, mem, es);
            && |t.mods| == c.modules && t.mods[0].slot.semJob == 0 && t.mods[0].cmd.Job?
            && t.mods[0].child.pc.Waiting? && t.mods[0].pc.JobCmd?
  {
    es := Woken(c, mem);
    var t := StateAfter(c, mem, es);
    OneMore(c, Start(c, mem), es, ThreadStep(0));
    es := es + [ThreadStep(0)];
    t := Apply(c, t, ThreadStep(0));
    assert |t.mods| == c.modules && t.ring != [] && t.mods[0] == Initial().(pc := Pop);
    OneMore(c, Start(c, mem), es, ThreadStep(0));
    es := es + [ThreadStep(0)];
  }

  /** The source has posted its first job. */
  lemma FirstJob(c: Config, mem: map<nat, Chunk>) returns (es: seq<Event>)
    requires c.Valid()
    ensures RunOf(c, mem, es)
    ensures var t := StateAfter(c, mem, es);
            && |t.mods| == c.modules && t.mods[0].slot.semJob == 1 && t.mods[0].slot.cmd.Job?
            && t.mods[0].child.pc.Waiting?
  {
    es := FirstChunk(c, mem);
    var t := StateAfter(c, mem, es);
    for i := 0 to 3
      invariant RunOf(c, mem, es) && t == StateAfter(c, mem, es)
      invariant |t.mods| == c.modules
      invariant if i == 0 then t.mods[0].cmd.Job? else t.mods[0].slot.cmd.Job?
      invariant t.mods[0].pc == [JobCmd, JobOffs, JobPost, JobWait][i]
      invariant t.mods[0].slot.semJob == (if i == 3 then 1 else 0) && t.mods[0].child.pc.Waiting?
    {
      OneMore(c, Start(c, mem), es, ThreadStep(0));
      es := es + [ThreadStep(0)];
      t := Apply(c, t, ThreadStep(0));
    }
  }

  /** It happens: in every configuration there is a run in which the source's child
      returns -1 for its first item. */
  lemma ChildMayLeave(c: Config, mem: map<nat, Chunk>) returns (es: seq<Event>)
    requires c.Valid()
    ensures RunOf(c, mem, es) && SomeChildLeft(StateAfter(c, mem, es))
  {
    es := FirstJob(c, mem);
    var t := StateAfter(c, mem, es);
    for i := 0 to 3
      invariant RunOf(c, mem, es) && t == StateAfter(c, mem, es)
      invariant |t.mods| == c.modules && t.mods[0].slot.cmd.Job?
      invariant i == 0 ==> t.mods[0].slot.semJob == 1
      invariant t.mods[0].child.pc == [Waiting, Dispatch, Acting, Leaving][i]
      invariant i == 3 ==> t.mods[0].child.left
    {
      var e := ChildStep(0, "", -1);
      OneMore(c, Start(c, mem), es, e);
      es := es + [e];
      t := Apply(c, t, e);
    }
  }

  /** No child ever leaves on its own: no status -1, captured or computed. */
  ghost predicate NeverLeaves(c: Config, es: seq<Event>) {
    && (forall k, h :: c.action(k, h).1 != -1)
    && forall i | 0 <= i < |es| :: es[i].ChildStep? ==> es[i].status != -1
  }

  lemma StayStep(c: Config, s: State, e: Event)
    requires |s.mods| == c.modules && !SomeChildLeft(s) && Enabled(c, s, e)
    requires forall k, h :: c.action(k, h).1 != -1
    requires e.ChildStep? ==> e.status != -1
    ensures !SomeChildLeft(Apply(c, s, e))
  {
    forall j: nat | j < |Apply(c, s, e).mods| ensures !Apply(c, s, e).mods[j].child.left {
      assert !s.mods[j].child.left;
      if e.ChildStep? {
        assert Acted(c, e.k, s.mods[e.k], s.mem, e.item, e.status).1 != -1;
      }
    }
  }

  lemma {:induction false} AllStay(c: Config, s: State, es: seq<Event>)
    requires PipelineInvariant.Inv(c, s) && !SomeChildLeft(s) && Legal(c, s, es) && NeverLeaves(c, es)
    ensures !SomeChildLeft(After(c, s, es))
    decreases |es|
  {
    if es != [] {
      StayStep(c, s, es[0]);
      StepKeeps(c, s, es[0]);
      AllStay(c, Apply(c, s, es[0]), es[1..]);
    }
  }

  /** Whatever the interleaving: if no action and no capture ever returns -1, a run
      that has seen exit and cannot go on has ended all threads, and every module was
      given all it is given in the sequential run. */
  lemma NoStatusNoLoss(c: Config, mem: map<nat, Chunk>, es: seq<Event>)
    requires RunOf(c, mem, es) && NeverLeaves(c, es)
    requires StateAfter(c, mem, es).exit && Stuck(c, StateAfter(c, mem, es))
    ensures var s := StateAfter(c, mem, es); AllDone(s) && |s.mods| == c.modules && PipelineShutdown.AllGiven(c, s)
  {
    StartHolds(c, mem);
    AllStay(c, Start(c, mem), es);
    var s := StateAfter(c, mem, es);
    Reachable(c, mem, es);
    StuckMeansDone(c, s);
    PipelineShutdown.TerminalAccounting(c, mem, es);
  }
}
