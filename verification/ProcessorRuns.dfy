/** A run in which the source's child never comes back from first_action. */
module ProcessorRuns {
  import C = CollectorModel
  import P = PipelineModel
  import Processor
  import opened ProcessorModel

  ghost predicate Reached(c: Config, mem: map<nat, P.Chunk>, s: System)
    requires c.Valid()
  {
    exists es :: Legal(c, Start(c, mem), es) && Processor.Own(es) && After(c, Start(c, mem), es) == s
  }

  lemma {:induction false} OneMore(c: Config, s: System, es: seq<Event>, e: Event)
    requires c.Valid() && Legal(c, s, es) && Enabled(c, After(c, s, es), e)
    ensures Legal(c, s, es + [e]) && After(c, s, es + [e]) == Apply(c, After(c, s, es), e)
    decreases |es|
  {
    if es == [] {
      assert [e][1..] == [];
      assert es + [e] == [e];
      assert Legal(c, Apply(c, s, e), []);
    } else {
      OneMore(c, Apply(c, s, es[0]), es[1..], e);
      assert (es + [e])[1..] == es[1..] + [e];
    }
  }

  /** One more step. */
  lemma Then(c: Config, mem: map<nat, P.Chunk>, s: System, e: Event)
    requires c.Valid() && Reached(c, mem, s) && Enabled(c, s, e) && Processor.Own([e])
    ensures Reached(c, mem, Apply(c, s, e))
  {
    var es :| Legal(c, Start(c, mem), es) && Processor.Own(es) && After(c, Start(c, mem), es) == s;
    OneMore(c, Start(c, mem), es, e);
    assert e in [e];
  }

  // ------------------------------------------------------------- the pipeline

  /** Where the source and its child are, and their semaphores. */
  ghost predicate SourceAt(p: P.State, pc: P.Pc, child: P.ChildPc, jobs: nat, results: nat) {
    && |p.mods| >= 2 && p.live && !p.exit
    && var m := p.mods[0];
       && m.pc == pc && m.child.pc == child && m.box.cmd.Job?
       && m.slot.semJob == jobs && m.slot.semResult == results
  }

  /** A step of the source or its child. */
  lemma SourceSteps(c: Config, mem: map<nat, P.Chunk>, s: System, e: P.Event) returns (t: System)
    requires c.Valid() && Reached(c, mem, s) && Enabled(c, s, Pipe(e)) && !Returns(s.pipe, e)
    ensures Reached(c, mem, t) && t == s.(pipe := P.Apply(c.pipe, s.pipe, e))
  {
    Then(c, mem, s, Pipe(e));
    t := Apply(c, s, Pipe(e));
  }

  /** The source finds that it may go on. */
  lemma Admitted(c: Config, mem: map<nat, P.Chunk>, s: System) returns (t: System)
    requires c.Valid() && Reached(c, mem, s) && |s.pipe.mods| == c.pipe.modules
    requires SourceAt(s.pipe, P.Idle, P.Waiting, 0, 0)
    ensures Reached(c, mem, t) && t == s.(pipe := t.pipe) && |t.pipe.mods| == c.pipe.modules
    ensures SourceAt(t.pipe, P.Pop, P.Waiting, 0, 0) && t.pipe.mods[0].cmd.Job?
    ensures t.pipe.mods[1] == s.pipe.mods[1] && t.pipe.ring == s.pipe.ring
  {
    t := SourceSteps(c, mem, s, P.ThreadStep(0));
    t := SourceSteps(c, mem, t, P.ThreadStep(0));
  }

  /** It takes a chunk. */
  lemma ChunkTaken(c: Config, mem: map<nat, P.Chunk>, s: System) returns (t: System)
    requires c.Valid() && Reached(c, mem, s) && |s.pipe.mods| == c.pipe.modules && s.pipe.ring != []
    requires SourceAt(s.pipe, P.Pop, P.Waiting, 0, 0) && s.pipe.mods[0].cmd.Job?
    ensures Reached(c, mem, t) && t == s.(pipe := t.pipe) && |t.pipe.mods| == c.pipe.modules
    ensures SourceAt(t.pipe, P.JobCmd, P.Waiting, 0, 0) && t.pipe.mods[0].cmd.Job?
    ensures t.pipe.mods[1] == s.pipe.mods[1] && |t.pipe.ring| == |s.pipe.ring| - 1
  {
    t := SourceSteps(c, mem, s, P.ThreadStep(0));
  }

  /** Where a step of posting a job leads. */
  function Ahead(pc: P.Pc): P.Pc {
    match pc
    case JobCmd => P.JobOffs
    case JobOffs => P.JobPost
    case _ => P.JobWait
  }

  lemma JobStep(c: Config, mem: map<nat, P.Chunk>, s: System, pc: P.Pc) returns (t: System)
    requires c.Valid() && Reached(c, mem, s) && |s.pipe.mods| == c.pipe.modules
    requires SourceAt(s.pipe, pc, P.Waiting, 0, 0) && (pc.JobCmd? || pc.JobOffs? || pc.JobPost?)
    requires if pc.JobCmd? then s.pipe.mods[0].cmd.Job? else s.pipe.mods[0].slot.cmd.Job?
    ensures Reached(c, mem, t) && t == s.(pipe := t.pipe) && |t.pipe.mods| == c.pipe.modules
    ensures SourceAt(t.pipe, Ahead(pc), P.Waiting, if pc.JobPost? then 1 else 0, 0) && t.pipe.mods[0].slot.cmd.Job?
    ensures t.pipe.mods[1] == s.pipe.mods[1] && t.pipe.ring == s.pipe.ring
  {
    t := SourceSteps(c, mem, s, P.ThreadStep(0));
  }

  /** It posts a job. */
  lemma JobPosted(c: Config, mem: map<nat, P.Chunk>, s: System) returns (t: System)
    requires c.Valid() && Reached(c, mem, s) && |s.pipe.mods| == c.pipe.modules
    requires SourceAt(s.pipe, P.JobCmd, P.Waiting, 0, 0) && s.pipe.mods[0].cmd.Job?
    ensures Reached(c, mem, t) && t == s.(pipe := t.pipe) && |t.pipe.mods| == c.pipe.modules
    ensures SourceAt(t.pipe, P.JobWait, P.Waiting, 1, 0) && t.pipe.mods[0].slot.cmd.Job?
    ensures t.pipe.mods[1] == s.pipe.mods[1] && t.pipe.ring == s.pipe.ring
  {
    t := JobStep(c, mem, s, P.JobCmd);
    t := JobStep(c, mem, t, P.JobOffs);
    t := JobStep(c, mem, t, P.JobPost);
  }

  /** A chunk is on its way into first_action. */
  lemma Called(c: Config, mem: map<nat, P.Chunk>, s: System) returns (t: System)
    requires c.Valid() && Reached(c, mem, s) && |s.pipe.mods| == c.pipe.modules && s.pipe.ring != []
    requires SourceAt(s.pipe, P.Idle, P.Waiting, 0, 0)
    ensures Reached(c, mem, t) && t == s.(pipe := t.pipe) && |t.pipe.mods| == c.pipe.modules
    ensures SourceAt(t.pipe, P.JobWait, P.Acting, 0, 0)
    ensures t.pipe.mods[1] == s.pipe.mods[1] && |t.pipe.ring| == |s.pipe.ring| - 1
  {
    var e := P.ChildStep(0, "", 0);
    t := Admitted(c, mem, s);
    t := ChunkTaken(c, mem, t);
    t := JobPosted(c, mem, t);
    t := SourceSteps(c, mem, t, e);
    t := SourceSteps(c, mem, t, e);
  }

  /** The call has come back, and the child replies. */
  lemma Answered(c: Config, mem: map<nat, P.Chunk>, s: System) returns (t: System)
    requires c.Valid() && Reached(c, mem, s) && |s.pipe.mods| == c.pipe.modules && !s.reply.Pending?
    requires SourceAt(s.pipe, P.JobWait, P.Acting, 0, 0)
    ensures Reached(c, mem, t) && t == s.(pipe := t.pipe, reply := Pending) && |t.pipe.mods| == c.pipe.modules
    ensures SourceAt(t.pipe, P.JobWait, P.Waiting, 0, 1)
    ensures t.pipe.mods[1] == s.pipe.mods[1] && t.pipe.ring == s.pipe.ring
  {
    var e := Pipe(P.ChildStep(0, Captured(c, s), 0));
    Then(c, mem, s, e);
    t := Apply(c, s, e);
    t := SourceSteps(c, mem, t, P.ChildStep(0, "", 0));
  }

  /** The source takes the result. */
  lemma ReplyTaken(c: Config, mem: map<nat, P.Chunk>, s: System) returns (t: System)
    requires c.Valid() && Reached(c, mem, s) && |s.pipe.mods| == c.pipe.modules
    requires SourceAt(s.pipe, P.JobWait, P.Waiting, 0, 1)
    ensures Reached(c, mem, t) && t == s.(pipe := t.pipe) && |t.pipe.mods| == c.pipe.modules
    ensures SourceAt(t.pipe, P.JobTest, P.Waiting, 0, 0)
    ensures t.pipe.mods[1] == s.pipe.mods[1] && t.pipe.ring == s.pipe.ring
  {
    t := SourceSteps(c, mem, s, P.ThreadStep(0));
  }

  /** And looks at it, but does not heed it. */
  lemma ResultTested(c: Config, mem: map<nat, P.Chunk>, s: System) returns (t: System)
    requires c.Valid() && Reached(c, mem, s) && |s.pipe.mods| == c.pipe.modules
    requires SourceAt(s.pipe, P.JobTest, P.Waiting, 0, 0)
    ensures Reached(c, mem, t) && t == s.(pipe := t.pipe) && |t.pipe.mods| == c.pipe.modules
    ensures SourceAt(t.pipe, P.SendWait, P.Waiting, 0, 0)
    ensures t.pipe.mods[1] == s.pipe.mods[1] && t.pipe.ring == s.pipe.ring
  {
    t := SourceSteps(c, mem, s, P.ThreadStep(0));
  }

  lemma ResultTaken(c: Config, mem: map<nat, P.Chunk>, s: System) returns (t: System)
    requires c.Valid() && Reached(c, mem, s) && |s.pipe.mods| == c.pipe.modules
    requires SourceAt(s.pipe, P.JobWait, P.Waiting, 0, 1)
    ensures Reached(c, mem, t) && t == s.(pipe := t.pipe) && |t.pipe.mods| == c.pipe.modules
    ensures SourceAt(t.pipe, P.SendWait, P.Waiting, 0, 0)
    ensures t.pipe.mods[1] == s.pipe.mods[1] && t.pipe.ring == s.pipe.ring
  {
    t := ReplyTaken(c, mem, s);
    t := ResultTested(c, mem, t);
  }

  /** Where a step of sending leads. */
  function Onward(pc: P.Pc): P.Pc {
    match pc
    case SendWait => P.SendCmd
    case SendCmd => P.SendOffs
    case SendOffs => P.SendPost
    case _ => P.Idle
  }

  lemma SendStep(c: Config, mem: map<nat, P.Chunk>, s: System, pc: P.Pc) returns (t: System)
    requires c.Valid() && Reached(c, mem, s) && |s.pipe.mods| == c.pipe.modules
    requires pc.SendWait? || pc.SendCmd? || pc.SendOffs? || pc.SendPost?
    requires SourceAt(s.pipe, pc, P.Waiting, 0, 0) && (pc.SendWait? ==> s.pipe.mods[1].box.result > 0)
    ensures Reached(c, mem, t) && t == s.(pipe := t.pipe) && |t.pipe.mods| == c.pipe.modules
    ensures SourceAt(t.pipe, Onward(pc), P.Waiting, 0, 0) && t.pipe.ring == s.pipe.ring
  {
    t := SourceSteps(c, mem, s, P.ThreadStep(0));
  }

  /** It hands the chunk on. */
  lemma HandedOn(c: Config, mem: map<nat, P.Chunk>, s: System) returns (t: System)
    requires c.Valid() && Reached(c, mem, s) && |s.pipe.mods| == c.pipe.modules
    requires SourceAt(s.pipe, P.SendWait, P.Waiting, 0, 0) && s.pipe.mods[1].box.result > 0
    ensures Reached(c, mem, t) && t == s.(pipe := t.pipe) && |t.pipe.mods| == c.pipe.modules
    ensures SourceAt(t.pipe, P.Idle, P.Waiting, 0, 0) && t.pipe.ring == s.pipe.ring
  {
    t := SendStep(c, mem, s, P.SendWait);
    t := SendStep(c, mem, t, P.SendCmd);
    t := SendStep(c, mem, t, P.SendOffs);
    t := SendStep(c, mem, t, P.SendPost);
  }

  /** The source's turn with a captured chunk is over. */
  lemma TurnOver(c: Config, mem: map<nat, P.Chunk>, s: System) returns (t: System)
    requires c.Valid() && Reached(c, mem, s) && |s.pipe.mods| == c.pipe.modules && !s.reply.Pending?
    requires SourceAt(s.pipe, P.JobWait, P.Acting, 0, 0) && s.pipe.mods[1].box.result > 0
    ensures Reached(c, mem, t) && t == s.(pipe := t.pipe, reply := Pending) && |t.pipe.mods| == c.pipe.modules
    ensures SourceAt(t.pipe, P.Idle, P.Waiting, 0, 0) && t.pipe.ring == s.pipe.ring
  {
    t := Answered(c, mem, s);
    t := ResultTaken(c, mem, t);
    t := HandedOn(c, mem, t);
  }

  // ------------------------------------------------------------ the collector

  /** A step of the collector's side, but for first_action. */
  lemma CollSteps(c: Config, mem: map<nat, P.Chunk>, s: System, a: C.Event) returns (t: System)
    requires c.Valid() && Reached(c, mem, s) && C.Enabled(c.coll, s.coll, a) && !a.ActionStep? && !a.RaiseExit?
    ensures Reached(c, mem, t) && t == s.(coll := C.Apply(c.coll, s.coll, a))
  {
    Then(c, mem, s, Coll(a));
    t := Apply(c, s, Coll(a));
  }

  lemma Acts(c: Config, mem: map<nat, P.Chunk>, s: System) returns (t: System)
    requires c.Valid() && Reached(c, mem, s) && C.ActionReady(s.coll) && Calling(s.pipe) && s.reply.Pending?
    ensures Reached(c, mem, t) && t == s.(coll := C.ActionMove(s.coll), reply := Replied(s.coll))
  {
    var e := Coll(C.Event.ActionStep);
    Then(c, mem, s, e);
    t := Apply(c, s, e);
  }

  /** first_action has taken the name. */
  lemma NameTaken(c: Config, mem: map<nat, P.Chunk>, s: System) returns (t: System)
    requires c.Valid() && Reached(c, mem, s) && Calling(s.pipe) && s.reply.Pending?
    requires s.coll.action.Call? && !s.coll.exit && s.coll.dataReady > 0
    ensures Reached(c, mem, t) && t == s.(coll := t.coll)
    ensures t.coll == s.coll.(action := C.Generate, dataReady := s.coll.dataReady - 1,
                              published := s.coll.published + [s.coll.name])
  {
    t := Acts(c, mem, s);
    t := Acts(c, mem, t);
    t := Acts(c, mem, t);
  }

  /** It has generated and written the next one. */
  lemma NameWritten(c: Config, mem: map<nat, P.Chunk>, s: System) returns (t: System)
    requires c.Valid() && Reached(c, mem, s) && Calling(s.pipe) && s.reply.Pending? && s.coll.action.Generate?
    ensures Reached(c, mem, t) && t == s.(coll := t.coll)
    ensures t.coll == s.coll.(action := C.PostEmptyReady, name := s.coll.next, generated := s.coll.next,
                              next := s.coll.next + 1)
  {
    t := Acts(c, mem, s);
    t := Acts(c, mem, t);
    t := Acts(c, mem, t);
  }

  /** A whole call of first_action. */
  lemma CallMade(c: Config, mem: map<nat, P.Chunk>, s: System) returns (t: System)
    requires c.Valid() && Reached(c, mem, s) && Calling(s.pipe) && s.reply.Pending?
    requires s.coll.action.Call? && !s.coll.exit && s.coll.dataReady > 0
    ensures Reached(c, mem, t) && t == s.(coll := t.coll, reply := Named(s.coll.name))
    ensures t.coll == s.coll.(dataReady := s.coll.dataReady - 1, emptyReady := s.coll.emptyReady + 1,
                              published := s.coll.published + [s.coll.name], name := s.coll.next,
                              generated := s.coll.next, next := s.coll.next + 1)
  {
    t := NameTaken(c, mem, s);
    t := NameWritten(c, mem, t);
    t := Acts(c, mem, t);
  }

  /** The collector gives every source from k on its name and empty_ready, then waits. */
  lemma {:induction false} CopyFrom(c: Config, mem: map<nat, P.Chunk>, s: System, k: nat) returns (t: System)
    requires c.Valid() && Reached(c, mem, s) && |s.coll.sources| == |c.coll.camera|
    requires s.coll.collector == C.Copy(k) && k <= |s.coll.sources| && !s.coll.exit
    ensures Reached(c, mem, t) && |t.coll.sources| == |s.coll.sources|
    ensures t == s.(coll := s.coll.(collector := C.Gather(0), sources := t.coll.sources))
    ensures forall j | 0 <= j < |s.coll.sources| :: t.coll.sources[j] ==
              var x := s.coll.sources[j]; if j < k then x else x.(obj := s.coll.name, empty := x.empty + 1)
    decreases |s.coll.sources| - k
  {
    var e := C.Event.CollectorStep;
    t := CollSteps(c, mem, s, e);
    t := CollSteps(c, mem, t, e);
    if k < |s.coll.sources| {
      t := CollSteps(c, mem, t, e);
      t := CopyFrom(c, mem, t, k + 1);
    }
  }

  // -------------------------------------------------------------- the witness

  lemma Woken(c: Config, mem: map<nat, P.Chunk>) returns (t: System)
    requires c.Valid()
    ensures Reached(c, mem, t) && t == Start(c, mem).(pipe := P.Start(c.pipe, mem).(live := true))
  {
    var b := Start(c, mem);
    assert Legal(c, b, []) && Processor.Own([]) && After(c, b, []) == b;
    Then(c, mem, b, Pipe(P.SetLive(true)));
    t := Apply(c, b, Pipe(P.SetLive(true)));
  }

  /** The first object has been published, and its name is in the pipeline. */
  lemma FirstCapture(c: Config, mem: map<nat, P.Chunk>) returns (t: System)
    requires c.Valid() && c.pipe.dataCnt >= 2
    ensures Reached(c, mem, t) && |t.pipe.mods| == c.pipe.modules && t.reply.Pending?
    ensures SourceAt(t.pipe, P.Idle, P.Waiting, 0, 0) && t.pipe.ring != []
    ensures t.coll == C.Start(c.coll).(dataReady := 0, emptyReady := 1, published := [0], name := 1, generated := 1,
                                       next := 2)
  {
    t := Woken(c, mem);
    t := Called(c, mem, t);
    t := CallMade(c, mem, t);
    t := TurnOver(c, mem, t);
  }

  /** The next call waits for data_ready, and the collector for its sources. */
  lemma NextCall(c: Config, mem: map<nat, P.Chunk>) returns (t: System)
    requires c.Valid() && c.pipe.dataCnt >= 2
    ensures Reached(c, mem, t) && Calling(t.pipe) && t.reply.Pending? && t.coll.action.WaitData?
    ensures t.coll.dataReady == 0 && t.coll.collector == C.Gather(0) && |t.coll.sources| == |c.coll.camera|
    ensures forall j | 0 <= j < |t.coll.sources| ::
              t.coll.sources[j] == C.Source(C.First, false, 1, 0, 1, 0, C.Watching, false, false)
  {
    t := FirstCapture(c, mem);
    t := Called(c, mem, t);
    t := Acts(c, mem, t);
    t := CollSteps(c, mem, t, C.Event.CollectorStep);
    t := CopyFrom(c, mem, t, 0);
  }

  /** If the first read of the first source fails and it is a camera, the source's child
      never comes back from its second call of first_action, with any pipeline of two
      chunks or more. */
  lemma ChildHangs(c: Config, mem: map<nat, P.Chunk>) returns (t: System)
    requires c.Valid() && c.pipe.dataCnt >= 2 && |c.coll.camera| > 0 && c.coll.camera[0]
    ensures Reached(c, mem, t) && Processor.HangsIn(c, t, 0)
  {
    t := NextCall(c, mem);
    t := CollSteps(c, mem, t, C.SourceStep(0, false, 0));
    t := CollSteps(c, mem, t, C.ReadFails(0));
  }
}
