/** The pipeline never blocks while it is live, and drains once exit is raised. */
module PipelineLiveness {
  import opened PipelineModel
  import opened PipelineInvariant
  import opened PipelineRanking
  import PipelineSafety

  predicate AllDone(s: State) {
    forall k | 0 <= k < |s.mods| :: s.mods[k].pc.Done?
  }

  /** Some child ended because its action returned -1. */
  predicate SomeChildLeft(s: State) {
    exists k | 0 <= k < |s.mods| :: s.mods[k].child.left
  }

  /** A step of a thread or a child, not of the environment. */
  predicate Internal(e: Event) {
    e.ThreadStep? || e.ChildStep?
  }

  /** No thread and no child can take a step. */
  predicate Stuck(c: Config, s: State) {
    forall k: nat | k < |s.mods| :: StuckAt(c, s, k)
  }

  predicate StuckAt(c: Config, s: State, k: nat) {
    !Enabled(c, s, ThreadStep(k)) && !Enabled(c, s, ChildStep(k, "", 0))
  }

  // ---------------------------------------------------- deadlock freedom

  lemma StuckPlaces(c: Config, s: State, k: nat)
    requires |s.mods| == c.modules >= 2 && k < |s.mods| && Local(c, s.mods, k) && StuckAt(c, s, k)
    requires !s.mods[k].child.left && (s.exit || s.live)
    ensures var m := s.mods[k];
            || (m.pc.Idle? && k > 0 && m.box.newCmd == 0) || (m.pc.Pop? && k == 0 && s.ring == [])
            || m.pc.Done? || m.pc.SendWait? || m.pc.HaltWait?
  {
  }

  /** From the tail of the chain: no thread waits for the next one to read. */
  lemma {:induction false} NoneWaitsToSend(c: Config, s: State, k: nat)
    requires Inv(c, s) && Stuck(c, s) && !SomeChildLeft(s) && (s.exit || s.live) && k < |s.mods|
    ensures !s.mods[k].pc.SendWait? && !s.mods[k].pc.HaltWait?
    decreases |s.mods| - k
  {
    assert Local(c, s.mods, k) && StuckAt(c, s, k);
    if k + 1 < |s.mods| {
      assert Local(c, s.mods, k + 1) && StuckAt(c, s, k + 1);
      NoneWaitsToSend(c, s, k + 1);
      StuckPlaces(c, s, k + 1);
    }
  }

  /** A thread waiting for work, with nothing in its mailbox. */
  predicate Empty(m: Module) {
    (m.pc.Idle? && m.box.newCmd == 0) || m.pc.Pop?
  }

  lemma AlikeNext(c: Config, s: State, k: nat)
    requires |s.mods| == c.modules >= 2 && 0 < k < |s.mods| && Local(c, s.mods, k) && StuckAt(c, s, k)
    requires !s.mods[k].child.left && (s.exit || s.live)
    requires !s.mods[k].pc.SendWait? && !s.mods[k].pc.HaltWait?
    ensures s.mods[k - 1].pc.Done? ==> s.mods[k].pc.Done?
    ensures Empty(s.mods[k - 1]) ==> Empty(s.mods[k])
  {
    StuckPlaces(c, s, k);
  }

  /** From the head: either every thread has ended, or every one waits for work. */
  lemma {:induction false} AllAlike(c: Config, s: State, k: nat)
    requires Inv(c, s) && Stuck(c, s) && !SomeChildLeft(s) && (s.exit || s.live) && k < |s.mods|
    ensures if s.mods[0].pc.Done? then s.mods[k].pc.Done? else s.mods[0].pc.Pop? && s.ring == [] && Empty(s.mods[k])
  {
    assert Local(c, s.mods, k) && StuckAt(c, s, k);
    NoneWaitsToSend(c, s, k);
    if k > 0 {
      AlikeNext(c, s, k);
      AllAlike(c, s, k - 1);
    } else {
      StuckPlaces(c, s, 0);
    }
  }

  lemma EmptyHandsOff(r: Role, m: Module)
    requires Empty(m) && SlotInv(r, m) && Allowed(r, m.pc)
    ensures Load(m) == multiset{}
  {
    assert !Mailed(m) && !Held(m);
  }

  lemma StuckMeansDone(c: Config, s: State)
    requires c.Valid() && Inv(c, s) && Stuck(c, s) && !SomeChildLeft(s) && (s.exit || s.live)
    ensures AllDone(s)
  {
    forall k: nat | k < |s.mods|
      ensures s.mods[0].pc.Done? ==> s.mods[k].pc.Done?
      ensures !s.mods[0].pc.Done? ==> Load(s.mods[k]) == multiset{} && s.ring == []
    {
      AllAlike(c, s, k);
      assert Local(c, s.mods, k);
      if Empty(s.mods[k]) {
        EmptyHandsOff(RoleOf(c, k), s.mods[k]);
      }
    }
    if !s.mods[0].pc.Done? {
      RingIsFull(c, s);
    }
  }

  lemma RingIsFull(c: Config, s: State)
    requires c.Valid() && Inv(c, s) && forall k: nat | k < |s.mods| :: Load(s.mods[k]) == multiset{}
    ensures s.ring != []
  {
    PipelineSafety.NothingCarried(s.mods);
    assert c.Offsets()[0] in Everywhere(s);
  }

  /** The source polls: it will find neither that it has to exit nor that it is live. */
  predicate Polls(s: State, e: Event)
    requires e.ThreadStep? ==> e.k < |s.mods|
  {
    e.ThreadStep? && (s.mods[e.k].pc.Idle? || s.mods[e.k].pc.Gate?) && !s.exit && !s.live
  }

  /** In every reachable state in which the pipeline is live or has been told to exit:
      some thread or child can make a step that is more than polling, or all have
      ended, or a child has left. */
  lemma NoDeadlock(c: Config, mem: map<nat, Chunk>, es: seq<Event>)
    requires RunOf(c, mem, es)
    requires var s := StateAfter(c, mem, es); s.exit || s.live
    ensures var s := StateAfter(c, mem, es);
            || (exists e :: Internal(e) && Enabled(c, s, e) && !Polls(s, e))
            || AllDone(s) || SomeChildLeft(s)
  {
    var s := StateAfter(c, mem, es);
    PipelineSafety.Reachable(c, mem, es);
    if Stuck(c, s) {
      if !SomeChildLeft(s) {
        StuckMeansDone(c, s);
      }
    } else {
      var k: nat :| k < |s.mods| && !StuckAt(c, s, k);
      var e := if Enabled(c, s, ThreadStep(k)) then ThreadStep(k) else ChildStep(k, "", 0);
      assert Internal(e) && Enabled(c, s, e) && !Polls(s, e);
    }
  }

  // -------------------------------------------------------------- draining

  /** What the source still needs when it is about to take one more chunk. */
  function Reserve(p: Pc, hops: nat): nat {
    if p.Gate? then 64 * hops + 1 else if p.Pop? then 64 * hops else 0
  }

  function DrainRank(c: Config, s: State): nat
    requires |s.mods| == c.modules >= 2
  {
    TotalRank(s.mods, c.modules) + Reserve(s.mods[0].pc, c.modules)
  }

  /** Only the source takes free chunks. */
  lemma NoReserve(c: Config, s: State, e: Event)
    requires |s.mods| == c.modules >= 2 && Local(c, s.mods, 0) && Enabled(c, s, e) && !Pops(s, e) && !Looks(s, e)
    ensures var t := Apply(c, s, e);
            |t.mods| == c.modules && Reserve(t.mods[0].pc, c.modules) == Reserve(s.mods[0].pc, c.modules)
  {
    if e.ThreadStep? {
      PipelineSafety.ThreadStepModules(c, s, e.k);
    } else if e.ChildStep? {
      ChildKeepsLinks(c, e.k, s.mods[e.k], s.mem, e.item, e.status);
    }
  }

  lemma SourceReserve(c: Config, s: State, e: Event)
    requires Inv(c, s) && s.exit && Enabled(c, s, e) && (Pops(s, e) || Looks(s, e))
    ensures var t := Apply(c, s, e); |t.mods| == c.modules && DrainRank(c, t) < DrainRank(c, s)
  {
    SourceStepRank(c, s, e);
    PipelineSafety.ThreadStepModules(c, s, e.k);
  }

  lemma OtherReserve(c: Config, s: State, e: Event)
    requires Inv(c, s) && Enabled(c, s, e) && !Pops(s, e) && !Looks(s, e)
    ensures var t := Apply(c, s, e);
            |t.mods| == c.modules && DrainRank(c, t) + (if Internal(e) then 1 else 0) <= DrainRank(c, s)
  {
    assert Local(c, s.mods, 0);
    NoReserve(c, s, e);
    if e.ThreadStep? {
      OtherStepRank(c, s, e);
    } else if e.ChildStep? {
      ChildStepRank(c, s, e);
    }
  }

  /** The ranking falls with every step of a thread or child. */
  lemma StepRankFalls(c: Config, s: State, e: Event)
    requires Inv(c, s) && s.exit && Enabled(c, s, e)
    ensures var t := Apply(c, s, e);
            && |t.mods| == c.modules && t.exit
            && DrainRank(c, t) + (if Internal(e) then 1 else 0) <= DrainRank(c, s)
  {
    if Pops(s, e) || Looks(s, e) {
      SourceReserve(c, s, e);
    } else {
      OtherReserve(c, s, e);
    }
  }

  /** How many steps of es are taken by threads and children. */
  function Steps(es: seq<Event>): nat {
    if es == [] then 0 else (if Internal(es[0]) then 1 else 0) + Steps(es[1..])
  }

  lemma {:induction false} RankBoundsSteps(c: Config, s: State, es: seq<Event>)
    requires Inv(c, s) && s.exit && Legal(c, s, es)
    ensures var t := After(c, s, es);
            && |t.mods| == c.modules && t.exit
            && Steps(es) + DrainRank(c, t) <= DrainRank(c, s)
    decreases |es|
  {
    if es != [] {
      PipelineSafety.StepKeeps(c, s, es[0]);
      StepRankFalls(c, s, es[0]);
      RankBoundsSteps(c, Apply(c, s, es[0]), es[1..]);
    }
  }
}
