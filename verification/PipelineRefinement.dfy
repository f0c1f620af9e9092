/** What the chunks contain: in every interleaving each module sees exactly what
    the module before it let through, in order. */
module PipelineRefinement {
  import opened PipelineModel
  import opened PipelineInvariant
  import opened PipelineSafety

  /** What module k lets through when it is given h: the results of its action,
      without those whose status is neither 0 nor -1.  The source lets everything
      through, whatever the status of its action. */
  function Passed(c: Config, k: nat, h: seq<Chunk>): seq<Chunk> {
    if k == 0 || h == [] then h
    else
      var (o, st) := c.action(k, h);
      Passed(c, k, h[..|h| - 1]) + if ResultOf(st) == 0 then [o] else []
  }

  /** The chunks on their way to the action of a module, oldest first. */
  function Pending(m: Module, mem: map<nat, Chunk>): seq<Chunk> {
    (if Fresh(m) then [Read(mem, m.offs)] else []) + (if Mailed(m) then [Read(mem, m.box.offs)] else [])
  }

  /** The chunk on its way from the action of a module to the next module. */
  function Ready(r: Role, m: Module, mem: map<nat, Chunk>): seq<Chunk> {
    if Sending(m.pc) || (Processed(m) && !m.pc.Drop? && !m.pc.Recycle? && (r.Source? || m.slot.cmdResult == 0))
    then [Read(mem, m.offs)] else []
  }

  /** What p handed on is what m has acted on and then what is on its way to m. */
  predicate FeedInv(p: Module, m: Module, mem: map<nat, Chunk>) {
    p.out == m.seen + Pending(m, mem)
  }

  /** What m let through is what it handed on and then what it is about to. */
  predicate YieldInv(c: Config, k: nat, m: Module, mem: map<nat, Chunk>) {
    Passed(c, k, m.seen) == m.out + Ready(RoleOf(c, k), m, mem)
  }

  /** The verdict a process thread acts on is that of the job it posted last. */
  predicate AnswerInv(c: Config, k: nat, m: Module) {
    Processed(m) && RoleOf(c, k).Process? ==>
      && m.seen != [] && m.slot.cmdResult == ResultOf(c.action(k, m.seen).1)
      && m.child.log != [] && m.child.log[|m.child.log| - 1] == Work(m.offs)
  }

  /** A child leaves on its own exactly after its action has returned -1. */
  predicate LeftInv(c: Config, k: nat, m: Module) {
    RoleOf(c, k).Process? ==> (m.child.left <==> m.seen != [] && c.action(k, m.seen).1 == -1)
  }

  /** `after` is an empty C string in the bytes of `before`. */
  predicate Emptied(before: Chunk, after: Chunk) {
    |after| == |before| && (after != "" ==> after[0] == '\0' && after[1..] == before[1..])
  }

  /** What the finalization gives back is the content it got, emptied. */
  predicate WipedInv(m: Module, mem: map<nat, Chunk>) {
    m.pc.Recycle? ==> m.seen != [] && Emptied(m.seen[|m.seen| - 1], Read(mem, m.offs))
  }

  predicate Content(c: Config, s: State, k: nat)
    requires k < |s.mods|
  {
    && (!RoleOf(c, k).Final? ==> YieldInv(c, k, s.mods[k], s.mem))
    && AnswerInv(c, k, s.mods[k]) && LeftInv(c, k, s.mods[k]) && WipedInv(s.mods[k], s.mem)
    && (k > 0 ==> FeedInv(s.mods[k - 1], s.mods[k], s.mem))
  }

  // ------------------------------------------------------ a step, locally

  lemma EarlyKeepsYield(r: Role, v: View, exit: bool, live: bool)
    requires ThreadReady(r, v, exit, live) && ModuleInv(r, v.me) && !r.Final? && Early(v.me.pc)
    ensures var w := ThreadMove(r, v, exit, live);
            w.me.seen == v.me.seen && w.me.out == v.me.out && Ready(r, w.me, w.mem) == Ready(r, v.me, v.mem)
  {
  }

  lemma LateKeepsYield(r: Role, v: View, exit: bool, live: bool)
    requires ThreadReady(r, v, exit, live) && ModuleInv(r, v.me) && !r.Final? && !Early(v.me.pc)
    ensures var w := ThreadMove(r, v, exit, live);
            w.me.seen == v.me.seen && w.me.out + Ready(r, w.me, w.mem) == v.me.out + Ready(r, v.me, v.mem)
  {
    var w := ThreadMove(r, v, exit, live);
    if !v.me.pc.SendPost? {
      assert w.me.out == v.me.out && Ready(r, w.me, w.mem) == Ready(r, v.me, v.mem);
    }
  }

  lemma ThreadKeepsYield(c: Config, k: nat, v: View, exit: bool, live: bool)
    requires var r := RoleOf(c, k); ThreadReady(r, v, exit, live) && ModuleInv(r, v.me) && !r.Final?
    requires YieldInv(c, k, v.me, v.mem)
    ensures var w := ThreadMove(RoleOf(c, k), v, exit, live); YieldInv(c, k, w.me, w.mem)
  {
    if Early(v.me.pc) {
      EarlyKeepsYield(RoleOf(c, k), v, exit, live);
    } else {
      LateKeepsYield(RoleOf(c, k), v, exit, live);
    }
  }

  lemma ThreadKeepsAnswer(c: Config, k: nat, v: View, exit: bool, live: bool)
    requires var r := RoleOf(c, k); ThreadReady(r, v, exit, live) && ModuleInv(r, v.me)
    requires AnswerInv(c, k, v.me)
    ensures AnswerInv(c, k, ThreadMove(RoleOf(c, k), v, exit, live).me)
  {
  }

  lemma ThreadKeepsLeft(c: Config, k: nat, v: View, exit: bool, live: bool)
    requires var r := RoleOf(c, k); ThreadReady(r, v, exit, live) && Allowed(r, v.me.pc)
    requires LeftInv(c, k, v.me) && WipedInv(v.me, v.mem)
    ensures var w := ThreadMove(RoleOf(c, k), v, exit, live); LeftInv(c, k, w.me) && WipedInv(w.me, w.mem)
  {
  }

  lemma EarlyKeepsFeedIn(r: Role, p: Module, v: View, exit: bool, live: bool)
    requires ThreadReady(r, v, exit, live) && ModuleInv(r, v.me) && !r.Source?
    requires Early(v.me.pc) && LinkInv(p, v.me) && FeedInv(p, v.me, v.mem)
    requires Mailed(v.me) && Held(v.me) ==> v.me.box.offs != v.me.offs
    ensures var w := ThreadMove(r, v, exit, live); FeedInv(p, w.me, w.mem)
  {
  }

  lemma LateKeepsFeedIn(r: Role, p: Module, v: View, exit: bool, live: bool)
    requires ThreadReady(r, v, exit, live) && ModuleInv(r, v.me) && !r.Source?
    requires !Early(v.me.pc) && LinkInv(p, v.me) && FeedInv(p, v.me, v.mem)
    requires Mailed(v.me) && Held(v.me) ==> v.me.box.offs != v.me.offs
    ensures var w := ThreadMove(r, v, exit, live); FeedInv(p, w.me, w.mem)
  {
  }

  lemma ThreadKeepsFeedIn(r: Role, p: Module, v: View, exit: bool, live: bool)
    requires ThreadReady(r, v, exit, live) && ModuleInv(r, v.me) && !r.Source?
    requires LinkInv(p, v.me) && FeedInv(p, v.me, v.mem)
    requires Mailed(v.me) && Held(v.me) ==> v.me.box.offs != v.me.offs
    ensures var w := ThreadMove(r, v, exit, live); FeedInv(p, w.me, w.mem)
  {
    if Early(v.me.pc) {
      EarlyKeepsFeedIn(r, p, v, exit, live);
    } else {
      LateKeepsFeedIn(r, p, v, exit, live);
    }
  }

  lemma ThreadKeepsFeedOut(r: Role, v: View, n: Module, exit: bool, live: bool)
    requires ThreadReady(r, v, exit, live) && ModuleInv(r, v.me) && !r.Final?
    requires v.next == n.box && LinkInv(v.me, n) && FeedInv(v.me, n, v.mem)
    ensures var w := ThreadMove(r, v, exit, live); FeedInv(w.me, n.(box := w.next), w.mem)
  {
  }

  lemma ActionKeepsYield(c: Config, k: nat, m: Module, mem: map<nat, Chunk>, item: Chunk, status: int)
    requires m.child.pc.Acting? && ModuleInv(RoleOf(c, k), m) && !RoleOf(c, k).Final?
    requires YieldInv(c, k, m, mem) && AnswerInv(c, k, m) && LeftInv(c, k, m)
    ensures var (m', mem') := ChildMove(c, k, m, mem, item, status);
            YieldInv(c, k, m', mem') && AnswerInv(c, k, m') && LeftInv(c, k, m')
  {
  }

  lemma SignalKeepsYield(c: Config, k: nat, m: Module, mem: map<nat, Chunk>, item: Chunk, status: int)
    requires ChildReady(m) && !m.child.pc.Acting? && ModuleInv(RoleOf(c, k), m) && !RoleOf(c, k).Final?
    requires YieldInv(c, k, m, mem) && AnswerInv(c, k, m) && LeftInv(c, k, m)
    ensures var (m', mem') := ChildMove(c, k, m, mem, item, status);
            YieldInv(c, k, m', mem') && AnswerInv(c, k, m') && LeftInv(c, k, m')
  {
  }

  lemma ChildKeepsYield(c: Config, k: nat, m: Module, mem: map<nat, Chunk>, item: Chunk, status: int)
    requires ChildReady(m) && ModuleInv(RoleOf(c, k), m) && !RoleOf(c, k).Final?
    requires YieldInv(c, k, m, mem) && AnswerInv(c, k, m) && LeftInv(c, k, m)
    ensures var (m', mem') := ChildMove(c, k, m, mem, item, status);
            YieldInv(c, k, m', mem') && AnswerInv(c, k, m') && LeftInv(c, k, m')
  {
    if m.child.pc.Acting? {
      ActionKeepsYield(c, k, m, mem, item, status);
    } else {
      SignalKeepsYield(c, k, m, mem, item, status);
    }
  }

  lemma ChildKeepsFeedIn(c: Config, k: nat, p: Module, m: Module, mem: map<nat, Chunk>, item: Chunk, status: int)
    requires ChildReady(m) && ModuleInv(RoleOf(c, k), m) && k > 0
    requires FeedInv(p, m, mem)
    requires Mailed(m) && Held(m) ==> m.box.offs != m.offs
    ensures var (m', mem') := ChildMove(c, k, m, mem, item, status); FeedInv(p, m', mem')
  {
  }

  /** A step of a module writes at most the chunk the module holds. */
  lemma ThreadWritesOwn(r: Role, v: View, exit: bool, live: bool, o: nat)
    requires ThreadReady(r, v, exit, live) && o !in Load(v.me)
    ensures Read(ThreadMove(r, v, exit, live).mem, o) == Read(v.mem, o)
  {
  }

  lemma ChildWritesOwn(c: Config, k: nat, m: Module, mem: map<nat, Chunk>, item: Chunk, status: int, o: nat)
    requires ChildReady(m) && ModuleInv(RoleOf(c, k), m) && o !in Load(m)
    ensures Read(ChildMove(c, k, m, mem, item, status).1, o) == Read(mem, o)
  {
  }

  lemma WipedReads(m: Module, mem: map<nat, Chunk>, mem': map<nat, Chunk>)
    requires forall o | o in Load(m) :: Read(mem', o) == Read(mem, o)
    ensures WipedInv(m, mem) ==> WipedInv(m, mem')
  {
    assert Held(m) ==> m.offs in Load(m);
  }

  lemma PendingReads(m: Module, mem: map<nat, Chunk>, mem': map<nat, Chunk>)
    requires forall o | o in Load(m) :: Read(mem', o) == Read(mem, o)
    ensures Pending(m, mem') == Pending(m, mem)
  {
    assert Mailed(m) ==> m.box.offs in Load(m);
    assert Fresh(m) ==> m.offs in Load(m);
  }

  lemma ReadyReads(r: Role, m: Module, mem: map<nat, Chunk>, mem': map<nat, Chunk>)
    requires forall o | o in Load(m) :: Read(mem', o) == Read(mem, o)
    ensures Ready(r, m, mem') == Ready(r, m, mem)
  {
    assert Held(m) ==> m.offs in Load(m);
  }

  // ------------------------------------------------- a step, in the system

  /** Whatever thread or child steps, the chunks of other modules keep their content. */
  lemma StepSparesOthers(c: Config, s: State, e: Event, j: nat)
    requires c.Valid() && Inv(c, s) && Enabled(c, s, e) && j < |s.mods|
    requires !(e.ThreadStep? && e.k == j) && !(e.ChildStep? && e.k == j)
    ensures forall o | o in Load(s.mods[j]) :: Read(Apply(c, s, e).mem, o) == Read(s.mem, o)
  {
    if e.ThreadStep? || e.ChildStep? {
      assert Local(c, s.mods, e.k);
      forall o | o in Load(s.mods[j]) ensures Read(Apply(c, s, e).mem, o) == Read(s.mem, o) {
        OwnedOnce(c, s, j, e.k, o);
        if e.ThreadStep? {
          ThreadWritesOwn(RoleOf(c, e.k), ViewOf(s, e.k), s.exit, s.live, o);
        } else {
          ChildWritesOwn(c, e.k, s.mods[e.k], s.mem, e.item, e.status, o);
        }
      }
    }
  }

  lemma ThreadStepKeepsContent(c: Config, s: State, k: nat)
    requires c.Valid() && Inv(c, s) && Enabled(c, s, ThreadStep(k))
    requires Content(c, s, k)
    ensures Content(c, Apply(c, s, ThreadStep(k)), k)
  {
    var r, v := RoleOf(c, k), ViewOf(s, k);
    assert Local(c, s.mods, k);
    ThreadStepModules(c, s, k);
    ThreadKeepsAnswer(c, k, v, s.exit, s.live);
    ThreadKeepsLeft(c, k, v, s.exit, s.live);
    if !r.Final? {
      ThreadKeepsYield(c, k, v, s.exit, s.live);
    }
    if k > 0 {
      HeldApart(c, s, k);
      ThreadKeepsFeedIn(r, s.mods[k - 1], v, s.exit, s.live);
    }
  }

  lemma NextYieldUnmoved(c: Config, k: nat, n: Module, box: Mailbox, mem: map<nat, Chunk>, mem': map<nat, Chunk>)
    requires forall o | o in Load(n) :: Read(mem', o) == Read(mem, o)
    ensures YieldInv(c, k, n, mem) ==> YieldInv(c, k, n.(box := box), mem')
    ensures AnswerInv(c, k, n) ==> AnswerInv(c, k, n.(box := box))
    ensures LeftInv(c, k, n) ==> LeftInv(c, k, n.(box := box))
    ensures WipedInv(n, mem) ==> WipedInv(n.(box := box), mem')
  {
    ReadyReads(RoleOf(c, k), n, mem, mem');
    WipedReads(n, mem, mem');
    assert Ready(RoleOf(c, k), n.(box := box), mem') == Ready(RoleOf(c, k), n, mem');
  }

  lemma ThreadStepKeepsNextFeed(c: Config, s: State, k: nat)
    requires Enabled(c, s, ThreadStep(k)) && k + 1 < |s.mods| == c.modules
    requires Inv(c, s) && FeedInv(s.mods[k], s.mods[k + 1], s.mem)
    ensures var t := Apply(c, s, ThreadStep(k)); FeedInv(t.mods[k], t.mods[k + 1], t.mem)
  {
    assert Local(c, s.mods, k) && Local(c, s.mods, k + 1);
    ThreadStepModules(c, s, k);
    ThreadKeepsFeedOut(RoleOf(c, k), ViewOf(s, k), s.mods[k + 1], s.exit, s.live);
  }

  lemma NextContent(c: Config, s: State, t: State, j: nat, box: Mailbox)
    requires 0 < j < |s.mods| == |t.mods| && Content(c, s, j)
    requires t.mods[j] == s.mods[j].(box := box) && FeedInv(t.mods[j - 1], t.mods[j], t.mem)
    requires forall o | o in Load(s.mods[j]) :: Read(t.mem, o) == Read(s.mem, o)
    ensures Content(c, t, j)
  {
    NextYieldUnmoved(c, j, s.mods[j], box, s.mem, t.mem);
  }

  lemma OnlyTheBox(c: Config, s: State, k: nat)
    requires Enabled(c, s, ThreadStep(k)) && k + 1 < |s.mods|
    ensures var t := Apply(c, s, ThreadStep(k));
            |t.mods| == |s.mods| && t.mods[k + 1] == s.mods[k + 1].(box := t.mods[k + 1].box)
  {
    ThreadStepModules(c, s, k);
  }

  lemma ThreadStepKeepsNextContent(c: Config, s: State, k: nat)
    requires c.Valid() && Inv(c, s) && Enabled(c, s, ThreadStep(k)) && k + 1 < |s.mods|
    requires Content(c, s, k + 1)
    ensures Content(c, Apply(c, s, ThreadStep(k)), k + 1)
  {
    var t := Apply(c, s, ThreadStep(k));
    ThreadStepKeepsNextFeed(c, s, k);
    OnlyTheBox(c, s, k);
    StepSparesOthers(c, s, ThreadStep(k), k + 1);
    NextContent(c, s, t, k + 1, t.mods[k + 1].box);
  }

  lemma ChildStepKeepsContent(c: Config, s: State, e: Event)
    requires c.Valid() && Inv(c, s) && e.ChildStep? && Enabled(c, s, e) && Content(c, s, e.k)
    ensures Content(c, Apply(c, s, e), e.k)
  {
    var k := e.k;
    assert Local(c, s.mods, k);
    ChildKeepsYield(c, k, s.mods[k], s.mem, e.item, e.status);
    assert !s.mods[k].pc.Recycle? && !Apply(c, s, e).mods[k].pc.Recycle?;
    if k > 0 {
      HeldApart(c, s, k);
      ChildKeepsFeedIn(c, k, s.mods[k - 1], s.mods[k], s.mem, e.item, e.status);
    }
  }

  lemma HeldApart(c: Config, s: State, k: nat)
    requires c.Valid() && Inv(c, s) && k < |s.mods|
    ensures Mailed(s.mods[k]) && Held(s.mods[k]) ==> s.mods[k].box.offs != s.mods[k].offs
  {
    var m := s.mods[k];
    PlacedOnce(c, s, m.offs);
    TotalCovers(Loads(s.mods), k, m.offs);
  }

  /** Module j did not step and its mailbox was not written. */
  ghost predicate Bystander(e: Event, j: nat) {
    !(e.ThreadStep? && (e.k == j || e.k + 1 == j)) && !(e.ChildStep? && e.k == j)
  }

  lemma BystanderUnmoved(c: Config, s: State, e: Event, j: nat)
    requires |s.mods| == c.modules && Enabled(c, s, e) && j < |s.mods| && Bystander(e, j)
    ensures var t := Apply(c, s, e);
            && |t.mods| == |s.mods| && t.mods[j] == s.mods[j]
            && (j > 0 ==> t.mods[j - 1].out == s.mods[j - 1].out)
  {
    if e.ThreadStep? {
      ThreadStepModules(c, s, e.k);
    } else if e.ChildStep? {
      ChildKeepsLinks(c, e.k, s.mods[e.k], s.mem, e.item, e.status);
    }
  }

  lemma SameContent(c: Config, s: State, t: State, j: nat)
    requires j < |s.mods| == |t.mods| && Content(c, s, j) && t.mods[j] == s.mods[j]
    requires j > 0 ==> t.mods[j - 1].out == s.mods[j - 1].out
    requires forall o | o in Load(s.mods[j]) :: Read(t.mem, o) == Read(s.mem, o)
    ensures Content(c, t, j)
  {
    ReadyReads(RoleOf(c, j), s.mods[j], s.mem, t.mem);
    PendingReads(s.mods[j], s.mem, t.mem);
    WipedReads(s.mods[j], s.mem, t.mem);
  }

  lemma StepKeepsOtherContent(c: Config, s: State, e: Event, j: nat)
    requires c.Valid() && Inv(c, s) && Enabled(c, s, e) && j < |s.mods| && Content(c, s, j) && Bystander(e, j)
    ensures Content(c, Apply(c, s, e), j)
  {
    StepSparesOthers(c, s, e, j);
    BystanderUnmoved(c, s, e, j);
    SameContent(c, s, Apply(c, s, e), j);
  }

  lemma StepKeepsContent(c: Config, s: State, e: Event)
    requires c.Valid() && Inv(c, s) && Enabled(c, s, e)
    requires forall j: nat | j < |s.mods| :: Content(c, s, j)
    ensures var t := Apply(c, s, e); |t.mods| == |s.mods| && forall j: nat | j < |t.mods| :: Content(c, t, j)
  {
    var t := Apply(c, s, e);
    forall j: nat | j < |t.mods| ensures Content(c, t, j) {
      assert Content(c, s, j);
      if e.ThreadStep? && e.k == j {
        ThreadStepKeepsContent(c, s, j);
      } else if e.ThreadStep? && e.k + 1 == j {
        ThreadStepKeepsNextContent(c, s, e.k);
      } else if e.ChildStep? && e.k == j {
        ChildStepKeepsContent(c, s, e);
      } else {
        StepKeepsOtherContent(c, s, e, j);
      }
    }
  }

  lemma {:induction false} RunKeepsContent(c: Config, s: State, es: seq<Event>)
    requires c.Valid() && Inv(c, s) && Legal(c, s, es)
    requires forall j: nat | j < |s.mods| :: Content(c, s, j)
    ensures var t := After(c, s, es); |t.mods| == |s.mods| && forall j: nat | j < |t.mods| :: Content(c, t, j)
    decreases |es|
  {
    if es != [] {
      StepKeeps(c, s, es[0]);
      StepKeepsContent(c, s, es[0]);
      RunKeepsContent(c, Apply(c, s, es[0]), es[1..]);
    }
  }

  lemma StartContent(c: Config, mem: map<nat, Chunk>)
    requires c.Valid()
    ensures var s := Start(c, mem); |s.mods| == c.modules && forall j: nat | j < |s.mods| :: Content(c, s, j)
  {
  }

  lemma ReachableContent(c: Config, mem: map<nat, Chunk>, es: seq<Event>)
    requires RunOf(c, mem, es)
    ensures var t := StateAfter(c, mem, es);
            |t.mods| == c.modules && forall j: nat | j < |t.mods| :: Content(c, t, j)
  {
    StartHolds(c, mem);
    StartContent(c, mem);
    RunKeepsContent(c, Start(c, mem), es);
  }
}
