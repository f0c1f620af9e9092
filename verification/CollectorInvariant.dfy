/** Where the round token is, and what that means for names and frames. */
module CollectorInvariant {
  import opened CollectorModel

  function One(b: bool): nat {
    if b then 1 else 0
  }

  // ------------------------------------------------------- the round token

  /** first_action has taken data_ready and not posted empty_ready. */
  ghost predicate ActionInside(p: ActionPc) {
    !p.Call? && !p.WaitData?
  }

  /** The collector has taken empty_ready and not posted data_ready. */
  ghost predicate CollectorInside(s: System) {
    s.collector.Copy? || s.collector.Copying? || s.collector.PostEmpty? || s.collector.Gather? ||
    (s.collector.LoopTest? && !s.exit)
  }

  ghost predicate PlaceInv(s: System) {
    var n := |s.sources|;
    && (match s.collector
        case Copy(i) => i <= n && !s.exit
        case Copying(i) => i < n && !s.exit
        case PostEmpty(i) => i < n && !s.exit
        case Gather(i) => i <= n && !s.exit
        case Scan(i) => i <= n
        case StopAll(i) => i <= n && s.exit
        case Stop(i) => i <= n && s.exit
        case FinalWait(i) => i < n && s.exit
        case WaitEmpty => !s.exit
        case CollectorDone => s.exit
        case _ => true)
    && (s.exit ==> n == 1 && s.sources[0].exit)
  }

  ghost predicate TokenInv(s: System) {
    !s.exit ==> s.dataReady + s.emptyReady + One(ActionInside(s.action)) + One(CollectorInside(s)) == 1
  }

  /** Names are generated and published in order, none twice, none left out. */
  ghost predicate NameInv(s: System) {
    var n := |s.published|;
    && (forall k | 0 <= k < n :: s.published[k] == k)
    && s.next == (if s.action.Generate? then n else n + 1)
    && (s.action.Write? || s.action.Writing? ==> s.generated == n)
    && s.name + One(s.action.Generate? || s.action.Write? || s.action.Writing?) == n
  }

  // -------------------------------------------------------- a source's token

  /** The collector has source i's data_ready and has not given it empty_ready. */
  ghost predicate Held(s: System, i: nat) {
    match s.collector
    case Copy(j) => j <= i
    case Copying(j) => j <= i
    case PostEmpty(j) => j <= i
    case LoopTest => s.exit
    case Gather(j) => i < j
    case _ => true
  }

  /** The source has taken empty_ready and not posted data_ready. */
  ghost predicate Inside(camera: bool, p: SourcePc) {
    p.Loop? || p.Judge? || p.PostData? || p.AddTest? || p.Add? || p.Count? || p.End? || (p.Finished? && camera)
  }

  /** A source that posted without waiting has exit_flag set, so it will not decide
      to add a frame any more. */
  ghost predicate SourceTokenInv(c: Config, s: System, i: nat)
    requires i < |s.sources| == |c.camera|
  {
    var x := s.sources[i];
    && (!x.quit ==> x.empty + x.ready + One(Inside(c.camera[i], x.pc)) + One(Held(s, i)) == 1)
    && (x.quit ==> x.exit && !x.pc.First? && (x.pc.Add? ==> c.camera[i]))
    && (!x.dog.Watching? ==> x.stopped && x.exit)
    && (x.pc.First? ==> x.dog.Watching?)
    && (x.pc.End? ==> x.exit && !c.camera[i])
    && (x.stopped || (x.pc.Finished? && !c.camera[i]) ==> x.exit)
  }

  /** collector->data is newer than src->data. */
  ghost predicate Stale(s: System, i: nat) {
    || s.action.PostEmptyReady? || s.emptyReady > 0
    || (s.collector.Copy? && s.collector.i <= i)
    || (s.collector.Copying? && s.collector.i <= i)
    || (s.collector.PostEmpty? && s.collector.i < i)
  }

  ghost predicate SourceNameInv(s: System, i: nat)
    requires i < |s.sources|
  {
    if s.exit then s.sources[i].obj <= s.name
    else s.sources[i].obj + One(Stale(s, i)) == s.name
  }

  // ------------------------------------------------------- counting frames

  /** n frames of one source are what an object has when the source is done with
      it.  The first two names get none. */
  ghost predicate Settled(c: Config, i: nat, exit: bool, obj: nat, n: nat)
    requires i < |c.detects|
  {
    && n <= c.limit
    && (obj <= 1 ==> n == 0)
    && (obj >= 2 && !exit && c.adds ==> n >= 1 && (!c.detects[i] ==> n == c.limit))
  }

  /** The source has been given its new name. */
  ghost predicate Renamed(s: System, i: nat)
    requires i < |s.sources|
  {
    s.sources[i].empty > 0 || s.collector == PostEmpty(i)
  }

  ghost predicate CountInv(c: Config, s: System, i: nat)
    requires c.Valid() && i < |s.sources| == |c.camera|
  {
    var x := s.sources[i];
    var n := Frames(s.store, x.obj, i);
    && n <= c.limit
    && (x.obj <= 1 ==> n == 0)
    && (x.quit && x.pc.Add? ==> x.obj >= 2 && n < c.limit)
    && (!x.quit ==>
        match x.pc
        case First => x.frames == 0 && x.obj == One(Renamed(s, i))
        case Loop => LoopCount(c, x, n)
        case Judge => LoopCount(c, x, n)
        case PostData => x.obj >= 1 && x.frames == 0 && Settled(c, i, x.exit, x.obj, n)
        case ExitTest => BoundaryCount(c, s, i, n)
        case WaitEmpty => BoundaryCount(c, s, i, n)
        case AddTest => x.obj >= 2 && x.frames < c.limit && n <= x.frames && (!x.exit && c.adds ==> n == x.frames)
        case Add => x.obj >= 2 && x.frames < c.limit && n == x.frames && c.adds
        case Count => x.obj >= 2 && x.frames < c.limit && n <= x.frames + 1 && (!x.exit && c.adds ==> n == x.frames + 1)
        case _ => true)
  }

  ghost predicate LoopCount(c: Config, x: Source, n: nat) {
    if x.obj <= 1 then x.obj == 1 && x.frames == 0
    else 1 <= x.frames <= c.limit && n <= x.frames && (!x.exit && c.adds ==> n == x.frames)
  }

  ghost predicate BoundaryCount(c: Config, s: System, i: nat, n: nat)
    requires c.Valid() && i < |s.sources| == |c.camera|
  {
    var x := s.sources[i];
    && x.frames == 0
    && (if Renamed(s, i) then x.obj >= 2 && n == 0 else x.obj >= 1 && Settled(c, i, x.exit, x.obj, n))
  }

  /** Published objects are settled, and names not given to the source have no frame. */
  ghost predicate PastInv(c: Config, s: System, i: nat)
    requires c.Valid() && i < |s.sources| == |c.camera|
  {
    && (forall p: nat | p < |s.published| :: Settled(c, i, s.sources[i].exit, p, Frames(s.store, p, i)))
    && (forall p: nat | p > s.sources[i].obj :: Frames(s.store, p, i) == 0)
  }

  ghost predicate SourceInv(c: Config, s: System, i: nat)
    requires c.Valid() && i < |s.sources| == |c.camera|
  {
    SourceTokenInv(c, s, i) && SourceNameInv(s, i) && CountInv(c, s, i) && PastInv(c, s, i)
  }

  ghost predicate Inv(c: Config, s: System) {
    && c.Valid() && |s.sources| == |c.camera|
    && PlaceInv(s) && TokenInv(s) && NameInv(s)
    && forall i: nat | i < |s.sources| :: SourceInv(c, s, i)
  }

  // ------------------------------------------------------------- the steps

  lemma StartHolds(c: Config)
    requires c.Valid()
    ensures Inv(c, Start(c))
  {
  }

  lemma FramesOfOthers(store: seq<Stored>, added: Stored, obj: nat, i: nat)
    ensures Frames(store + [added], obj, i)
         == Frames(store, obj, i) + One(added.obj == obj && added.source == i)
  {
    assert (store + [added])[..|store|] == store;
  }

  lemma SourceStepToken(c: Config, s: System, e: Event)
    requires c.Valid() && |s.sources| == |c.camera| && e.SourceStep? && Enabled(c, s, e)
    requires SourceTokenInv(c, s, e.i)
    ensures SourceTokenInv(c, Apply(c, s, e), e.i)
  {
  }

  lemma AddCount(c: Config, s: System, e: Event)
    requires c.Valid() && |s.sources| == |c.camera| && e.SourceStep? && Enabled(c, s, e)
    requires SourceTokenInv(c, s, e.i) && CountInv(c, s, e.i) && s.sources[e.i].pc.Add?
    ensures CountInv(c, Apply(c, s, e), e.i)
  {
    FramesOfOthers(s.store, Stored(s.sources[e.i].obj, e.i, e.frame), s.sources[e.i].obj, e.i);
  }

  lemma LimitReached(frames: nat, limit: nat)
    requires frames <= limit && 0 < limit
    ensures frames % limit == 0 <==> frames == 0 || frames == limit
  {
  }

  lemma JudgeCount(c: Config, s: System, e: Event)
    requires c.Valid() && |s.sources| == |c.camera| && e.SourceStep? && Enabled(c, s, e)
    requires SourceTokenInv(c, s, e.i) && CountInv(c, s, e.i) && s.sources[e.i].pc.Judge?
    ensures CountInv(c, Apply(c, s, e), e.i)
  {
    assert s.store + [] == s.store;
    if !s.sources[e.i].quit {
      LimitReached(s.sources[e.i].frames, c.limit);
    }
  }

  /** Positions from the head of the loop to the post of data_ready. */
  ghost predicate Heading(p: SourcePc) {
    p.First? || p.Loop? || p.PostData? || p.Count? || p.End?
  }

  lemma HeadingCount(c: Config, s: System, e: Event)
    requires c.Valid() && |s.sources| == |c.camera| && e.SourceStep? && Enabled(c, s, e)
    requires SourceTokenInv(c, s, e.i) && CountInv(c, s, e.i) && Heading(s.sources[e.i].pc)
    ensures CountInv(c, Apply(c, s, e), e.i)
  {
    assert Apply(c, s, e).store == s.store;
  }

  lemma WaitingCount(c: Config, s: System, e: Event)
    requires c.Valid() && |s.sources| == |c.camera| && e.SourceStep? && Enabled(c, s, e)
    requires SourceTokenInv(c, s, e.i) && CountInv(c, s, e.i)
    requires var p := s.sources[e.i].pc; p.ExitTest? || p.WaitEmpty? || p.AddTest?
    ensures CountInv(c, Apply(c, s, e), e.i)
  {
    assert Apply(c, s, e).store == s.store;
  }

  lemma SourceStepCount(c: Config, s: System, e: Event)
    requires c.Valid() && |s.sources| == |c.camera| && e.SourceStep? && Enabled(c, s, e)
    requires SourceTokenInv(c, s, e.i) && CountInv(c, s, e.i)
    ensures CountInv(c, Apply(c, s, e), e.i)
  {
    var p := s.sources[e.i].pc;
    if p.Add? {
      AddCount(c, s, e);
    } else if p.Judge? {
      JudgeCount(c, s, e);
    } else if Heading(p) {
      HeadingCount(c, s, e);
    } else {
      WaitingCount(c, s, e);
    }
  }

  /** A source that has the token adds its frame to the object that will be published
      next. */
  lemma AddsToCurrent(c: Config, s: System, i: nat)
    requires i < |s.sources| == |c.camera| && s.sources[i].pc.Add? && !s.sources[i].quit
    requires PlaceInv(s) && TokenInv(s) && NameInv(s) && SourceTokenInv(c, s, i) && SourceNameInv(s, i)
    ensures s.sources[i].obj == s.name == |s.published| && !ActionInside(s.action)
  {
  }

  lemma AddPast(c: Config, s: System, e: Event, j: nat)
    requires c.Valid() && |s.sources| == |c.camera| && j < |s.sources| && e.SourceStep? && Enabled(c, s, e)
    requires s.sources[e.i].pc.Add? && PastInv(c, s, j)
    requires CountInv(c, s, e.i) && SourceTokenInv(c, s, e.i)
    requires s.sources[e.i].quit || s.sources[e.i].obj == |s.published|
    ensures PastInv(c, Apply(c, s, e), j)
  {
    var t, current := Apply(c, s, e), s.sources[e.i].obj;
    forall p: nat ensures Frames(t.store, p, j) == Frames(s.store, p, j) + One(current == p && e.i == j) {
      FramesOfOthers(s.store, Stored(current, e.i, e.frame), p, j);
    }
  }

  lemma SourceStepPast(c: Config, s: System, e: Event, j: nat)
    requires c.Valid() && |s.sources| == |c.camera| && j < |s.sources| && e.SourceStep? && Enabled(c, s, e)
    requires PlaceInv(s) && TokenInv(s) && NameInv(s) && SourceTokenInv(c, s, e.i) && SourceNameInv(s, e.i)
    requires CountInv(c, s, e.i) && PastInv(c, s, j)
    ensures PastInv(c, Apply(c, s, e), j)
  {
    if s.sources[e.i].pc.Add? {
      if !s.sources[e.i].quit {
        AddsToCurrent(c, s, e.i);
      }
      AddPast(c, s, e, j);
    } else {
      assert Apply(c, s, e).store == s.store;
    }
  }

  lemma SourceStepOther(c: Config, s: System, e: Event, j: nat)
    requires c.Valid() && |s.sources| == |c.camera| && e.SourceStep? && Enabled(c, s, e)
    requires j < |s.sources| && j != e.i && SourceTokenInv(c, s, j) && CountInv(c, s, j)
    ensures SourceTokenInv(c, Apply(c, s, e), j) && CountInv(c, Apply(c, s, e), j)
  {
    FramesOfOthers(s.store, Stored(s.sources[e.i].obj, e.i, e.frame), s.sources[j].obj, j);
    assert s.store + [] == s.store;
  }

  lemma SourceStepKeeps(c: Config, s: System, e: Event, j: nat)
    requires Inv(c, s) && e.SourceStep? && Enabled(c, s, e) && j < |s.sources|
    ensures SourceInv(c, Apply(c, s, e), j)
  {
    assert SourceInv(c, s, e.i) && SourceInv(c, s, j);
    SourceStepPast(c, s, e, j);
    if j == e.i {
      SourceStepToken(c, s, e);
      SourceStepCount(c, s, e);
    } else {
      SourceStepOther(c, s, e, j);
    }
  }

  lemma SameSource(c: Config, s: System, t: System, j: nat)
    requires c.Valid() && |s.sources| == |t.sources| == |c.camera| && j < |s.sources| && SourceInv(c, s, j)
    requires t == s.(sources := t.sources) && t.sources[j] == s.sources[j]
    ensures SourceInv(c, t, j)
  {
  }

  /** A source that stays with its object, and has been told to exit if it was before. */
  lemma SameObject(c: Config, s: System, t: System, j: nat)
    requires c.Valid() && |s.sources| == |t.sources| == |c.camera| && j < |s.sources|
    requires SourceNameInv(s, j) && PastInv(c, s, j)
    requires t == s.(sources := t.sources) && t.sources[j].obj == s.sources[j].obj
    requires s.sources[j].exit ==> t.sources[j].exit
    ensures SourceNameInv(t, j) && PastInv(c, t, j)
  {
  }

  /** A step of a source's watchdog, its failed read or its exit flag. */
  ghost predicate Aside(e: Event) {
    e.DogStep? || e.ReadFails? || e.RaiseExit?
  }

  lemma AsideToken(c: Config, s: System, e: Event)
    requires c.Valid() && |s.sources| == |c.camera|
    requires Aside(e) && Enabled(c, s, e) && SourceTokenInv(c, s, e.i)
    ensures SourceTokenInv(c, Apply(c, s, e), e.i)
  {
  }

  lemma AsideCount(c: Config, s: System, e: Event)
    requires c.Valid() && |s.sources| == |c.camera|
    requires Aside(e) && Enabled(c, s, e) && SourceTokenInv(c, s, e.i) && CountInv(c, s, e.i)
    ensures CountInv(c, Apply(c, s, e), e.i)
  {
  }

  lemma AsideKeeps(c: Config, s: System, e: Event, j: nat)
    requires c.Valid() && |s.sources| == |c.camera| && j < |s.sources|
    requires Aside(e) && Enabled(c, s, e) && SourceInv(c, s, j)
    ensures SourceInv(c, Apply(c, s, e), j)
  {
    if j == e.i {
      AsideToken(c, s, e);
      AsideCount(c, s, e);
      SameObject(c, s, Apply(c, s, e), j);
    } else {
      SameSource(c, s, Apply(c, s, e), j);
    }
  }

  lemma CollectorStepToken(c: Config, s: System, j: nat)
    requires c.Valid() && |s.sources| == |c.camera| && j < |s.sources| && CollectorReady(s)
    requires PlaceInv(s) && SourceTokenInv(c, s, j)
    ensures SourceTokenInv(c, CollectorMove(s), j)
  {
  }

  lemma CollectorStepName(s: System, j: nat)
    requires j < |s.sources| && CollectorReady(s)
    requires PlaceInv(s) && TokenInv(s) && SourceNameInv(s, j)
    ensures SourceNameInv(CollectorMove(s), j)
  {
  }

  /** Renaming: the new object has no frame of the source. */
  lemma CopyCount(c: Config, s: System, j: nat)
    requires c.Valid() && |s.sources| == |c.camera| && j < |s.sources| && s.collector == Copying(j)
    requires PlaceInv(s) && SourceInv(c, s, j)
    ensures CountInv(c, CollectorMove(s), j)
  {
    assert Frames(s.store, s.name, j) == 0;
  }

  lemma GrantCount(c: Config, s: System, j: nat)
    requires c.Valid() && |s.sources| == |c.camera| && j < |s.sources| && s.collector == PostEmpty(j)
    requires PlaceInv(s) && SourceInv(c, s, j)
    ensures CountInv(c, CollectorMove(s), j)
  {
  }

  lemma CollectorSpares(s: System, j: nat)
    requires j < |s.sources| && CollectorReady(s) && s.collector != Copying(j) && s.collector != PostEmpty(j)
    ensures var t, x := CollectorMove(s), s.sources[j];
            && |t.sources| == |s.sources| && t.store == s.store
            && (var y := t.sources[j]; y == x.(exit := y.exit, ready := y.ready) && (x.exit ==> y.exit))
            && t.collector != PostEmpty(j)
  {
  }

  lemma RestCount(c: Config, s: System, t: System, j: nat)
    requires c.Valid() && |s.sources| == |t.sources| == |c.camera| && j < |s.sources| && CountInv(c, s, j)
    requires s.collector != PostEmpty(j) && t.collector != PostEmpty(j) && t.store == s.store
    requires var x, y := s.sources[j], t.sources[j]; y == x.(exit := y.exit, ready := y.ready) && (x.exit ==> y.exit)
    ensures CountInv(c, t, j)
  {
  }

  lemma CollectorStepCount(c: Config, s: System, j: nat)
    requires c.Valid() && |s.sources| == |c.camera| && j < |s.sources| && CollectorReady(s)
    requires PlaceInv(s) && TokenInv(s) && SourceInv(c, s, j)
    ensures CountInv(c, CollectorMove(s), j)
  {
    if s.collector == Copying(j) {
      CopyCount(c, s, j);
    } else if s.collector == PostEmpty(j) {
      GrantCount(c, s, j);
    } else {
      CollectorSpares(s, j);
      RestCount(c, s, CollectorMove(s), j);
    }
  }

  lemma CollectorStepKeeps(c: Config, s: System, j: nat)
    requires c.Valid() && |s.sources| == |c.camera| && j < |s.sources| && CollectorReady(s)
    requires PlaceInv(s) && TokenInv(s) && SourceInv(c, s, j)
    ensures SourceInv(c, CollectorMove(s), j)
  {
    CollectorStepToken(c, s, j);
    CollectorStepName(s, j);
    CollectorStepCount(c, s, j);
  }

  /** When first_action takes a name, every source is done with that object. */
  lemma TakenIsSettled(c: Config, s: System, j: nat)
    requires c.Valid() && |s.sources| == |c.camera| && j < |s.sources| && s.action.Take?
    requires PlaceInv(s) && TokenInv(s) && NameInv(s) && SourceInv(c, s, j)
    ensures Settled(c, j, s.sources[j].exit, s.name, Frames(s.store, s.name, j))
    ensures Inside(c.camera[j], s.sources[j].pc) ==> s.sources[j].quit
  {
  }

  lemma ActionStepPast(c: Config, s: System, j: nat)
    requires c.Valid() && |s.sources| == |c.camera| && j < |s.sources| && ActionReady(s)
    requires PlaceInv(s) && TokenInv(s) && NameInv(s) && SourceInv(c, s, j)
    ensures PastInv(c, ActionMove(s), j)
  {
    if s.action.Take? {
      TakenIsSettled(c, s, j);
    }
  }

  lemma ActionStepSource(c: Config, s: System, j: nat)
    requires c.Valid() && |s.sources| == |c.camera| && j < |s.sources| && ActionReady(s)
    requires SourceTokenInv(c, s, j) && CountInv(c, s, j)
    ensures SourceTokenInv(c, ActionMove(s), j) && CountInv(c, ActionMove(s), j)
  {
  }

  lemma ActionStepName(s: System, j: nat)
    requires j < |s.sources| && ActionReady(s)
    requires PlaceInv(s) && TokenInv(s) && NameInv(s) && SourceNameInv(s, j)
    ensures SourceNameInv(ActionMove(s), j)
  {
  }

  lemma ActionStepKeeps(c: Config, s: System, j: nat)
    requires c.Valid() && |s.sources| == |c.camera| && j < |s.sources| && ActionReady(s)
    requires PlaceInv(s) && TokenInv(s) && NameInv(s) && SourceInv(c, s, j)
    ensures SourceInv(c, ActionMove(s), j)
  {
    ActionStepSource(c, s, j);
    ActionStepName(s, j);
    ActionStepPast(c, s, j);
  }

  lemma StepKeepsToken(c: Config, s: System, e: Event)
    requires c.Valid() && |s.sources| == |c.camera| && Enabled(c, s, e)
    requires PlaceInv(s) && TokenInv(s)
    ensures var t := Apply(c, s, e); |t.sources| == |c.camera| && PlaceInv(t) && TokenInv(t)
  {
  }

  lemma StepKeepsName(c: Config, s: System, e: Event)
    requires c.Valid() && |s.sources| == |c.camera| && Enabled(c, s, e) && NameInv(s)
    ensures NameInv(Apply(c, s, e))
  {
  }

  lemma StepKeepsShared(c: Config, s: System, e: Event)
    requires c.Valid() && |s.sources| == |c.camera| && Enabled(c, s, e)
    requires PlaceInv(s) && TokenInv(s) && NameInv(s)
    ensures var t := Apply(c, s, e); |t.sources| == |c.camera| && PlaceInv(t) && TokenInv(t) && NameInv(t)
  {
    StepKeepsToken(c, s, e);
    StepKeepsName(c, s, e);
  }

  lemma StepKeeps(c: Config, s: System, e: Event)
    requires Inv(c, s) && Enabled(c, s, e)
    ensures Inv(c, Apply(c, s, e))
  {
    StepKeepsShared(c, s, e);
    forall j: nat | j < |s.sources| ensures SourceInv(c, Apply(c, s, e), j) {
      assert SourceInv(c, s, j);
      match e
      case SourceStep(_, _, _) => SourceStepKeeps(c, s, e, j);
      case CollectorStep => CollectorStepKeeps(c, s, j);
      case ActionStep => ActionStepKeeps(c, s, j);
      case _ => AsideKeeps(c, s, e, j);
    }
  }

  lemma {:induction false} RunKeeps(c: Config, s: System, es: seq<Event>)
    requires Inv(c, s) && Legal(c, s, es)
    ensures Inv(c, After(c, s, es))
    decreases |es|
  {
    if es != [] {
      StepKeeps(c, s, es[0]);
      RunKeeps(c, Apply(c, s, es[0]), es[1..]);
    }
  }

  lemma Reachable(c: Config, es: seq<Event>)
    requires c.Valid() && Legal(c, Start(c), es)
    ensures Inv(c, After(c, Start(c), es))
  {
    StartHolds(c);
    RunKeeps(c, Start(c), es);
  }

  // ------------------------------------------------------- careful watchdogs

  /** No source that has given up its token is about to add a frame. */
  ghost predicate NoLateFrame(s: System) {
    forall i | 0 <= i < |s.sources| :: s.sources[i].pc.Add? ==> !s.sources[i].quit
  }

  lemma CarefulStep(c: Config, s: System, e: Event)
    requires Inv(c, s) && NoLateFrame(s) && Enabled(c, s, e) && !Hasty(s, e)
    ensures NoLateFrame(Apply(c, s, e))
  {
    if e.SourceStep? {
      assert SourceInv(c, s, e.i);
    }
  }

  lemma {:induction false} CarefulRun(c: Config, s: System, es: seq<Event>)
    requires Inv(c, s) && NoLateFrame(s) && Careful(c, s, es)
    ensures Legal(c, s, es) && Inv(c, After(c, s, es)) && NoLateFrame(After(c, s, es))
    decreases |es|
  {
    if es != [] {
      StepKeeps(c, s, es[0]);
      CarefulStep(c, s, es[0]);
      CarefulRun(c, Apply(c, s, es[0]), es[1..]);
    }
  }
}
