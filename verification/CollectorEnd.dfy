/** When the collector thread ends. */
module CollectorEnd {
  import opened CollectorModel
  import opened CollectorInvariant
  import opened CollectorRuns

  // ------------------------------------------------------------ all runs

  /** The collector gets its last post only from a source that has posted without
      its token. */
  ghost predicate LastInv(s: System) {
    s.collector.CollectorDone? || (s.collector.Stop? && s.collector.i > 0) ==> |s.sources| == 1 && s.sources[0].quit
  }

  lemma StepKeepsLast(c: Config, s: System, e: Event)
    requires Inv(c, s) && LastInv(s) && Enabled(c, s, e)
    ensures LastInv(Apply(c, s, e))
  {
    if |s.sources| == 1 {
      assert SourceInv(c, s, 0);
    }
  }

  lemma {:induction false} RunKeepsLast(c: Config, s: System, es: seq<Event>)
    requires Inv(c, s) && LastInv(s) && Legal(c, s, es)
    ensures LastInv(After(c, s, es))
    decreases |es|
  {
    if es != [] {
      StepKeeps(c, s, es[0]);
      StepKeepsLast(c, s, es[0]);
      RunKeepsLast(c, Apply(c, s, es[0]), es[1..]);
    }
  }

  /** Whatever flags are raised: the collector thread ends only if it has exactly one
      source, and only after that source has posted data_ready without its token. */
  lemma EndsOnlyAfterQuit(c: Config, es: seq<Event>)
    requires c.Valid() && Legal(c, Start(c), es)
    ensures var s := After(c, Start(c), es);
            s.collector.CollectorDone? ==> |c.camera| == |s.sources| == 1 && s.sources[0].quit
  {
    Reachable(c, es);
    RunKeepsLast(c, Start(c), es);
  }

  /** When the collector has ended, a call of first_action that waits will be served. */
  ghost predicate LastServed(s: System) {
    s.collector.CollectorDone? && s.action.WaitData? ==> s.dataReady > 0
  }

  lemma StepKeepsServed(c: Config, s: System, e: Event)
    requires Inv(c, s) && LastServed(s) && Enabled(c, s, e)
    ensures LastServed(Apply(c, s, e))
  {
  }

  lemma {:induction false} RunKeepsServed(c: Config, s: System, es: seq<Event>)
    requires Inv(c, s) && LastServed(s) && Legal(c, s, es)
    ensures LastServed(After(c, s, es))
    decreases |es|
  {
    if es != [] {
      StepKeeps(c, s, es[0]);
      StepKeepsServed(c, s, es[0]);
      RunKeepsServed(c, Apply(c, s, es[0]), es[1..]);
    }
  }

  lemma ReachableServed(c: Config, es: seq<Event>)
    requires c.Valid() && Legal(c, Start(c), es)
    ensures LastServed(After(c, Start(c), es))
  {
    StartHolds(c);
    RunKeepsServed(c, Start(c), es);
  }

  // ------------------------------------------- flags raised by failed reads

  /** A source that has been told to exit leaves its loop at once and keeps to its
      token. */
  ghost predicate LeavesAtOnce(camera: bool, x: Source) {
    && !x.quit
    && (camera ==> !x.exit && !x.stopped && x.dog.Watching?)
    && (x.exit ==> x.pc.Loop? || x.pc.End? || x.pc.Finished?)
  }

  ghost predicate AllLeave(c: Config, s: System) {
    |s.sources| == |c.camera| && forall i | 0 <= i < |s.sources| :: LeavesAtOnce(c.camera[i], s.sources[i])
  }

  lemma StepLeavesAtOnce(c: Config, s: System, e: Event, i: nat)
    requires Inv(c, s) && Enabled(c, s, e) && Own(e) && i < |s.sources|
    requires LeavesAtOnce(c.camera[i], s.sources[i])
    ensures LeavesAtOnce(c.camera[i], Apply(c, s, e).sources[i])
  {
  }

  lemma StepAllLeave(c: Config, s: System, e: Event)
    requires Inv(c, s) && Enabled(c, s, e) && Own(e) && AllLeave(c, s)
    ensures AllLeave(c, Apply(c, s, e))
  {
    var t := Apply(c, s, e);
    StepKeeps(c, s, e);
    forall i | 0 <= i < |t.sources| ensures LeavesAtOnce(c.camera[i], t.sources[i]) {
      StepLeavesAtOnce(c, s, e, i);
    }
  }

  lemma {:induction false} OwnRunLeaves(c: Config, s: System, es: seq<Event>)
    requires Inv(c, s) && AllLeave(c, s) && Legal(c, s, es) && OwnRun(es)
    ensures Inv(c, After(c, s, es)) && AllLeave(c, After(c, s, es))
    decreases |es|
  {
    if es != [] {
      StepKeeps(c, s, es[0]);
      StepAllLeave(c, s, es[0]);
      OwnRunLeaves(c, Apply(c, s, es[0]), es[1..]);
    }
  }

  lemma StartLeaves(c: Config)
    requires c.Valid()
    ensures AllLeave(c, Start(c))
  {
  }

  lemma OwnRunFromStart(c: Config, es: seq<Event>)
    requires c.Valid() && Legal(c, Start(c), es) && OwnRun(es)
    ensures Inv(c, After(c, Start(c), es)) && AllLeave(c, After(c, Start(c), es))
  {
    StartHolds(c);
    StartLeaves(c);
    OwnRunLeaves(c, Start(c), es);
  }

  /** As long as flags are raised only by failed reads, the collector thread never
      ends, whatever the number and kinds of its sources. */
  lemma NeverEndsByItself(c: Config, t: System)
    requires c.Valid() && Arrives(c, Start(c), t)
    ensures !t.collector.CollectorDone?
  {
    var es :| Legal(c, Start(c), es) && OwnRun(es) && After(c, Start(c), es) == t;
    OwnRunFromStart(c, es);
    EndsOnlyAfterQuit(c, es);
  }

  // ------------------------------------------- once the collector has decided

  /** The collector's exit flag is set and it has not had its last post. */
  ghost predicate AwaitsPost(s: System) {
    s.exit && |s.sources| == 1 && !s.collector.CollectorDone? && (s.collector.Stop? ==> s.collector.i == 0)
  }

  /** Source 0 has posted or will: its watchdog has not posted yet, or its receiving
      thread is at a boundary; a TCP source posts when it leaves its loop, unless it
      waits for empty_ready. */
  predicate WillPost(c: Config, x: Source)
    requires c.Valid() && |c.camera| == 1
  {
    x.ready > 0 ||
    if c.camera[0] then !x.dog.Gone? || x.pc.PostData? || (x.pc.Judge? && x.frames % c.limit == 0)
    else !x.pc.Finished? && !(x.pc.WaitEmpty? && x.empty == 0)
  }

  /** The watchdog has posted, and it depends on the detection callback whether the
      frame that is looked at begins an object. */
  predicate MayPost(c: Config, x: Source)
    requires c.Valid() && |c.camera| == 1
  {
    c.camera[0] && c.detects[0] && x.pc.Judge?
  }

  /** The collector looks at the exit flag of its only source after it has had a post,
      so not before that source's first empty_ready. */
  ghost predicate Begun(s: System) {
    |s.sources| == 1 && s.sources[0].pc.First? ==>
      s.sources[0].ready == 0 && !s.exit && !s.collector.Scan? && (s.collector.Gather? ==> s.collector.i == 0)
  }

  lemma StepKeepsBegun(c: Config, s: System, e: Event)
    requires Inv(c, s) && Begun(s) && Enabled(c, s, e)
    ensures Begun(Apply(c, s, e))
  {
  }

  lemma {:induction false} RunKeepsBegun(c: Config, s: System, es: seq<Event>)
    requires Inv(c, s) && Begun(s) && Legal(c, s, es)
    ensures Inv(c, After(c, s, es)) && Begun(After(c, s, es))
    decreases |es|
  {
    if es != [] {
      StepKeeps(c, s, es[0]);
      StepKeepsBegun(c, s, es[0]);
      RunKeepsBegun(c, Apply(c, s, es[0]), es[1..]);
    }
  }

  lemma ReachableBegun(c: Config, es: seq<Event>)
    requires c.Valid() && Legal(c, Start(c), es)
    ensures Inv(c, After(c, Start(c), es)) && Begun(After(c, Start(c), es))
  {
    StartHolds(c);
    RunKeepsBegun(c, Start(c), es);
  }

  ghost predicate CanEnd(c: Config, s: System)
    requires c.Valid()
  {
    exists t :: Reaches(c, s, t) && t.collector.CollectorDone?
  }

  /** Whatever is done next, the collector thread can still end. */
  ghost predicate SureToEnd(c: Config, s: System)
    requires c.Valid()
  {
    forall fs :: Legal(c, s, fs) ==> CanEnd(c, After(c, s, fs))
  }

  /** What every step keeps once the exit flag of the collector is set. */
  ghost predicate Fated(c: Config, s: System) {
    Inv(c, s) && Begun(s) && s.exit && (AwaitsPost(s) ==> WillPost(c, s.sources[0]))
  }

  lemma StepKeepsFate(c: Config, s: System, e: Event)
    requires Fated(c, s) && Enabled(c, s, e)
    ensures Fated(c, Apply(c, s, e))
  {
    StepKeeps(c, s, e);
    StepKeepsBegun(c, s, e);
    assert SourceInv(c, s, 0);
  }

  function CollectorRank(p: CollectorPc): nat {
    match p
    case Scan(i) => if i == 0 then 10 else 9
    case Again => 8
    case StopAll(i) => if i == 0 then 7 else 6
    case LoopTest => 5
    case Stop(i) => if i == 0 then 4 else 1
    case FinalWait(_) => 3
    case _ => 0
  }

  /** How far the source is from its next post. */
  function PostRank(camera: bool, x: Source): nat {
    if x.ready > 0 then 0
    else if camera && !x.dog.Gone? then
      match x.dog
      case Watching => 9
      case Closing => 8
      case _ => 7
    else
      match x.pc
      case Judge => 6
      case PostData => 1
      case ExitTest => 5
      case WaitEmpty => 5
      case AddTest => 4
      case Add => 4
      case Count => 3
      case Loop => 2
      case _ => 1
  }

  /** The step that brings the collector thread nearer to its end. */
  function Nearer(c: Config, s: System): Event
    requires |c.camera| == |s.sources| == 1
  {
    if CollectorReady(s) then CollectorStep
    else if c.camera[0] && !s.sources[0].dog.Gone? then DogStep(0)
    else SourceStep(0, false, 0)
  }

  lemma NearerIsEnabled(c: Config, s: System)
    requires Fated(c, s) && !s.collector.CollectorDone?
    ensures |c.camera| == |s.sources| == 1 && Enabled(c, s, Nearer(c, s))
  {
    assert SourceInv(c, s, 0);
  }

  lemma CollectorNearer(c: Config, s: System)
    requires Fated(c, s) && !s.collector.CollectorDone? && CollectorReady(s)
    ensures CollectorRank(CollectorMove(s).collector) < CollectorRank(s.collector)
  {
  }

  lemma SourceNearer(c: Config, s: System)
    requires Fated(c, s) && !s.collector.CollectorDone? && !CollectorReady(s)
    ensures |c.camera| == |s.sources| == 1 && Enabled(c, s, Nearer(c, s))
    ensures var t := Apply(c, s, Nearer(c, s));
            && |t.sources| == 1 && t.collector == s.collector
            && PostRank(c.camera[0], t.sources[0]) < PostRank(c.camera[0], s.sources[0])
  {
    NearerIsEnabled(c, s);
    assert SourceInv(c, s, 0);
  }

  lemma {:induction false} Ending(c: Config, s: System) returns (t: System)
    requires Fated(c, s) && |c.camera| == |s.sources| == 1
    ensures Reaches(c, s, t) && t.collector.CollectorDone?
    decreases CollectorRank(s.collector), PostRank(c.camera[0], s.sources[0])
  {
    Here(c, s);
    if s.collector.CollectorDone? {
      t := s;
    } else {
      NearerIsEnabled(c, s);
      var e := Nearer(c, s);
      var u := Apply(c, s, e);
      Then(c, s, s, e);
      StepKeepsFate(c, s, e);
      if CollectorReady(s) {
        CollectorNearer(c, s);
      } else {
        SourceNearer(c, s);
      }
      t := Ending(c, u);
      Onward(c, s, u, t);
    }
  }

  lemma {:induction false} FatedEnds(c: Config, s: System, fs: seq<Event>)
    requires Fated(c, s) && Legal(c, s, fs)
    ensures CanEnd(c, After(c, s, fs))
    decreases |fs|
  {
    if fs == [] {
      var t := Ending(c, s);
    } else {
      StepKeepsFate(c, s, fs[0]);
      FatedEnds(c, Apply(c, s, fs[0]), fs[1..]);
    }
  }

  /** The collector waits, or will wait, for a post that does not come. */
  ghost predicate Stranded(c: Config, s: System) {
    && Inv(c, s) && Begun(s) && AwaitsPost(s)
    && !WillPost(c, s.sources[0]) && !MayPost(c, s.sources[0])
  }

  lemma StepKeepsStranded(c: Config, s: System, e: Event)
    requires Stranded(c, s) && Enabled(c, s, e)
    ensures Stranded(c, Apply(c, s, e))
  {
    StepKeeps(c, s, e);
    StepKeepsBegun(c, s, e);
    assert SourceInv(c, s, 0);
  }

  lemma {:induction false} StrandedForEver(c: Config, s: System, fs: seq<Event>)
    requires Stranded(c, s) && Legal(c, s, fs)
    ensures Stranded(c, After(c, s, fs))
    decreases |fs|
  {
    if fs != [] {
      StepKeepsStranded(c, s, fs[0]);
      StrandedForEver(c, Apply(c, s, fs[0]), fs[1..]);
    }
  }

  lemma StrandedCannotEnd(c: Config, s: System)
    requires Stranded(c, s)
    ensures !CanEnd(c, s)
  {
    if CanEnd(c, s) {
      var t :| Reaches(c, s, t) && t.collector.CollectorDone?;
      var fs :| Legal(c, s, fs) && After(c, s, fs) == t;
      StrandedForEver(c, s, fs);
    }
  }

  /** What the detection callback says decides. */
  lemma CallbackDecides(c: Config, s: System) returns (t: System, u: System)
    requires Inv(c, s) && Begun(s) && AwaitsPost(s)
    requires !WillPost(c, s.sources[0]) && MayPost(c, s.sources[0])
    ensures Reaches(c, s, t) && Fated(c, t)
    ensures Reaches(c, s, u) && Stranded(c, u)
  {
    var e, f := SourceStep(0, true, 0), SourceStep(0, false, 0);
    Here(c, s);
    Then(c, s, s, e);
    Then(c, s, s, f);
    t, u := Apply(c, s, e), Apply(c, s, f);
    StepKeeps(c, s, e);
    StepKeeps(c, s, f);
  }

  lemma FatedIsSure(c: Config, s: System)
    requires Fated(c, s)
    ensures SureToEnd(c, s) && CanEnd(c, s)
  {
    forall fs | Legal(c, s, fs) ensures CanEnd(c, After(c, s, fs)) {
      FatedEnds(c, s, fs);
    }
    FatedEnds(c, s, []);
  }

  lemma StrandedIsUnsure(c: Config, s: System, u: System)
    requires c.Valid() && Reaches(c, s, u) && Stranded(c, u)
    ensures !SureToEnd(c, s)
  {
    var fs :| Legal(c, s, fs) && After(c, s, fs) == u;
    StrandedCannotEnd(c, u);
  }

  /** In every reachable state in which the collector's exit flag is set: the thread
      is sure to end if and only if it has had its last post or its source will post;
      it can end if and only if, besides, the source may post. */
  lemma EndsIffPosted(c: Config, es: seq<Event>)
    requires c.Valid() && Legal(c, Start(c), es) && After(c, Start(c), es).exit
    ensures var s := After(c, Start(c), es);
            && |c.camera| == |s.sources| == 1
            && var x := s.sources[0];
               && (SureToEnd(c, s) <==> !AwaitsPost(s) || WillPost(c, x))
               && (CanEnd(c, s) <==> !AwaitsPost(s) || WillPost(c, x) || MayPost(c, x))
  {
    var s := After(c, Start(c), es);
    ReachableBegun(c, es);
    var x := s.sources[0];
    if !AwaitsPost(s) || WillPost(c, x) {
      FatedIsSure(c, s);
    } else if MayPost(c, x) {
      var t, u := CallbackDecides(c, s);
      var v := Ending(c, t);
      Onward(c, s, t, v);
      StrandedIsUnsure(c, s, u);
    } else {
      StrandedCannotEnd(c, s);
      Here(c, s);
      StrandedIsUnsure(c, s, s);
    }
  }

  // ------------------------------------------------------------- witnesses

  /** The collector has had a post of its only source and finds its exit flag set. */
  lemma ExitSeen(c: Config, s: System) returns (t: System)
    requires c.Valid() && |s.sources| == |c.camera| == 1 && s.collector == Scan(0) && s.sources[0].exit
    ensures Arrives(c, s, t) && t == s.(collector := Scan(1), exit := true)
  {
    Here(c, s);
    OwnThen(c, s, s, CollectorStep);
    t := Apply(c, s, CollectorStep);
  }

  /** Then it comes to wait for the last post. */
  lemma LastWait(c: Config, s: System) returns (t: System)
    requires c.Valid() && |s.sources| == |c.camera| == 1 && s.collector == Scan(1) && s.exit && s.sources[0].exit
    ensures Arrives(c, s, t) && t == s.(collector := FinalWait(0))
  {
    Here(c, s);
    t := s;
    OwnThen(c, s, t, CollectorStep); t := Apply(c, t, CollectorStep);
    OwnThen(c, s, t, CollectorStep); t := Apply(c, t, CollectorStep);
    OwnThen(c, s, t, CollectorStep); t := Apply(c, t, CollectorStep);
    OwnThen(c, s, t, CollectorStep); t := Apply(c, t, CollectorStep);
    OwnThen(c, s, t, CollectorStep); t := Apply(c, t, CollectorStep);
    OwnThen(c, s, t, CollectorStep); t := Apply(c, t, CollectorStep);
    assert t.sources == s.sources;
  }

  lemma {:induction false} Hangs(c: Config, s: System, fs: seq<Event>)
    requires Stranded(c, s) && s.collector == FinalWait(0) && Legal(c, s, fs)
    ensures After(c, s, fs).collector == FinalWait(0)
    decreases |fs|
  {
    if fs != [] {
      StepKeepsStranded(c, s, fs[0]);
      Hangs(c, Apply(c, s, fs[0]), fs[1..]);
    }
  }

  lemma ReachedIsInv(c: Config, t: System)
    requires c.Valid() && Reaches(c, Start(c), t)
    ensures Inv(c, t) && Begun(t)
  {
    var es :| Legal(c, Start(c), es) && After(c, Start(c), es) == t;
    ReachableBegun(c, es);
  }

  /** The only source has ended with one post, which the collector takes for a round. */
  lemma OnePostTooFew(c: Config, s: System) returns (t: System)
    requires c.Valid() && |s.sources| == |c.camera| == 1 && Reaches(c, Start(c), s) && s.collector == Gather(0)
    requires var x := s.sources[0]; x.pc.Finished? && x.exit && x.ready == 1 && (c.camera[0] ==> x.dog.Gone?)
    ensures Arrives(c, s, t) && Reaches(c, Start(c), t) && t.sources == [s.sources[0].(ready := 0)]
    ensures forall fs :: Legal(c, t, fs) ==> After(c, t, fs).collector == FinalWait(0)
  {
    var u := GatherFrom(c, s, 0);
    var v := ExitSeen(c, u);
    OwnOnward(c, s, u, v);
    t := LastWait(c, v);
    OwnOnward(c, s, v, t);
    Onward(c, Start(c), s, t);
    ReachedIsInv(c, t);
    forall fs | Legal(c, t, fs) ensures After(c, t, fs).collector == FinalWait(0) {
      Hangs(c, t, fs);
    }
  }

  /** A failed read of the only source is enough: the source posts once, the collector
      takes this post for a round and then waits for another one for ever. */
  lemma FailedReadHangs(c: Config) returns (t: System)
    requires c.Valid() && |c.camera| == 1 && !c.camera[0]
    ensures Arrives(c, Start(c), t) && |t.sources| == 1 && t.sources[0].pc.Finished? && t.sources[0].ready == 0
    ensures forall fs :: Legal(c, t, fs) ==> After(c, t, fs).collector == FinalWait(0)
  {
    var b := Start(c);
    var r := OneRound(c);
    var u := Admitted(c, r, 0);
    OwnOnward(c, b, r, u);
    var v := StreamFails(c, u, 0);
    OwnOnward(c, b, u, v);
    t := OnePostTooFew(c, v);
    OwnOnward(c, b, v, t);
  }

  /** A camera that is told to exit while its thread waits for a frame: the watchdog
      posts, the thread ends, and the collector waits for ever, although the source
      gave up its token and has no empty_ready left. */
  lemma CameraHangs(c: Config) returns (t: System)
    requires c.Valid() && |c.camera| == 1 && c.camera[0]
    ensures Reaches(c, Start(c), t) && |t.sources| == 1 && t.sources[0].quit && t.sources[0].empty == 0
    ensures forall fs :: Legal(c, t, fs) ==> After(c, t, fs).collector == FinalWait(0)
  {
    var b := Start(c);
    var r := OneRound(c);
    var u := Admitted(c, r, 0);
    OwnOnward(c, b, r, u);
    var p := DogPosts(c, u, 0);
    Onward(c, b, u, p);
    var e := SourceStep(0, false, 0);
    Then(c, b, p, e);
    t := OnePostTooFew(c, Apply(c, p, e));
  }

  /** The only source is told to exit at its boundary, before the collector looks. */
  lemma ToldAtBoundary(c: Config) returns (t: System)
    requires c.Valid() && |c.camera| == 1
    ensures Reaches(c, Start(c), t) && Fated(c, t)
  {
    var b := Start(c);
    var s := OneRound(c);
    var u := FirstBoundary(c, s, 0);
    OwnOnward(c, b, s, u);
    var v := GatherFrom(c, u, 0);
    OwnOnward(c, b, u, v);
    Then(c, b, v, RaiseExit(0));
    var w := Apply(c, v, RaiseExit(0));
    t := ExitSeen(c, w);
    Onward(c, b, w, t);
    ReachedIsInv(c, t);
  }

  /** The counter of sources that have exited starts anew for every source: if flags
      may be raised from outside at any time, the thread can end if and only if there
      is exactly one source. */
  lemma EndsWithOneSource(c: Config)
    requires c.Valid()
    ensures CanEnd(c, Start(c)) <==> |c.camera| == 1
  {
    if |c.camera| == 1 {
      var t := ToldAtBoundary(c);
      var u := Ending(c, t);
      Onward(c, Start(c), t, u);
    }
    if CanEnd(c, Start(c)) {
      var s :| Reaches(c, Start(c), s) && s.collector.CollectorDone?;
      var es :| Legal(c, Start(c), es) && After(c, Start(c), es) == s;
      EndsOnlyAfterQuit(c, es);
    }
  }
}
