/** As long as frames arrive and nobody is told to exit, objects keep being published. */
module CollectorThroughput {
  import opened CollectorModel
  import opened CollectorInvariant
  import opened Spans

  /** No exit flag is set. */
  ghost predicate Calm(s: System) {
    forall i | 0 <= i < |s.sources| :: !s.sources[i].exit
  }

  /** A step of a thread; a frame arrives wherever a source takes one. */
  predicate ByThread(e: Event) {
    !e.ReadFails? && !e.RaiseExit?
  }

  predicate Publishes(s: System, e: Event) {
    e.ActionStep? && s.action.Take?
  }

  // ------------------------------------------------------------- ranking

  /** Steps a source takes for an object: so many for every frame, and the boundary. */
  function ObjectSteps(c: Config): nat {
    6 * c.limit + 6
  }

  /** Steps a source can take before it needs another empty_ready. */
  function SourceRank(c: Config, x: Source): int {
    (if x.empty > 0 then ObjectSteps(c) else 0) +
    match x.pc
    case First => 1
    case Loop => 6 * (c.limit - x.frames) + 5
    case Judge => 6 * (c.limit - x.frames) + 4
    case AddTest => 6 * (c.limit - x.frames) + 3
    case Add => 6 * (c.limit - x.frames) + 2
    case Count => 6 * (c.limit - x.frames) + 1
    case PostData => 3
    case ExitTest => 2
    case WaitEmpty => 1
    case _ => 0
  }

  function SourceRanks(c: Config, xs: seq<Source>): int {
    if xs == [] then 0 else SourceRanks(c, xs[..|xs| - 1]) + SourceRank(c, xs[|xs| - 1])
  }

  /** What it costs to give a source its name and empty_ready. */
  function GrantSteps(c: Config): nat {
    ObjectSteps(c) + 5
  }

  /** Steps of the collector, and of the sources it lets go on, before it needs another
      empty_ready. */
  function CollectorRank(c: Config, n: nat, p: CollectorPc): int {
    match p
    case Copy(i) => if i <= n then Span(GrantSteps(c), n - i) + 2 * n + 6 else 0
    case Copying(i) => if i <= n then Span(GrantSteps(c), n - i) + 2 * n + 5 else 0
    case PostEmpty(i) => if i <= n then Span(GrantSteps(c), n - i) + 2 * n + 4 else 0
    case LoopTest => 2 * n + 5
    case Gather(i) => 2 * n + 4 - i
    case Scan(i) => n + 3 - i
    case Again => 2
    case _ => 0
  }

  /** A whole round of the collector. */
  function RoundSteps(c: Config): nat {
    Span(GrantSteps(c), |c.camera|) + 2 * |c.camera| + 7
  }

  function ActionRank(c: Config, s: System): int {
    match s.action
    case Call => 2
    case WaitData => 1
    case Take => 0
    case Generate => RoundSteps(c) + 6
    case Write => RoundSteps(c) + 5
    case Writing => RoundSteps(c) + 4
    case PostEmptyReady => RoundSteps(c) + 3
  }

  function SharedRank(c: Config, s: System): int {
    CollectorRank(c, |c.camera|, s.collector) + ActionRank(c, s) + if s.emptyReady > 0 then RoundSteps(c) else 0
  }

  function Rank(c: Config, s: System): int {
    SharedRank(c, s) + SourceRanks(c, s.sources)
  }

  lemma {:induction false} RanksAfter(c: Config, xs: seq<Source>, i: nat, x: Source)
    requires i < |xs|
    ensures SourceRanks(c, xs[i := x]) + SourceRank(c, xs[i]) == SourceRanks(c, xs) + SourceRank(c, x)
  {
    var last := |xs| - 1;
    if i == last {
      assert xs[i := x][..last] == xs[..last];
    } else {
      assert xs[i := x][..last] == xs[..last][i := x];
      RanksAfter(c, xs[..last], i, x);
    }
  }

  // --------------------------------------------------------------- steps

  /** What a source that is not told to exit keeps. */
  ghost predicate Keeps(c: Config, x: Source) {
    && c.Valid() && !x.exit && !x.stopped && x.dog.Watching? && x.empty <= 1
    && match x.pc
       case First => x.frames == 0
       case Loop => x.frames <= c.limit
       case Judge => x.frames <= c.limit
       case PostData => x.frames == 0
       case ExitTest => x.frames == 0
       case WaitEmpty => x.frames == 0
       case AddTest => x.frames < c.limit
       case Add => x.frames < c.limit
       case Count => x.frames < c.limit
       case End => false
       case Finished => true
  }

  lemma SourceKeeps(c: Config, s: System, i: nat)
    requires Inv(c, s) && Calm(s) && i < |s.sources|
    ensures Keeps(c, s.sources[i])
  {
    assert SourceInv(c, s, i);
  }

  lemma SourceMoveRank(c: Config, i: nat, x: Source, detected: bool, frame: nat)
    requires Keeps(c, x) && i < |c.camera| && SourceReady(x)
    ensures SourceRank(c, SourceMove(c, i, x, detected, frame).0) < SourceRank(c, x)
  {
    if x.pc.Judge? {
      LimitReached(x.frames, c.limit);
    }
  }

  lemma SourceStepRank(c: Config, s: System, e: Event)
    requires Inv(c, s) && Calm(s) && e.SourceStep? && Enabled(c, s, e)
    ensures Rank(c, Apply(c, s, e)) < Rank(c, s)
  {
    var y := SourceMove(c, e.i, s.sources[e.i], e.detected, e.frame).0;
    SourceKeeps(c, s, e.i);
    SourceMoveRank(c, e.i, s.sources[e.i], e.detected, e.frame);
    RanksAfter(c, s.sources, e.i, y);
  }

  /** The collector's own part, with what it gives to a source. */
  lemma CollectorMoveRank(c: Config, s: System)
    requires Inv(c, s) && !s.exit && Calm(s) && CollectorReady(s)
    ensures var t := CollectorMove(s);
            SharedRank(c, t) + (if s.collector.PostEmpty? then ObjectSteps(c) else 0) < SharedRank(c, s)
  {
  }

  lemma CollectorStepRank(c: Config, s: System)
    requires Inv(c, s) && !s.exit && Calm(s) && CollectorReady(s)
    ensures Rank(c, CollectorMove(s)) < Rank(c, s)
  {
    var t := CollectorMove(s);
    CollectorMoveRank(c, s);
    match s.collector
    case Copying(i) => RanksAfter(c, s.sources, i, t.sources[i]);
    case PostEmpty(i) => RanksAfter(c, s.sources, i, t.sources[i]);
    case Gather(i) =>
      if i < |s.sources| {
        RanksAfter(c, s.sources, i, t.sources[i]);
      }
    case _ =>
  }

  /** first_action on its way to the next name; after a publication a whole round is
      ahead. */
  lemma ActionStepRank(c: Config, s: System)
    requires Inv(c, s) && !s.exit && ActionReady(s)
    ensures Rank(c, ActionMove(s)) + (if s.action.Take? then 0 else 1)
         <= Rank(c, s) + if s.action.Take? then RoundSteps(c) + 6 else 0
  {
  }

  lemma CalmStep(c: Config, s: System, e: Event)
    requires Inv(c, s) && Calm(s) && ByThread(e) && Enabled(c, s, e)
    ensures !e.DogStep? && !s.exit && Calm(Apply(c, s, e))
  {
    if e.DogStep? {
      SourceKeeps(c, s, e.i);
    }
  }

  /** A step from s to t, which may be a publication. */
  ghost predicate StepPaid(c: Config, s: System, t: System, publishes: bool) {
    Rank(c, t) + 1 <= Rank(c, s) + if publishes then RoundSteps(c) + 7 else 0
  }

  lemma StepIsPaid(c: Config, s: System, e: Event)
    requires Inv(c, s) && Calm(s) && ByThread(e) && Enabled(c, s, e)
    ensures StepPaid(c, s, Apply(c, s, e), Publishes(s, e))
  {
    CalmStep(c, s, e);
    match e
    case SourceStep(_, _, _) => SourceStepRank(c, s, e);
    case CollectorStep => CollectorStepRank(c, s);
    case ActionStep => ActionStepRank(c, s);
    case _ => assert false;
  }

  // --------------------------------------------------------------- bound

  lemma SourceBound(c: Config, x: Source)
    requires Keeps(c, x) && (x.empty > 0 ==> x.pc.First? || x.pc.ExitTest? || x.pc.WaitEmpty? || x.pc.Finished?)
    ensures 0 <= SourceRank(c, x) <= GrantSteps(c)
  {
  }

  /** A source that has empty_ready waits for it. */
  lemma EmptyMeansWaiting(c: Config, s: System, i: nat)
    requires Inv(c, s) && Calm(s) && i < |s.sources| && s.sources[i].empty > 0
    ensures var p := s.sources[i].pc; p.First? || p.ExitTest? || p.WaitEmpty? || p.Finished?
  {
    assert SourceInv(c, s, i);
  }

  ghost predicate Bounded(c: Config, xs: seq<Source>) {
    forall i | 0 <= i < |xs| :: 0 <= SourceRank(c, xs[i]) <= GrantSteps(c)
  }

  lemma {:induction false} SourcesBound(c: Config, xs: seq<Source>)
    requires Bounded(c, xs)
    ensures 0 <= SourceRanks(c, xs) <= Span(GrantSteps(c), |xs|)
  {
    if xs != [] {
      SourcesBound(c, xs[..|xs| - 1]);
    }
  }

  lemma SpanGrows(size: nat, a: nat, b: nat)
    requires a <= b
    ensures Span(size, a) <= Span(size, b)
  {
    SpanOfSum(size, a, b - a);
  }

  lemma SharedBound(c: Config, s: System)
    requires Inv(c, s) && !s.exit
    ensures 0 <= SharedRank(c, s) <= 2 * RoundSteps(c) + 8
  {
    if (s.collector.Copy? || s.collector.Copying? || s.collector.PostEmpty?) && s.collector.i <= |c.camera| {
      SpanGrows(GrantSteps(c), |c.camera| - s.collector.i, |c.camera|);
    }
  }

  lemma RankBound(c: Config, s: System)
    requires Inv(c, s) && Calm(s)
    ensures 0 <= Rank(c, s) <= 3 * RoundSteps(c) + 8
  {
    forall i | 0 <= i < |s.sources| ensures 0 <= SourceRank(c, s.sources[i]) <= GrantSteps(c) {
      SourceKeeps(c, s, i);
      if s.sources[i].empty > 0 {
        EmptyMeansWaiting(c, s, i);
      }
      SourceBound(c, s.sources[i]);
    }
    NoExit(c, s);
    SourcesBound(c, s.sources);
    SharedBound(c, s);
  }

  lemma NoExit(c: Config, s: System)
    requires Inv(c, s) && Calm(s)
    ensures !s.exit
  {
  }

  // ---------------------------------------------------------------- runs

  /** The steps of a run from s to t are paid for by what s had in store and by the
      publications. */
  ghost predicate RunPaid(c: Config, s: System, t: System, steps: nat) {
    && |s.published| <= |t.published|
    && Rank(c, t) + steps <= Rank(c, s) + Span(RoundSteps(c) + 7, |t.published| - |s.published|)
  }

  lemma OneStepMore(c: Config, s: System, u: System, t: System, steps: nat, publishes: bool)
    requires StepPaid(c, s, u, publishes) && |u.published| == |s.published| + One(publishes)
    requires RunPaid(c, u, t, steps)
    ensures RunPaid(c, s, t, steps + 1)
  {
  }

  lemma Publication(c: Config, s: System, e: Event)
    requires c.Valid() && Enabled(c, s, e)
    ensures |Apply(c, s, e).published| == |s.published| + One(Publishes(s, e))
  {
  }

  lemma {:induction false} RunIsPaid(c: Config, s: System, fs: seq<Event>)
    requires Inv(c, s) && Calm(s) && Legal(c, s, fs) && forall e | e in fs :: ByThread(e)
    ensures var t := After(c, s, fs); Inv(c, t) && Calm(t) && RunPaid(c, s, t, |fs|)
    decreases |fs|
  {
    if fs != [] {
      var e, u := fs[0], Apply(c, s, fs[0]);
      assert ByThread(e);
      StepKeeps(c, s, e);
      CalmStep(c, s, e);
      RunIsPaid(c, u, fs[1..]);
      StepIsPaid(c, s, e);
      Publication(c, s, e);
      OneStepMore(c, s, u, After(c, u, fs[1..]), |fs| - 1, Publishes(s, e));
    }
  }

  /** n sources, each of which has to make so many steps for an object. */
  lemma RoundStepsAre(c: Config)
    ensures RoundSteps(c) == |c.camera| * (6 * c.limit + 13) + 7
  {
    SpanIsProduct(GrantSteps(c), |c.camera|);
    assert |c.camera| * GrantSteps(c) + |c.camera| * 2 == |c.camera| * (GrantSteps(c) + 2);
  }

  /** Steps in which fewer than `objects` + 1 objects are published. */
  function Budget(c: Config, objects: nat): nat {
    3 * RoundSteps(c) + 8 + Span(RoundSteps(c) + 7, objects)
  }

  lemma BudgetIs(c: Config, objects: nat)
    ensures Budget(c, objects) == 3 * RoundSteps(c) + 8 + objects * (RoundSteps(c) + 7)
    ensures RoundSteps(c) == |c.camera| * (6 * c.limit + 13) + 7
  {
    SpanIsProduct(RoundSteps(c) + 7, objects);
    RoundStepsAre(c);
  }

  lemma StepsBound(c: Config, s: System, t: System, steps: nat)
    requires Inv(c, s) && Calm(s) && Inv(c, t) && Calm(t) && RunPaid(c, s, t, steps)
    ensures |s.published| <= |t.published|
    ensures steps <= Budget(c, |t.published| - |s.published|)
  {
    RankBound(c, s);
    RankBound(c, t);
  }

  lemma RunBound(c: Config, s: System, fs: seq<Event>)
    requires Inv(c, s) && Calm(s) && Legal(c, s, fs) && forall e | e in fs :: ByThread(e)
    ensures var t := After(c, s, fs);
            && |s.published| <= |t.published|
            && |fs| <= Budget(c, |t.published| - |s.published|)
  {
    RunIsPaid(c, s, fs);
    StepsBound(c, s, After(c, s, fs), |fs|);
  }

  /** As long as frames arrive and no flag is set, the threads, in whatever order, make at
      most so many steps for every object published, and once three times as many. */
  lemma Publications(c: Config, es: seq<Event>, fs: seq<Event>)
    requires c.Valid() && Legal(c, Start(c), es) && Calm(After(c, Start(c), es))
    requires Legal(c, After(c, Start(c), es), fs) && forall e | e in fs :: ByThread(e)
    ensures var s, t := After(c, Start(c), es), After(c, After(c, Start(c), es), fs);
            && |s.published| <= |t.published|
            && |fs| <= Budget(c, |t.published| - |s.published|)
  {
    Reachable(c, es);
    RunBound(c, After(c, Start(c), es), fs);
  }
}
