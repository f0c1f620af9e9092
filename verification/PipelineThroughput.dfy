/** While the pipeline runs, chunks keep coming back to the ring. */
module PipelineThroughput {
  import opened PipelineModel
  import opened PipelineInvariant
  import PipelineLiveness
  import opened PipelineRanking
  import PipelineSafety
  import opened Spans

  /** A step of a thread or child that is more than a test of the source. */
  predicate Works(s: State, e: Event) {
    PipelineLiveness.Internal(e) && !Looks(s, e)
  }

  /** A chunk goes back to the ring. */
  predicate GivesBack(s: State, e: Event) {
    e.ThreadStep? && e.k < |s.mods| && Returns(s.mods[e.k].pc)
  }

  /** More than a chunk's way through all modules takes. */
  function Price(c: Config): nat {
    64 * c.modules
  }

  /** A way of the whole length is in store for every free chunk. */
  function RunRank(c: Config, s: State): nat
    requires |s.mods| == c.modules
  {
    TotalRank(s.mods, c.modules) + Span(Price(c), |s.ring|)
  }

  lemma RingMoves(c: Config, s: State, e: Event)
    requires |s.mods| == c.modules && Enabled(c, s, e)
    ensures |Apply(c, s, e).ring| + One(Pops(s, e)) == |s.ring| + One(GivesBack(s, e))
  {
  }

  /** A step from s to t that may be work and may give a chunk back. */
  ghost predicate StepPaid(c: Config, s: State, t: State, works: bool, back: bool) {
    && |s.mods| == |t.mods| == c.modules
    && RunRank(c, t) + One(works) <= RunRank(c, s) + if back then Price(c) else 0
  }

  lemma StepRunRank(c: Config, s: State, e: Event)
    requires Inv(c, s) && Enabled(c, s, e)
    ensures StepPaid(c, s, Apply(c, s, e), Works(s, e), GivesBack(s, e))
  {
    var t, p := Apply(c, s, e), Price(c);
    RingMoves(c, s, e);
    if Pops(s, e) || Looks(s, e) {
      SourceStepRank(c, s, e);
      if Pops(s, e) {
        SpanOfSum(p, |t.ring|, 1);
      }
    } else {
      if e.ThreadStep? {
        OtherStepRank(c, s, e);
      } else if e.ChildStep? {
        ChildStepRank(c, s, e);
      }
      if GivesBack(s, e) {
        SpanOfSum(p, |s.ring|, 1);
      }
    }
  }

  // -------------------------------------------------------------- bound

  function LoadCount(m: Module): nat {
    One(Mailed(m)) + One(Held(m))
  }

  /** The chunks that modules have. */
  function Carried(mods: seq<Module>): nat {
    if mods == [] then 0 else Carried(mods[..|mods| - 1]) + LoadCount(mods[|mods| - 1])
  }

  lemma LoadIsCount(m: Module)
    ensures |Load(m)| == LoadCount(m)
  {
  }

  lemma {:induction false} CarriedIsTotal(mods: seq<Module>)
    ensures |Total(Loads(mods))| == Carried(mods)
  {
    if mods != [] {
      var front := mods[..|mods| - 1];
      CarriedIsTotal(front);
      LoadIsCount(mods[|mods| - 1]);
      assert Loads(mods)[..|mods| - 1] == Loads(front);
    }
  }

  lemma OffsetsCount(c: Config, s: State)
    requires Inv(c, s)
    ensures |s.ring| + Carried(s.mods) == c.dataCnt
  {
    CarriedIsTotal(s.mods);
    assert |multiset(s.ring)| == |s.ring| && |multiset(c.Offsets())| == c.dataCnt;
  }

  lemma RankBound(m: Module, hops: nat, p: nat)
    requires hops > 0 && 64 * hops <= p
    ensures Rank(m, hops) <= 24 + Span(p, LoadCount(m))
  {
    SpanOfSum(p, One(Mailed(m)), One(Held(m)));
  }

  lemma OneModuleMore(front: nat, last: nat, modules: nat, p: nat, a: nat, b: nat)
    requires front <= 24 * modules + Span(p, a) && last <= 24 + Span(p, b)
    ensures front + last <= 24 * (modules + 1) + Span(p, a + b)
  {
    SpanOfSum(p, a, b);
  }

  lemma {:induction false} TotalBound(mods: seq<Module>, n: nat, p: nat)
    requires |mods| <= n && 64 * n <= p
    ensures TotalRank(mods, n) <= 24 * |mods| + Span(p, Carried(mods))
  {
    if mods != [] {
      var front, last, hops := mods[..|mods| - 1], mods[|mods| - 1], n + 1 - |mods|;
      TotalBound(front, n, p);
      RankBound(last, hops, p);
      OneModuleMore(TotalRank(front, n), Rank(last, hops), |front|, p, Carried(front), LoadCount(last));
    }
  }

  lemma RunRankBound(c: Config, s: State)
    requires Inv(c, s)
    ensures RunRank(c, s) <= 24 * c.modules + Span(Price(c), c.dataCnt)
  {
    var p := Price(c);
    OffsetsCount(c, s);
    TotalBound(s.mods, c.modules, p);
    SpanOfSum(p, |s.ring|, Carried(s.mods));
  }

  // --------------------------------------------------------------- runs

  /** Steps of work and returned chunks. */
  datatype Tally = Tally(work: nat, back: nat) {
    function Add(works: bool, gives: bool): Tally {
      Tally(One(works) + work, One(gives) + back)
    }
  }

  function Count(c: Config, s: State, fs: seq<Event>): Tally
    requires Legal(c, s, fs)
    decreases |fs|
  {
    if fs == [] then Tally(0, 0) else Count(c, Apply(c, s, fs[0]), fs[1..]).Add(Works(s, fs[0]), GivesBack(s, fs[0]))
  }

  /** The work is paid for by what was in store and by the chunks that came back. */
  ghost predicate Paid(c: Config, s: State, n: Tally)
    requires |s.mods| == c.modules
  {
    n.work <= RunRank(c, s) + Span(Price(c), n.back)
  }

  lemma OneStepMore(c: Config, s: State, t: State, n: Tally, works: bool, back: bool)
    requires StepPaid(c, s, t, works, back) && Paid(c, t, n)
    ensures Paid(c, s, n.Add(works, back))
  {
  }

  lemma {:induction false} RunIsPaid(c: Config, s: State, fs: seq<Event>)
    requires Inv(c, s) && Legal(c, s, fs)
    ensures Paid(c, s, Count(c, s, fs))
    decreases |fs|
  {
    if fs != [] {
      var e, t := fs[0], Apply(c, s, fs[0]);
      PipelineSafety.StepKeeps(c, s, e);
      RunIsPaid(c, t, fs[1..]);
      StepRunRank(c, s, e);
      OneStepMore(c, s, t, Count(c, t, fs[1..]), Works(s, e), GivesBack(s, e));
    }
  }

  lemma PaidFromStart(c: Config, s: State, n: Tally)
    requires |s.mods| == c.modules && Paid(c, s, n)
    requires RunRank(c, s) <= 24 * c.modules + Span(Price(c), c.dataCnt)
    ensures n.work <= 24 * c.modules + Span(Price(c), c.dataCnt + n.back)
  {
    SpanOfSum(Price(c), c.dataCnt, n.back);
  }

  lemma WorkBound(c: Config, s: State, fs: seq<Event>)
    requires Inv(c, s) && Legal(c, s, fs)
    ensures var n := Count(c, s, fs); n.work <= 24 * c.modules + Span(Price(c), c.dataCnt + n.back)
  {
    RunIsPaid(c, s, fs);
    RunRankBound(c, s);
    PaidFromStart(c, s, Count(c, s, fs));
  }

  /** In every run, live or not, exit raised or not: after a reachable state threads and
      children make, but for the tests of the source, at most 64 * modules steps for every
      chunk that comes back to the ring, and once so many for every chunk there is. */
  lemma Throughput(c: Config, mem: map<nat, Chunk>, es: seq<Event>, fs: seq<Event>)
    requires RunOf(c, mem, es) && Legal(c, StateAfter(c, mem, es), fs)
    ensures var s := StateAfter(c, mem, es);
            var n := Count(c, s, fs); n.work <= 24 * c.modules + (c.dataCnt + n.back) * (64 * c.modules)
  {
    PipelineSafety.Reachable(c, mem, es);
    var s := StateAfter(c, mem, es);
    WorkBound(c, s, fs);
    SpanIsProduct(Price(c), c.dataCnt + Count(c, s, fs).back);
  }
}
