/** The pipeline as a program without threads, and the theorem that every
    interleaving computes a prefix of it. */
module PipelineSequential {
  import opened PipelineModel
  import opened PipelineRefinement

  /** `given[k]` is what module k was given so far. */
  datatype Progress = Progress(given: seq<seq<Chunk>>, finished: seq<Chunk>)

  /** One item goes through the modules from k on, one after the other, until the
      finalization or the first module that reports a status other than 0. */
  function Through(c: Config, k: nat, p: Progress, x: Chunk): (q: Progress)
    requires 1 <= k < c.modules == |p.given|
    ensures |q.given| == c.modules
    decreases c.modules - k
  {
    var given := p.given[k := p.given[k] + [x]];
    if k + 1 == c.modules then
      Progress(given, p.finished + [x])
    else
      var (o, st) := c.action(k, given[k]);
      if ResultOf(st) == 0 then Through(c, k + 1, p.(given := given), o) else p.(given := given)
  }

  /** The captured items, each taken through the whole chain before the next. */
  function SequentialRun(c: Config, items: seq<Chunk>): (p: Progress)
    requires c.Valid()
    ensures |p.given| == c.modules
  {
    if items == [] then
      Progress(seq(c.modules, _ => []), [])
    else
      Through(c, 1, SequentialRun(c, items[..|items| - 1]), items[|items| - 1])
  }

  /** What module k does with its latest item, if it got one, decides what module
      k + 1 gets: the result of the action if its status is 0 or -1, else nothing. */
  predicate GoesOn(c: Config, k: nat, p: Progress, q: Progress)
    requires k + 1 < |p.given| == |q.given|
  {
    var h := q.given[k];
    q.given[k + 1] == p.given[k + 1] + if h != p.given[k] then Outcome(c.action(k, h)) else []
  }

  function Outcome(answer: (Chunk, int)): seq<Chunk> {
    if answer.1 == 0 || answer.1 == -1 then [answer.0] else []
  }

  lemma {:induction false} ThroughGoesOn(c: Config, k: nat, p: Progress, x: Chunk)
    requires 1 <= k < c.modules == |p.given| && p.finished == p.given[c.modules - 1]
    ensures var q := Through(c, k, p, x);
            && q.given[..k] == p.given[..k] && q.given[k] == p.given[k] + [x]
            && q.finished == q.given[c.modules - 1]
            && forall j | k <= j < c.modules - 1 :: GoesOn(c, j, p, q)
    decreases c.modules - k
  {
    if k + 1 < c.modules {
      var given := p.given[k := p.given[k] + [x]];
      var q, r := Through(c, k, p, x), p.(given := given);
      var (o, st) := c.action(k, given[k]);
      if ResultOf(st) == 0 {
        ThroughGoesOn(c, k + 1, r, o);
        assert q.given[k] == q.given[..k + 1][k] == r.given[..k + 1][k];
        assert q.given[..k] == q.given[..k + 1][..k] == r.given[..k + 1][..k];
        forall j | k <= j < c.modules - 1 ensures GoesOn(c, j, p, q) {
          assert j > k ==> GoesOn(c, j, r, q);
        }
      }
    }
  }

  /** One item more: module 1 gets it, and it goes on from a middle module if and only if
      the status of its action is 0 or -1; what the last module gets is finished. */
  lemma OneItemMore(c: Config, items: seq<Chunk>, x: Chunk)
    requires c.Valid()
    ensures var p, q := SequentialRun(c, items), SequentialRun(c, items + [x]);
            && q.given[1] == p.given[1] + [x]
            && q.finished == q.given[c.modules - 1]
            && forall k | 1 <= k < c.modules - 1 :: GoesOn(c, k, p, q)
  {
    FinishedIsGiven(c, items);
    assert (items + [x])[..|items|] == items;
    ThroughGoesOn(c, 1, SequentialRun(c, items), x);
  }

  lemma {:induction false} FinishedIsGiven(c: Config, items: seq<Chunk>)
    requires c.Valid()
    ensures var p := SequentialRun(c, items); p.finished == p.given[c.modules - 1] && p.given[0] == []
  {
    if items != [] {
      var h, x := items[..|items| - 1], items[|items| - 1];
      FinishedIsGiven(c, h);
      ThroughGoesOn(c, 1, SequentialRun(c, h), x);
      assert SequentialRun(c, items).given[0] == SequentialRun(c, items).given[..1][0];
    }
  }

  /** If no middle module rejects anything, every item is finished. */
  lemma {:induction false} NothingRejected(c: Config, items: seq<Chunk>, k: nat)
    requires c.Valid() && 1 <= k < c.modules
    requires forall j, h | 1 <= j < c.modules - 1 :: c.action(j, h).1 == 0 || c.action(j, h).1 == -1
    ensures var p := SequentialRun(c, items); |p.given[k]| == |items| == |p.finished|
    decreases |items|
  {
    FinishedIsGiven(c, items);
    if items != [] {
      var h, x := items[..|items| - 1], items[|items| - 1];
      assert h + [x] == items;
      OneItemMore(c, h, x);
      forall j: nat | 1 <= j < c.modules ensures |SequentialRun(c, h).given[j]| == |h| {
        NothingRejected(c, h, j);
      }
      OneMoreEach(c, SequentialRun(c, h), SequentialRun(c, items), k);
      OneMoreEach(c, SequentialRun(c, h), SequentialRun(c, items), c.modules - 1);
    }
  }

  lemma {:induction false} OneMoreEach(c: Config, p: Progress, q: Progress, k: nat)
    requires 1 <= k < c.modules == |p.given| == |q.given|
    requires forall j, h | 1 <= j < c.modules - 1 :: c.action(j, h).1 == 0 || c.action(j, h).1 == -1
    requires |q.given[1]| == |p.given[1]| + 1 && forall j | 1 <= j < c.modules - 1 :: GoesOn(c, j, p, q)
    ensures |q.given[k]| == |p.given[k]| + 1
  {
    if k > 1 {
      OneMoreEach(c, p, q, k - 1);
      assert GoesOn(c, k - 1, p, q);
    }
  }

  lemma {:induction false} GivenNothing(c: Config, items: seq<Chunk>, k: nat, j: nat)
    requires c.Valid() && 1 <= k < j < c.modules
    requires forall h :: c.action(k, h).1 != 0 && c.action(k, h).1 != -1
    ensures SequentialRun(c, items).given[j] == []
    decreases |items|, j
  {
    if items != [] {
      var h, x := items[..|items| - 1], items[|items| - 1];
      assert h + [x] == items;
      OneItemMore(c, h, x);
      assert GoesOn(c, j - 1, SequentialRun(c, h), SequentialRun(c, items));
      GivenNothing(c, h, k, j);
      if j - 1 > k {
        GivenNothing(c, h, k, j - 1);
        GivenNothing(c, items, k, j - 1);
      }
    }
  }

  /** If a middle module rejects everything, nothing is given to those behind it. */
  lemma AllRejected(c: Config, items: seq<Chunk>, k: nat)
    requires c.Valid() && 1 <= k < c.modules - 1
    requires forall h :: c.action(k, h).1 != 0 && c.action(k, h).1 != -1
    ensures var p := SequentialRun(c, items); p.finished == [] && forall j | k < j < c.modules :: p.given[j] == []
  {
    FinishedIsGiven(c, items);
    forall j: nat | k < j < c.modules ensures SequentialRun(c, items).given[j] == [] {
      GivenNothing(c, items, k, j);
    }
  }

  /** The items as they leave module k when each module works off all its input
      before the next one starts. */
  function Stage(c: Config, k: nat, items: seq<Chunk>): seq<Chunk> {
    if k == 0 then items else Passed(c, k, Stage(c, k - 1, items))
  }

  lemma {:induction false} StageStep(c: Config, k: nat, h: seq<Chunk>, x: Chunk)
    requires k > 0
    ensures Passed(c, k, h + [x])
         == Passed(c, k, h) + if ResultOf(c.action(k, h + [x]).1) == 0 then [c.action(k, h + [x]).0] else []
  {
    assert (h + [x])[..|h|] == h;
  }

  /** Modules from k on have seen what the stage before them lets through of h,
      and module k gets the item that stage lets through next. */
  lemma {:induction false} ThroughMeetsStages(c: Config, k: nat, p: Progress, x: Chunk, h: seq<Chunk>, y: Chunk)
    requires 1 <= k < c.modules == |p.given|
    requires forall j | k <= j < c.modules :: p.given[j] == Stage(c, j - 1, h)
    requires p.finished == Stage(c, c.modules - 2, h)
    requires Stage(c, k - 1, h + [y]) == Stage(c, k - 1, h) + [x]
    ensures var q := Through(c, k, p, x);
            && q.finished == Stage(c, c.modules - 2, h + [y])
            && (forall j | 0 <= j < k :: q.given[j] == p.given[j])
            && forall j | k <= j < c.modules :: q.given[j] == Stage(c, j - 1, h + [y])
    decreases c.modules - k
  {
    if k + 1 < c.modules {
      var given := p.given[k := p.given[k] + [x]];
      StageStep(c, k, Stage(c, k - 1, h), x);
      if ResultOf(c.action(k, given[k]).1) == 0 {
        ThroughMeetsStages(c, k + 1, p.(given := given), c.action(k, given[k]).0, h, y);
      } else {
        assert Stage(c, k, h + [y]) == Stage(c, k, h);
        StagesAgree(c, k, h + [y], h);
      }
    }
  }

  lemma {:induction false} StagesAgree(c: Config, k: nat, a: seq<Chunk>, b: seq<Chunk>)
    requires Stage(c, k, a) == Stage(c, k, b)
    ensures forall j | k <= j < c.modules :: Stage(c, j, a) == Stage(c, j, b)
    decreases c.modules - k
  {
    if k < c.modules {
      StagesAgree(c, k + 1, a, b);
    }
  }

  /** Taking items one by one through all modules is the same as letting each
      module work off everything. */
  lemma {:induction false} SequentialMeetsStages(c: Config, items: seq<Chunk>)
    requires c.Valid()
    ensures var p := SequentialRun(c, items);
            && p.finished == Stage(c, c.modules - 2, items)
            && forall k | 1 <= k < c.modules :: p.given[k] == Stage(c, k - 1, items)
  {
    if items == [] {
      StagesOfNothing(c, c.modules);
    } else {
      var h, y := items[..|items| - 1], items[|items| - 1];
      assert h + [y] == items;
      SequentialMeetsStages(c, h);
      ThroughMeetsStages(c, 1, SequentialRun(c, h), y, h, y);
    }
  }

  lemma {:induction false} StagesOfNothing(c: Config, n: nat)
    ensures forall k | 0 <= k < n :: Stage(c, k, []) == []
  {
    if n > 0 {
      StagesOfNothing(c, n - 1);
    }
  }

  lemma {:induction false} PassedGrows(c: Config, k: nat, a: seq<Chunk>, b: seq<Chunk>)
    requires a <= b
    ensures Passed(c, k, a) <= Passed(c, k, b)
    decreases |b|
  {
    if k > 0 && a != b {
      assert a <= b[..|b| - 1];
      PassedGrows(c, k, a, b[..|b| - 1]);
    }
  }

  /** In every reachable state module k has seen, and let through, a prefix of
      what it sees, and lets through, in the sequential run. */
  lemma {:induction false} SeenIsPrefix(c: Config, s: State, k: nat)
    requires |s.mods| == c.modules && k < |s.mods|
    requires forall j: nat | j < |s.mods| :: Content(c, s, j)
    ensures k == 0 ==> s.mods[0].seen == Stage(c, 0, s.mods[0].seen)
    ensures k > 0 ==> s.mods[k].seen <= Stage(c, k - 1, s.mods[0].seen)
    ensures k + 1 < c.modules ==> s.mods[k].out <= Stage(c, k, s.mods[0].seen)
  {
    var items, m := s.mods[0].seen, s.mods[k];
    assert Content(c, s, k);
    if k > 0 {
      SeenIsPrefix(c, s, k - 1);
      assert m.seen <= s.mods[k - 1].out <= Stage(c, k - 1, items);
      if k + 1 < c.modules {
        PassedGrows(c, k, m.seen, Stage(c, k - 1, items));
        assert m.out <= Passed(c, k, m.seen) <= Stage(c, k, items);
      }
    }
  }

  /** The sequential refinement: whatever the interleaving, the contents that
      reached the finalization are a prefix of those of the sequential run on the
      captured items, and so is what each child was given. */
  lemma SequentialRefinement(c: Config, mem: map<nat, Chunk>, es: seq<Event>)
    requires RunOf(c, mem, es)
    ensures var s := StateAfter(c, mem, es);
            |s.mods| == c.modules
            && var p := SequentialRun(c, s.mods[0].seen);
            && s.mods[c.modules - 1].seen <= p.finished
            && forall k | 1 <= k < c.modules :: s.mods[k].seen <= p.given[k]
  {
    var s := StateAfter(c, mem, es);
    ReachableContent(c, mem, es);
    SequentialMeetsStages(c, s.mods[0].seen);
    forall k | 1 <= k < c.modules
      ensures s.mods[k].seen <= Stage(c, k - 1, s.mods[0].seen)
    {
      SeenIsPrefix(c, s, k);
    }
  }
}
