/** A ranking of the states of a pipeline that steps of threads and children lower. */
module PipelineRanking {
  import opened PipelineModel
  import opened PipelineInvariant

  /** Steps a thread has made on the chunk it holds. */
  function Made(p: Pc): nat {
    match p
    case JobCmd => 4 case JobOffs => 5 case JobPost => 6 case JobWait => 11 case JobTest => 12
    case Drop => 13 case SendWait => 13 case SendCmd => 14 case SendOffs => 15 case SendPost => 16
    case Wipe => 4 case Recycle => 5
    case _ => 0
  }

  /** Steps a thread can still make without a chunk. */
  function Remaining(p: Pc): nat {
    match p
    case TakeCmd => 19 case TakeOffs => 18 case Ack => 17
    case HaltWait => 16 case HaltCmd => 15 case HaltPost => 14
    case QuitCmd => 13 case QuitPost => 12 case QuitWait => 7 case Done => 0
    case _ => 20
  }

  /** Steps the child can still make on the job it was given. */
  function ChildRank(m: Module): nat {
    if m.slot.semJob > 0 then 4
    else match m.child.pc
      case Dispatch => 3 case Acting => 2 case Replying => 1 case Leaving => 1
      case _ => 0
  }

  /** A chunk `hops` modules before the end of the chain counts 64 per hop. */
  function Rank(m: Module, hops: nat): nat
    requires hops > 0
  {
    Remaining(m.pc) + ChildRank(m) + (if Mailed(m) then 64 * hops else 0)
    + if Held(m) then 64 * hops - Made(m.pc) else 0
  }

  function TotalRank(mods: seq<Module>, n: nat): nat
    requires |mods| <= n
  {
    if mods == [] then 0
    else TotalRank(mods[..|mods| - 1], n) + Rank(mods[|mods| - 1], n + 1 - |mods|)
  }

  // --------------------------------------------------------- one thread

  /** The rank of a thread's module and of the next one, n. */
  function Weight(v: View, n: Module, hops: nat): nat
    requires hops > 0
  {
    Rank(v.me, hops) + if hops == 1 then 0 else Rank(n.(box := v.next), hops - 1)
  }

  /** Thread k, whose view is v, can step; p and n are its neighbours. */
  ghost predicate MayStep(c: Config, k: nat, p: Module, v: View, n: Module, exit: bool, live: bool) {
    && k < c.modules && ThreadReady(RoleOf(c, k), v, exit, live)
    && Allowed(RoleOf(c, k), v.me.pc) && SlotInv(RoleOf(c, k), v.me)
    && (k > 0 ==> LinkInv(p, v.me)) && (k + 1 < c.modules ==> LinkInv(v.me, n.(box := v.next)))
  }

  /** The source looks whether it has to exit and whether it is live. */
  predicate Tests(r: Role, p: Pc) {
    r.Source? && (p.Idle? || p.Gate?)
  }

  lemma HeadWeightFalls(c: Config, k: nat, p: Module, v: View, n: Module, exit: bool, live: bool)
    requires MayStep(c, k, p, v, n, exit, live) && k > 0 && (v.me.pc.Idle? || Reading(v.me.pc))
    ensures Weight(ThreadMove(RoleOf(c, k), v, exit, live), n, c.modules - k) < Weight(v, n, c.modules - k)
  {
  }

  lemma LoadWeightFalls(c: Config, k: nat, p: Module, v: View, n: Module, exit: bool, live: bool)
    requires MayStep(c, k, p, v, n, exit, live) && (Loading(v.me.pc) || v.me.pc.JobWait? || v.me.pc.JobTest?)
    ensures Weight(ThreadMove(RoleOf(c, k), v, exit, live), n, c.modules - k) < Weight(v, n, c.modules - k)
  {
  }

  lemma SendWeightFalls(c: Config, k: nat, p: Module, v: View, n: Module, exit: bool, live: bool)
    requires MayStep(c, k, p, v, n, exit, live) && Sending(v.me.pc)
    ensures Weight(ThreadMove(RoleOf(c, k), v, exit, live), n, c.modules - k) < Weight(v, n, c.modules - k)
  {
  }

  lemma HaltWeightFalls(c: Config, k: nat, p: Module, v: View, n: Module, exit: bool, live: bool)
    requires MayStep(c, k, p, v, n, exit, live) && Halting(v.me.pc) && !Closed(v.me.pc)
    ensures Weight(ThreadMove(RoleOf(c, k), v, exit, live), n, c.modules - k) < Weight(v, n, c.modules - k)
  {
  }

  lemma QuitWeightFalls(c: Config, k: nat, p: Module, v: View, n: Module, exit: bool, live: bool)
    requires MayStep(c, k, p, v, n, exit, live) && Closed(v.me.pc)
    ensures Weight(ThreadMove(RoleOf(c, k), v, exit, live), n, c.modules - k) < Weight(v, n, c.modules - k)
  {
  }

  /** The chunk goes back to the ring. */
  predicate Returns(p: Pc) {
    p.Drop? || p.Recycle?
  }

  lemma LastWeightFalls(c: Config, k: nat, p: Module, v: View, n: Module, exit: bool, live: bool)
    requires MayStep(c, k, p, v, n, exit, live) && (v.me.pc.Wipe? || Returns(v.me.pc))
    ensures Weight(ThreadMove(RoleOf(c, k), v, exit, live), n, c.modules - k) < Weight(v, n, c.modules - k)
  {
  }

  /** Every step of a thread but the first ones of the source. */
  lemma WeightFalls(c: Config, k: nat, p: Module, v: View, n: Module, exit: bool, live: bool)
    requires MayStep(c, k, p, v, n, exit, live) && !Tests(RoleOf(c, k), v.me.pc) && !v.me.pc.Pop?
    ensures Weight(ThreadMove(RoleOf(c, k), v, exit, live), n, c.modules - k) < Weight(v, n, c.modules - k)
  {
    if v.me.pc.Idle? || Reading(v.me.pc) {
      HeadWeightFalls(c, k, p, v, n, exit, live);
    } else if Loading(v.me.pc) || v.me.pc.JobWait? || v.me.pc.JobTest? {
      LoadWeightFalls(c, k, p, v, n, exit, live);
    } else if Sending(v.me.pc) {
      SendWeightFalls(c, k, p, v, n, exit, live);
    } else if Closed(v.me.pc) {
      QuitWeightFalls(c, k, p, v, n, exit, live);
    } else if Halting(v.me.pc) {
      HaltWeightFalls(c, k, p, v, n, exit, live);
    } else {
      LastWeightFalls(c, k, p, v, n, exit, live);
    }
  }

  /** What the source does before it has a chunk. */
  lemma SourceWeight(c: Config, p: Module, v: View, n: Module, exit: bool, live: bool)
    requires c.modules >= 2 && MayStep(c, 0, p, v, n, exit, live) && (Tests(Source, v.me.pc) || v.me.pc.Pop?)
    ensures var w, hops := ThreadMove(Source, v, exit, live), c.modules;
            Weight(w, n, hops) + (if v.me.pc.Pop? || w.me.pc.HaltWait? then 4 else 0)
            == Weight(v, n, hops) + if v.me.pc.Pop? then 64 * hops else 0
  {
  }

  // -------------------------------------------------------- whole system

  lemma {:induction false} TotalRankAfter(mods: seq<Module>, n: nat, k: nat, m: Module)
    requires k < |mods| <= n
    ensures TotalRank(mods[k := m], n) + Rank(mods[k], n - k) == TotalRank(mods, n) + Rank(m, n - k)
  {
    var last := |mods| - 1;
    if k == last {
      assert mods[k := m][..last] == mods[..last];
    } else {
      assert mods[k := m][..last] == mods[..last][k := m];
      TotalRankAfter(mods[..last], n, k, m);
    }
  }

  /** The module after k, if there is one. */
  function NextOf(s: State, k: nat): Module
    requires k < |s.mods|
  {
    if k + 1 < |s.mods| then s.mods[k + 1] else s.mods[k]
  }

  lemma TwoRanks(mods: seq<Module>, n: nat, k: nat, m: Module, next: Module)
    requires k + 1 < |mods| <= n
    ensures TotalRank(mods[k := m][k + 1 := next], n) + Rank(mods[k], n - k) + Rank(mods[k + 1], n - k - 1)
         == TotalRank(mods, n) + Rank(m, n - k) + Rank(next, n - k - 1)
  {
    TotalRankAfter(mods, n, k, m);
    TotalRankAfter(mods[k := m], n, k + 1, next);
  }

  lemma ViewWeight(c: Config, s: State, k: nat)
    requires |s.mods| == c.modules && k < |s.mods|
    ensures Weight(ViewOf(s, k), NextOf(s, k), c.modules - k) ==
            Rank(s.mods[k], c.modules - k) + if k + 1 == c.modules then 0 else Rank(s.mods[k + 1], c.modules - k - 1)
  {
  }

  /** What the modules are when thread k leaves w of its view. */
  function Moved(mods: seq<Module>, k: nat, w: View): seq<Module>
    requires k < |mods|
  {
    if k + 1 < |mods| then mods[k := w.me][k + 1 := mods[k + 1].(box := w.next)] else mods[k := w.me]
  }

  /** The rank of the whole changes as that of the two modules does. */
  lemma MovedTotal(c: Config, s: State, k: nat, w: View)
    requires |s.mods| == c.modules && k < c.modules
    ensures TotalRank(Moved(s.mods, k, w), c.modules) + Weight(ViewOf(s, k), NextOf(s, k), c.modules - k)
         == TotalRank(s.mods, c.modules) + Weight(w, NextOf(s, k), c.modules - k)
  {
    ViewWeight(c, s, k);
    if k + 1 < c.modules {
      TwoRanks(s.mods, c.modules, k, w.me, s.mods[k + 1].(box := w.next));
    } else {
      TotalRankAfter(s.mods, c.modules, k, w.me);
    }
  }

  lemma ThreadStepMoves(c: Config, s: State, k: nat)
    requires |s.mods| == c.modules && Enabled(c, s, ThreadStep(k))
    ensures Apply(c, s, ThreadStep(k)).mods
         == Moved(s.mods, k, ThreadMove(RoleOf(c, k), ViewOf(s, k), s.exit, s.live))
  {
  }

  lemma CanStep(c: Config, s: State, k: nat)
    requires Inv(c, s) && Enabled(c, s, ThreadStep(k))
    ensures MayStep(c, k, if k > 0 then s.mods[k - 1] else s.mods[0], ViewOf(s, k), NextOf(s, k), s.exit, s.live)
  {
    assert Local(c, s.mods, k);
    assert k + 1 < |s.mods| ==> Local(c, s.mods, k + 1);
  }

  /** The source takes a free chunk. */
  predicate Pops(s: State, e: Event) {
    e.ThreadStep? && e.k < |s.mods| && s.mods[e.k].pc.Pop?
  }

  /** The source tests. */
  predicate Looks(s: State, e: Event) {
    e.ThreadStep? && e.k == 0 < |s.mods| && Tests(Source, s.mods[0].pc)
  }

  lemma SourceStepRank(c: Config, s: State, e: Event)
    requires Inv(c, s) && Enabled(c, s, e) && (Pops(s, e) || Looks(s, e))
    ensures var t := Apply(c, s, e);
            && e.k == 0 && |t.mods| == c.modules
            && TotalRank(t.mods, c.modules) + (if Pops(s, e) || t.mods[0].pc.HaltWait? then 4 else 0)
            == TotalRank(s.mods, c.modules) + if Pops(s, e) then 64 * c.modules else 0
  {
    OnlySourcePops(c, s, e);
    CanStep(c, s, 0);
    ThreadStepMoves(c, s, 0);
    MovedTotal(c, s, 0, ThreadMove(Source, ViewOf(s, 0), s.exit, s.live));
    SourceWeight(c, s.mods[0], ViewOf(s, 0), NextOf(s, 0), s.exit, s.live);
  }

  lemma OnlySourcePops(c: Config, s: State, e: Event)
    requires Inv(c, s) && Enabled(c, s, e) && (Pops(s, e) || Looks(s, e))
    ensures e.k == 0
  {
    assert Local(c, s.mods, e.k);
  }

  lemma OtherStepRank(c: Config, s: State, e: Event)
    requires Inv(c, s) && e.ThreadStep? && Enabled(c, s, e) && !Pops(s, e) && !Looks(s, e)
    ensures var t := Apply(c, s, e);
            |t.mods| == c.modules && TotalRank(t.mods, c.modules) < TotalRank(s.mods, c.modules)
  {
    var k := e.k;
    CanStep(c, s, k);
    ThreadStepMoves(c, s, k);
    MovedTotal(c, s, k, ThreadMove(RoleOf(c, k), ViewOf(s, k), s.exit, s.live));
    WeightFalls(c, k, if k > 0 then s.mods[k - 1] else s.mods[0], ViewOf(s, k), NextOf(s, k), s.exit, s.live);
  }

  lemma ChildRankFalls(c: Config, k: nat, m: Module, mem: map<nat, Chunk>, item: Chunk, status: int, hops: nat)
    requires ChildReady(m) && SlotInv(RoleOf(c, k), m) && hops > 0
    ensures Rank(ChildMove(c, k, m, mem, item, status).0, hops) < Rank(m, hops)
  {
  }

  lemma ChildStepRank(c: Config, s: State, e: Event)
    requires Inv(c, s) && e.ChildStep? && Enabled(c, s, e)
    ensures var t := Apply(c, s, e);
            |t.mods| == c.modules && TotalRank(t.mods, c.modules) < TotalRank(s.mods, c.modules)
  {
    assert Local(c, s.mods, e.k);
    ChildRankFalls(c, e.k, s.mods[e.k], s.mem, e.item, e.status, c.modules - e.k);
    TotalRankAfter(s.mods, c.modules, e.k, Apply(c, s, e).mods[e.k]);
  }
}
