/** The invariant holds in every state of every run, and what follows from it. */
module PipelineSafety {
  import opened PipelineModel
  import opened PipelineInvariant

  lemma StartHolds(c: Config, mem: map<nat, Chunk>)
    requires c.Valid()
    ensures Inv(c, Start(c, mem))
  {
    var s := Start(c, mem);
    forall k: nat | k < |s.mods| ensures Local(c, s.mods, k) && Load(s.mods[k]) == multiset{} {
      StartModule(RoleOf(c, k), s.mods[k]);
    }
    NothingCarried(s.mods);
    assert multiset(s.ring) + multiset{} == multiset(c.Offsets());
  }

  lemma StartModule(r: Role, m: Module)
    requires m == Module(Idle, Job, 0, Mailbox(0, 1, Job, 0), Slot(0, 0, Stop, 0, 0),
                         Child(Waiting, false, []), [], [], 0, [], [])
    ensures ModuleInv(r, m) && LinkInv(m, m) && MailInv(m, m) && Load(m) == multiset{}
  {
  }

  lemma {:induction false} NothingCarried(mods: seq<Module>)
    requires forall m | m in mods :: Load(m) == multiset{}
    ensures Total(Loads(mods)) == multiset{}
  {
    if mods != [] {
      var last := |mods| - 1;
      assert Loads(mods)[..last] == Loads(mods[..last]);
      NothingCarried(mods[..last]);
    }
  }

  /** Thread k's view of a state and of the state after its step. */
  lemma ThreadStepModules(c: Config, s: State, k: nat)
    requires Enabled(c, s, ThreadStep(k))
    ensures var t := Apply(c, s, ThreadStep(k));
            var w := ThreadMove(RoleOf(c, k), ViewOf(s, k), s.exit, s.live);
            && |t.mods| == |s.mods| && t.ring == w.ring && t.mem == w.mem
            && t.mods[k] == w.me
            && (k + 1 < |s.mods| ==> t.mods[k + 1] == s.mods[k + 1].(box := w.next))
            && (forall j | 0 <= j < |s.mods| && j != k && j != k + 1 :: t.mods[j] == s.mods[j])
  {
  }

  lemma ThreadStepKeepsModule(c: Config, s: State, k: nat, j: nat)
    requires Enabled(c, s, ThreadStep(k)) && |s.mods| == c.modules && j < |s.mods|
    requires ModuleInv(RoleOf(c, k), s.mods[k]) && ModuleInv(RoleOf(c, j), s.mods[j])
    ensures ModuleInv(RoleOf(c, j), Apply(c, s, ThreadStep(k)).mods[j])
  {
    ThreadStepModules(c, s, k);
    if j == k {
      ThreadKeepsModule(RoleOf(c, k), ViewOf(s, k), s.exit, s.live);
    } else if j == k + 1 {
      NextModuleUnmoved(RoleOf(c, j), s.mods[j], ThreadMove(RoleOf(c, k), ViewOf(s, k), s.exit, s.live).next);
    }
  }

  lemma ThreadStepKeepsLinkIn(c: Config, s: State, k: nat)
    requires Enabled(c, s, ThreadStep(k)) && |s.mods| == c.modules && 1 <= k < |s.mods|
    requires ModuleInv(RoleOf(c, k), s.mods[k])
    requires LinkInv(s.mods[k - 1], s.mods[k]) && MailInv(s.mods[k - 1], s.mods[k])
    ensures var t := Apply(c, s, ThreadStep(k));
            LinkInv(t.mods[k - 1], t.mods[k]) && MailInv(t.mods[k - 1], t.mods[k])
  {
    ThreadStepModules(c, s, k);
    ThreadKeepsLinkIn(RoleOf(c, k), s.mods[k - 1], ViewOf(s, k), s.exit, s.live);
    ThreadKeepsMailIn(RoleOf(c, k), s.mods[k - 1], ViewOf(s, k), s.exit, s.live);
  }

  lemma ThreadStepKeepsLinkOut(c: Config, s: State, k: nat)
    requires Enabled(c, s, ThreadStep(k)) && |s.mods| == c.modules && k + 1 < |s.mods|
    requires ModuleInv(RoleOf(c, k), s.mods[k])
    requires LinkInv(s.mods[k], s.mods[k + 1]) && MailInv(s.mods[k], s.mods[k + 1])
    ensures var t := Apply(c, s, ThreadStep(k));
            LinkInv(t.mods[k], t.mods[k + 1]) && MailInv(t.mods[k], t.mods[k + 1])
  {
    ThreadStepModules(c, s, k);
    ThreadKeepsLinkOut(RoleOf(c, k), ViewOf(s, k), s.mods[k + 1], s.exit, s.live);
    ThreadKeepsMailOut(RoleOf(c, k), ViewOf(s, k), s.mods[k + 1], s.exit, s.live);
  }

  lemma ThreadStepKeepsLink(c: Config, s: State, k: nat, j: nat)
    requires Enabled(c, s, ThreadStep(k)) && |s.mods| == c.modules && 1 <= j < |s.mods|
    requires ModuleInv(RoleOf(c, k), s.mods[k])
    requires LinkInv(s.mods[j - 1], s.mods[j]) && MailInv(s.mods[j - 1], s.mods[j])
    ensures var t := Apply(c, s, ThreadStep(k));
            LinkInv(t.mods[j - 1], t.mods[j]) && MailInv(t.mods[j - 1], t.mods[j])
  {
    if j == k {
      ThreadStepKeepsLinkIn(c, s, k);
    } else if j == k + 1 {
      ThreadStepKeepsLinkOut(c, s, k);
    } else {
      ThreadStepModules(c, s, k);
      if j == k + 2 {
        NextLinkUnmoved(s.mods[j - 1], ThreadMove(RoleOf(c, k), ViewOf(s, k), s.exit, s.live).next, s.mods[j]);
      }
    }
  }

  lemma TotalAfterOne(ms: seq<multiset<nat>>, k: nat, x: multiset<nat>, r: multiset<nat>, r': multiset<nat>)
    requires k < |ms| && r' + x == r + ms[k]
    ensures r' + Total(ms[k := x]) == r + Total(ms)
  {
    TotalAfter(ms, k, x);
    Cancel(r, ms[k], Total(ms), r', x, Total(ms[k := x]));
  }

  lemma TotalAfterTwo(ms: seq<multiset<nat>>, k: nat, x: multiset<nat>, y: multiset<nat>,
                      r: multiset<nat>, r': multiset<nat>)
    requires k + 1 < |ms| && r' + x + y == r + ms[k] + ms[k + 1]
    ensures r' + Total(ms[k := x][k + 1 := y]) == r + Total(ms)
  {
    TotalAfter(ms, k, x);
    TotalAfter(ms[k := x], k + 1, y);
    var t0, t1, t2 := Total(ms), Total(ms[k := x]), Total(ms[k := x][k + 1 := y]);
    forall o: nat ensures (r' + t2)[o] == (r + t0)[o] {
      assert (t1 + ms[k])[o] == (t0 + x)[o];
      assert (t2 + ms[k + 1])[o] == (t1 + y)[o];
      assert (r' + x + y)[o] == (r + ms[k] + ms[k + 1])[o];
    }
  }

  lemma Cancel(r: multiset<nat>, a: multiset<nat>, total: multiset<nat>,
               r': multiset<nat>, a': multiset<nat>, total': multiset<nat>)
    requires total' + a == total + a' && r' + a' == r + a
    ensures r' + total' == r + total
  {
    forall o: nat ensures (r' + total')[o] == (r + total)[o] {
      assert (total' + a)[o] == (total + a')[o];
      assert (r' + a')[o] == (r + a)[o];
    }
  }

  lemma SameSum(s: State, t: State, k: nat)
    requires k < |s.mods| == |t.mods|
    requires forall j | 0 <= j < |s.mods| && j != k :: Load(t.mods[j]) == Load(s.mods[j])
    requires multiset(t.ring) + Load(t.mods[k]) == multiset(s.ring) + Load(s.mods[k])
    ensures Everywhere(t) == Everywhere(s)
  {
    TotalAfterOne(Loads(s.mods), k, Load(t.mods[k]), multiset(s.ring), multiset(t.ring));
    assert Loads(t.mods) == Loads(s.mods)[k := Load(t.mods[k])];
  }

  lemma LoadsOfTwo(s: State, t: State, k: nat, x: multiset<nat>, y: multiset<nat>)
    requires k + 1 < |s.mods| == |t.mods| && Load(t.mods[k]) == x && Load(t.mods[k + 1]) == y
    requires forall j | 0 <= j < |s.mods| && j != k && j != k + 1 :: Load(t.mods[j]) == Load(s.mods[j])
    ensures Loads(t.mods) == Loads(s.mods)[k := x][k + 1 := y]
  {
  }

  lemma SameSumOfTwo(s: State, t: State, k: nat)
    requires k + 1 < |s.mods| == |t.mods|
    requires forall j | 0 <= j < |s.mods| && j != k && j != k + 1 :: Load(t.mods[j]) == Load(s.mods[j])
    requires multiset(t.ring) + Load(t.mods[k]) + Load(t.mods[k + 1])
          == multiset(s.ring) + Load(s.mods[k]) + Load(s.mods[k + 1])
    ensures Everywhere(t) == Everywhere(s)
  {
    var x, y := Load(t.mods[k]), Load(t.mods[k + 1]);
    LoadsOfTwo(s, t, k, x, y);
    TotalAfterTwo(Loads(s.mods), k, x, y, multiset(s.ring), multiset(t.ring));
  }

  lemma ThreadStepKeepsChunks(c: Config, s: State, k: nat)
    requires Enabled(c, s, ThreadStep(k)) && |s.mods| == c.modules >= 2
    requires ModuleInv(RoleOf(c, k), s.mods[k])
    requires k > 0 ==> LinkInv(s.mods[k - 1], s.mods[k])
    requires k + 1 < |s.mods| ==> LinkInv(s.mods[k], s.mods[k + 1])
    ensures Everywhere(Apply(c, s, ThreadStep(k))) == Everywhere(s)
  {
    var t := Apply(c, s, ThreadStep(k));
    var p := if k == 0 then s.mods[0] else s.mods[k - 1];
    ThreadStepModules(c, s, k);
    if k + 1 < |s.mods| {
      ThreadKeepsChunks(RoleOf(c, k), p, ViewOf(s, k), s.mods[k + 1], s.exit, s.live);
      SameSumOfTwo(s, t, k);
    } else {
      ThreadKeepsOwnChunks(RoleOf(c, k), p, ViewOf(s, k), s.exit, s.live);
      SameSum(s, t, k);
    }
  }

  lemma ChildStepModule(c: Config, s: State, e: Event)
    requires e.ChildStep? && Enabled(c, s, e) && |s.mods| == c.modules && ModuleInv(RoleOf(c, e.k), s.mods[e.k])
    ensures var t, k := Apply(c, s, e), e.k;
            && t.mods == s.mods[k := t.mods[k]] && t.ring == s.ring
            && ModuleInv(RoleOf(c, k), t.mods[k]) && SameLinks(s.mods[k], t.mods[k])
  {
    ChildKeepsModule(c, e.k, RoleOf(c, e.k), s.mods[e.k], s.mem, e.item, e.status);
    ChildKeepsLinks(c, e.k, s.mods[e.k], s.mem, e.item, e.status);
  }

  lemma ChildStepKeepsChunks(c: Config, s: State, e: Event)
    requires e.ChildStep? && Enabled(c, s, e) && |s.mods| == c.modules && ModuleInv(RoleOf(c, e.k), s.mods[e.k])
    ensures Everywhere(Apply(c, s, e)) == Everywhere(s)
  {
    ChildStepModule(c, s, e);
    SameSum(s, Apply(c, s, e), e.k);
  }

  lemma ChildStepKeepsLink(c: Config, s: State, e: Event, j: nat)
    requires e.ChildStep? && Enabled(c, s, e) && |s.mods| == c.modules && ModuleInv(RoleOf(c, e.k), s.mods[e.k])
    requires 1 <= j < |s.mods| && LinkInv(s.mods[j - 1], s.mods[j]) && MailInv(s.mods[j - 1], s.mods[j])
    ensures var t := Apply(c, s, e);
            LinkInv(t.mods[j - 1], t.mods[j]) && MailInv(t.mods[j - 1], t.mods[j])
  {
    ChildStepModule(c, s, e);
    LinkReadsOnly(s.mods[j - 1], s.mods[j], Apply(c, s, e).mods[j - 1], Apply(c, s, e).mods[j]);
  }

  lemma StepKeepsLocal(c: Config, s: State, e: Event, j: nat)
    requires Enabled(c, s, e) && |s.mods| == c.modules && j < |s.mods|
    requires Local(c, s.mods, j)
    requires e.ThreadStep? || e.ChildStep? ==> ModuleInv(RoleOf(c, e.k), s.mods[e.k])
    ensures var t := Apply(c, s, e); |t.mods| == |s.mods| && Local(c, t.mods, j)
  {
    if e.ThreadStep? {
      ThreadStepKeepsModule(c, s, e.k, j);
      if j > 0 {
        ThreadStepKeepsLink(c, s, e.k, j);
      }
    } else if e.ChildStep? {
      ChildStepModule(c, s, e);
      if j > 0 {
        ChildStepKeepsLink(c, s, e, j);
      }
    }
  }

  lemma StepKeepsChunks(c: Config, s: State, e: Event)
    requires Inv(c, s) && Enabled(c, s, e)
    ensures Everywhere(Apply(c, s, e)) == Everywhere(s)
  {
    if e.ThreadStep? {
      assert Local(c, s.mods, e.k);
      assert e.k + 1 < |s.mods| ==> Local(c, s.mods, e.k + 1);
      ThreadStepKeepsChunks(c, s, e.k);
    } else if e.ChildStep? {
      assert Local(c, s.mods, e.k);
      ChildStepKeepsChunks(c, s, e);
    }
  }

  lemma StepKeeps(c: Config, s: State, e: Event)
    requires Inv(c, s) && Enabled(c, s, e)
    ensures Inv(c, Apply(c, s, e))
  {
    forall j: nat | j < |s.mods|
      ensures var t := Apply(c, s, e); |t.mods| == |s.mods| && Local(c, t.mods, j)
    {
      assert Local(c, s.mods, j);
      assert e.ThreadStep? || e.ChildStep? ==> Local(c, s.mods, e.k);
      StepKeepsLocal(c, s, e, j);
    }
    StepKeepsChunks(c, s, e);
  }

  lemma {:induction false} AfterTwo(c: Config, s: State, es: seq<Event>, fs: seq<Event>)
    requires Legal(c, s, es) && Legal(c, After(c, s, es), fs)
    ensures Legal(c, s, es + fs) && After(c, s, es + fs) == After(c, After(c, s, es), fs)
    decreases |es|
  {
    if es == [] {
      assert es + fs == fs;
    } else {
      assert (es + fs)[1..] == es[1..] + fs;
      AfterTwo(c, Apply(c, s, es[0]), es[1..], fs);
    }
  }

  lemma OneMore(c: Config, s: State, es: seq<Event>, e: Event)
    requires Legal(c, s, es) && Enabled(c, After(c, s, es), e)
    ensures Legal(c, s, es + [e]) && After(c, s, es + [e]) == Apply(c, After(c, s, es), e)
  {
    var t, u := After(c, s, es), Apply(c, After(c, s, es), e);
    assert [e][1..] == [];
    assert Legal(c, u, []) && After(c, u, []) == u;
    assert Legal(c, t, [e]) && After(c, t, [e]) == u;
    AfterTwo(c, s, es, [e]);
  }

  lemma {:induction false} RunKeeps(c: Config, s: State, es: seq<Event>)
    requires Inv(c, s) && Legal(c, s, es)
    ensures Inv(c, After(c, s, es))
    decreases |es|
  {
    if es != [] {
      StepKeeps(c, s, es[0]);
      RunKeeps(c, Apply(c, s, es[0]), es[1..]);
    }
  }

  /** The invariant in every reachable state. */
  lemma Reachable(c: Config, mem: map<nat, Chunk>, es: seq<Event>)
    requires RunOf(c, mem, es)
    ensures Inv(c, StateAfter(c, mem, es))
  {
    StartHolds(c, mem);
    RunKeeps(c, Start(c, mem), es);
  }

  // ------------------------------------------------------------- ownership

  lemma {:induction false} MultiplesApart(i: nat, j: nat, size: nat)
    requires i < j
    ensures i * size + size <= j * size
  {
    assert j * size == (j - 1) * size + size;
    if i + 1 < j {
      MultiplesApart(i, j - 1, size);
    }
  }

  lemma OffsetsDistinct(c: Config, i: nat, j: nat)
    requires c.Valid() && i < j < c.dataCnt
    ensures c.Offsets()[i] + c.dataSize <= c.Offsets()[j]
  {
    MultiplesApart(i, j, c.dataSize);
  }

  lemma {:induction false} DistinctOnce(xs: seq<nat>, o: nat)
    requires forall i, j | 0 <= i < j < |xs| :: xs[i] != xs[j]
    ensures multiset(xs)[o] <= 1
  {
    if xs != [] {
      var last := |xs| - 1;
      assert xs == xs[..last] + [xs[last]];
      DistinctOnce(xs[..last], o);
      if o == xs[last] {
        assert o !in xs[..last];
      }
    }
  }

  lemma {:induction false} TotalCovers(ms: seq<multiset<nat>>, i: nat, o: nat)
    requires i < |ms|
    ensures ms[i][o] <= Total(ms)[o]
  {
    if i < |ms| - 1 {
      TotalCovers(ms[..|ms| - 1], i, o);
    }
  }

  lemma {:induction false} TotalCoversTwo(ms: seq<multiset<nat>>, i: nat, j: nat, o: nat)
    requires i < j < |ms|
    ensures ms[i][o] + ms[j][o] <= Total(ms)[o]
  {
    if j < |ms| - 1 {
      TotalCoversTwo(ms[..|ms| - 1], i, j, o);
    } else {
      TotalCovers(ms[..j], i, o);
    }
  }

  /** No offset is in two places. */
  lemma PlacedOnce(c: Config, s: State, o: nat)
    requires c.Valid() && Inv(c, s)
    ensures multiset(s.ring)[o] + Total(Loads(s.mods))[o] <= 1
  {
    forall i, j | 0 <= i < j < c.dataCnt ensures c.Offsets()[i] != c.Offsets()[j] {
      OffsetsDistinct(c, i, j);
    }
    DistinctOnce(c.Offsets(), o);
    assert Everywhere(s)[o] <= 1;
  }

  lemma OwnedOnce(c: Config, s: State, j: nat, k: nat, o: nat)
    requires c.Valid() && Inv(c, s) && j < |s.mods| && k < |s.mods| && j != k
    requires o in Load(s.mods[j])
    ensures Load(s.mods[j])[o] == 1 && o !in Load(s.mods[k]) && o !in s.ring
  {
    PlacedOnce(c, s, o);
    TotalCoversTwo(Loads(s.mods), if j < k then j else k, if j < k then k else j, o);
  }
}
