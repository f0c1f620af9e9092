/** Pieces of runs of the collector, for the proofs that something can happen. */
module CollectorRuns {
  import opened CollectorModel

  ghost predicate Reaches(c: Config, s: System, t: System)
    requires c.Valid()
  {
    exists es :: Legal(c, s, es) && After(c, s, es) == t
  }

  /** The modelled code sets exit flags where a read of a TCP source fails, in a watchdog
      that leaves its loop and in the collector; nobody else does so here. */
  ghost predicate Own(e: Event) {
    !e.RaiseExit?
  }

  ghost predicate OwnRun(es: seq<Event>) {
    forall e | e in es :: Own(e)
  }

  /** Nobody outside the modelled code is needed to get there. */
  ghost predicate Arrives(c: Config, s: System, t: System)
    requires c.Valid()
  {
    exists es :: Legal(c, s, es) && OwnRun(es) && After(c, s, es) == t
  }

  lemma {:induction false} AfterTwo(c: Config, s: System, es: seq<Event>, fs: seq<Event>)
    requires c.Valid() && Legal(c, s, es) && Legal(c, After(c, s, es), fs)
    ensures Legal(c, s, es + fs) && After(c, s, es + fs) == After(c, After(c, s, es), fs)
    ensures OwnRun(es) && OwnRun(fs) ==> OwnRun(es + fs)
    decreases |es|
  {
    if es == [] {
      assert es + fs == fs;
    } else {
      assert (es + fs)[1..] == es[1..] + fs;
      AfterTwo(c, Apply(c, s, es[0]), es[1..], fs);
    }
  }

  lemma OneMore(c: Config, s: System, es: seq<Event>, e: Event)
    requires c.Valid() && Legal(c, s, es) && Enabled(c, After(c, s, es), e)
    ensures Legal(c, s, es + [e]) && After(c, s, es + [e]) == Apply(c, After(c, s, es), e)
    ensures OwnRun(es) && Own(e) ==> OwnRun(es + [e])
  {
    var t, u := After(c, s, es), Apply(c, After(c, s, es), e);
    assert [e][1..] == [];
    assert Legal(c, u, []) && After(c, u, []) == u && OwnRun([]);
    assert Legal(c, t, [e]) && After(c, t, [e]) == u;
    AfterTwo(c, s, es, [e]);
  }

  lemma Onward(c: Config, s: System, t: System, u: System)
    requires c.Valid() && Reaches(c, s, t) && Reaches(c, t, u)
    ensures Reaches(c, s, u)
  {
    var es :| Legal(c, s, es) && After(c, s, es) == t;
    var fs :| Legal(c, t, fs) && After(c, t, fs) == u;
    AfterTwo(c, s, es, fs);
  }

  lemma OwnOnward(c: Config, s: System, t: System, u: System)
    requires c.Valid() && Arrives(c, s, t) && Arrives(c, t, u)
    ensures Arrives(c, s, u)
  {
    var es :| Legal(c, s, es) && OwnRun(es) && After(c, s, es) == t;
    var fs :| Legal(c, t, fs) && OwnRun(fs) && After(c, t, fs) == u;
    AfterTwo(c, s, es, fs);
  }

  /** One more step. */
  lemma Then(c: Config, s: System, t: System, e: Event)
    requires c.Valid() && Reaches(c, s, t) && Enabled(c, t, e)
    ensures Reaches(c, s, Apply(c, t, e))
  {
    var es :| Legal(c, s, es) && After(c, s, es) == t;
    OneMore(c, s, es, e);
  }

  lemma OwnThen(c: Config, s: System, t: System, e: Event)
    requires c.Valid() && Arrives(c, s, t) && Enabled(c, t, e) && Own(e)
    ensures Arrives(c, s, Apply(c, t, e))
  {
    var es :| Legal(c, s, es) && OwnRun(es) && After(c, s, es) == t;
    OneMore(c, s, es, e);
  }

  lemma Here(c: Config, s: System)
    requires c.Valid()
    ensures Arrives(c, s, s) && Reaches(c, s, s)
  {
    assert Legal(c, s, []) && OwnRun([]) && After(c, s, []) == s;
  }

  /** first_action takes the name and generates the next one. */
  lemma NameTaken(c: Config, s: System) returns (t: System)
    requires c.Valid() && s.action.Call? && !s.exit && s.dataReady > 0
    ensures Arrives(c, s, t)
    ensures t == s.(dataReady := s.dataReady - 1, published := s.published + [s.name], action := Write,
                    generated := s.next, next := s.next + 1)
  {
    Here(c, s);
    t := s;
    OwnThen(c, s, t, ActionStep); t := Apply(c, t, ActionStep);
    OwnThen(c, s, t, ActionStep); t := Apply(c, t, ActionStep);
    OwnThen(c, s, t, ActionStep); t := Apply(c, t, ActionStep);
    OwnThen(c, s, t, ActionStep); t := Apply(c, t, ActionStep);
  }

  /** first_action takes the name, generates the next one and posts empty_ready. */
  lemma ActionRound(c: Config, s: System) returns (t: System)
    requires c.Valid() && s.action.Call? && !s.exit && s.dataReady > 0
    ensures Arrives(c, s, t)
    ensures t == s.(dataReady := s.dataReady - 1, emptyReady := s.emptyReady + 1, published := s.published + [s.name],
                    name := s.next, generated := s.next, next := s.next + 1)
  {
    t := NameTaken(c, s);
    OwnThen(c, s, t, ActionStep); t := Apply(c, t, ActionStep);
    OwnThen(c, s, t, ActionStep); t := Apply(c, t, ActionStep);
    OwnThen(c, s, t, ActionStep); t := Apply(c, t, ActionStep);
  }

  /** The collector gives every source from k on its new name and empty_ready. */
  lemma {:induction false} CopyFrom(c: Config, s: System, k: nat) returns (t: System)
    requires c.Valid() && s.collector == Copy(k) && k <= |s.sources| && !s.exit
    ensures Arrives(c, s, t) && t == s.(collector := Gather(0), sources := t.sources) && |t.sources| == |s.sources|
    ensures forall j | 0 <= j < |s.sources| :: t.sources[j] ==
              var x := s.sources[j]; if j < k then x else x.(obj := s.name, empty := x.empty + 1)
    decreases |s.sources| - k
  {
    Here(c, s);
    OwnThen(c, s, s, CollectorStep);
    var u := Apply(c, s, CollectorStep);
    OwnThen(c, s, u, CollectorStep);
    u := Apply(c, u, CollectorStep);
    if k == |s.sources| {
      t := u;
    } else {
      OwnThen(c, s, u, CollectorStep);
      u := Apply(c, u, CollectorStep);
      t := CopyFrom(c, u, k + 1);
      OwnOnward(c, s, u, t);
    }
  }

  /** The collector takes data_ready of every source from k on. */
  lemma {:induction false} GatherFrom(c: Config, s: System, k: nat) returns (t: System)
    requires c.Valid() && s.collector == Gather(k) && k <= |s.sources|
    requires forall j | k <= j < |s.sources| :: s.sources[j].ready > 0
    ensures Arrives(c, s, t)
    ensures t == s.(collector := Scan(0), dataReady := s.dataReady + 1, sources := t.sources)
    ensures |t.sources| == |s.sources|
    ensures forall j | 0 <= j < |s.sources| :: t.sources[j] ==
              var x := s.sources[j]; if j < k then x else x.(ready := x.ready - 1)
    decreases |s.sources| - k
  {
    Here(c, s);
    OwnThen(c, s, s, CollectorStep);
    var u := Apply(c, s, CollectorStep);
    if k == |s.sources| {
      t := u;
    } else {
      t := GatherFrom(c, u, k + 1);
      OwnOnward(c, s, u, t);
    }
  }

  /** No exit_flag is set, so the collector waits for the next round. */
  lemma {:induction false} ScanFrom(c: Config, s: System, k: nat) returns (t: System)
    requires c.Valid() && s.collector == Scan(k) && k <= |s.sources| && !s.exit
    requires forall j | k <= j < |s.sources| :: !s.sources[j].exit
    ensures Arrives(c, s, t) && t == s.(collector := CollectorPc.WaitEmpty)
    decreases |s.sources| - k
  {
    Here(c, s);
    OwnThen(c, s, s, CollectorStep);
    var u := Apply(c, s, CollectorStep);
    if k == |s.sources| {
      OwnThen(c, s, u, CollectorStep);
      t := Apply(c, u, CollectorStep);
    } else {
      t := ScanFrom(c, u, k + 1);
      OwnOnward(c, s, u, t);
    }
  }

  /** A source has had as many frames as an object may have and posts data_ready. */
  lemma Boundary(c: Config, s: System, j: nat) returns (t: System)
    requires c.Valid() && j < |s.sources| == |c.camera| && s.sources[j].pc.Loop?
    requires !s.sources[j].exit && !s.sources[j].stopped && s.sources[j].frames % c.limit == 0
    ensures Arrives(c, s, t)
    ensures var x := s.sources[j];
            t == s.(sources := s.sources[j := x.(pc := ExitTest, ready := x.ready + 1, frames := 0)])
  {
    var e := SourceStep(j, false, 0);
    Here(c, s);
    t := s;
    OwnThen(c, s, t, e); t := Apply(c, t, e);
    OwnThen(c, s, t, e); t := Apply(c, t, e);
    OwnThen(c, s, t, e); t := Apply(c, t, e);
    assert t.store == s.store;
    assert t.sources == s.sources[j := t.sources[j]];
  }

  /** A source takes its first empty_ready. */
  lemma Admitted(c: Config, s: System, j: nat) returns (t: System)
    requires c.Valid() && j < |s.sources| == |c.camera| && s.sources[j].pc.First? && s.sources[j].empty > 0
    ensures Arrives(c, s, t)
    ensures var x := s.sources[j]; t == s.(sources := s.sources[j := x.(pc := Loop, empty := x.empty - 1)])
  {
    var e := SourceStep(j, false, 0);
    Here(c, s);
    OwnThen(c, s, s, e);
    t := Apply(c, s, e);
    assert t.store == s.store;
  }

  /** Then it meets its first object boundary. */
  lemma FirstBoundary(c: Config, s: System, j: nat) returns (t: System)
    requires c.Valid() && j < |s.sources| == |c.camera| && s.sources[j].pc.First? && s.sources[j].empty > 0
    requires !s.sources[j].exit && !s.sources[j].stopped && s.sources[j].frames == 0
    ensures Arrives(c, s, t)
    ensures var x := s.sources[j];
            t == s.(sources := s.sources[j := x.(pc := ExitTest, empty := x.empty - 1, ready := x.ready + 1)])
  {
    var u := Admitted(c, s, j);
    t := Boundary(c, u, j);
    OwnOnward(c, s, u, t);
  }

  lemma {:induction false} FirstBoundaries(c: Config, s: System, k: nat) returns (t: System)
    requires c.Valid() && k <= |s.sources| == |c.camera|
    requires forall j | k <= j < |s.sources| ::
               var x := s.sources[j];
               x.pc.First? && x.empty == 1 && !x.exit && !x.stopped && x.frames == 0 && x.ready == 0
    ensures Arrives(c, s, t) && t == s.(sources := t.sources) && |t.sources| == |s.sources|
    ensures forall j | 0 <= j < |s.sources| :: t.sources[j] ==
              var x := s.sources[j]; if j < k then x else x.(pc := ExitTest, empty := 0, ready := 1)
    decreases |s.sources| - k
  {
    if k == |s.sources| {
      Here(c, s);
      t := s;
    } else {
      var u := FirstBoundary(c, s, k);
      t := FirstBoundaries(c, u, k + 1);
      OwnOnward(c, s, u, t);
    }
  }

  /** The watchdog of a camera source that has been told to exit posts data_ready. */
  lemma DogPosts(c: Config, s: System, j: nat) returns (t: System)
    requires c.Valid() && j < |s.sources| == |c.camera| && c.camera[j]
    requires var x := s.sources[j]; !x.pc.First? && x.dog.Watching?
    ensures Reaches(c, s, t)
    ensures var x := s.sources[j]; t == s.(sources := s.sources[j :=
              x.(exit := true, stopped := true, dog := Gone, ready := x.ready + 1, quit := true)])
  {
    Here(c, s);
    t := s;
    Then(c, s, t, RaiseExit(j)); t := Apply(c, t, RaiseExit(j));
    Then(c, s, t, DogStep(j)); t := Apply(c, t, DogStep(j));
    Then(c, s, t, DogStep(j)); t := Apply(c, t, DogStep(j));
    Then(c, s, t, DogStep(j)); t := Apply(c, t, DogStep(j));
    assert t.sources == s.sources[j := t.sources[j]];
  }

  /** A read of a TCP source fails: it sets exit_flag, leaves its loop and posts
      data_ready. */
  lemma StreamFails(c: Config, s: System, j: nat) returns (t: System)
    requires c.Valid() && j < |s.sources| == |c.camera| && !c.camera[j] && s.sources[j].pc.Loop?
    ensures Arrives(c, s, t)
    ensures var x := s.sources[j];
            t == s.(sources := s.sources[j := x.(pc := Finished, exit := true, ready := x.ready + 1)])
  {
    var e := SourceStep(j, false, 0);
    Here(c, s);
    t := s;
    OwnThen(c, s, t, ReadFails(j)); t := Apply(c, t, ReadFails(j));
    OwnThen(c, s, t, e); t := Apply(c, t, e);
    assert t.store == s.store;
    assert t.sources == s.sources[j := t.sources[j]];
  }

  /** first_action takes a name, and the collector hands out the next one. */
  lemma NextRound(c: Config, s: System) returns (t: System)
    requires c.Valid() && s.action.Call? && !s.exit && s.dataReady > 0 && s.collector == CollectorPc.WaitEmpty
    ensures Arrives(c, s, t) && |t.sources| == |s.sources|
    ensures t == s.(collector := Gather(0), dataReady := s.dataReady - 1, published := s.published + [s.name],
                    name := s.next, generated := s.next, next := s.next + 1, sources := t.sources)
    ensures forall j | 0 <= j < |s.sources| ::
              t.sources[j] == s.sources[j].(obj := s.next, empty := s.sources[j].empty + 1)
  {
    var u := ActionRound(c, s);
    OwnThen(c, s, u, CollectorStep);
    var v := Apply(c, u, CollectorStep);
    t := CopyFrom(c, v, 0);
    OwnOnward(c, s, v, t);
  }

  /** The first name is handed out. */
  lemma OneRound(c: Config) returns (t: System)
    requires c.Valid()
    ensures Arrives(c, Start(c), t)
    ensures t.collector == Gather(0) && !t.exit && t.dataReady == 0 && t.emptyReady == 0 && t.action.Call?
    ensures t.name == 1 && t.next == 2 && t.published == [0] && t.store == [] && |t.sources| == |c.camera|
    ensures forall j | 0 <= j < |t.sources| ::
              t.sources[j] == Source(First, false, 1, 0, 1, 0, Watching, false, false)
  {
    t := NextRound(c, Start(c));
  }
}
