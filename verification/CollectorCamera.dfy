/** A camera source has a watchdog thread that posts data_ready without regard to
    the thread that receives the frames.  This module shows that exactly this makes
    a published object change. */
module CollectorCamera {
  import opened CollectorModel
  import CollectorEnd
  import CollectorInvariant
  import CollectorObjects
  import opened CollectorRuns

  /** A source adds a frame, if there is a callback. */
  lemma FrameAdded(c: Config, s: System, j: nat) returns (t: System)
    requires c.Valid() && j < |s.sources| == |c.camera| && s.sources[j].pc.AddTest? && !s.sources[j].exit
    ensures Arrives(c, s, t)
    ensures t == s.(sources := s.sources[j := s.sources[j].(pc := Count)], store := t.store)
  {
    var e := SourceStep(j, false, 0);
    Here(c, s);
    t := s;
    OwnThen(c, s, t, e); t := Apply(c, t, e);
    if c.adds {
      OwnThen(c, s, t, e); t := Apply(c, t, e);
    }
    assert t.sources == s.sources[j := t.sources[j]];
  }

  lemma FrameDone(c: Config, s: System, j: nat) returns (t: System)
    requires c.Valid() && j < |s.sources| == |c.camera| && s.sources[j].pc.AddTest? && !s.sources[j].exit
    ensures Arrives(c, s, t)
    ensures var x := s.sources[j];
            t == s.(sources := s.sources[j := x.(pc := Loop, frames := x.frames + 1)], store := t.store)
  {
    var u := FrameAdded(c, s, j);
    var e := SourceStep(j, false, 0);
    OwnThen(c, s, u, e);
    t := Apply(c, u, e);
    assert t.sources == s.sources[j := t.sources[j]];
  }

  /** A source takes a frame that does not begin an object. */
  lemma SameObject(c: Config, s: System, j: nat) returns (t: System)
    requires c.Valid() && j < |s.sources| == |c.camera| && s.sources[j].pc.Loop?
    requires !s.sources[j].exit && !s.sources[j].stopped && s.sources[j].frames % c.limit != 0
    ensures Arrives(c, s, t) && t == s.(sources := s.sources[j := s.sources[j].(pc := AddTest)])
  {
    var e := SourceStep(j, false, 0);
    Here(c, s);
    t := s;
    OwnThen(c, s, t, e); t := Apply(c, t, e);
    OwnThen(c, s, t, e); t := Apply(c, t, e);
    assert t.store == s.store;
    assert t.sources == s.sources[j := t.sources[j]];
  }

  /** A source that has had some frames of an object goes on to its next boundary. */
  lemma {:induction false} Completes(c: Config, s: System, j: nat) returns (t: System)
    requires c.Valid() && j < |s.sources| == |c.camera|
    requires var x := s.sources[j]; x.pc.Loop? && !x.exit && !x.stopped && 1 <= x.frames <= c.limit
    ensures Arrives(c, s, t) && j < |t.sources| && t.sources[j].ready == s.sources[j].ready + 1
    ensures t == s.(sources := s.sources[j := t.sources[j]], store := t.store)
    decreases c.limit - s.sources[j].frames
  {
    if s.sources[j].frames == c.limit {
      t := Boundary(c, s, j);
    } else {
      var u := SameObject(c, s, j);
      var v := FrameDone(c, u, j);
      OwnOnward(c, s, u, v);
      t := Completes(c, v, j);
      OwnOnward(c, s, v, t);
      assert s.sources[j := v.sources[j]][j := t.sources[j]] == s.sources[j := t.sources[j]];
    }
  }

  /** A source at an object boundary that may go on, and has not posted again. */
  ghost predicate Waiting(x: Source) {
    x.pc.ExitTest? && x.empty == 1 && x.ready == 0 && x.obj == 2 && x.frames == 0 &&
    !x.exit && !x.stopped && x.dog.Watching? && !x.quit
  }

  /** It takes empty_ready. */
  lemma GoesOn(c: Config, s: System, j: nat) returns (t: System)
    requires c.Valid() && j < |s.sources| == |c.camera| && Waiting(s.sources[j])
    ensures Arrives(c, s, t) && t == s.(sources := s.sources[j := s.sources[j].(pc := AddTest, empty := 0)])
  {
    var e := SourceStep(j, false, 0);
    Here(c, s);
    t := s;
    OwnThen(c, s, t, e); t := Apply(c, t, e);
    OwnThen(c, s, t, e); t := Apply(c, t, e);
    assert t.store == s.store;
    assert t.sources == s.sources[j := t.sources[j]];
  }

  lemma WholeObject(c: Config, s: System, j: nat) returns (t: System)
    requires c.Valid() && j < |s.sources| == |c.camera| && Waiting(s.sources[j])
    ensures Arrives(c, s, t) && j < |t.sources| && t.sources[j].ready == 1
    ensures t == s.(sources := s.sources[j := t.sources[j]], store := t.store)
  {
    var u := GoesOn(c, s, j);
    var v := FrameDone(c, u, j);
    OwnOnward(c, s, u, v);
    t := Completes(c, v, j);
    OwnOnward(c, s, v, t);
    assert s.sources[j := v.sources[j]][j := t.sources[j]] == s.sources[j := t.sources[j]];
  }

  /** All sources from k on but i have their frames of an object and post data_ready. */
  lemma {:induction false} OthersComplete(c: Config, s: System, i: nat, k: nat) returns (t: System)
    requires c.Valid() && k <= |s.sources| == |c.camera|
    requires forall j | k <= j < |s.sources| && j != i :: Waiting(s.sources[j])
    ensures Arrives(c, s, t) && t == s.(sources := t.sources, store := t.store) && |t.sources| == |s.sources|
    ensures forall j | 0 <= j < |s.sources| ::
              if j < k || j == i then t.sources[j] == s.sources[j] else t.sources[j].ready == 1
    decreases |s.sources| - k
  {
    if k == |s.sources| {
      Here(c, s);
      t := s;
    } else if k == i {
      t := OthersComplete(c, s, i, k + 1);
    } else {
      var u := WholeObject(c, s, k);
      t := OthersComplete(c, u, i, k + 1);
      OwnOnward(c, s, u, t);
    }
  }

  /** All sources have met their first boundary, and the collector waits for object 2. */
  ghost predicate BetweenRounds(c: Config, s: System) {
    && s.collector == CollectorPc.WaitEmpty && !s.exit && s.dataReady == 1 && s.emptyReady == 0 && s.action.Call?
    && s.name == 1 && s.next == 2 && s.published == [0] && s.store == [] && |s.sources| == |c.camera|
    && forall j | 0 <= j < |s.sources| :: Waiting(s.sources[j].(empty := 1, obj := 2)) && s.sources[j].empty == 0
  }

  lemma RoundGathered(c: Config, s: System) returns (t: System)
    requires c.Valid() && |s.sources| == |c.camera| && s.collector == Gather(0) && !s.exit
    requires forall j | 0 <= j < |s.sources| :: s.sources[j].ready == 1 && !s.sources[j].exit
    ensures Arrives(c, s, t) && |t.sources| == |s.sources|
    ensures t == s.(collector := CollectorPc.WaitEmpty, dataReady := s.dataReady + 1, sources := t.sources)
    ensures forall j | 0 <= j < |s.sources| :: t.sources[j] == s.sources[j].(ready := 0)
  {
    var u := GatherFrom(c, s, 0);
    t := ScanFrom(c, u, 0);
    OwnOnward(c, s, u, t);
  }

  lemma FirstRound(c: Config) returns (t: System)
    requires c.Valid()
    ensures Arrives(c, Start(c), t) && BetweenRounds(c, t)
  {
    var b := Start(c);
    var s := OneRound(c);
    var u := FirstBoundaries(c, s, 0);
    OwnOnward(c, b, s, u);
    t := RoundGathered(c, u);
    OwnOnward(c, b, u, t);
  }

  /** After two rounds every source is at an object boundary and has been given
      object 2. */
  lemma TwoRounds(c: Config) returns (t: System)
    requires c.Valid()
    ensures Arrives(c, Start(c), t)
    ensures t.collector == Gather(0) && !t.exit && t.dataReady == 0 && t.action.Call? && t.name == 2
    ensures t.published == [0, 1] && t.store == [] && |t.sources| == |c.camera|
    ensures forall j | 0 <= j < |t.sources| :: Waiting(t.sources[j])
  {
    var s := FirstRound(c);
    t := NextRound(c, s);
    OwnOnward(c, Start(c), s, t);
  }

  /** A source that may go on to the next object is about to add a frame to it. */
  lemma BeforeAdd(c: Config, s: System, i: nat) returns (t: System)
    requires c.Valid() && i < |s.sources| == |c.camera| && c.adds && Waiting(s.sources[i])
    ensures Arrives(c, s, t) && t == s.(sources := s.sources[i := s.sources[i].(pc := Add, empty := 0)])
  {
    var u := GoesOn(c, s, i);
    var e := SourceStep(i, false, 0);
    OwnThen(c, s, u, e);
    t := Apply(c, u, e);
    assert t.store == s.store;
    assert t.sources == s.sources[i := t.sources[i]];
  }

  /** Source i is about to add a frame to object 2 when its watchdog posts, and all
      others complete the object. */
  lemma HastyWatchdog(c: Config, i: nat) returns (t: System)
    requires c.Valid() && i < |c.camera| && c.camera[i] && c.adds
    ensures Reaches(c, Start(c), t) && t.published == [0, 1] && t.name == 2 && |t.sources| == |c.camera|
    ensures t.collector == Gather(0) && !t.exit && t.dataReady == 0 && t.action.Call?
    ensures t.sources[i].pc.Add? && t.sources[i].obj == 2
    ensures forall j | 0 <= j < |t.sources| :: t.sources[j].ready == 1
  {
    var b := Start(c);
    var s := TwoRounds(c);
    var a := BeforeAdd(c, s, i);
    OwnOnward(c, b, s, a);
    var u := DogPosts(c, a, i);
    Onward(c, b, a, u);
    t := OthersComplete(c, u, i, 0);
    Onward(c, b, u, t);
  }

  /** The object is published. */
  lemma PublishedEarly(c: Config, i: nat) returns (t: System)
    requires c.Valid() && i < |c.camera| && c.camera[i] && c.adds
    ensures Reaches(c, Start(c), t) && t.published == [0, 1, 2]
    ensures |t.sources| == |c.camera| && t.sources[i].pc.Add? && t.sources[i].obj == 2
  {
    var b := Start(c);
    var s := HastyWatchdog(c, i);
    var u := GatherFrom(c, s, 0);
    Onward(c, b, s, u);
    t := NameTaken(c, u);
    Onward(c, b, u, t);
  }

  /** Then the frame arrives. */
  lemma CameraIsUnsafe(c: Config, i: nat)
    requires c.Valid() && i < |c.camera| && c.camera[i] && c.adds
    ensures !CollectorObjects.AllRunsSafe(c)
  {
    var s := PublishedEarly(c, i);
    var es :| Legal(c, Start(c), es) && After(c, Start(c), es) == s;
    var e := SourceStep(i, false, 0);
    Here(c, s);
    Then(c, s, s, e);
    var t := Apply(c, s, e);
    var fs :| Legal(c, s, fs) && After(c, s, fs) == t;
    var late := Stored(2, i, 0);
    assert t.store == s.store + [late];
    assert t.store[..|s.store|] == s.store;
    assert Contents(t.store, 2) == Contents(s.store, 2) + [late];
  }

  lemma {:induction false} NothingIsAdded(c: Config, s: System, es: seq<Event>)
    requires c.Valid() && !c.adds && Legal(c, s, es) && s.store == [] && |s.sources| == |c.camera|
    requires forall j | 0 <= j < |s.sources| :: !s.sources[j].pc.Add?
    ensures var t := After(c, s, es);
            t.store == [] && |t.sources| == |c.camera| && forall j | 0 <= j < |t.sources| :: !t.sources[j].pc.Add?
    decreases |es|
  {
    if es != [] {
      NothingIsAdded(c, Apply(c, s, es[0]), es[1..]);
    }
  }

  /** Exactly when every run keeps published objects as they are: there is no
      camera source, or no frame is ever added. */
  lemma SafeWithoutCameras(c: Config)
    requires c.Valid()
    ensures CollectorObjects.AllRunsSafe(c) <==> !c.adds || forall i | 0 <= i < |c.camera| :: !c.camera[i]
  {
    if !c.adds {
      forall es, fs, p: nat |
        Legal(c, Start(c), es) && Legal(c, After(c, Start(c), es), fs) && p < |After(c, Start(c), es).published|
        ensures Contents(After(c, After(c, Start(c), es), fs).store, p) == Contents(After(c, Start(c), es).store, p)
      {
        NothingIsAdded(c, Start(c), es);
        NothingIsAdded(c, After(c, Start(c), es), fs);
      }
    } else if i: nat :| i < |c.camera| && c.camera[i] {
      CameraIsUnsafe(c, i);
    } else {
      CollectorObjects.TcpSourcesAreSafe(c);
    }
  }

  lemma {:induction false} OwnRunIsCareful(c: Config, s: System, es: seq<Event>)
    requires CollectorInvariant.Inv(c, s) && CollectorEnd.AllLeave(c, s) && Legal(c, s, es) && OwnRun(es)
    ensures Careful(c, s, es)
    decreases |es|
  {
    if es != [] {
      CollectorInvariant.StepKeeps(c, s, es[0]);
      CollectorEnd.StepAllLeave(c, s, es[0]);
      assert !Hasty(s, es[0]);
      OwnRunIsCareful(c, Apply(c, s, es[0]), es[1..]);
    }
  }

  lemma OwnRunsAreCareful(c: Config, es: seq<Event>, fs: seq<Event>)
    requires c.Valid() && Legal(c, Start(c), es) && OwnRun(es)
    requires Legal(c, After(c, Start(c), es), fs) && OwnRun(fs)
    ensures Careful(c, Start(c), es) && Careful(c, After(c, Start(c), es), fs)
  {
    CollectorInvariant.StartHolds(c);
    CollectorEnd.StartLeaves(c);
    CollectorEnd.OwnRunFromStart(c, es);
    OwnRunIsCareful(c, Start(c), es);
    OwnRunIsCareful(c, After(c, Start(c), es), fs);
  }

  /** As long as flags are raised only by failed reads, no watchdog leaves its loop and
      published objects keep their frames, with cameras too. */
  lemma SafeByItself(c: Config, es: seq<Event>, fs: seq<Event>, p: nat)
    requires c.Valid() && Legal(c, Start(c), es) && OwnRun(es)
    requires Legal(c, After(c, Start(c), es), fs) && OwnRun(fs)
    requires p < |After(c, Start(c), es).published|
    ensures Contents(After(c, After(c, Start(c), es), fs).store, p) == Contents(After(c, Start(c), es).store, p)
  {
    OwnRunsAreCareful(c, es, fs);
    CollectorObjects.PublishedNeverChanges(c, es, fs, p);
  }
}
