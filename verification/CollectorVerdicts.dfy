/** To which object each frame of a source is added, computed from the answers of its
    detection callback. */
module CollectorVerdicts {
  import opened CollectorModel
  import opened CollectorInvariant
  import opened CollectorRuns

  /** The objects of the frames that source i has added, frame by frame. */
  function Objects(store: seq<Stored>, i: nat): seq<nat> {
    if store == [] then []
    else
      var last := store[|store| - 1];
      Objects(store[..|store| - 1], i) + if last.source == i then [last.obj] else []
  }

  function Occurs(xs: seq<nat>, o: nat): nat {
    if xs == [] then 0 else Occurs(xs[..|xs| - 1], o) + One(xs[|xs| - 1] == o)
  }

  /** The object of the frame after those with objects objs: the first frame of all goes
      to object 2; a frame begins an object if the callback says so or if `limit` frames
      have gone to the one before, and otherwise stays with it. */
  function NextObject(c: Config, i: nat, objs: seq<nat>, detected: bool): nat
    requires i < |c.detects|
  {
    if objs == [] then 2
    else
      var current := objs[|objs| - 1];
      if (c.detects[i] && detected) || Occurs(objs, current) == c.limit then current + 1 else current
  }

  /** The objects of the frames of which the callback has said vs. */
  function Assigned(c: Config, i: nat, vs: seq<bool>): (objs: seq<nat>)
    requires i < |c.detects|
    ensures |objs| == |vs|
  {
    if vs == [] then []
    else
      var front := Assigned(c, i, vs[..|vs| - 1]);
      front + [NextObject(c, i, front, vs[|vs| - 1])]
  }

  lemma AssignedOneMore(c: Config, i: nat, vs: seq<bool>, v: bool)
    requires i < |c.detects|
    ensures var front := Assigned(c, i, vs);
            Assigned(c, i, vs + [v]) == front + [NextObject(c, i, front, v)]
  {
    assert (vs + [v])[..|vs|] == vs;
  }

  lemma {:induction false} AssignedPrefix(c: Config, i: nat, vs: seq<bool>, n: nat)
    requires i < |c.detects| && n <= |vs|
    ensures Assigned(c, i, vs[..n]) == Assigned(c, i, vs)[..n]
  {
    if n < |vs| {
      var front := vs[..|vs| - 1];
      AssignedPrefix(c, i, front, n);
      assert front[..n] == vs[..n];
    } else {
      assert vs[..n] == vs;
    }
  }

  /** What the callback of source i says in a step. */
  function Verdict(s: System, e: Event, i: nat): seq<bool> {
    if e.SourceStep? && e.i == i < |s.sources| && s.sources[i].pc.Judge? then [e.detected] else []
  }

  /** What it says in a run, frame by frame. */
  function Verdicts(c: Config, s: System, es: seq<Event>, i: nat): seq<bool>
    requires c.Valid() && Legal(c, s, es)
    decreases |es|
  {
    if es == [] then [] else Verdict(s, es[0], i) + Verdicts(c, Apply(c, s, es[0]), es[1..], i)
  }

  lemma ObjectsOneMore(store: seq<Stored>, added: Stored, i: nat)
    ensures Objects(store + [added], i) == Objects(store, i) + if added.source == i then [added.obj] else []
  {
    assert (store + [added])[..|store|] == store;
  }

  lemma OccursOneMore(xs: seq<nat>, x: nat, o: nat)
    ensures Occurs(xs + [x], o) == Occurs(xs, o) + One(x == o)
  {
    assert (xs + [x])[..|xs|] == xs;
  }

  lemma {:induction false} FramesAreOccurrences(store: seq<Stored>, i: nat, o: nat)
    ensures Occurs(Objects(store, i), o) == Frames(store, o, i)
  {
    if store != [] {
      var front, last := store[..|store| - 1], store[|store| - 1];
      FramesAreOccurrences(front, i, o);
      OccursOneMore(Objects(front, i), last.obj, o);
      assert last.source != i ==> Objects(store, i) == Objects(front, i);
    }
  }

  // ------------------------------------------------------------- the invariant

  /** The frames objs have been added and one more has been judged, whose object is due. */
  ghost predicate OnePending(objs: seq<nat>, all: seq<nat>, due: nat) {
    all == objs + [due]
  }

  /** The object of the last frame is the current one; before the first frame it is 1. */
  ghost predicate Current(objs: seq<nat>, obj: nat) {
    if obj <= 1 then objs == [] else objs != [] && objs[|objs| - 1] == obj
  }

  /** all: the objects assigned to the frames judged so far; objs: those of the frames added. */
  ghost predicate Follows(s: System, i: nat, objs: seq<nat>, all: seq<nat>)
    requires i < |s.sources|
  {
    var x := s.sources[i];
    match x.pc
    case First => objs == all == []
    case Loop => objs == all && Current(objs, x.obj)
    case Judge => objs == all && Current(objs, x.obj)
    case PostData => OnePending(objs, all, x.obj + 1)
    case ExitTest => OnePending(objs, all, x.obj + One(!Renamed(s, i)))
    case WaitEmpty => OnePending(objs, all, x.obj + One(!Renamed(s, i)))
    case AddTest => OnePending(objs, all, x.obj)
    case Add => OnePending(objs, all, x.obj)
    case Count => objs == all && Current(objs, x.obj)
    case _ => objs == all
  }

  ghost predicate VerdictInv(c: Config, s: System, i: nat, vs: seq<bool>)
    requires i < |s.sources| && i < |c.detects|
  {
    c.adds && !s.sources[i].exit ==> Follows(s, i, Objects(s.store, i), Assigned(c, i, vs))
  }

  lemma JudgeFollows(c: Config, s: System, e: Event, vs: seq<bool>)
    requires c.Valid() && |s.sources| == |c.camera| && e.SourceStep? && Enabled(c, s, e)
    requires SourceInv(c, s, e.i) && s.sources[e.i].pc.Judge? && VerdictInv(c, s, e.i, vs)
    ensures VerdictInv(c, Apply(c, s, e), e.i, vs + [e.detected])
  {
    var x, objs := s.sources[e.i], Objects(s.store, e.i);
    assert Apply(c, s, e).store == s.store;
    AssignedOneMore(c, e.i, vs, e.detected);
    FramesAreOccurrences(s.store, e.i, x.obj);
    if x.frames <= c.limit {
      LimitReached(x.frames, c.limit);
    }
  }

  lemma AddFollows(c: Config, s: System, e: Event, vs: seq<bool>)
    requires c.Valid() && |s.sources| == |c.camera| && e.SourceStep? && Enabled(c, s, e)
    requires SourceInv(c, s, e.i) && s.sources[e.i].pc.Add? && VerdictInv(c, s, e.i, vs)
    ensures VerdictInv(c, Apply(c, s, e), e.i, vs)
  {
    ObjectsOneMore(s.store, Stored(s.sources[e.i].obj, e.i, e.frame), e.i);
  }

  lemma MoveFollows(c: Config, s: System, e: Event, vs: seq<bool>)
    requires c.Valid() && |s.sources| == |c.camera| && e.SourceStep? && Enabled(c, s, e)
    requires SourceInv(c, s, e.i) && !s.sources[e.i].pc.Judge? && !s.sources[e.i].pc.Add? && VerdictInv(c, s, e.i, vs)
    ensures VerdictInv(c, Apply(c, s, e), e.i, vs)
  {
    assert Apply(c, s, e).store == s.store;
  }

  /** Source i is where it was, and its exit flag is still set if it was. */
  ghost predicate Unmoved(s: System, t: System, i: nat) {
    && i < |s.sources| == |t.sources|
    && var x, y := s.sources[i], t.sources[i];
       && y.pc == x.pc && (x.exit ==> y.exit)
       && (!y.exit ==> y.obj + One(!Renamed(t, i)) == x.obj + One(!Renamed(s, i)) &&
                       (!x.pc.ExitTest? && !x.pc.WaitEmpty? && !x.pc.First? ==> y.obj == x.obj))
  }

  lemma CollectorUnmoves(c: Config, s: System, i: nat)
    requires c.Valid() && |s.sources| == |c.camera| && i < |s.sources| && CollectorReady(s)
    requires PlaceInv(s) && TokenInv(s) && SourceTokenInv(c, s, i) && SourceNameInv(s, i)
    ensures Unmoved(s, CollectorMove(s), i)
  {
  }

  lemma UnmovedFollows(c: Config, s: System, t: System, i: nat, vs: seq<bool>)
    requires Unmoved(s, t, i) && i < |c.detects| && VerdictInv(c, s, i, vs)
    requires Objects(t.store, i) == Objects(s.store, i)
    ensures VerdictInv(c, t, i, vs)
  {
  }

  lemma OtherSourceUnmoves(c: Config, s: System, e: Event, i: nat)
    requires c.Valid() && |s.sources| == |c.camera| && i < |s.sources|
    requires e.SourceStep? && e.i != i && Enabled(c, s, e)
    ensures Unmoved(s, Apply(c, s, e), i) && Objects(Apply(c, s, e).store, i) == Objects(s.store, i)
  {
    if s.sources[e.i].pc.Add? {
      ObjectsOneMore(s.store, Stored(s.sources[e.i].obj, e.i, e.frame), i);
    } else {
      assert Apply(c, s, e).store == s.store;
    }
  }

  lemma ActionUnmoves(s: System, i: nat)
    requires i < |s.sources| && ActionReady(s)
    ensures Unmoved(s, ActionMove(s), i)
  {
  }

  /** A failed read moves the source to its end; all else beside the receiving threads
      leaves them where they are. */
  lemma AsideFollows(c: Config, s: System, e: Event, i: nat, vs: seq<bool>)
    requires c.Valid() && |s.sources| == |c.camera| && i < |s.sources|
    requires Aside(e) && Enabled(c, s, e) && VerdictInv(c, s, i, vs)
    ensures VerdictInv(c, Apply(c, s, e), i, vs)
  {
    var t := Apply(c, s, e);
    if !(e.ReadFails? && e.i == i) {
      UnmovedFollows(c, s, t, i, vs);
    }
  }

  lemma StepFollows(c: Config, s: System, e: Event, i: nat, vs: seq<bool>)
    requires Inv(c, s) && i < |s.sources| && Enabled(c, s, e) && VerdictInv(c, s, i, vs)
    ensures i < |Apply(c, s, e).sources| && VerdictInv(c, Apply(c, s, e), i, vs + Verdict(s, e, i))
  {
    var t := Apply(c, s, e);
    assert SourceInv(c, s, i);
    if e.SourceStep? && e.i == i {
      if s.sources[i].pc.Judge? {
        JudgeFollows(c, s, e, vs);
      } else {
        assert vs + Verdict(s, e, i) == vs;
        if s.sources[i].pc.Add? {
          AddFollows(c, s, e, vs);
        } else {
          MoveFollows(c, s, e, vs);
        }
      }
    } else {
      assert vs + Verdict(s, e, i) == vs;
      match e
      case SourceStep(_, _, _) =>
        OtherSourceUnmoves(c, s, e, i);
        UnmovedFollows(c, s, t, i, vs);
      case CollectorStep =>
        CollectorUnmoves(c, s, i);
        UnmovedFollows(c, s, t, i, vs);
      case ActionStep =>
        ActionUnmoves(s, i);
        UnmovedFollows(c, s, t, i, vs);
      case _ => AsideFollows(c, s, e, i, vs);
    }
  }

  lemma {:induction false} RunFollows(c: Config, s: System, es: seq<Event>, i: nat, vs: seq<bool>)
    requires Inv(c, s) && i < |s.sources| && Legal(c, s, es) && VerdictInv(c, s, i, vs)
    ensures i < |After(c, s, es).sources| && VerdictInv(c, After(c, s, es), i, vs + Verdicts(c, s, es, i))
    decreases |es|
  {
    if es == [] {
      assert vs + [] == vs;
    } else {
      var t, v := Apply(c, s, es[0]), Verdict(s, es[0], i);
      StepFollows(c, s, es[0], i, vs);
      StepKeeps(c, s, es[0]);
      RunFollows(c, t, es[1..], i, vs + v);
      assert vs + v + Verdicts(c, t, es[1..], i) == vs + (v + Verdicts(c, t, es[1..], i));
    }
  }

  lemma ReachableFollows(c: Config, es: seq<Event>, i: nat)
    requires c.Valid() && Legal(c, Start(c), es) && i < |c.camera|
    ensures var s := After(c, Start(c), es); i < |s.sources| && VerdictInv(c, s, i, Verdicts(c, Start(c), es, i))
  {
    StartHolds(c);
    RunFollows(c, Start(c), es, i, []);
    assert [] + Verdicts(c, Start(c), es, i) == Verdicts(c, Start(c), es, i);
  }

  /** In every run, as long as source i has not been told to exit, its frames are in the
      objects that the answers of its callback, and the limit, assign to them; at most
      one judged frame has not been added yet. */
  lemma AssignedObjects(c: Config, es: seq<Event>, i: nat)
    requires c.Valid() && Legal(c, Start(c), es) && i < |c.camera| && c.adds
    ensures var s := After(c, Start(c), es);
            && i < |s.sources|
            && (!s.sources[i].exit ==>
                  var objs, vs := Objects(s.store, i), Verdicts(c, Start(c), es, i);
                  && |objs| <= |vs| <= |objs| + 1
                  && objs == Assigned(c, i, vs)[..|objs|])
  {
    ReachableFollows(c, es, i);
  }

  lemma AssignedAt(c: Config, i: nat, vs: seq<bool>, n: nat)
    requires i < |c.detects| && n < |vs|
    ensures var all := Assigned(c, i, vs); all[n] == NextObject(c, i, all[..n], vs[n])
  {
    AssignedPrefix(c, i, vs, n + 1);
    AssignedPrefix(c, i, vs, n);
    assert vs[..n + 1] == vs[..n] + [vs[n]];
    AssignedOneMore(c, i, vs[..n], vs[n]);
    assert Assigned(c, i, vs)[n] == Assigned(c, i, vs)[..n + 1][n];
  }

  /** Two frames that source i adds one after the other, if it is not told to exit: the
      second goes to the object of the first if its callback did not report it and fewer
      than `limit` frames have gone there, and otherwise to the next object. */
  lemma ConsecutiveFrames(c: Config, es: seq<Event>, i: nat, n: nat)
    requires c.Valid() && Legal(c, Start(c), es) && i < |c.camera| && c.adds
    requires var s := After(c, Start(c), es);
             i < |s.sources| && !s.sources[i].exit && n + 1 < |Objects(s.store, i)|
    ensures var objs, vs := Objects(After(c, Start(c), es).store, i), Verdicts(c, Start(c), es, i);
            && |objs| <= |vs| && objs[0] == 2
            && var reported := c.detects[i] && vs[n + 1];
               objs[n + 1] == if !reported && Occurs(objs[..n + 1], objs[n]) < c.limit then objs[n] else objs[n] + 1
  {
    AssignedObjects(c, es, i);
    var objs, vs := Objects(After(c, Start(c), es).store, i), Verdicts(c, Start(c), es, i);
    var all := Assigned(c, i, vs);
    AssignedAt(c, i, vs, 0);
    AssignedAt(c, i, vs, n + 1);
    assert objs[..n + 1] == all[..n + 1];
    FramesFit(c, i, vs, n);
  }

  ghost predicate NoneAbove(xs: seq<nat>, o: nat) {
    forall p: nat | p > o :: Occurs(xs, p) == 0
  }

  /** No object is assigned more than `limit` frames, and none after the current one. */
  lemma {:induction false} FramesFit(c: Config, i: nat, vs: seq<bool>, n: nat)
    requires c.Valid() && i < |c.detects| && n < |vs|
    ensures var all := Assigned(c, i, vs);
            && 1 <= Occurs(all[..n + 1], all[n]) <= c.limit
            && NoneAbove(all[..n + 1], all[n])
  {
    var all := Assigned(c, i, vs);
    AssignedAt(c, i, vs, n);
    var upTo := all[..n + 1];
    assert upTo == all[..n] + [all[n]];
    OccursOneMore(all[..n], all[n], all[n]);
    if n > 0 {
      FramesFit(c, i, vs, n - 1);
      assert all[..n][n - 1] == all[n - 1];
    }
    forall p: nat | p > all[n] ensures Occurs(upTo, p) == 0 {
      OccursOneMore(all[..n], all[n], p);
      assert n > 0 ==> NoneAbove(all[..n], all[n - 1]);
    }
  }

  // ------------------------------------------------------------ longer runs

  lemma {:induction false} VerdictsGrow(c: Config, s: System, es: seq<Event>, e: Event, i: nat)
    requires c.Valid() && Legal(c, s, es) && Enabled(c, After(c, s, es), e) && Legal(c, s, es + [e])
    ensures Verdicts(c, s, es + [e], i) == Verdicts(c, s, es, i) + Verdict(After(c, s, es), e, i)
    decreases |es|
  {
    if es == [] {
      assert [] + [e] == [e] && [e][1..] == [];
      assert Verdicts(c, Apply(c, s, e), [], i) == [];
    } else {
      assert (es + [e])[1..] == es[1..] + [e];
      VerdictsGrow(c, Apply(c, s, es[0]), es[1..], e, i);
    }
  }

  lemma VerdictsOneMore(c: Config, es: seq<Event>, e: Event, i: nat)
    requires c.Valid() && Legal(c, Start(c), es) && Enabled(c, After(c, Start(c), es), e)
    ensures Legal(c, Start(c), es + [e])
    ensures Verdicts(c, Start(c), es + [e], i)
         == Verdicts(c, Start(c), es, i) + Verdict(After(c, Start(c), es), e, i)
  {
    OneMore(c, Start(c), es, e);
    VerdictsGrow(c, Start(c), es, e, i);
  }

  /** What the callback of source i has said in a run from the start. */
  ghost function Heard(c: Config, es: seq<Event>, i: nat): seq<bool> {
    if c.Valid() && Legal(c, Start(c), es) then Verdicts(c, Start(c), es, i) else []
  }

  /** At the head of the loop all judged frames have been added, and the frames counted
      are those of the current object. */
  lemma AtHead(c: Config, es: seq<Event>, i: nat)
    requires c.Valid() && Legal(c, Start(c), es) && i < |c.camera| && c.adds
    requires var s := After(c, Start(c), es);
             i < |s.sources| && (s.sources[i].pc.Loop? || s.sources[i].pc.Judge?) && !s.sources[i].exit
    ensures var s := After(c, Start(c), es);
            var x, objs := s.sources[i], Objects(s.store, i);
            && objs == Assigned(c, i, Heard(c, es, i))
            && Counted(c, objs, x.obj, x.frames)
  {
    ReachableFollows(c, es, i);
    Reachable(c, es);
    var s := After(c, Start(c), es);
    assert SourceInv(c, s, i);
    FramesAreOccurrences(s.store, i, s.sources[i].obj);
  }

  ghost predicate Counted(c: Config, objs: seq<nat>, obj: nat, frames: nat) {
    if objs == [] then obj == 1 && frames == 0
    else obj == objs[|objs| - 1] && frames == Occurs(objs, obj) && 1 <= frames <= c.limit
  }

  /** The next object by the number of frames counted. */
  lemma NextByCount(c: Config, i: nat, objs: seq<nat>, obj: nat, frames: nat, detected: bool)
    requires c.Valid() && i < |c.detects| && Counted(c, objs, obj, frames)
    ensures NextObject(c, i, objs, detected) == obj + One((c.detects[i] && detected) || frames % c.limit == 0)
  {
    LimitReached(frames, c.limit);
  }

  /** Before the first frame nothing has been judged. */
  lemma NothingHeard(c: Config, es: seq<Event>, i: nat)
    requires c.Valid() && Legal(c, Start(c), es) && i < |c.camera| && c.adds
    requires var s := After(c, Start(c), es); i < |s.sources| && s.sources[i].pc.First? && !s.sources[i].exit
    ensures Heard(c, es, i) == [] && Objects(After(c, Start(c), es).store, i) == []
  {
    ReachableFollows(c, es, i);
  }

  /** Frames judged one by one: the object of the frame just added. */
  lemma OneFrameOn(c: Config, i: nat, vs: seq<bool>, objs: seq<nat>, obj: nat, frames: nat, detected: bool)
    requires c.Valid() && i < |c.detects| && objs == Assigned(c, i, vs) && Counted(c, objs, obj, frames)
    ensures Assigned(c, i, vs + [detected])
         == objs + [obj + One((c.detects[i] && detected) || frames % c.limit == 0)]
  {
    AssignedOneMore(c, i, vs, detected);
    NextByCount(c, i, objs, obj, frames, detected);
  }
}
