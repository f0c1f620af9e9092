/** The loops of a source's threads, in place and under interference: before every access
    to shared state all others may have made any steps. Every access is shown to be the
    step of CollectorModel that follows the one before, so what the loops do is a run of
    the model. */
module SourceThreads {
  import opened CollectorModel
  import opened CollectorParts
  import opened CollectorVerdicts

  /** Where `was` had been added, at most this frame follows: not if the source had been
      told to exit before, certainly if it was taken and the source is not told yet. */
  ghost predicate Gave(was: seq<nat>, now: seq<nat>, adds: bool, told: bool, exit: bool, taken: bool, frame: nat) {
    && (now == was || (taken && now == was + [frame]))
    && (told || !adds ==> now == was)
    && (taken && !exit && adds ==> now == was + [frame])
  }

  /** Of the first `turn` frames the first `added` have been added: all, unless there is
      no callback or the source has been told to exit. */
  ghost predicate Delivered(was: seq<nat>, now: seq<nat>, adds: bool, exit: bool, frames: seq<nat>, turn: nat,
                            added: nat) {
    && added <= turn <= |frames|
    && now == was + frames[..added]
    && (!exit && adds ==> added == turn)
    && (!adds ==> added == 0)
  }

  lemma OneTurn(was: seq<nat>, before: seq<nat>, now: seq<nat>, adds: bool, told: bool, exit: bool,
                frames: seq<nat>, turn: nat, added: nat, taken: bool) returns (more: nat)
    requires Delivered(was, before, adds, told, frames, turn, added) && turn < |frames|
    requires Gave(before, now, adds, told, exit, taken, frames[turn]) && (told ==> exit)
    ensures Delivered(was, now, adds, exit, frames, if taken then turn + 1 else turn, more)
  {
    if now == before {
      more := added;
    } else {
      more := added + 1;
      assert frames[..more] == frames[..added] + [frames[added]];
    }
  }

  /** Of the answers of the callback it has given the first n since `was`. */
  ghost predicate Answered(was: seq<bool>, now: seq<bool>, detected: seq<bool>, n: nat) {
    n <= |detected| && now == was + detected[..n]
  }

  lemma OneAnswer(was: seq<bool>, before: seq<bool>, now: seq<bool>, detected: seq<bool>, n: nat)
    requires Answered(was, before, detected, n) && n < |detected| && now == before + [detected[n]]
    ensures Answered(was, now, detected, n + 1)
  {
    assert detected[..n + 1] == detected[..n] + [detected[n]];
  }

  /** The threads of source i: the one that receives its frames, and the watchdog. */
  class ObservedSource {
    const o: Collector
    const i: nat
    const x: DataSource

    ghost predicate Valid()
      reads o, o.sources
    {
      o.Valid() && i < |o.sources| && x == o.sources[i]
    }

    ghost predicate At(pc: SourcePc)
      reads o, o.sources
    {
      Valid() && x.pc == pc
    }

    ghost predicate DogAt(dog: DogPc)
      reads o, o.sources
    {
      Valid() && x.dog == dog && o.c.camera[i] && !x.pc.First?
    }

    constructor (o: Collector, i: nat)
      requires o.Valid() && i < |o.sources|
      ensures Valid() && this.o == o && this.i == i
    {
      this.o, this.i, x := o, i, o.sources[i];
    }

    /** The steps that the receiving thread has made. */
    ghost function Made(): nat
      reads o
    {
      Steps(o.run, Receiving(i))
    }

    /** The frames it has added. */
    ghost function Added(): seq<nat>
      reads o
    {
      Numbers(o.store, i)
    }

    /** The objects it has added them to. */
    ghost function Into(): seq<nat>
      reads o
    {
      Objects(o.store, i)
    }

    /** What its callback has said of the frames. */
    ghost function Judged(): seq<bool>
      reads o
    {
      HeardBy(o.c, o.run, Receiving(i))
    }

    /** Since the beginning of the method no frame has been judged or added. */
    twostate predicate Quiet()
      reads o
    {
      old(o.run) <= o.run && Judged() == old(Judged()) && Added() == old(Added()) && Into() == old(Into())
    }

    /** After the run `was` the receiving thread has made this step. */
    ghost predicate Next(was: seq<Event>, detected: bool, frame: nat)
      reads o
    {
      o.run == was + [SourceStep(i, detected, frame)] && Made() == Steps(was, Receiving(i)) + 1
    }

    method Interfere()
      requires Valid()
      modifies o, o.sources
      ensures Valid() && x.pc == old(x.pc) && x.frames == old(x.frames) && (old(x.exit) ==> x.exit)
      ensures Quiet() && Made() == old(Made())
      ensures |o.world| == if old(o.world) == [] then 0 else |old(o.world)| - 1
    {
      o.Others(Receiving(i));
    }

    /** In state s the receiving thread has made its step. */
    ghost method Stepped(s: System, detected: bool, frame: nat)
      requires o.Distinct() && Legal(o.c, Start(o.c), o.run) && s == After(o.c, Start(o.c), o.run)
      requires i < |o.sources| == |s.sources| && x == o.sources[i] && SourceReady(s.sources[i])
      requires var (y, added) := SourceMove(o.c, i, s.sources[i], detected, frame);
               x.Value() == y && o.Now() == s.(sources := o.Now().sources, store := s.store + added)
      requires forall j | 0 <= j < |s.sources| && j != i :: o.sources[j].Value() == s.sources[j]
      modifies o`run
      ensures o.Valid() && Next(old(o.run), detected, frame)
      ensures Judged() == old(Judged()) + if s.sources[i].pc.Judge? then [detected] else []
    {
      var e := SourceStep(i, detected, frame);
      VerdictsOneMore(o.c, o.run, e, i);
      OneStep(o.run, e, Receiving(i));
      assert o.Now().sources == Apply(o.c, s, e).sources;
      o.Record(s, e);
    }

    /** In state s a read of the receiving thread has failed. */
    ghost method Failed(s: System)
      requires o.Distinct() && Legal(o.c, Start(o.c), o.run) && s == After(o.c, Start(o.c), o.run)
      requires i < |o.sources| == |s.sources| && x == o.sources[i] && s.sources[i].pc.Loop?
      requires x.Value() == FailedRead(o.c.camera[i], s.sources[i]) && o.Now() == s.(sources := o.Now().sources)
      requires forall j | 0 <= j < |s.sources| && j != i :: o.sources[j].Value() == s.sources[j]
      modifies o`run
      ensures o.Valid() && o.run == old(o.run) + [ReadFails(i)] && Made() == old(Made()) + 1
      ensures Judged() == old(Judged())
    {
      VerdictsOneMore(o.c, o.run, ReadFails(i), i);
      OneStep(o.run, ReadFails(i), Receiving(i));
      assert o.Now().sources == Apply(o.c, s, ReadFails(i)).sources;
      o.Record(s, ReadFails(i));
    }

    ghost method DogStepped(s: System)
      requires o.Distinct() && Legal(o.c, Start(o.c), o.run) && s == After(o.c, Start(o.c), o.run)
      requires i < |o.sources| == |s.sources| && x == o.sources[i] && DogReady(o.c, i, s.sources[i])
      requires x.Value() == DogMove(s.sources[i]) && o.Now() == s.(sources := o.Now().sources)
      requires forall j | 0 <= j < |s.sources| && j != i :: o.sources[j].Value() == s.sources[j]
      modifies o`run
      ensures o.Valid() && o.run == old(o.run) + [DogStep(i)]
    {
      assert o.Now().sources == Apply(o.c, s, DogStep(i)).sources;
      o.Record(s, DogStep(i));
    }

    /** A frame begins an object if the callback says so or if the limit has been reached. */
    ghost predicate Begins(frames: nat, detected: bool)
      requires i < |o.c.detects| && o.c.limit > 0
    {
      (o.c.detects[i] && detected) || frames % o.c.limit == 0
    }

    // ------------------------------------------------------------- accesses

    /** The first sem_wait(&source->empty_ready), once it is up */
    method TakeFirst()
      requires At(First) && x.empty > 0
      modifies o`run, x`empty, x`pc
      ensures At(Loop)
      ensures x.empty == old(x.empty) - 1 && Judged() == old(Judged())
      ensures Next(old(o.run), false, 0)
    {
      ghost var s := o.Now();
      x.empty := x.empty - 1;
      x.pc := Loop;
      Stepped(s, false, 0);
    }

    /** while (!source->exit_flag), or the stream state of a camera */
    method TestLoop() returns (go: bool)
      requires At(Loop)
      modifies o`run, x`pc
      ensures At(if go then Judge else if o.c.camera[i] then Finished else End)
      ensures go == (if o.c.camera[i] then !x.stopped else !x.exit) && Judged() == old(Judged())
      ensures Next(old(o.run), false, 0)
    {
      ghost var s := o.Now();
      go := if o.c.camera[i] then !x.stopped else !x.exit;
      x.pc := if go then Judge else if o.c.camera[i] then Finished else End;
      Stepped(s, false, 0);
    }

    /** if (bytes < 0), after a read that fails */
    method FailRead()
      requires At(Loop)
      modifies o`run, x`exit, x`pc
      ensures Valid() && x.pc == (if o.c.camera[i] then Finished else End) && x.exit == (old(x.exit) || !o.c.camera[i])
      ensures o.run == old(o.run) + [ReadFails(i)] && Made() == old(Made()) + 1 && Judged() == old(Judged())
    {
      ghost var s := o.Now();
      if o.c.camera[i] {
        x.pc := Finished;
      } else {
        x.exit := true;
        x.pc := End;
      }
      Failed(s);
    }

    /** Is the frame the first of a new object? */
    method TestObject(detected: bool) returns (isNew: bool)
      requires At(Judge)
      modifies o`run, x`frames, x`pc
      ensures At(if isNew then PostData else AddTest) && Judged() == old(Judged()) + [detected]
      ensures isNew <==> Begins(old(x.frames), detected)
      ensures x.frames == if isNew then 0 else old(x.frames)
      ensures Next(old(o.run), detected, 0)
    {
      ghost var s := o.Now();
      isNew := (o.c.detects[i] && detected) || x.frames % o.c.limit == 0;
      if isNew {
        x.frames := 0;
      }
      x.pc := if isNew then PostData else AddTest;
      Stepped(s, detected, 0);
    }

    /** sem_post(&source->data_ready) */
    method PostReady()
      requires At(PostData)
      modifies o`run, x`pc, x`ready
      ensures At(ExitTest)
      ensures x.ready == old(x.ready) + 1 && Judged() == old(Judged())
      ensures Next(old(o.run), false, 0)
    {
      ghost var s := o.Now();
      x.ready := x.ready + 1;
      x.pc := ExitTest;
      Stepped(s, false, 0);
    }

    /** if (!source->exit_flag), before waiting */
    method TestExit() returns (exit: bool)
      requires At(ExitTest)
      modifies o`run, x`pc, x`quit
      ensures At(if exit then AddTest else SourcePc.WaitEmpty)
      ensures exit == x.exit && x.quit == (old(x.quit) || exit) && Judged() == old(Judged())
      ensures Next(old(o.run), false, 0)
    {
      ghost var s := o.Now();
      exit := x.exit;
      if exit {
        x.quit := true;
      }
      x.pc := if exit then AddTest else SourcePc.WaitEmpty;
      Stepped(s, false, 0);
    }

    /** sem_wait(&source->empty_ready), once it is up */
    method TakeEmpty()
      requires At(SourcePc.WaitEmpty) && x.empty > 0
      modifies o`run, x`empty, x`pc
      ensures At(AddTest)
      ensures x.empty == old(x.empty) - 1 && Judged() == old(Judged())
      ensures Next(old(o.run), false, 0)
    {
      ghost var s := o.Now();
      x.empty := x.empty - 1;
      x.pc := AddTest;
      Stepped(s, false, 0);
    }

    /** if (!source->exit_flag && source->add_frame_callback) */
    method TestAdd() returns (add: bool)
      requires At(AddTest)
      modifies o`run, x`pc
      ensures At(if add then Add else Count) && add == (!x.exit && o.c.adds) && Judged() == old(Judged())
      ensures Next(old(o.run), false, 0)
    {
      ghost var s := o.Now();
      add := !x.exit && o.c.adds;
      x.pc := if add then Add else Count;
      Stepped(s, false, 0);
    }

    /** add_frame_callback */
    method AddFrame(frame: nat)
      requires At(Add)
      modifies o`run, o`store, x`pc
      ensures At(Count) && Added() == old(Added()) + [frame] && Into() == old(Into()) + [x.obj]
      ensures o.store == old(o.store) + [Stored(x.obj, i, frame)] && Judged() == old(Judged())
      ensures Next(old(o.run), false, frame)
    {
      ghost var s := o.Now();
      OneFrame(o.store, Stored(x.obj, i, frame), i);
      ObjectsOneMore(o.store, Stored(x.obj, i, frame), i);
      o.store := o.store + [Stored(x.obj, i, frame)];
      x.pc := Count;
      Stepped(s, false, frame);
    }

    /** frames_in_object++ */
    method CountFrame()
      requires At(Count)
      modifies o`run, x`frames, x`pc
      ensures At(Loop)
      ensures x.frames == old(x.frames) + 1 && Judged() == old(Judged())
      ensures Next(old(o.run), false, 0)
    {
      ghost var s := o.Now();
      x.frames := x.frames + 1;
      x.pc := Loop;
      Stepped(s, false, 0);
    }

    /** The post after the loop of a TCP source */
    method PostEnd()
      requires At(End)
      modifies o`run, x`pc, x`ready
      ensures At(Finished)
      ensures x.ready == old(x.ready) + 1 && Judged() == old(Judged())
      ensures Next(old(o.run), false, 0)
    {
      ghost var s := o.Now();
      x.ready := x.ready + 1;
      x.pc := Finished;
      Stepped(s, false, 0);
    }

    /** The watchdog stops the stream */
    method StopStream()
      requires DogAt(Watching) && (x.exit || x.stopped)
      modifies o`run, x`dog, x`stopped
      ensures DogAt(Closing)
      ensures x.stopped
      ensures o.run == old(o.run) + [DogStep(i)]
    {
      ghost var s := o.Now();
      x.stopped := true;
      x.dog := Closing;
      DogStepped(s);
    }

    /** source->exit_flag = 1 */
    method RaiseExit()
      requires DogAt(Closing)
      modifies o`run, x`dog, x`exit
      ensures DogAt(Posting)
      ensures x.exit
      ensures o.run == old(o.run) + [DogStep(i)]
    {
      ghost var s := o.Now();
      x.exit := true;
      x.dog := Posting;
      DogStepped(s);
    }

    /** sem_post(&source->data_ready), by the watchdog */
    method DogPost()
      requires DogAt(Posting)
      modifies o`run, x`dog, x`ready, x`quit
      ensures DogAt(Gone)
      ensures x.ready == old(x.ready) + 1 && x.quit
      ensures o.run == old(o.run) + [DogStep(i)]
    {
      ghost var s := o.Now();
      x.ready, x.quit := x.ready + 1, true;
      x.dog := Gone;
      DogStepped(s);
    }

    // -------------------------------------------------------------- threads

    /** The others are not observed any more, and the thread waits for its next object. */
    ghost predicate Blocked()
      reads o, o.sources
    {
      Valid() && o.world == [] && (x.pc.First? || x.pc.WaitEmpty?) && x.empty == 0
    }

    method AwaitEmpty(ghost at: SourcePc) returns (up: bool)
      requires At(at)
      modifies o, o.sources
      ensures At(at) && if up then x.empty > 0 else o.world == [] && x.empty == 0
      ensures Quiet() && Made() == old(Made()) && x.frames == old(x.frames) && (old(x.exit) ==> x.exit)
    {
      Interfere();
      while x.empty == 0
        invariant At(at)
        invariant Quiet() && Made() == old(Made()) && x.frames == old(x.frames) && (old(x.exit) ==> x.exit)
        decreases |o.world|
      {
        if o.world == [] {
          return false;
        }
        Interfere();
      }
      up := true;
    }

    /** Wait for empty_ready at an object boundary, and take it. */
    method NextObject() returns (ok: bool)
      requires At(SourcePc.WaitEmpty)
      modifies o, o.sources
      ensures if ok then At(AddTest) else Blocked()
      ensures Quiet() && Made() >= old(Made()) && x.frames == old(x.frames) && (old(x.exit) ==> x.exit)
    {
      ok := AwaitEmpty(SourcePc.WaitEmpty);
      if ok {
        TakeEmpty();
      }
    }

    /** At an object boundary data_ready is posted. */
    method TellReady()
      requires At(PostData)
      modifies o, o.sources
      ensures At(ExitTest) && Quiet() && Made() >= old(Made()) && x.frames == old(x.frames) && (old(x.exit) ==> x.exit)
    {
      PostReady();
      Interfere();
    }

    /** The object boundary: post data_ready and, unless told to exit, wait. */
    method Boundary() returns (ok: bool)
      requires At(PostData)
      modifies o, o.sources
      ensures if ok then At(AddTest) else Blocked()
      ensures Quiet() && Made() >= old(Made()) && x.frames == old(x.frames) && (old(x.exit) ==> x.exit)
    {
      TellReady();
      var exit := TestExit();
      ok := true;
      if !exit {
        ok := NextObject();
      }
    }

    /** The frame is added, unless the source has been told to exit or there is no callback. */
    method OfferFrame(frame: nat)
      requires At(AddTest)
      modifies o, o.sources
      ensures At(Count) && old(o.run) <= o.run && Made() >= old(Made()) + 1 && (old(x.exit) ==> x.exit)
      ensures Gave(old(Added()), Added(), o.c.adds, old(x.exit), x.exit, true, frame)
      ensures x.frames == old(x.frames) && Judged() == old(Judged())
    {
      var add := TestAdd();
      Interfere();
      if add {
        AddFrame(frame);
        Interfere();
      }
    }

    /** The frame itself. */
    method TakeFrame(frame: nat)
      requires At(AddTest)
      modifies o, o.sources
      ensures At(Loop) && old(o.run) <= o.run && Made() >= old(Made()) + 2 && (old(x.exit) ==> x.exit)
      ensures Gave(old(Added()), Added(), o.c.adds, old(x.exit), x.exit, true, frame)
      ensures x.frames == old(x.frames) + 1 && Judged() == old(Judged())
    {
      OfferFrame(frame);
      CountFrame();
    }

    /** Is the frame the first of an object?  Then an object boundary comes first. */
    method Judgement(detected: bool) returns (ok: bool)
      requires At(Judge)
      modifies o, o.sources
      ensures if ok then At(AddTest) else Blocked()
      ensures old(o.run) <= o.run && Made() >= old(Made()) + 1 && (old(x.exit) ==> x.exit)
      ensures Added() == old(Added()) && Into() == old(Into()) && Judged() == old(Judged()) + [detected]
      ensures x.frames == if Begins(old(x.frames), detected) then 0 else old(x.frames)
    {
      var isNew := TestObject(detected);
      ok := true;
      if isNew {
        Interfere();
        ok := Boundary();
      }
    }

    /** A judgement and, unless blocked, the frame itself. */
    method JudgeAndTake(detected: bool, frame: nat) returns (ok: bool)
      requires At(Judge)
      modifies o, o.sources
      ensures if ok then At(Loop) else Blocked()
      ensures old(o.run) <= o.run && Made() >= old(Made()) + (if ok then 3 else 1) && (old(x.exit) ==> x.exit)
      ensures Gave(old(Added()), Added(), o.c.adds, old(x.exit), x.exit, ok, frame)
      ensures Judged() == old(Judged()) + [detected]
      ensures ok ==> x.frames == if Begins(old(x.frames), detected) then 1 else old(x.frames) + 1
    {
      ok := Judgement(detected);
      if ok {
        Interfere();
        TakeFrame(frame);
      }
    }

    /** In a run at the head of the loop: the counts and the objects so far. */
    lemma Head()
      requires (At(Loop) || At(Judge)) && o.c.adds && !x.exit
      ensures Into() == Assigned(o.c, i, Judged()) && Counted(o.c, Into(), x.obj, x.frames)
    {
      AtHead(o.c, o.run, i);
      assert o.Now().sources[i] == x.Value();
    }

    /** new_frame_action. A frame that begins an object goes to the next one, any other to
        that of the frame before. */
    method NewFrame(detected: bool, frame: nat) returns (ok: bool)
      requires At(Judge)
      modifies o, o.sources
      ensures if ok then At(Loop) else Blocked()
      ensures old(o.run) <= o.run && Made() >= old(Made()) + (if ok then 3 else 1) && (old(x.exit) ==> x.exit)
      ensures Gave(old(Added()), Added(), o.c.adds, old(x.exit), x.exit, ok, frame)
      ensures Judged() == old(Judged()) + [detected]
      ensures var first := Begins(old(x.frames), detected);
              && (ok ==> x.frames == if first then 1 else old(x.frames) + 1)
              && (ok && o.c.adds && !x.exit ==>
                    && x.obj == old(x.obj) + (if first then 1 else 0)
                    && Into() == old(Into()) + [x.obj])
    {
      ghost var vs, objs, obj, frames := Judged(), Into(), x.obj, x.frames;
      if o.c.adds && !x.exit {
        Head();
      }
      ok := JudgeAndTake(detected, frame);
      if ok && o.c.adds && !x.exit {
        Head();
        OneFrameOn(o.c, i, vs, objs, obj, frames, detected);
      }
    }

    /** After the loop, where a TCP source posts data_ready. */
    method Leave()
      requires Valid() && x.pc == if o.c.camera[i] then Finished else End
      modifies o, o.sources
      ensures At(Finished) && Quiet() && Made() >= old(Made())
      ensures old(x.exit) ==> x.exit
    {
      if !o.c.camera[i] {
        Interfere();
        PostEnd();
      }
    }

    /** One turn of the receive loop, with a frame if the loop goes on. */
    method Turn(detected: bool, frame: nat) returns (go: bool, ok: bool)
      requires At(Loop)
      modifies o, o.sources
      ensures if !go then At(Finished) else if ok then At(Loop) else Blocked()
      ensures old(o.run) <= o.run && Made() >= old(Made()) + (if go && ok then 4 else 1) && (old(x.exit) ==> x.exit)
      ensures Gave(old(Added()), Added(), o.c.adds, old(x.exit), x.exit, go && ok, frame)
      ensures if go then Judged() == old(Judged()) + [detected] else Judged() == old(Judged())
    {
      Interfere();
      go := TestLoop();
      if go {
        Interfere();
        ok := NewFrame(detected, frame);
      } else {
        ok := true;
        Leave();
      }
    }

    /** A failed read ends the loop. */
    method Abort()
      requires At(Loop)
      modifies o, o.sources
      ensures At(Finished) && Quiet() && Made() > old(Made())
      ensures (old(x.exit) ==> x.exit) && (!o.c.camera[i] ==> x.exit)
    {
      Interfere();
      FailRead();
      Leave();
    }

    /** What has been added are the first frames, in the objects that the answers of the
        callback assign to them. */
    lemma AllAssigned(frames: nat, detected: seq<bool>)
      requires Valid() && o.c.adds && !x.exit && |Added()| == frames
      requires Judged() <= detected
      ensures Into() <= Assigned(o.c, i, detected) && |Into()| == frames
    {
      AssignedObjects(o.c, o.run, i);
      assert o.Now().sources[i] == x.Value();
      AsMany(o.store, i);
      var vs := Judged();
      assert vs == detected[..|vs|];
      AssignedPrefix(o.c, i, detected, |vs|);
    }

    /** The first empty_ready; no frame has been judged before. */
    method Begin() returns (ok: bool)
      requires At(First)
      modifies o, o.sources
      ensures if ok then At(Loop) else Blocked()
      ensures Quiet() && Made() >= old(Made()) && (old(x.exit) ==> x.exit)
      ensures o.c.adds && !old(x.exit) ==> old(Judged()) == [] && old(Added()) == []
    {
      if o.c.adds && !x.exit {
        NothingHeard(o.c, o.run, i);
        assert o.Now().sources[i] == x.Value();
        AsMany(o.store, i);
      }
      ok := AwaitEmpty(First);
      if ok {
        TakeFirst();
      }
    }

    /** The loop: one turn for every frame that arrives. */
    method ReceiveFrames(frames: seq<nat>, detected: seq<bool>)
      returns (go: bool, ok: bool, turn: nat, ghost added: nat, ghost heard: nat)
      requires At(Loop) && |detected| == |frames|
      modifies o, o.sources
      ensures if !go then At(Finished) else if ok then At(Loop) && turn == |frames| else Blocked()
      ensures old(o.run) <= o.run && Made() >= old(Made()) + 4 * turn && (old(x.exit) ==> x.exit)
      ensures Delivered(old(Added()), Added(), o.c.adds, x.exit, frames, turn, added)
      ensures Answered(old(Judged()), Judged(), detected, heard)
    {
      go, ok, turn, added, heard := true, true, 0, 0, 0;
      while turn < |frames|
        invariant turn <= |frames| && go && ok && At(Loop)
        invariant old(o.run) <= o.run && Made() >= old(Made()) + 4 * turn && (old(x.exit) ==> x.exit)
        invariant Delivered(old(Added()), Added(), o.c.adds, x.exit, frames, turn, added)
        invariant heard == turn && Answered(old(Judged()), Judged(), detected, heard)
      {
        ghost var before, told, said := Added(), x.exit, Judged();
        go, ok := Turn(detected[turn], frames[turn]);
        if go {
          OneAnswer(old(Judged()), said, Judged(), detected, turn);
          heard := turn + 1;
        }
        added := OneTurn(old(Added()), before, Added(), o.c.adds, told, x.exit, frames, turn, added, go && ok);
        if !go || !ok {
          return;
        }
        turn := turn + 1;
      }
    }

    /** The loop and, if `fails`, the read that ends it. */
    method ReceiveOn(frames: seq<nat>, detected: seq<bool>, fails: bool)
      returns (ended: bool, turn: nat, ghost added: nat, ghost heard: nat)
      requires At(Loop) && |detected| == |frames|
      modifies o, o.sources
      ensures if ended then At(Finished) else Blocked() || (At(Loop) && turn == |frames| && !fails)
      ensures old(o.run) <= o.run && Made() >= old(Made()) + 4 * turn && (old(x.exit) ==> x.exit)
      ensures Delivered(old(Added()), Added(), o.c.adds, x.exit, frames, turn, added)
      ensures Answered(old(Judged()), Judged(), detected, heard)
    {
      var go, ok;
      go, ok, turn, added, heard := ReceiveFrames(frames, detected);
      ended := !go;
      if go && ok && fails {
        ended := true;
        Abort();
      }
    }

    /** The receiving thread: one turn of its loop for every frame that arrives, given by
        its number and what the detection callback says of it, and then, if `fails`, a
        failed read. A turn has at least four accesses. As long as the source is not told
        to exit, the frames go to the objects that these answers assign to them. */
    method Receive(frames: seq<nat>, detected: seq<bool>, fails: bool)
      returns (ended: bool, turn: nat, ghost added: nat)
      requires At(First) && |detected| == |frames|
      modifies o, o.sources
      ensures old(o.run) <= o.run && Made() >= old(Made()) + 4 * turn
      ensures Delivered(old(Added()), Added(), o.c.adds, x.exit, frames, turn, added)
      ensures o.c.adds && !x.exit ==> Into() == Assigned(o.c, i, detected)[..turn]
      ensures if ended then At(Finished) else Blocked() || (At(Loop) && turn == |frames| && !fails)
    {
      ended, turn, added := false, 0, 0;
      var ok := Begin();
      if ok {
        ghost var heard;
        ended, turn, added, heard := ReceiveOn(frames, detected, fails);
      }
      if o.c.adds && !x.exit {
        AllAssigned(turn, detected);
      }
    }

    /** Others may run; nobody else moves the watchdog. */
    method WatchOn()
      requires DogAt(x.dog)
      modifies o, o.sources
      ensures DogAt(old(x.dog)) && old(o.run) <= o.run && (old(x.exit) ==> x.exit) && (old(x.stopped) ==> x.stopped)
      ensures Steps(o.run, Watchdog(i)) == old(Steps(o.run, Watchdog(i)))
      ensures |o.world| == if old(o.world) == [] then 0 else |old(o.world)| - 1
    {
      o.Others(Watchdog(i));
    }

    /** After the loop of the watchdog: the stream is stopped. */
    method StopFirst()
      requires DogAt(Watching) && (x.exit || x.stopped)
      modifies o, o.sources
      ensures DogAt(Closing) && x.stopped && old(o.run) <= o.run
    {
      StopStream();
      WatchOn();
    }

    /** The three accesses after the loop. */
    method CloseDown()
      requires DogAt(Watching) && (x.exit || x.stopped)
      modifies o, o.sources
      ensures DogAt(Gone) && x.stopped && x.exit && old(o.run) <= o.run
    {
      StopFirst();
      RaiseExit();
      WatchOn();
      DogPost();
    }

    /** The watchdog of a camera, from its loop on. */
    method Watch() returns (ended: bool)
      requires DogAt(Watching)
      modifies o, o.sources
      ensures old(o.run) <= o.run
      ensures if ended then DogAt(Gone) && x.stopped && x.exit
              else DogAt(Watching) && o.world == [] && !x.exit && !x.stopped
    {
      WatchOn();
      while !x.exit && !x.stopped
        invariant DogAt(Watching) && old(o.run) <= o.run
        decreases |o.world|
      {
        if o.world == [] {
          return false;
        }
        WatchOn();
      }
      CloseDown();
      ended := true;
    }
  }
}
