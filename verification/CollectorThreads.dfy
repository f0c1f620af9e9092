/** The loops of the collector thread and of first_action, in place and under
    interference. */
module CollectorThreads {
  import opened CollectorModel
  import opened CollectorObjects
  import opened CollectorParts

  /** The collector thread. */
  class CollectorThread {
    const o: Collector

    ghost predicate At(pc: CollectorPc)
      reads o, o.sources
    {
      o.Valid() && o.pc == pc
    }

    constructor (o: Collector)
      ensures this.o == o
    {
      this.o := o;
    }

    ghost function Posted(): nat
      reads o`published, o`dataReady, o`action
    {
      Rounds(o.published, o.dataReady, o.action)
    }

    method Interfere()
      requires o.Valid()
      modifies o, o.sources
      ensures o.Valid() && o.pc == old(o.pc) && o.exit == old(o.exit)
      ensures old(o.run) <= o.run && Posted() == old(Posted())
      ensures |o.world| == if old(o.world) == [] then 0 else |old(o.world)| - 1
    {
      o.Others(Collecting);
    }

    ghost method Stepped(s: System)
      requires o.Distinct() && Legal(o.c, Start(o.c), o.run) && s == After(o.c, Start(o.c), o.run)
      requires CollectorReady(s) && o.Now() == CollectorMove(s)
      modifies o`run
      ensures o.Valid() && o.run == old(o.run) + [Event.CollectorStep]
    {
      o.Record(s, Event.CollectorStep);
    }

    /** sem_wait(&collector->empty_ready), once it is up */
    method TakeEmpty()
      requires At(CollectorPc.WaitEmpty) && o.emptyReady > 0
      modifies o`run, o`emptyReady, o`pc
      ensures At(Copy(0))
      ensures o.emptyReady == old(o.emptyReady) - 1
      ensures o.run == old(o.run) + [Event.CollectorStep]
    {
      ghost var s := o.Now();
      o.emptyReady := o.emptyReady - 1;
      o.pc := Copy(0);
      Stepped(s);
    }

    /** strcpy(src->data, collector->data), first half */
    method BeginCopy(i: nat)
      requires At(Copy(i)) && i < |o.sources|
      modifies o`run, o`pc
      ensures At(Copying(i))
      ensures o.run == old(o.run) + [Event.CollectorStep]
    {
      ghost var s := o.Now();
      o.pc := Copying(i);
      Stepped(s);
    }

    /** The second half: the name is complete */
    method EndCopy(i: nat)
      requires At(Copying(i)) && i < |o.sources|
      modifies o`run, o`pc, o.sources[i]
      ensures At(PostEmpty(i))
      ensures o.sources[i].Value() == old(o.sources[i].Value()).(obj := o.name)
      ensures o.run == old(o.run) + [Event.CollectorStep]
    {
      ghost var s := o.Now();
      o.sources[i].obj := o.name;
      o.pc := PostEmpty(i);
      Stepped(s);
    }

    /** sem_post(&src->empty_ready) */
    method Grant(i: nat)
      requires At(PostEmpty(i)) && i < |o.sources|
      modifies o`run, o`pc, o.sources[i]
      ensures At(Copy(i + 1))
      ensures o.sources[i].Value() == old(o.sources[i].Value()).(empty := old(o.sources[i].empty) + 1)
      ensures o.run == old(o.run) + [Event.CollectorStep]
    {
      ghost var s := o.Now();
      o.sources[i].empty := o.sources[i].empty + 1;
      o.pc := Copy(i + 1);
      Stepped(s);
    }

    /** The end of the copying loop */
    method AllCopied()
      requires At(Copy(|o.sources|))
      modifies o`run, o`pc
      ensures At(LoopTest)
      ensures o.run == old(o.run) + [Event.CollectorStep]
    {
      ghost var s := o.Now();
      o.pc := LoopTest;
      Stepped(s);
    }

    /** while (!collector->exit_flag) */
    method TestLoop() returns (go: bool)
      requires At(LoopTest)
      modifies o`run, o`pc
      ensures At(if go then Gather(0) else Stop(0)) && go == !o.exit
      ensures o.run == old(o.run) + [Event.CollectorStep]
    {
      ghost var s := o.Now();
      go := !o.exit;
      o.pc := if go then Gather(0) else Stop(0);
      Stepped(s);
    }

    /** sem_wait(&src->data_ready), once it is up */
    method TakeReady(i: nat)
      requires At(Gather(i)) && i < |o.sources| && o.sources[i].ready > 0
      modifies o`run, o`pc, o.sources[i]
      ensures At(Gather(i + 1))
      ensures o.sources[i].Value() == old(o.sources[i].Value()).(ready := old(o.sources[i].ready) - 1)
      ensures o.run == old(o.run) + [Event.CollectorStep]
    {
      ghost var s := o.Now();
      o.sources[i].ready := o.sources[i].ready - 1;
      o.pc := Gather(i + 1);
      Stepped(s);
    }

    /** sem_post(&collector->data_ready) */
    method PostReady()
      requires At(Gather(|o.sources|))
      modifies o`run, o`dataReady, o`pc
      ensures At(Scan(0)) && Posted() == old(Posted()) + 1
      ensures o.dataReady == old(o.dataReady) + 1
      ensures o.run == old(o.run) + [Event.CollectorStep]
    {
      ghost var s := o.Now();
      o.dataReady := o.dataReady + 1;
      o.pc := Scan(0);
      Stepped(s);
    }

    /** Has the source exited?  The counter starts at 0 for each */
    method Look(i: nat)
      requires At(Scan(i)) && i < |o.sources|
      modifies o`run, o`exit, o`pc
      ensures At(Scan(i + 1))
      ensures o.exit == (old(o.exit) || (|o.sources| == 1 && o.sources[i].exit))
      ensures o.run == old(o.run) + [Event.CollectorStep]
    {
      ghost var s := o.Now();
      var cnt := 0;
      if o.sources[i].exit {
        cnt := cnt + 1;
      }
      if cnt == |o.sources| {
        o.exit := true;
      }
      o.pc := Scan(i + 1);
      Stepped(s);
    }

    /** The end of that loop */
    method AllSeen()
      requires At(Scan(|o.sources|))
      modifies o`run, o`pc
      ensures At(Again)
      ensures o.run == old(o.run) + [Event.CollectorStep]
    {
      ghost var s := o.Now();
      o.pc := Again;
      Stepped(s);
    }

    /** if (!collector->exit_flag) */
    method TestAgain() returns (go: bool)
      requires At(Again)
      modifies o`run, o`pc
      ensures At(if go then CollectorPc.WaitEmpty else StopAll(0)) && go == !o.exit
      ensures o.run == old(o.run) + [Event.CollectorStep]
    {
      ghost var s := o.Now();
      go := !o.exit;
      o.pc := if go then CollectorPc.WaitEmpty else StopAll(0);
      Stepped(s);
    }

    /** src->exit_flag = 1 */
    method StopOne(i: nat)
      requires At(StopAll(i)) && i < |o.sources|
      modifies o`run, o`pc, o.sources[i]
      ensures At(StopAll(i + 1))
      ensures o.sources[i].Value() == old(o.sources[i].Value()).(exit := true)
      ensures o.run == old(o.run) + [Event.CollectorStep]
    {
      ghost var s := o.Now();
      o.sources[i].exit := true;
      o.pc := StopAll(i + 1);
      Stepped(s);
    }

    /** The end of that loop */
    method AllStopped()
      requires At(StopAll(|o.sources|))
      modifies o`run, o`pc
      ensures At(LoopTest)
      ensures o.run == old(o.run) + [Event.CollectorStep]
    {
      ghost var s := o.Now();
      o.pc := LoopTest;
      Stepped(s);
    }

    /** The same after the main loop */
    method StopAfter(i: nat)
      requires At(Stop(i)) && i < |o.sources|
      modifies o`run, o`pc, o.sources[i]
      ensures At(FinalWait(i))
      ensures o.sources[i].Value() == old(o.sources[i].Value()).(exit := true)
      ensures o.run == old(o.run) + [Event.CollectorStep]
    {
      ghost var s := o.Now();
      o.sources[i].exit := true;
      o.pc := FinalWait(i);
      Stepped(s);
    }

    /** The last sem_wait(&src->data_ready), once it is up */
    method TakeLast(i: nat)
      requires At(FinalWait(i)) && i < |o.sources| && o.sources[i].ready > 0
      modifies o`run, o`pc, o.sources[i]
      ensures At(Stop(i + 1))
      ensures o.sources[i].Value() == old(o.sources[i].Value()).(ready := old(o.sources[i].ready) - 1)
      ensures o.run == old(o.run) + [Event.CollectorStep]
    {
      ghost var s := o.Now();
      o.sources[i].ready := o.sources[i].ready - 1;
      o.pc := Stop(i + 1);
      Stepped(s);
    }

    /** The last sem_post(&collector->data_ready) */
    method PostLast()
      requires At(Stop(|o.sources|))
      modifies o`run, o`dataReady, o`pc
      ensures At(CollectorDone) && Posted() == old(Posted()) + 1
      ensures o.dataReady == old(o.dataReady) + 1
      ensures o.run == old(o.run) + [Event.CollectorStep]
    {
      ghost var s := o.Now();
      o.dataReady := o.dataReady + 1;
      o.pc := CollectorDone;
      Stepped(s);
    }

    // --------------------------------------------------------------- loops

    /** The others are not observed any more, and the collector waits for one. */
    ghost predicate Blocked()
      reads o, o.sources
    {
      && o.Valid() && o.world == []
      && match o.pc
         case WaitEmpty => o.emptyReady == 0
         case Gather(i) => i < |o.sources| && o.sources[i].ready == 0
         case FinalWait(i) => i < |o.sources| && o.sources[i].ready == 0
         case _ => false
    }

    method AwaitEmpty() returns (up: bool)
      requires At(CollectorPc.WaitEmpty)
      modifies o, o.sources
      ensures if up then At(CollectorPc.WaitEmpty) && o.emptyReady > 0 else Blocked()
      ensures old(o.run) <= o.run && Posted() == old(Posted())
    {
      Interfere();
      while o.emptyReady == 0
        invariant At(CollectorPc.WaitEmpty) && old(o.run) <= o.run && Posted() == old(Posted())
        decreases |o.world|
      {
        if o.world == [] {
          return false;
        }
        Interfere();
      }
      up := true;
    }

    method AwaitReady(i: nat, ghost at: CollectorPc) returns (up: bool)
      requires At(at) && i < |o.sources| && (at == Gather(i) || at == FinalWait(i))
      modifies o, o.sources
      ensures if up then At(at) && o.sources[i].ready > 0 else Blocked()
      ensures old(o.run) <= o.run && Posted() == old(Posted())
    {
      Interfere();
      while o.sources[i].ready == 0
        invariant At(at) && old(o.run) <= o.run && Posted() == old(Posted())
        decreases |o.world|
      {
        if o.world == [] {
          return false;
        }
        Interfere();
      }
      up := true;
    }

    method CopyName(i: nat)
      requires At(Copy(i)) && i < |o.sources|
      modifies o, o.sources
      ensures At(PostEmpty(i)) && old(o.run) <= o.run && Posted() == old(Posted())
    {
      Interfere();
      BeginCopy(i);
      Interfere();
      EndCopy(i);
    }

    method CopyTo(i: nat)
      requires At(Copy(i)) && i < |o.sources|
      modifies o, o.sources
      ensures At(Copy(i + 1)) && old(o.run) <= o.run && Posted() == old(Posted())
    {
      CopyName(i);
      Interfere();
      Grant(i);
    }

    method CopyToAll()
      requires At(Copy(0))
      modifies o, o.sources
      ensures At(LoopTest) && old(o.run) <= o.run && Posted() == old(Posted())
    {
      for i := 0 to |o.sources|
        invariant At(Copy(i)) && old(o.run) <= o.run && Posted() == old(Posted())
      {
        CopyTo(i);
      }
      Interfere();
      AllCopied();
    }

    /** Every source has the name in collector->data. */
    ghost predicate AllNamed()
      reads o, o.sources
    {
      forall x | x in o.sources :: x.obj == o.name
    }

    lemma NamesAgree()
      requires At(LoopTest) && !o.exit
      ensures AllNamed()
    {
      forall i: nat | i < |o.sources| ensures o.sources[i].obj == o.name {
        NameHandedOut(o.c, o.run, i);
        assert o.Now().sources[i] == o.sources[i].Value();
      }
    }

    /** Wait for a name and hand it out. */
    method HandOut() returns (ok: bool)
      requires At(CollectorPc.WaitEmpty)
      modifies o, o.sources
      ensures if ok then At(LoopTest) && (!o.exit ==> AllNamed()) else Blocked()
      ensures old(o.run) <= o.run && Posted() == old(Posted())
    {
      ok := AwaitEmpty();
      if ok {
        TakeEmpty();
        CopyToAll();
        if !o.exit {
          NamesAgree();
        }
      }
    }

    method Join() returns (ok: bool)
      requires At(Gather(0))
      modifies o, o.sources
      ensures if ok then At(Gather(|o.sources|)) else Blocked()
      ensures old(o.run) <= o.run && Posted() == old(Posted())
    {
      for i := 0 to |o.sources|
        invariant At(Gather(i)) && old(o.run) <= o.run && Posted() == old(Posted())
      {
        ok := AwaitReady(i, Gather(i));
        if !ok {
          return;
        }
        TakeReady(i);
      }
      ok := true;
    }

    method LookNext(i: nat)
      requires At(Scan(i)) && i < |o.sources|
      modifies o, o.sources
      ensures At(Scan(i + 1)) && old(o.run) <= o.run && Posted() == old(Posted())
    {
      Interfere();
      Look(i);
    }

    method LookAround()
      requires At(Scan(0))
      modifies o, o.sources
      ensures At(Again) && old(o.run) <= o.run && Posted() == old(Posted())
    {
      for i := 0 to |o.sources|
        invariant At(Scan(i)) && old(o.run) <= o.run && Posted() == old(Posted())
      {
        LookNext(i);
      }
      Interfere();
      AllSeen();
    }

    /** Wait for all sources, and look which of them have exited. */
    method Collect() returns (ok: bool)
      requires At(Gather(0))
      modifies o, o.sources
      ensures if ok then At(Again) else Blocked()
      ensures old(o.run) <= o.run && Posted() == old(Posted()) + if ok then 1 else 0
    {
      ok := Join();
      if ok {
        Interfere();
        PostReady();
        LookAround();
      }
    }

    method TellNext(i: nat)
      requires At(StopAll(i)) && i < |o.sources|
      modifies o, o.sources
      ensures At(StopAll(i + 1)) && old(o.run) <= o.run && Posted() == old(Posted())
    {
      Interfere();
      StopOne(i);
    }

    method StopSources()
      requires At(StopAll(0))
      modifies o, o.sources
      ensures At(LoopTest) && old(o.run) <= o.run && Posted() == old(Posted())
    {
      for i := 0 to |o.sources|
        invariant At(StopAll(i)) && old(o.run) <= o.run && Posted() == old(Posted())
      {
        TellNext(i);
      }
      Interfere();
      AllStopped();
    }

    method StopLast(i: nat) returns (ok: bool)
      requires At(Stop(i)) && i < |o.sources|
      modifies o, o.sources
      ensures if ok then At(Stop(i + 1)) else Blocked()
      ensures old(o.run) <= o.run && Posted() == old(Posted())
    {
      Interfere();
      StopAfter(i);
      ok := AwaitReady(i, FinalWait(i));
      if ok {
        TakeLast(i);
      }
    }

    /** After the main loop: stop every source and wait for its last post. */
    method Finish() returns (ok: bool)
      requires At(Stop(0))
      modifies o, o.sources
      ensures if ok then At(CollectorDone) else Blocked()
      ensures old(o.run) <= o.run && Posted() == old(Posted()) + if ok then 1 else 0
    {
      for i := 0 to |o.sources|
        invariant At(Stop(i)) && old(o.run) <= o.run && Posted() == old(Posted())
      {
        ok := StopLast(i);
        if !ok {
          return;
        }
      }
      Interfere();
      PostLast();
      ok := true;
    }

    /** What follows a round: the next name, or the exit flags of the sources. */
    method Prepare() returns (ok: bool)
      requires At(Again)
      modifies o, o.sources
      ensures if ok then At(LoopTest) else Blocked()
      ensures old(o.run) <= o.run && Posted() == old(Posted())
    {
      Interfere();
      var go := TestAgain();
      if go {
        ok := HandOut();
      } else {
        ok := true;
        StopSources();
      }
    }

    /** One turn of the main loop, if it goes on. */
    method Turn() returns (go: bool, ok: bool)
      requires At(LoopTest)
      modifies o, o.sources
      ensures if !ok then Blocked() else At(if go then LoopTest else CollectorDone)
      ensures old(o.run) <= o.run && old(Posted()) <= Posted() <= old(Posted()) + 1
      ensures ok ==> Posted() == old(Posted()) + 1
    {
      Interfere();
      go := TestLoop();
      if go {
        ok := Collect();
        if ok {
          ok := Prepare();
        }
      } else {
        ok := Finish();
      }
    }

    /** collect_data_thread, for at most `turns` turns of its main loop and as long as the
        others are observed.  Every turn posts data_ready once, and so does the end. */
    method CollectData(turns: nat) returns (ended: bool, turn: nat)
      requires At(CollectorPc.WaitEmpty)
      modifies o, o.sources
      ensures old(o.run) <= o.run && turn <= turns
      ensures if ended then At(CollectorDone) && Posted() == old(Posted()) + turn + 1
              else if Blocked() then old(Posted()) + turn <= Posted() <= old(Posted()) + turn + 1
              else At(LoopTest) && turn == turns && Posted() == old(Posted()) + turn
    {
      ended, turn := false, 0;
      var ok := HandOut();
      if !ok {
        return;
      }
      while turn < turns
        invariant turn <= turns && !ended && At(LoopTest)
        invariant old(o.run) <= o.run && Posted() == old(Posted()) + turn
      {
        var go;
        go, ok := Turn();
        if !ok || !go {
          ended := ok;
          return;
        }
        turn := turn + 1;
      }
    }
  }

  /** first_action, as the source of the pipeline calls it. */
  class FirstAction {
    const o: Collector

    ghost predicate At(action: ActionPc)
      reads o, o.sources
    {
      o.Valid() && o.action == action
    }

    constructor (o: Collector)
      ensures this.o == o
    {
      this.o := o;
    }

    /** The steps that first_action has made. */
    ghost function Made(): nat
      reads o`run
    {
      Steps(o.run, Acting)
    }

    /** After the run `was` it has made its next step. */
    ghost predicate Next(was: seq<Event>)
      reads o`run
    {
      o.run == was + [Event.ActionStep] && Made() == Steps(was, Acting) + 1
    }

    method Interfere()
      requires o.Valid()
      modifies o, o.sources
      ensures o.Valid() && o.action == old(o.action) && o.generated == old(o.generated) && (old(o.exit) ==> o.exit)
      ensures old(o.run) <= o.run && Made() == old(Made()) && o.published == old(o.published)
      ensures |o.world| == if old(o.world) == [] then 0 else |old(o.world)| - 1
    {
      o.Others(Acting);
    }

    ghost method Stepped(s: System)
      requires o.Distinct() && Legal(o.c, Start(o.c), o.run) && s == After(o.c, Start(o.c), o.run)
      requires ActionReady(s) && o.Now() == ActionMove(s)
      modifies o`run
      ensures o.Valid() && Next(old(o.run))
    {
      OneStep(o.run, Event.ActionStep, Acting);
      o.Record(s, Event.ActionStep);
    }

    /** if (collector->exit_flag), with the post in that branch */
    method TestExit() returns (exit: bool)
      requires At(Call)
      modifies o`run, o`action, o`emptyReady
      ensures At(if exit then Call else WaitData) && exit == o.exit
      ensures o.emptyReady == old(o.emptyReady) + if exit then 1 else 0
      ensures Next(old(o.run))
    {
      ghost var s := o.Now();
      exit := o.exit;
      if exit {
        o.emptyReady := o.emptyReady + 1;
      } else {
        o.action := WaitData;
      }
      Stepped(s);
    }

    /** sem_wait(&collector->data_ready), once it is up */
    method TakeReady()
      requires At(WaitData) && o.dataReady > 0
      modifies o`run, o`action, o`dataReady
      ensures At(Take)
      ensures o.dataReady == old(o.dataReady) - 1
      ensures Next(old(o.run))
    {
      ghost var s := o.Now();
      o.dataReady := o.dataReady - 1;
      o.action := Take;
      Stepped(s);
    }

    /** strcpy(data, collector->data): the name is published */
    method TakeName() returns (taken: nat)
      requires At(Take)
      modifies o`run, o`action, o`published
      ensures At(Generate) && taken == old(o.name) && o.published == old(o.published) + [taken]
      ensures Next(old(o.run))
    {
      ghost var s := o.Now();
      taken, o.published := o.name, o.published + [o.name];
      o.action := Generate;
      Stepped(s);
    }

    /** generate_new_object_name(obj_name) */
    method GenerateName()
      requires At(Generate)
      modifies o`run, o`action, o`generated, o`next
      ensures At(Write)
      ensures o.generated == old(o.next) && o.next == old(o.next) + 1
      ensures Next(old(o.run))
    {
      ghost var s := o.Now();
      o.generated, o.next := o.next, o.next + 1;
      o.action := Write;
      Stepped(s);
    }

    /** strcpy(collector->data, obj_name), first half */
    method BeginWrite()
      requires At(Write)
      modifies o`run, o`action
      ensures At(Writing)
      ensures Next(old(o.run))
    {
      ghost var s := o.Now();
      o.action := Writing;
      Stepped(s);
    }

    /** The second half: the name is complete */
    method EndWrite()
      requires At(Writing)
      modifies o`run, o`action, o`name
      ensures At(PostEmptyReady)
      ensures o.name == o.generated
      ensures Next(old(o.run))
    {
      ghost var s := o.Now();
      o.name := o.generated;
      o.action := PostEmptyReady;
      Stepped(s);
    }

    /** sem_post(&collector->empty_ready) */
    method PostEmpty()
      requires At(PostEmptyReady)
      modifies o`run, o`action, o`emptyReady
      ensures At(Call)
      ensures o.emptyReady == old(o.emptyReady) + 1
      ensures Next(old(o.run))
    {
      ghost var s := o.Now();
      o.emptyReady := o.emptyReady + 1;
      o.action := Call;
      Stepped(s);
    }

    method AwaitReady() returns (up: bool)
      requires At(WaitData)
      modifies o, o.sources
      ensures At(WaitData) && if up then o.dataReady > 0 else o.world == [] && o.dataReady == 0
      ensures old(o.run) <= o.run && Made() == old(Made()) && o.published == old(o.published)
    {
      Interfere();
      while o.dataReady == 0
        invariant At(WaitData) && old(o.run) <= o.run && Made() == old(Made()) && o.published == old(o.published)
        decreases |o.world|
      {
        if o.world == [] {
          return false;
        }
        Interfere();
      }
      up := true;
    }

    method Publish() returns (taken: nat)
      requires At(WaitData) && o.dataReady > 0
      modifies o, o.sources
      ensures At(Generate) && old(o.run) <= o.run && Made() == old(Made()) + 2
      ensures o.published == old(o.published) + [taken]
    {
      TakeReady();
      Interfere();
      taken := TakeName();
    }

    method WriteName()
      requires At(Write)
      modifies o, o.sources
      ensures At(PostEmptyReady) && old(o.run) <= o.run && Made() == old(Made()) + 2 && o.published == old(o.published)
    {
      BeginWrite();
      Interfere();
      EndWrite();
    }

    method Replace()
      requires At(Generate)
      modifies o, o.sources
      ensures At(PostEmptyReady) && old(o.run) <= o.run && Made() == old(Made()) + 3 && o.published == old(o.published)
    {
      GenerateName();
      Interfere();
      WriteName();
    }

    /** Take the name, generate the next one and hand it to the collector. */
    method Exchange() returns (taken: nat)
      requires At(WaitData) && o.dataReady > 0
      modifies o, o.sources
      ensures At(Call) && old(o.run) <= o.run && Made() == old(Made()) + 6
      ensures o.published == old(o.published) + [taken]
    {
      taken := Publish();
      Interfere();
      Replace();
      Interfere();
      PostEmpty();
    }

    /** One call: it publishes the name it takes, in seven steps. If it finds the exit flag
        set, as it does if it was set before, it makes one step, the test with the post of
        empty_ready. */
    method Run() returns (ok: bool, exit: bool, taken: nat)
      requires At(Call)
      modifies o, o.sources
      ensures old(o.run) <= o.run
      ensures Made() == old(Made()) + if ok && !exit then 7 else 1
      ensures if !ok then At(WaitData) && o.world == [] && o.dataReady == 0 else At(Call)
      ensures o.published == old(o.published) + if ok && !exit then [taken] else []
      ensures (exit ==> ok && o.exit) && (old(o.exit) ==> exit)
    {
      taken := 0;
      Interfere();
      exit := TestExit();
      ok := true;
      if !exit {
        ok := AwaitReady();
        if ok {
          taken := Exchange();
        }
      }
    }
  }
}
