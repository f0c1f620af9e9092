/** The collector and its sources as objects that their threads update in place, and the
    rest of the system around the thread one looks at. */
module CollectorParts {
  import opened CollectorModel
  import CollectorRuns
  import opened CollectorVerdicts

  /** A data_source. `pc` and `dog` say where its threads are; no statement of a thread
      reads them. */
  class DataSource {
    var pc: SourcePc
    var exit: bool
    var empty: nat
    var ready: nat
    var obj: nat
    var frames: nat
    var dog: DogPc
    var stopped: bool
    var quit: bool

    function Value(): Source
      reads this
    {
      Source(pc, exit, empty, ready, obj, frames, dog, stopped, quit)
    }

    constructor ()
      ensures Value() == Source(First, false, 0, 0, 0, 0, Watching, false, false)
    {
      pc, exit, empty, ready, obj, frames := First, false, 0, 0, 0, 0;
      dog, stopped, quit := Watching, false, false;
    }

    method Put(x: Source)
      modifies this
      ensures Value() == x
    {
      pc, exit, empty, ready, obj, frames := x.pc, x.exit, x.empty, x.ready, x.obj, x.frames;
      dog, stopped, quit := x.dog, x.stopped, x.quit;
    }
  }

  /** The numbers of the frames that source i has added, in order. */
  ghost function Numbers(store: seq<Stored>, i: nat): seq<nat> {
    if store == [] then []
    else
      var last := store[|store| - 1];
      Numbers(store[..|store| - 1], i) + if last.source == i then [last.frame] else []
  }

  /** How often data_ready has been posted, and 1 for the start: what has been taken and
      what has not. */
  ghost function Rounds(published: seq<nat>, dataReady: nat, action: ActionPc): nat {
    |published| + dataReady + if action.Take? then 1 else 0
  }

  datatype Actor = Receiving(i: nat) | Watchdog(i: nat) | Collecting | Acting {
    predicate Owns(e: Event) {
      match this
      case Receiving(i) => (e.SourceStep? || e.ReadFails?) && e.i == i
      case Watchdog(i) => e.DogStep? && e.i == i
      case Collecting => e.CollectorStep?
      case Acting => e.ActionStep?
    }

    /** What nobody else changes. */
    ghost predicate Kept(s: System, t: System) {
      match this
      case Receiving(i) => i < |s.sources| && i < |t.sources| ==>
                             && t.sources[i].pc == s.sources[i].pc && t.sources[i].frames == s.sources[i].frames
                             && (s.sources[i].exit ==> t.sources[i].exit)
                             && Numbers(t.store, i) == Numbers(s.store, i)
                             && Objects(t.store, i) == Objects(s.store, i)
      case Watchdog(i) => i < |s.sources| && i < |t.sources| ==>
                            t.sources[i].dog == s.sources[i].dog && (t.sources[i].pc.First? ==> s.sources[i].pc.First?)
                            && (s.sources[i].exit ==> t.sources[i].exit)
                            && (s.sources[i].stopped ==> t.sources[i].stopped)
      case Collecting => t.collector == s.collector && t.exit == s.exit &&
                         Rounds(t.published, t.dataReady, t.action) == Rounds(s.published, s.dataReady, s.action)
      case Acting => t.action == s.action && t.generated == s.generated && t.published == s.published &&
                     (s.exit ==> t.exit)
    }
  }

  /** The steps of a run that the actor has made. */
  ghost function Steps(run: seq<Event>, actor: Actor): nat {
    if run == [] then 0
    else Steps(run[..|run| - 1], actor) + if actor.Owns(run[|run| - 1]) then 1 else 0
  }

  lemma OneStep(run: seq<Event>, e: Event, actor: Actor)
    ensures Steps(run + [e], actor) == Steps(run, actor) + if actor.Owns(e) then 1 else 0
  {
    assert (run + [e])[..|run|] == run;
  }

  lemma OneFrame(store: seq<Stored>, added: Stored, i: nat)
    ensures Numbers(store + [added], i) == Numbers(store, i) + if added.source == i then [added.frame] else []
  {
    assert (store + [added])[..|store|] == store;
  }

  /** A frame is added with its number and its object. */
  lemma {:induction false} AsMany(store: seq<Stored>, i: nat)
    ensures |Numbers(store, i)| == |Objects(store, i)|
  {
    if store != [] {
      AsMany(store[..|store| - 1], i);
    }
  }

  /** What the callback of a receiving thread has said. */
  ghost function HeardBy(c: Config, es: seq<Event>, actor: Actor): seq<bool> {
    if actor.Receiving? then Heard(c, es, actor.i) else []
  }

  lemma CollectorSpares(s: System, actor: Actor)
    requires CollectorReady(s) && !actor.Collecting?
    ensures var t := CollectorMove(s); |t.sources| == |s.sources| && actor.Kept(s, t)
  {
  }

  lemma OthersFrames(c: Config, s: System, e: Event, i: nat)
    requires c.Valid() && |s.sources| == |c.camera| && e.SourceStep? && e.i != i && Enabled(c, s, e)
    ensures Numbers(Apply(c, s, e).store, i) == Numbers(s.store, i)
    ensures Objects(Apply(c, s, e).store, i) == Objects(s.store, i)
  {
    if s.sources[e.i].pc.Add? {
      OneFrame(s.store, Stored(s.sources[e.i].obj, e.i, e.frame), i);
      ObjectsOneMore(s.store, Stored(s.sources[e.i].obj, e.i, e.frame), i);
    } else {
      assert Apply(c, s, e).store == s.store;
    }
  }

  lemma OthersSpare(c: Config, s: System, e: Event, actor: Actor)
    requires c.Valid() && |s.sources| == |c.camera| && Enabled(c, s, e) && !actor.Owns(e)
    ensures var t := Apply(c, s, e); |t.sources| == |s.sources| && actor.Kept(s, t)
  {
    if e.CollectorStep? {
      CollectorSpares(s, actor);
    } else if e.SourceStep? && actor.Receiving? {
      OthersFrames(c, s, e, actor.i);
    }
  }

  class Collector {
    const c: Config
    const sources: seq<DataSource>
    var pc: CollectorPc
    var exit: bool
    var dataReady: nat
    var emptyReady: nat
    var name: nat
    var action: ActionPc
    var generated: nat
    var next: nat
    var published: seq<nat>
    var store: seq<Stored>
    /** What others try to do between the accesses of the actor, access by access. */
    var world: seq<seq<Event>>
    /** What has happened since the start. */
    ghost var run: seq<Event>

    ghost predicate Distinct() {
      c.Valid() && |sources| == |c.camera| && forall i, j | 0 <= i < j < |sources| :: sources[i] != sources[j]
    }

    function Now(): System
      reads this, sources
    {
      System(seq(|sources|, i requires 0 <= i < |sources| reads sources => sources[i].Value()),
             pc, exit, dataReady, emptyReady, name, action, generated, next, published, store)
    }

    /** The objects are in the state that the recorded run leads to. */
    ghost predicate Valid()
      reads this, sources
    {
      Distinct() && Legal(c, Start(c), run) && Now() == After(c, Start(c), run)
    }

    constructor (c: Config, world: seq<seq<Event>>)
      requires c.Valid()
      ensures Valid() && this.c == c && run == [] && this.world == world
      ensures pc == CollectorPc.WaitEmpty && !exit && dataReady == 1 && emptyReady == 0
      ensures name == 0 && next == 1 && published == [] && store == []
      ensures forall x | x in sources ::
                x.Value() == Source(First, false, 0, 0, 0, 0, Watching, false, false)
    {
      this.c, pc, exit, dataReady, emptyReady := c, CollectorPc.WaitEmpty, false, 1, 0;
      name, action, generated, next, published, store := 0, Call, 0, 1, [], [];
      this.world, run := world, [];
      var all: seq<DataSource> := [];
      for i := 0 to |c.camera|
        invariant |all| == i && fresh(all)
        invariant forall j | 0 <= j < i :: all[j].Value() == Source(First, false, 0, 0, 0, 0, Watching, false, false)
        invariant forall j, l | 0 <= j < l < i :: all[j] != all[l]
      {
        var x := new DataSource();
        all := all + [x];
      }
      sources := all;
    }

    method Put(s: System)
      requires Distinct() && |s.sources| == |sources|
      modifies this, sources
      ensures Now() == s && run == old(run) && world == old(world)
    {
      for i := 0 to |sources|
        invariant run == old(run) && world == old(world)
        invariant forall j | 0 <= j < i :: sources[j].Value() == s.sources[j]
      {
        sources[i].Put(s.sources[i]);
      }
      pc, exit, dataReady, emptyReady, name := s.collector, s.exit, s.dataReady, s.emptyReady, s.name;
      action, generated, next, published, store := s.action, s.generated, s.next, s.published, s.store;
    }

    /** Record a step that has just been made in state s. */
    ghost method Record(s: System, e: Event)
      requires Distinct() && Legal(c, Start(c), run) && s == After(c, Start(c), run)
      requires Enabled(c, s, e) && Now() == Apply(c, s, e)
      modifies this`run
      ensures Valid() && run == old(run) + [e]
    {
      CollectorRuns.OneMore(c, Start(c), run, e);
      run := run + [e];
    }

    /** Somebody else's step, if it can be made. */
    method Other(actor: Actor, e: Event)
      requires Valid() && !actor.Owns(e)
      modifies this, sources
      ensures Valid() && world == old(world) && actor.Kept(old(Now()), Now())
      ensures run == old(run) || (run == old(run) + [e] && Steps(run, actor) == Steps(old(run), actor))
      ensures HeardBy(c, run, actor) == HeardBy(c, old(run), actor)
    {
      var s := Now();
      if Enabled(c, s, e) {
        OthersSpare(c, s, e, actor);
        if actor.Receiving? {
          VerdictsOneMore(c, run, e, actor.i);
        }
        Put(Apply(c, s, e));
        OneStep(run, e, actor);
        Record(s, e);
      }
    }

    /** The others, until the actor's next access: any steps they can make. */
    method Others(actor: Actor)
      requires Valid()
      modifies this, sources
      ensures Valid() && |world| == if old(world) == [] then 0 else |old(world)| - 1
      ensures old(run) <= run && forall i | |old(run)| <= i < |run| :: !actor.Owns(run[i])
      ensures Steps(run, actor) == Steps(old(run), actor) && HeardBy(c, run, actor) == HeardBy(c, old(run), actor)
      ensures actor.Kept(old(Now()), Now())
    {
      if world == [] {
        return;
      }
      var es := world[0];
      world := world[1..];
      for i := 0 to |es|
        invariant Valid() && world == old(world)[1..]
        invariant old(run) <= run && forall j | |old(run)| <= j < |run| :: !actor.Owns(run[j])
        invariant Steps(run, actor) == Steps(old(run), actor) && HeardBy(c, run, actor) == HeardBy(c, old(run), actor)
        invariant actor.Kept(old(Now()), Now())
      {
        if !actor.Owns(es[i]) {
          Other(actor, es[i]);
        }
      }
    }
  }
}
