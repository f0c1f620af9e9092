/** The modules of a pipeline as objects that threads and children update in place, and
    the rest of the system around the thread or child one looks at. */
module PipelineObjects {
  import opened PipelineModel
  import PipelineSafety

  /** A module with its process slot, its child and the locals of its thread. `pc` and
      `child` say where thread and child are; no statement of a thread reads them. */
  class ServerModule {
    var pc: Pc
    var cmd: Cmd
    var offs: nat
    var box: Mailbox
    var slot: Slot
    var child: Child
    var seen: seq<Chunk>
    var out: seq<Chunk>
    var dropped: nat
    var posted: seq<Message>
    var taken: seq<Message>

    function Value(): Module
      reads this
    {
      Module(pc, cmd, offs, box, slot, child, seen, out, dropped, posted, taken)
    }

    /** pipeline_module_init, and a child that waits for its first job. */
    constructor ()
      ensures Value() == Initial() && pc == Idle
      ensures box.newCmd == 0 && box.result == 1 && slot == Slot(0, 0, Stop, 0, 0)
    {
      pc, cmd, offs := Idle, Job, 0;
      box := Mailbox(0, 1, Job, 0);
      slot := Slot(0, 0, Stop, 0, 0);
      child := Child(Waiting, false, []);
      seen, out, dropped, posted, taken := [], [], 0, [], [];
    }

    method Put(m: Module)
      modifies this
      ensures Value() == m
    {
      pc, cmd, offs, box, slot, child := m.pc, m.cmd, m.offs, m.box, m.slot, m.child;
      seen, out, dropped, posted, taken := m.seen, m.out, m.dropped, m.posted, m.taken;
    }
  }

  /** The steps of one actor: the thread of module k or its child. */
  datatype Actor = Actor(k: nat, child: bool) {
    predicate Owns(e: Event) {
      if child then e.ChildStep? && e.k == k else e.ThreadStep? && e.k == k
    }

    /** What nobody else changes. */
    predicate Kept(m: Module, n: Module) {
      if child then n.child == m.child
      else n == m.(box := n.box, slot := n.slot, child := n.child, seen := n.seen)
    }
  }

  /** The steps of a run that the actor has made. */
  ghost function Steps(run: seq<Event>, actor: Actor): nat {
    if run == [] then 0
    else Steps(run[..|run| - 1], actor) + if actor.Owns(run[|run| - 1]) then 1 else 0
  }

  lemma OneStep(run: seq<Event>, e: Event, actor: Actor)
    ensures Steps(run + [e], actor) == Steps(run, actor) + if actor.Owns(e) then 1 else 0
  {
    assert (run + [e])[..|run|] == run;
  }

  lemma OthersSpare(c: Config, s: State, e: Event, actor: Actor)
    requires |s.mods| == c.modules && Enabled(c, s, e) && !actor.Owns(e) && actor.k < |s.mods|
    ensures var t := Apply(c, s, e); |t.mods| == |s.mods| && actor.Kept(s.mods[actor.k], t.mods[actor.k])
  {
    if e.ThreadStep? {
      PipelineSafety.ThreadStepModules(c, s, e.k);
      OwnChildKept(RoleOf(c, e.k), ViewOf(s, e.k), s.exit, s.live);
    }
  }

  lemma OwnChildKept(r: Role, v: View, exit: bool, live: bool)
    requires ThreadReady(r, v, exit, live)
    ensures ThreadMove(r, v, exit, live).me.child == v.me.child
  {
  }

  class Pipeline {
    const c: Config
    const mods: seq<ServerModule>
    var ring: seq<nat>
    var mem: map<nat, Chunk>
    var exit: bool
    var live: bool
    /** What others try to do between the accesses of the actor, access by access. */
    var world: seq<seq<Event>>
    /** The chunks when the modules started, and what has happened since. */
    ghost const boot: map<nat, Chunk>
    ghost var run: seq<Event>

    ghost predicate Distinct() {
      |mods| == c.modules && forall i, j | 0 <= i < j < |mods| :: mods[i] != mods[j]
    }

    function Now(): State
      reads this, mods
    {
      State(seq(|mods|, i requires 0 <= i < |mods| reads mods => mods[i].Value()), ring, mem, exit, live)
    }

    /** The objects are in the state that the recorded run leads to. */
    ghost predicate Valid()
      reads this, mods
    {
      Distinct() && RunOf(c, boot, run) && Now() == StateAfter(c, boot, run)
    }

    constructor (c: Config, mem: map<nat, Chunk>, world: seq<seq<Event>>)
      requires c.Valid()
      ensures Valid() && this.c == c && boot == mem && run == [] && this.world == world
      ensures ring == c.Offsets() && this.mem == mem && !exit && !live
      ensures forall m | m in mods :: m.pc == Idle && m.box.newCmd == 0 && m.box.result == 1
                                      && m.slot == Slot(0, 0, Stop, 0, 0)
    {
      this.c, this.mem, ring, exit, live := c, mem, c.Offsets(), false, false;
      this.world, boot, run := world, mem, [];
      var all: seq<ServerModule> := [];
      for i := 0 to c.modules
        invariant |all| == i && fresh(all)
        invariant forall j | 0 <= j < i :: all[j].Value() == Initial()
        invariant forall j, l | 0 <= j < l < i :: all[j] != all[l]
      {
        var m := new ServerModule();
        all := all + [m];
      }
      mods := all;
    }

    method Put(s: State)
      requires Distinct() && |s.mods| == |mods|
      modifies mods, this`ring, this`mem, this`exit, this`live
      ensures Now() == s
    {
      ring, mem, exit, live := s.ring, s.mem, s.exit, s.live;
      for i := 0 to |mods|
        invariant ring == s.ring && mem == s.mem && exit == s.exit && live == s.live
        invariant forall j | 0 <= j < i :: mods[j].Value() == s.mods[j]
      {
        mods[i].Put(s.mods[i]);
      }
    }

    /** Record a step that has just been made in state s. */
    ghost method Record(s: State, e: Event)
      requires Distinct() && RunOf(c, boot, run) && s == StateAfter(c, boot, run)
      requires Enabled(c, s, e) && Now() == Apply(c, s, e)
      modifies this`run
      ensures Valid() && run == old(run) + [e]
    {
      PipelineSafety.OneMore(c, Start(c, boot), run, e);
      run := run + [e];
    }

    /** One step of anybody. */
    method Perform(e: Event)
      requires Valid() && Enabled(c, Now(), e)
      modifies mods, this`ring, this`mem, this`exit, this`live, this`run
      ensures Valid() && Now() == Apply(c, old(Now()), e) && run == old(run) + [e]
    {
      var s := Now();
      assert |Apply(c, s, e).mods| == |mods| by {
        PipelineSafety.Reachable(c, boot, run);
        PipelineSafety.StepKeeps(c, s, e);
      }
      Put(Apply(c, s, e));
      Record(s, e);
    }

    /** Somebody else's step, if it can be made. */
    method Other(actor: Actor, e: Event)
      requires Valid() && !actor.Owns(e)
      modifies mods, this`ring, this`mem, this`exit, this`live, this`run
      ensures Valid()
      ensures run == old(run) || (run == old(run) + [e] && Steps(run, actor) == Steps(old(run), actor))
      ensures actor.k < |mods| ==> actor.Kept(old(mods[actor.k].Value()), mods[actor.k].Value())
    {
      if Enabled(c, Now(), e) {
        if actor.k < |mods| {
          OthersSpare(c, Now(), e, actor);
        }
        OneStep(run, e, actor);
        Perform(e);
      }
    }

    /** The others, until the actor's next access: any steps they can make. */
    method Others(actor: Actor)
      requires Valid()
      modifies this, mods
      ensures Valid() && |world| == if old(world) == [] then 0 else |old(world)| - 1
      ensures old(run) <= run && forall i | |old(run)| <= i < |run| :: !actor.Owns(run[i])
      ensures Steps(run, actor) == Steps(old(run), actor)
      ensures actor.k < |mods| ==> actor.Kept(old(mods[actor.k].Value()), mods[actor.k].Value())
    {
      if world == [] {
        return;
      }
      var es := world[0];
      world := world[1..];
      for i := 0 to |es|
        invariant Valid() && world == old(world)[1..]
        invariant old(run) <= run && forall j | |old(run)| <= j < |run| :: !actor.Owns(run[j])
        invariant Steps(run, actor) == Steps(old(run), actor)
        invariant actor.k < |mods| ==> actor.Kept(old(mods[actor.k].Value()), mods[actor.k].Value())
      {
        if !actor.Owns(es[i]) {
          Other(actor, es[i]);
        }
      }
    }
  }
}
