/** The loop of a child process, in place and under interference. */
module PipelineChild {
  import opened PipelineModel
  import PipelineObjects

  class ChildProcess {
    const p: PipelineObjects.Pipeline
    const k: nat
    const m: PipelineObjects.ServerModule

    /** The last module has no child. */
    ghost predicate Valid()
      reads p, p.mods
    {
      p.Valid() && k + 1 < |p.mods| && m == p.mods[k]
    }

    ghost predicate At(pc: ChildPc)
      reads p, p.mods
    {
      Valid() && m.child.pc == pc
    }

    constructor (p: PipelineObjects.Pipeline, k: nat)
      requires p.Valid() && k + 1 < |p.mods|
      ensures Valid() && this.p == p && this.k == k
    {
      this.p, this.k, m := p, k, p.mods[k];
    }

    /** All others may run; nobody else moves the child. */
    method Interfere()
      requires Valid()
      modifies p, p.mods
      ensures Valid() && m.child == old(m.child) && old(p.run) <= p.run
      ensures |p.world| == if old(p.world) == [] then 0 else |old(p.world)| - 1
    {
      p.Others(PipelineObjects.Actor(k, true));
    }

    /** In state s the step of this child has been made. */
    ghost method Stepped(s: State, item: Chunk, status: int)
      requires p.Distinct() && RunOf(p.c, p.boot, p.run) && s == StateAfter(p.c, p.boot, p.run)
      requires k + 1 < |p.mods| == |s.mods| && m == p.mods[k] && ChildReady(s.mods[k])
      requires p.ring == s.ring && p.exit == s.exit && p.live == s.live
      requires (m.Value(), p.mem) == ChildMove(p.c, k, s.mods[k], s.mem, item, status)
      requires forall i | 0 <= i < |s.mods| && i != k :: p.mods[i].Value() == s.mods[i]
      modifies p`run
      ensures p.Valid() && p.run == old(p.run) + [ChildStep(k, item, status)]
    {
      var e := ChildStep(k, item, status);
      assert p.Now().mods == Apply(p.c, s, e).mods;
      p.Record(s, e);
    }

    /** sem_wait(&proc_info->sem_job), once it is up */
    method TakeJob()
      requires At(Waiting) && m.slot.semJob > 0
      modifies p`run, m`slot, m`child
      ensures At(Dispatch)
      ensures p.run == old(p.run) + [ChildStep(k, "", 0)] && m.child.log == old(m.child.log)
      ensures m.slot == old(m.slot).(semJob := old(m.slot.semJob) - 1)
    {
      ghost var s := p.Now();
      m.slot := m.slot.(semJob := m.slot.semJob - 1);
      m.child := m.child.(pc := Dispatch);
      Stepped(s, "", 0);
    }

    /** switch (proc_info->cmd) */
    method TestCommand() returns (stop: bool)
      requires At(Dispatch)
      modifies p`run, m`slot, m`child
      ensures At(if stop then Leaving else Acting)
      ensures p.run == old(p.run) + [ChildStep(k, "", 0)]
      ensures m.child.log == old(m.child.log) + if stop then [Quit] else []
      ensures stop <==> old(m.slot.cmd) == Stop
      ensures m.child.left == old(m.child.left) && m.slot == if stop then old(m.slot).(cmdResult := 0) else old(m.slot)
    {
      ghost var s := p.Now();
      stop := m.slot.cmd == Stop;
      if stop {
        m.slot := m.slot.(cmdResult := 0);
        m.child := m.child.(pc := Leaving, log := m.child.log + [Quit]);
      } else {
        m.child := m.child.(pc := Acting);
      }
      Stepped(s, "", 0);
    }

    /** What the child makes of its chunk: content and status. The source's child
        captures `item` with `status`. */
    function Answer(item: Chunk, status: int): (Chunk, int)
      reads p, m
    {
      if k == 0 then (item, status) else p.c.action(k, m.seen + [Read(p.mem, m.slot.offs)])
    }

    /** The action on the chunk, and cmd_result: the status, but -1 ends the child and is
        stored as 0. */
    method Act(item: Chunk, status: int) returns (leave: bool)
      requires At(Acting)
      modifies p`run, p`mem, m`seen, m`slot, m`child
      ensures At(if leave then Leaving else Replying)
      ensures p.run == old(p.run) + [ChildStep(k, item, status)]
      ensures m.child.log == old(m.child.log) + [Work(old(m.slot.offs))] && m.child.left == leave
      ensures var (o, st) := old(Answer(item, status));
              && (leave <==> st == -1) && (st != -1 ==> m.slot.cmdResult == st) && (st == -1 ==> m.slot.cmdResult == 0)
              && p.mem == old(p.mem)[old(m.slot.offs) := o]
              && m.seen == old(m.seen) + [if k == 0 then o else old(Read(p.mem, m.slot.offs))]
    {
      ghost var s := p.Now();
      var o := m.slot.offs;
      var given, answer := Read(p.mem, o), Answer(item, status);
      leave := answer.1 == -1;
      m.seen := m.seen + [if k == 0 then answer.0 else given];
      p.mem := p.mem[o := answer.0];
      m.slot := m.slot.(cmdResult := if leave then 0 else answer.1);
      m.child := Child(if leave then Leaving else Replying, leave, m.child.log + [Work(o)]);
      Stepped(s, item, status);
    }

    /** sem_post(&proc_info->sem_result) */
    method Reply(exit: bool)
      requires At(if exit then Leaving else Replying)
      modifies p`run, m`slot, m`child
      ensures At(if exit then Exited else Waiting)
      ensures p.run == old(p.run) + [ChildStep(k, "", 0)] && m.child.log == old(m.child.log)
      ensures m.slot == old(m.slot).(semResult := old(m.slot.semResult) + 1) && m.child.left == old(m.child.left)
    {
      ghost var s := p.Now();
      m.slot := m.slot.(semResult := m.slot.semResult + 1);
      m.child := m.child.(pc := if exit then Exited else Waiting);
      Stepped(s, "", 0);
    }

    /** The others are not observed any more, and the child waits for a job. */
    ghost predicate Blocked()
      reads p, p.mods
    {
      At(Waiting) && p.world == [] && m.slot.semJob == 0
    }

    method AwaitJob() returns (up: bool)
      requires At(Waiting)
      modifies p, p.mods
      ensures if up then At(Waiting) && m.slot.semJob > 0 else Blocked()
      ensures m.child == old(m.child) && old(p.run) <= p.run
    {
      Interfere();
      while m.slot.semJob == 0
        invariant At(Waiting) && m.child == old(m.child) && old(p.run) <= p.run
        decreases |p.world|
      {
        if p.world == [] {
          return false;
        }
        Interfere();
      }
      up := true;
    }

    /** Why the child ends: STOP was its last command, or its action returned -1, which
        `status` is in the source's child. */
    ghost predicate MayEnd(status: int)
      reads m
    {
      m.child.log != [] && (m.child.log[|m.child.log| - 1] == Quit || (m.child.left && (k == 0 ==> status == -1)))
    }

    /** What the command asks for: the action, or nothing for STOP. */
    method Serve(item: Chunk, status: int) returns (exit: bool)
      requires At(Dispatch)
      modifies p, p.mods
      ensures At(if exit then Leaving else Replying) && old(p.run) <= p.run
      ensures |m.child.log| == |old(m.child.log)| + 1
      ensures if exit then MayEnd(status) else k == 0 ==> status != -1
    {
      exit := TestCommand();
      if !exit {
        Interfere();
        exit := Act(item, status);
      }
    }

    /** One turn: a job, what it asks for, and the answer. */
    method Turn(item: Chunk, status: int) returns (up: bool, exit: bool)
      requires At(Waiting)
      modifies p, p.mods
      ensures if up then At(if exit then Exited else Waiting) else Blocked()
      ensures old(p.run) <= p.run && |m.child.log| == |old(m.child.log)| + if up then 1 else 0
      ensures up ==> if exit then MayEnd(status) else k == 0 ==> status != -1
    {
      exit := false;
      up := AwaitJob();
      if up {
        TakeJob();
        Interfere();
        exit := Serve(item, status);
        Interfere();
        Reply(exit);
      }
    }

    /** pipeline_process, as long as the others are observed, and in the source's child
        as long as there are inputs. Every turn works off one command; the loop ends after
        STOP or the status -1, and only then. */
    method PipelineProcess(inputs: seq<(Chunk, int)>) returns (exit: bool, turn: nat)
      requires At(Waiting)
      modifies p, p.mods
      ensures old(p.run) <= p.run && turn <= |inputs| && |m.child.log| == |old(m.child.log)| + turn
      ensures if exit then At(Exited) && turn > 0 && MayEnd(inputs[turn - 1].1)
              else Blocked() || (At(Waiting) && turn == |inputs|)
      ensures k == 0 ==> forall i | 0 <= i < if exit then turn - 1 else turn :: inputs[i].1 != -1
    {
      exit, turn := false, 0;
      while !exit && turn < |inputs|
        invariant turn <= |inputs| && At(if exit then Exited else Waiting)
        invariant exit ==> turn > 0 && MayEnd(inputs[turn - 1].1)
        invariant k == 0 ==> forall i | 0 <= i < if exit then turn - 1 else turn :: inputs[i].1 != -1
        invariant old(p.run) <= p.run && |m.child.log| == |old(m.child.log)| + turn
      {
        var up;
        up, exit := Turn(inputs[turn].0, inputs[turn].1);
        if !up {
          exit := false;
          return;
        }
        turn := turn + 1;
      }
    }
  }
}
