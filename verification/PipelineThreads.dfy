/** The loops of the server threads and of a child, in place and under interference:
    before every access to shared state all others may have made any steps. Every
    access is shown to be the step of PipelineModel that follows the one before, so
    what these loops do is a run of the model. */
module PipelineThreads {
  import opened PipelineModel
  import PipelineFlags
  import PipelineObjects
  import opened PipelineRefinement

  lemma ThreadApplied(c: Config, s: State, t: State, k: nat, w: View)
    requires Enabled(c, s, ThreadStep(k)) && w == ThreadMove(RoleOf(c, k), ViewOf(s, k), s.exit, s.live)
    requires |t.mods| == |s.mods| && t.ring == w.ring && t.mem == w.mem && t.exit == s.exit && t.live == s.live
    requires forall i | 0 <= i < |s.mods| ::
               t.mods[i] == if i == k then w.me else if i == k + 1 then s.mods[i].(box := w.next) else s.mods[i]
    ensures t == Apply(c, s, ThreadStep(k))
  {
    assert t.mods == Apply(c, s, ThreadStep(k)).mods;
  }

  ghost predicate EndsWith(ms: seq<Message>, last: Message) {
    ms != [] && ms[|ms| - 1] == last
  }

  class ServerThread {
    const p: PipelineObjects.Pipeline
    const k: nat
    const m: PipelineObjects.ServerModule
    /** module->next; the last module has none. */
    const next: PipelineObjects.ServerModule?

    ghost predicate Valid()
      reads p, p.mods
    {
      && p.Valid() && k < |p.mods| && m == p.mods[k]
      && next == if k + 1 < |p.mods| then p.mods[k + 1] else null
    }

    ghost predicate At(pc: Pc)
      reads p, p.mods
    {
      Valid() && m.pc == pc
    }

    constructor (p: PipelineObjects.Pipeline, k: nat)
      requires p.Valid() && k < |p.mods|
      ensures Valid() && this.p == p && this.k == k
    {
      this.p, this.k := p, k;
      m := p.mods[k];
      next := if k + 1 < |p.mods| then p.mods[k + 1] else null;
    }

    function Me(): PipelineObjects.Actor {
      PipelineObjects.Actor(k, false)
    }

    /** The message it has read last. */
    function Got(): Message
      reads m
    {
      if m.cmd == Stop then Quit else Work(m.offs)
    }

    /** Where that message leads. */
    function Due(): Pc
      reads m
    {
      if m.cmd == Job then (if next == null then Wipe else JobCmd)
      else if next == null then Done else HaltWait
    }

    /** The steps that this thread has made. */
    ghost function Made(): nat
      reads p`run
    {
      PipelineObjects.Steps(p.run, Me())
    }

    /** After the run `was` this thread has made its next step. */
    ghost predicate Next(was: seq<Event>)
      reads p`run
    {
      p.run == was + [ThreadStep(k)] && Made() == PipelineObjects.Steps(was, Me()) + 1
    }

    /** In state s the step of this thread has been made; `after` is what it leaves in
        the mailbox of the next module. */
    ghost method Stepped(s: State, after: Mailbox)
      requires p.Distinct() && RunOf(p.c, p.boot, p.run) && s == StateAfter(p.c, p.boot, p.run)
      requires k < |p.mods| == |s.mods| && m == p.mods[k] && Enabled(p.c, s, ThreadStep(k))
      requires p.exit == s.exit && p.live == s.live
      requires View(m.Value(), after, p.ring, p.mem) == ThreadMove(RoleOf(p.c, k), ViewOf(s, k), s.exit, s.live)
      requires forall i | 0 <= i < |s.mods| && i != k ::
                 p.mods[i].Value() == if i == k + 1 then s.mods[i].(box := after) else s.mods[i]
      modifies p`run
      ensures p.Valid() && Next(old(p.run))
    {
      PipelineObjects.OneStep(p.run, ThreadStep(k), Me());
      ThreadApplied(p.c, s, p.Now(), k, View(m.Value(), after, p.ring, p.mem));
      p.Record(s, ThreadStep(k));
    }

    /** All others may run; nobody else touches the position, the locals and what this
        thread has taken, posted and dropped. */
    method Interfere()
      requires Valid()
      modifies p, p.mods
      ensures Valid() && m.pc == old(m.pc) && m.cmd == old(m.cmd) && m.offs == old(m.offs)
      ensures m.taken == old(m.taken) && m.posted == old(m.posted) && m.dropped == old(m.dropped)
      ensures old(p.run) <= p.run && Made() == old(Made())
      ensures |p.world| == if old(p.world) == [] then 0 else |old(p.world)| - 1
    {
      p.Others(Me());
    }

    // ------------------------------------------------------------- accesses

    /** sem_wait(&module->new_cmd), once it is up */
    method TakeToken()
      requires At(Idle) && k > 0 && m.box.newCmd > 0
      modifies p`run, m`box, m`pc
      ensures At(TakeCmd)
      ensures m.box == old(m.box).(newCmd := old(m.box.newCmd) - 1)
      ensures Next(old(p.run))
    {
      ghost var s := p.Now();
      m.box := m.box.(newCmd := m.box.newCmd - 1);
      m.pc := TakeCmd;
      Stepped(s, ViewOf(s, k).next);
    }

    /** cmd = module->cmd */
    method LoadCommand()
      requires At(TakeCmd)
      modifies p`run, m`cmd, m`pc
      ensures At(TakeOffs)
      ensures m.cmd == m.box.cmd
      ensures Next(old(p.run))
    {
      ghost var s := p.Now();
      m.cmd := m.box.cmd;
      m.pc := TakeOffs;
      Stepped(s, ViewOf(s, k).next);
    }

    /** dataoffset = module->dataoffset */
    method LoadOffset()
      requires At(TakeOffs)
      modifies p`run, m`offs, m`pc
      ensures At(Ack)
      ensures m.offs == m.box.offs
      ensures Next(old(p.run))
    {
      ghost var s := p.Now();
      m.offs := m.box.offs;
      m.pc := Ack;
      Stepped(s, ViewOf(s, k).next);
    }

    /** sem_post(&module->result) */
    method PostResult()
      requires At(Ack) && k > 0
      modifies p`run, m`box, m`pc, m`taken
      ensures At(Due())
      ensures m.taken == old(m.taken) + [Got()]
      ensures m.box == old(m.box).(result := old(m.box.result) + 1)
      ensures Next(old(p.run))
    {
      ghost var s := p.Now();
      m.box := m.box.(result := m.box.result + 1);
      m.taken := m.taken + [Got()];
      m.pc := Due();
      assert m.Value() == s.mods[k].(pc := m.pc, box := m.box, taken := s.mods[k].taken + [Got()]);
      assert RoleOf(p.c, k) == if next == null then Role.Final else Role.Process;
      Stepped(s, ViewOf(s, k).next);
    }

    /** while (!exit_flag) */
    method TestExit() returns (exit: bool)
      requires At(Idle) && k == 0
      modifies p`run, m`pc
      ensures At(if exit then HaltWait else Gate)
      ensures exit == p.exit
      ensures Next(old(p.run))
    {
      ghost var s := p.Now();
      exit := p.exit;
      m.pc := if exit then HaltWait else Gate;
      Stepped(s, ViewOf(s, k).next);
    }

    /** if (module->state != MD_STATE_LIVE), and cmd = module->cmd */
    method TestLive() returns (live: bool)
      requires At(Gate) && k == 0
      modifies p`run, m`cmd, m`pc
      ensures At(if live then Pop else Idle)
      ensures live == p.live && m.cmd == if live then m.box.cmd else old(m.cmd)
      ensures Next(old(p.run))
    {
      ghost var s := p.Now();
      live := p.live;
      if live {
        m.cmd := m.box.cmd;
      }
      m.pc := if live then Pop else Idle;
      Stepped(s, ViewOf(s, k).next);
    }

    /** ring_buffer_pop, once there is a chunk */
    method PopChunk()
      requires At(Pop) && p.ring != []
      modifies p`run, p`ring, m`offs, m`pc
      ensures At(JobCmd)
      ensures [m.offs] + p.ring == old(p.ring)
      ensures Next(old(p.run))
    {
      ghost var s := p.Now();
      m.offs, p.ring := p.ring[0], p.ring[1..];
      m.pc := JobCmd;
      assert m.Value() == s.mods[k].(pc := JobCmd, offs := m.offs);
      Stepped(s, ViewOf(s, k).next);
    }

    /** proc_info->cmd = cmd */
    method StoreCommand()
      requires At(JobCmd)
      modifies p`run, m`pc, m`slot
      ensures At(JobOffs)
      ensures m.slot == old(m.slot).(cmd := m.cmd)
      ensures Next(old(p.run))
    {
      ghost var s := p.Now();
      m.slot := m.slot.(cmd := m.cmd);
      m.pc := JobOffs;
      Stepped(s, ViewOf(s, k).next);
    }

    /** proc_info->cmd_offs = dataoffset */
    method StoreOffset()
      requires At(JobOffs)
      modifies p`run, m`pc, m`slot
      ensures At(JobPost)
      ensures m.slot == old(m.slot).(offs := m.offs)
      ensures Next(old(p.run))
    {
      ghost var s := p.Now();
      m.slot := m.slot.(offs := m.offs);
      m.pc := JobPost;
      Stepped(s, ViewOf(s, k).next);
    }

    /** sem_post(&proc_info->sem_job) */
    method PostJob()
      requires At(JobPost)
      modifies p`run, m`pc, m`slot
      ensures At(JobWait)
      ensures m.slot == old(m.slot).(semJob := old(m.slot.semJob) + 1)
      ensures Next(old(p.run))
    {
      ghost var s := p.Now();
      m.slot := m.slot.(semJob := m.slot.semJob + 1);
      m.pc := JobWait;
      assert m.Value() == s.mods[k].(pc := JobWait, slot := m.slot);
      Stepped(s, ViewOf(s, k).next);
    }

    /** sem_wait(&proc_info->sem_result), once it is up */
    method TakeResult()
      requires At(JobWait) && m.slot.semResult > 0
      modifies p`run, m`pc, m`slot
      ensures At(JobTest)
      ensures m.slot == old(m.slot).(semResult := old(m.slot.semResult) - 1)
      ensures Next(old(p.run))
    {
      ghost var s := p.Now();
      m.slot := m.slot.(semResult := m.slot.semResult - 1);
      m.pc := JobTest;
      Stepped(s, ViewOf(s, k).next);
    }

    /** if (proc_info->cmd_result != 0), but not in the source */
    method TestResult(heed: bool) returns (good: bool)
      requires At(JobTest) && heed == (k > 0)
      modifies p`run, m`pc
      ensures At(if good then SendWait else Drop) && (!heed ==> good)
      ensures good <==> !heed || m.slot.cmdResult == 0
      ensures Next(old(p.run))
    {
      ghost var s := p.Now();
      good := !heed || m.slot.cmdResult == 0;
      m.pc := if good then SendWait else Drop;
      assert heed == !RoleOf(p.c, k).Source?;
      Stepped(s, ViewOf(s, k).next);
    }

    /** ring_buffer_push, to drop the chunk */
    method DropChunk()
      requires At(Drop)
      modifies p`run, p`ring, m`dropped, m`pc
      ensures At(Idle) && m.dropped == old(m.dropped) + 1
      ensures p.ring == old(p.ring) + [m.offs]
      ensures Next(old(p.run))
    {
      ghost var s := p.Now();
      p.ring := p.ring + [m.offs];
      m.dropped, m.pc := m.dropped + 1, Idle;
      assert m.Value() == s.mods[k].(pc := Idle, dropped := m.dropped);
      Stepped(s, ViewOf(s, k).next);
    }

    /** sem_wait(&module->next->result), once it is up */
    method TakeMailbox()
      requires At(SendWait) && next != null && next.box.result > 0
      modifies p`run, m`pc, next`box
      ensures At(SendCmd)
      ensures next.box == old(next.box).(result := old(next.box.result) - 1)
      ensures Next(old(p.run))
    {
      ghost var s := p.Now();
      next.box := next.box.(result := next.box.result - 1);
      m.pc := SendCmd;
      assert m.Value() == s.mods[k].(pc := SendCmd);
      Stepped(s, next.box);
    }

    /** next->cmd = PROCESS_CMD_JOB */
    method SendCommand()
      requires At(SendCmd) && next != null
      modifies p`run, m`pc, next`box
      ensures At(SendOffs)
      ensures next.box == old(next.box).(cmd := Job)
      ensures Next(old(p.run))
    {
      ghost var s := p.Now();
      next.box := next.box.(cmd := Job);
      m.pc := SendOffs;
      assert m.Value() == s.mods[k].(pc := SendOffs);
      Stepped(s, next.box);
    }

    /** next->dataoffset = dataoffset */
    method SendOffset()
      requires At(SendOffs) && next != null
      modifies p`run, m`pc, next`box
      ensures At(SendPost)
      ensures next.box == old(next.box).(offs := m.offs)
      ensures Next(old(p.run))
    {
      ghost var s := p.Now();
      next.box := next.box.(offs := m.offs);
      m.pc := SendPost;
      assert m.Value() == s.mods[k].(pc := SendPost);
      Stepped(s, next.box);
    }

    /** sem_post(&module->next->new_cmd) */
    method PostNext()
      requires At(SendPost) && next != null
      modifies p`run, m`out, m`pc, m`posted, next`box
      ensures At(Idle) && m.posted == old(m.posted) + [Work(m.offs)]
      ensures next.box == old(next.box).(newCmd := old(next.box.newCmd) + 1)
      ensures m.out == old(m.out) + [Read(p.mem, m.offs)]
      ensures Next(old(p.run))
    {
      ghost var s := p.Now();
      next.box := next.box.(newCmd := next.box.newCmd + 1);
      m.out, m.posted := m.out + [Read(p.mem, m.offs)], m.posted + [Work(m.offs)];
      m.pc := Idle;
      assert m.Value() == s.mods[k].(pc := Idle, out := m.out, posted := m.posted);
      Stepped(s, next.box);
    }

    /** The same wait, to stop the next module */
    method TakeLastMailbox()
      requires At(HaltWait) && next != null && next.box.result > 0
      modifies p`run, m`pc, next`box
      ensures At(HaltCmd)
      ensures next.box == old(next.box).(result := old(next.box.result) - 1)
      ensures Next(old(p.run))
    {
      ghost var s := p.Now();
      next.box := next.box.(result := next.box.result - 1);
      m.pc := HaltCmd;
      assert m.Value() == s.mods[k].(pc := HaltCmd);
      Stepped(s, next.box);
    }

    /** next->cmd = PROCESS_CMD_STOP */
    method SendStop()
      requires At(HaltCmd) && next != null
      modifies p`run, m`pc, next`box
      ensures At(HaltPost)
      ensures next.box == old(next.box).(cmd := Stop)
      ensures Next(old(p.run))
    {
      ghost var s := p.Now();
      next.box := next.box.(cmd := Stop);
      m.pc := HaltPost;
      assert m.Value() == s.mods[k].(pc := HaltPost);
      Stepped(s, next.box);
    }

    /** sem_post(&module->next->new_cmd) */
    method PostLast()
      requires At(HaltPost) && next != null
      modifies p`run, m`pc, m`posted, next`box
      ensures At(QuitCmd) && m.posted == old(m.posted) + [Quit]
      ensures next.box == old(next.box).(newCmd := old(next.box.newCmd) + 1)
      ensures Next(old(p.run))
    {
      ghost var s := p.Now();
      next.box := next.box.(newCmd := next.box.newCmd + 1);
      m.posted := m.posted + [Quit];
      m.pc := QuitCmd;
      assert m.Value() == s.mods[k].(pc := QuitCmd, posted := s.mods[k].posted + [Quit]);
      Stepped(s, next.box);
    }

    /** proc_info->cmd = PROCESS_CMD_STOP */
    method StoreStop()
      requires At(QuitCmd)
      modifies p`run, m`pc, m`slot
      ensures At(QuitPost)
      ensures m.slot == old(m.slot).(cmd := Stop)
      ensures Next(old(p.run))
    {
      ghost var s := p.Now();
      m.slot := m.slot.(cmd := Stop);
      m.pc := QuitPost;
      Stepped(s, ViewOf(s, k).next);
    }

    /** sem_post(&proc_info->sem_job) */
    method PostQuit()
      requires At(QuitPost)
      modifies p`run, m`pc, m`slot
      ensures At(QuitWait)
      ensures m.slot == old(m.slot).(semJob := old(m.slot.semJob) + 1)
      ensures Next(old(p.run))
    {
      ghost var s := p.Now();
      m.slot := m.slot.(semJob := m.slot.semJob + 1);
      m.pc := QuitWait;
      assert m.Value() == s.mods[k].(pc := QuitWait, slot := m.slot);
      Stepped(s, ViewOf(s, k).next);
    }

    /** sem_wait(&proc_info->sem_result), once it is up */
    method TakeQuit()
      requires At(QuitWait) && m.slot.semResult > 0
      modifies p`run, m`pc, m`slot
      ensures At(Done)
      ensures m.slot == old(m.slot).(semResult := old(m.slot.semResult) - 1)
      ensures Next(old(p.run))
    {
      ghost var s := p.Now();
      m.slot := m.slot.(semResult := m.slot.semResult - 1);
      m.pc := Done;
      assert m.Value() == s.mods[k].(pc := Done, slot := m.slot);
      Stepped(s, ViewOf(s, k).next);
    }

    /** data[0] = 0 */
    method WipeChunk()
      requires At(Pc.Wipe)
      modifies p`run, p`mem, m`pc, m`seen
      ensures At(Recycle)
      ensures m.seen == old(m.seen) + [old(Read(p.mem, m.offs))]
      ensures forall o | o != m.offs :: Read(p.mem, o) == old(Read(p.mem, o))
      ensures Emptied(old(Read(p.mem, m.offs)), Read(p.mem, m.offs))
      ensures Next(old(p.run))
    {
      ghost var s := p.Now();
      var d := Read(p.mem, m.offs);
      m.seen, p.mem := m.seen + [d], p.mem[m.offs := Wiped(d)];
      m.pc := Recycle;
      assert m.Value() == s.mods[k].(pc := Recycle, seen := m.seen);
      Stepped(s, ViewOf(s, k).next);
    }

    /** ring_buffer_push */
    method PushChunk()
      requires At(Recycle)
      modifies p`run, p`ring, m`pc
      ensures At(Idle)
      ensures p.ring == old(p.ring) + [m.offs]
      ensures Next(old(p.run))
    {
      ghost var s := p.Now();
      p.ring := p.ring + [m.offs];
      m.pc := Idle;
      Stepped(s, ViewOf(s, k).next);
    }

    // -------------------------------------------------------------- waiting

    /** The others are not observed any more, and the thread waits for them. */
    ghost predicate Blocked()
      reads p, p.mods
    {
      && Valid() && p.world == []
      && match m.pc
         case Idle => k > 0 && m.box.newCmd == 0
         case Pop => p.ring == []
         case JobWait => m.slot.semResult == 0
         case QuitWait => m.slot.semResult == 0
         case SendWait => next != null && next.box.result == 0
         case HaltWait => next != null && next.box.result == 0
         case _ => false
    }

    /** Since the beginning of the method the run has gone on, but this thread has taken,
        posted and dropped nothing. */
    twostate predicate Quiet()
      reads p, m
    {
      && old(p.run) <= p.run && old(Made()) <= Made()
      && m.taken == old(m.taken) && m.posted == old(m.posted) && m.dropped == old(m.dropped)
    }

    /** Blocked on new_cmd, as long as the others are observed */
    method AwaitCommand(ghost at: Pc) returns (up: bool)
      requires At(at)
      modifies p, p.mods
      ensures At(at) && m.cmd == old(m.cmd) && m.offs == old(m.offs) && Quiet()
      ensures if up then m.box.newCmd > 0 else p.world == [] && m.box.newCmd == 0
    {
      Interfere();
      while m.box.newCmd == 0
        invariant At(at) && m.cmd == old(m.cmd) && m.offs == old(m.offs) && Quiet()
        decreases |p.world|
      {
        if p.world == [] {
          return false;
        }
        Interfere();
      }
      up := true;
    }

    /** Blocked on sem_result */
    method AwaitResult(ghost at: Pc) returns (up: bool)
      requires At(at)
      modifies p, p.mods
      ensures At(at) && m.cmd == old(m.cmd) && m.offs == old(m.offs) && Quiet()
      ensures if up then m.slot.semResult > 0 else p.world == [] && m.slot.semResult == 0
    {
      Interfere();
      while m.slot.semResult == 0
        invariant At(at) && m.cmd == old(m.cmd) && m.offs == old(m.offs) && Quiet()
        decreases |p.world|
      {
        if p.world == [] {
          return false;
        }
        Interfere();
      }
      up := true;
    }

    /** Blocked on the next module's result */
    method AwaitMailbox(ghost at: Pc) returns (up: bool)
      requires At(at) && next != null
      modifies p, p.mods
      ensures At(at) && m.cmd == old(m.cmd) && m.offs == old(m.offs) && Quiet()
      ensures if up then next.box.result > 0 else p.world == [] && next.box.result == 0
    {
      Interfere();
      while next.box.result == 0
        invariant At(at) && m.cmd == old(m.cmd) && m.offs == old(m.offs) && Quiet()
        decreases |p.world|
      {
        if p.world == [] {
          return false;
        }
        Interfere();
      }
      up := true;
    }

    /** Blocked on the empty ring */
    method AwaitChunk(ghost at: Pc) returns (up: bool)
      requires At(at)
      modifies p, p.mods
      ensures At(at) && m.cmd == old(m.cmd) && m.offs == old(m.offs) && Quiet()
      ensures if up then p.ring != [] else p.world == [] && p.ring == []
    {
      Interfere();
      while p.ring == []
        invariant At(at) && m.cmd == old(m.cmd) && m.offs == old(m.offs) && Quiet()
        decreases |p.world|
      {
        if p.world == [] {
          return false;
        }
        Interfere();
      }
      up := true;
    }

    // --------------------------------------------------------------- phases

    /** The announcement of a message. */
    method TakeCommand() returns (ok: bool)
      requires At(Idle) && k > 0
      modifies p, p.mods
      ensures (if ok then At(TakeCmd) else Blocked()) && Quiet()
    {
      ok := AwaitCommand(Idle);
      if ok {
        TakeToken();
      }
    }

    /** Its two fields. */
    method LoadMessage()
      requires At(TakeCmd)
      modifies p, p.mods
      ensures At(Ack) && Quiet()
    {
      Interfere();
      LoadCommand();
      Interfere();
      LoadOffset();
    }

    /** And the acknowledgement. */
    method ReadMessage()
      requires At(TakeCmd) && k > 0
      modifies p, p.mods
      ensures At(Due()) && old(p.run) <= p.run && m.posted == old(m.posted) && m.dropped == old(m.dropped)
      ensures m.taken == old(m.taken) + [Got()]
    {
      LoadMessage();
      Interfere();
      PostResult();
    }

    /** A message from the own mailbox. */
    method Receive() returns (ok: bool)
      requires At(Idle) && k > 0
      modifies p, p.mods
      ensures old(p.run) <= p.run && m.posted == old(m.posted) && m.dropped == old(m.dropped)
      ensures m.taken == old(m.taken) + if ok then [Got()] else []
      ensures if ok then At(Due()) else Blocked()
    {
      ok := TakeCommand();
      if ok {
        ReadMessage();
      }
    }

    /** The slot of the own child is filled. */
    method StoreJob()
      requires At(JobCmd)
      modifies p, p.mods
      ensures At(JobPost) && m.offs == old(m.offs) && Quiet()
    {
      Interfere();
      StoreCommand();
      Interfere();
      StoreOffset();
    }

    /** The child is told. */
    method TellJob()
      requires At(JobPost)
      modifies p, p.mods
      ensures At(JobWait) && m.offs == old(m.offs) && Quiet()
    {
      Interfere();
      PostJob();
    }

    /** Its answer. */
    method CollectResult() returns (ok: bool)
      requires At(JobWait)
      modifies p, p.mods
      ensures (if ok then At(JobTest) else Blocked()) && m.offs == old(m.offs) && Quiet()
    {
      ok := AwaitResult(JobWait);
      if ok {
        TakeResult();
      }
    }

    /** A job for the own child. */
    method RunChild() returns (ok: bool)
      requires At(JobCmd)
      modifies p, p.mods
      ensures (if ok then At(JobTest) else Blocked()) && m.offs == old(m.offs) && Quiet()
    {
      StoreJob();
      TellJob();
      ok := CollectResult();
    }

    /** The mailbox of the next module is free. */
    method TakeNext() returns (ok: bool)
      requires At(SendWait) && next != null
      modifies p, p.mods
      ensures (if ok then At(SendCmd) else Blocked()) && m.offs == old(m.offs) && Quiet()
    {
      ok := AwaitMailbox(SendWait);
      if ok {
        TakeMailbox();
      }
    }

    /** It is filled. */
    method SendJob()
      requires At(SendCmd) && next != null
      modifies p, p.mods
      ensures At(SendPost) && m.offs == old(m.offs) && Quiet()
    {
      Interfere();
      SendCommand();
      Interfere();
      SendOffset();
    }

    /** And posted. */
    method HandOver()
      requires At(SendCmd) && next != null
      modifies p, p.mods
      ensures At(Idle) && old(p.run) <= p.run && old(Made()) <= Made()
      ensures m.taken == old(m.taken) && m.dropped == old(m.dropped) && m.posted == old(m.posted) + [Work(old(m.offs))]
    {
      SendJob();
      Interfere();
      PostNext();
    }

    /** The chunk goes to the next module. */
    method Forward() returns (ok: bool)
      requires At(SendWait) && next != null
      modifies p, p.mods
      ensures old(p.run) <= p.run && old(Made()) <= Made()
      ensures m.taken == old(m.taken) && m.dropped == old(m.dropped)
      ensures if ok then At(Idle) else Blocked()
      ensures m.posted == old(m.posted) + if ok then [Work(old(m.offs))] else []
    {
      ok := TakeNext();
      if ok {
        HandOver();
      }
    }

    /** The mailbox of the next module is free, for STOP. */
    method TakeNextLast() returns (ok: bool)
      requires At(HaltWait) && next != null
      modifies p, p.mods
      ensures (if ok then At(HaltCmd) else Blocked()) && Quiet()
    {
      ok := AwaitMailbox(HaltWait);
      if ok {
        TakeLastMailbox();
      }
    }

    /** It is filled with STOP. */
    method FillStop()
      requires At(HaltCmd) && next != null
      modifies p, p.mods
      ensures At(HaltPost) && Quiet()
    {
      Interfere();
      SendStop();
    }

    /** And posted. */
    method HandOverStop()
      requires At(HaltCmd) && next != null
      modifies p, p.mods
      ensures At(QuitCmd) && old(p.run) <= p.run && old(Made()) <= Made()
      ensures m.taken == old(m.taken) && m.dropped == old(m.dropped) && m.posted == old(m.posted) + [Quit]
    {
      FillStop();
      Interfere();
      PostLast();
    }

    /** STOP for the next module. */
    method StopNext() returns (ok: bool)
      requires At(HaltWait) && next != null
      modifies p, p.mods
      ensures old(p.run) <= p.run && old(Made()) <= Made()
      ensures m.taken == old(m.taken) && m.dropped == old(m.dropped)
      ensures if ok then At(QuitCmd) else Blocked()
      ensures m.posted == old(m.posted) + if ok then [Quit] else []
    {
      ok := TakeNextLast();
      if ok {
        HandOverStop();
      }
    }

    /** The slot of the own child is filled for STOP, and the child told. */
    method TellChild()
      requires At(QuitCmd)
      modifies p, p.mods
      ensures At(QuitWait) && Quiet()
    {
      Interfere();
      StoreStop();
      Interfere();
      PostQuit();
    }

    /** Its last answer. */
    method CollectQuit() returns (ok: bool)
      requires At(QuitWait)
      modifies p, p.mods
      ensures (if ok then At(Done) else Blocked()) && Quiet()
    {
      ok := AwaitResult(QuitWait);
      if ok {
        TakeQuit();
      }
    }

    /** STOP for the own child. */
    method StopChild() returns (ok: bool)
      requires At(QuitCmd)
      modifies p, p.mods
      ensures (if ok then At(Done) else Blocked()) && Quiet()
    {
      TellChild();
      ok := CollectQuit();
    }

    /** STOP for both, after the loop. */
    method Halt() returns (ok: bool)
      requires At(HaltWait) && next != null
      modifies p, p.mods
      ensures old(p.run) <= p.run && old(Made()) <= Made()
      ensures m.taken == old(m.taken) && m.dropped == old(m.dropped)
      ensures m.posted == old(m.posted) || m.posted == old(m.posted) + [Quit]
      ensures if ok then At(Done) && m.posted == old(m.posted) + [Quit] else Blocked()
    {
      ok := StopNext();
      if ok {
        ok := StopChild();
      }
    }

    // -------------------------------------------------------------- threads

    /** The result of the child is looked at; the source does not heed it. */
    method CheckResult(heed: bool) returns (good: bool)
      requires At(JobTest) && heed == (k > 0)
      modifies p, p.mods
      ensures At(if good then SendWait else Drop) && (!heed ==> good) && m.offs == old(m.offs) && Quiet()
    {
      Interfere();
      good := TestResult(heed);
    }

    /** A chunk for the child, and on to the next module, whatever the status. */
    method Fill() returns (ok: bool)
      requires At(JobCmd) && k == 0 && next != null
      modifies p, p.mods
      ensures old(p.run) <= p.run && old(Made()) <= Made() && m.taken == old(m.taken) && m.dropped == old(m.dropped)
      ensures if ok then At(Idle) else Blocked()
      ensures m.posted == old(m.posted) + if ok then [Work(old(m.offs))] else []
    {
      ok := RunChild();
      if ok {
        var good := CheckResult(false);
        ok := Forward();
      }
    }

    /** A free chunk. */
    method TakeChunk() returns (ok: bool)
      requires At(Pop) && k == 0
      modifies p, p.mods
      ensures (if ok then At(JobCmd) else Blocked()) && Quiet()
    {
      ok := AwaitChunk(Pop);
      if ok {
        PopChunk();
      }
    }

    /** A chunk is taken, filled and handed on. */
    method CaptureChunk() returns (ok: bool)
      requires At(Pop) && k == 0 && next != null
      modifies p, p.mods
      ensures old(p.run) <= p.run && old(Made()) <= Made() && m.taken == old(m.taken) && m.dropped == old(m.dropped)
      ensures if ok then At(Idle) else Blocked()
      ensures |m.posted| == |old(m.posted)| + if ok then 1 else 0
    {
      ok := TakeChunk();
      if ok {
        ok := Fill();
      }
    }

    method CheckLive() returns (live: bool)
      requires At(Gate) && k == 0
      modifies p, p.mods
      ensures At(if live then Pop else Idle) && Quiet() && Made() == old(Made()) + 1
      ensures live == p.live == PipelineFlags.LiveBy(p.run)
    {
      Interfere();
      live := TestLive();
      PipelineFlags.FlagsOfRun(p.c, p.boot, p.run);
    }

    /** At some moment after the first n events the pipeline was, or was not, live. */
    ghost predicate Found(live: bool, n: nat)
      reads p`run
    {
      PipelineFlags.Found(live, n, p.run)
    }

    /** The rest of a turn of the source: nothing, unless the module is live. */
    method Capture() returns (ok: bool, live: bool)
      requires At(Gate) && k == 0 && next != null
      modifies p, p.mods
      ensures old(p.run) <= p.run && Made() > old(Made()) && m.taken == old(m.taken) && m.dropped == old(m.dropped)
      ensures if ok then At(Idle) else Blocked()
      ensures Found(live, |old(p.run)|) && |m.posted| == |old(m.posted)| + if ok && live then 1 else 0
    {
      live := CheckLive();
      ghost var seen := p.run;
      PipelineFlags.FoundNow(|old(p.run)|, seen);
      ok := true;
      if live {
        ok := CaptureChunk();
      }
      PipelineFlags.FoundLater(live, |old(p.run)|, |old(p.run)|, seen, p.run);
    }

    method CheckExit() returns (exit: bool)
      requires At(Idle) && k == 0
      modifies p, p.mods
      ensures At(if exit then HaltWait else Gate) && Quiet() && Made() == old(Made()) + 1
      ensures exit == p.exit == PipelineFlags.ExitBy(p.run)
    {
      Interfere();
      exit := TestExit();
      PipelineFlags.FlagsOfRun(p.c, p.boot, p.run);
    }

    /** One turn of the source, if its loop goes on. */
    method SourceTurn() returns (go: bool, ok: bool, live: bool)
      requires At(Idle) && k == 0 && next != null
      modifies p, p.mods
      ensures old(p.run) <= p.run && m.taken == old(m.taken) && m.dropped == old(m.dropped)
      ensures if ok then At(if go then Idle else Done) else Blocked()
      ensures Made() >= old(Made()) + if go then 2 else 0
      ensures go ==> Found(live, |old(p.run)|) && |m.posted| == |old(m.posted)| + if ok && live then 1 else 0
      ensures !go ==> PipelineFlags.ExitBy(p.run) && (m.posted == old(m.posted) || m.posted == old(m.posted) + [Quit])
      ensures !go && ok ==> m.posted == old(m.posted) + [Quit]
    {
      var exit := CheckExit();
      go, live := !exit, false;
      ghost var seen := p.run;
      if go {
        ok, live := Capture();
        PipelineFlags.FoundLater(live, |old(p.run)|, |seen|, p.run, p.run);
      } else {
        ok := Halt();
      }
    }

    /** source_thread, for at most `turns` turns of its loop and as long as the others are
        observed. A turn has at least two accesses; it hands on one chunk if the pipeline
        is live when it looks, and nothing else. STOP is posted once, after the loop, which
        ends only if exit has been raised. */
    method SourceThread(turns: nat) returns (ended: bool, turn: nat, sent: nat)
      requires At(Idle) && k == 0 && next != null
      modifies p, p.mods
      ensures old(p.run) <= p.run && m.taken == old(m.taken) && m.dropped == old(m.dropped)
      ensures sent <= turn <= turns && Made() >= old(Made()) + 2 * turn
      ensures (sent > 0 ==> Found(true, |old(p.run)|)) && (sent < turn ==> Found(false, |old(p.run)|))
      ensures |old(m.posted)| + sent <= |m.posted| <= |old(m.posted)| + sent + 1
      ensures |m.posted| > |old(m.posted)| + sent ==> PipelineFlags.ExitBy(p.run) && EndsWith(m.posted, Quit)
      ensures if ended then At(Done) && |m.posted| == |old(m.posted)| + sent + 1 && EndsWith(m.posted, Quit)
              else Blocked() || (At(Idle) && turn == turns && |m.posted| == |old(m.posted)| + sent)
    {
      ended, turn, sent := false, 0, 0;
      while turn < turns
        invariant sent <= turn <= turns && !ended && At(Idle)
        invariant old(p.run) <= p.run && m.taken == old(m.taken) && m.dropped == old(m.dropped)
        invariant Made() >= old(Made()) + 2 * turn && |m.posted| == |old(m.posted)| + sent
        invariant sent > 0 ==> Found(true, |old(p.run)|)
        invariant sent < turn ==> Found(false, |old(p.run)|)
      {
        ghost var run := p.run;
        var go, ok, live := SourceTurn();
        FoundStill(|old(p.run)|, run);
        if !go || !ok {
          ended := ok;
          return;
        }
        PipelineFlags.FoundLater(live, |old(p.run)|, |run|, p.run, p.run);
        turn, sent := turn + 1, if live then sent + 1 else sent;
      }
    }

    /** What was found before is found in the longer run. */
    lemma FoundStill(n: nat, run: seq<Event>)
      requires run <= p.run
      ensures PipelineFlags.Found(true, n, run) ==> Found(true, n)
      ensures PipelineFlags.Found(false, n, run) ==> Found(false, n)
    {
      if PipelineFlags.Found(true, n, run) {
        PipelineFlags.FoundLater(true, n, n, run, p.run);
      }
      if PipelineFlags.Found(false, n, run) {
        PipelineFlags.FoundLater(false, n, n, run, p.run);
      }
    }

    /** How many chunks and STOPs this thread has posted or dropped. */
    ghost function Settled(): nat
      reads m
    {
      |m.posted| + m.dropped
    }

    /** The chunk goes back to the ring. */
    method Discard()
      requires At(Drop)
      modifies p, p.mods
      ensures At(Idle) && old(p.run) <= p.run && m.taken == old(m.taken) && m.posted == old(m.posted)
      ensures m.dropped == old(m.dropped) + 1
    {
      Interfere();
      DropChunk();
    }

    /** The chunk is handed on, or dropped. */
    method Settle(good: bool) returns (ok: bool)
      requires At(if good then SendWait else Drop) && next != null
      modifies p, p.mods
      ensures old(p.run) <= p.run && m.taken == old(m.taken)
      ensures if ok then At(Idle) else Blocked()
      ensures Settled() == old(Settled()) + if ok then 1 else 0
    {
      if good {
        ok := Forward();
      } else {
        ok := true;
        Discard();
      }
    }

    /** The rest of a turn of process_thread. */
    method Process() returns (ok: bool)
      requires At(JobCmd) && k > 0 && next != null
      modifies p, p.mods
      ensures old(p.run) <= p.run && m.taken == old(m.taken)
      ensures if ok then At(Idle) else Blocked()
      ensures Settled() == old(Settled()) + if ok then 1 else 0
    {
      ok := RunChild();
      if ok {
        var good := CheckResult(true);
        ok := Settle(good);
      }
    }

    /** One turn of process_thread, if the message is a job; otherwise its end. */
    method ProcessTurn() returns (go: bool, ok: bool)
      requires At(Idle) && k > 0 && next != null
      modifies p, p.mods
      ensures old(p.run) <= p.run
      ensures |old(m.taken)| <= |m.taken| <= |old(m.taken)| + 1 && old(Settled()) <= Settled() <= old(Settled()) + 1
      ensures ok ==> |m.taken| == |old(m.taken)| + 1 && Settled() == old(Settled()) + 1
      ensures if ok then At(if go then Idle else Done) else Blocked()
      ensures ok && !go ==> EndsWith(m.taken, Quit) && EndsWith(m.posted, Quit)
    {
      go := true;
      ok := Receive();
      if ok {
        go := m.cmd != Stop;
        if go {
          ok := Process();
        } else {
          ok := Halt();
        }
      }
    }

    /** process_thread. A turn takes one message and posts or drops one chunk; the last
        message taken is STOP, and is posted. */
    method ProcessThread(turns: nat) returns (ended: bool, turn: nat)
      requires At(Idle) && k > 0 && next != null
      modifies p, p.mods
      ensures old(p.run) <= p.run && turn <= turns
      ensures |old(m.taken)| + turn <= |m.taken| <= |old(m.taken)| + turn + 1
      ensures old(Settled()) + turn <= Settled() <= old(Settled()) + turn + 1
      ensures if ended then
                && At(Done) && EndsWith(m.taken, Quit) && EndsWith(m.posted, Quit)
                && |m.taken| == |old(m.taken)| + turn + 1 && Settled() == old(Settled()) + turn + 1
              else
                || Blocked()
                || (At(Idle) && turn == turns && |m.taken| == |old(m.taken)| + turn &&
                    Settled() == old(Settled()) + turn)
    {
      ended, turn := false, 0;
      while turn < turns
        invariant turn <= turns && !ended && At(Idle) && old(p.run) <= p.run
        invariant |m.taken| == |old(m.taken)| + turn && Settled() == old(Settled()) + turn
      {
        var go, ok := ProcessTurn();
        if !go || !ok {
          ended := ok;
          return;
        }
        turn := turn + 1;
      }
    }

    /** The chunk is wiped and goes back to the ring. */
    method Finalize()
      requires At(Pc.Wipe)
      modifies p, p.mods
      ensures At(Idle) && Quiet()
    {
      Interfere();
      WipeChunk();
      Interfere();
      PushChunk();
    }

    /** finalization_thread. A turn takes one message; the last one is STOP. */
    method FinalizationThread(turns: nat) returns (ended: bool, turn: nat)
      requires At(Idle) && k > 0 && next == null
      modifies p, p.mods
      ensures old(p.run) <= p.run && turn <= turns
      ensures |m.taken| == |old(m.taken)| + turn + if ended then 1 else 0
      ensures if ended then At(Done) && EndsWith(m.taken, Quit)
              else Blocked() || (At(Idle) && turn == turns)
    {
      ended, turn := false, 0;
      while turn < turns
        invariant turn <= turns && !ended && At(Idle) && old(p.run) <= p.run
        invariant |m.taken| == |old(m.taken)| + turn
      {
        var ok := Receive();
        if !ok {
          return;
        }
        if m.cmd == Stop {
          ended := true;
          return;
        }
        Finalize();
        turn := turn + 1;
      }
    }
  }
}
