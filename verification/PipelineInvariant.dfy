/** What every step of the pipeline keeps.  All invariants are local: they speak
    of one module, of two neighbours, or of the sum of the chunks in all places,
    so that a step of thread k has to be checked only against modules k - 1, k
    and k + 1. */
module PipelineInvariant {
  import opened PipelineModel

  // ------------------------------------------------------- positions of a pc

  /** Between sem_wait and sem_post on the next module's mailbox. */
  predicate Writing(p: Pc) {
    p.SendCmd? || p.SendOffs? || p.SendPost? || p.HaltCmd? || p.HaltPost?
  }

  /** Between sem_wait and sem_post on the own mailbox. */
  predicate Reading(p: Pc) {
    p.TakeCmd? || p.TakeOffs? || p.Ack?
  }

  /** Waiting for the child. */
  predicate Calling(p: Pc) {
    p.JobWait? || p.QuitWait?
  }

  /** The thread has posted its STOP to the next module. */
  predicate Closed(p: Pc) {
    p.QuitCmd? || p.QuitPost? || p.QuitWait? || p.Done?
  }

  /** The thread has left its loop. */
  predicate Halting(p: Pc) {
    p.HaltWait? || p.HaltCmd? || p.HaltPost? || Closed(p)
  }

  predicate Sending(p: Pc) {
    p.SendWait? || p.SendCmd? || p.SendOffs? || p.SendPost?
  }

  /** Taken, and on the way to the child. */
  predicate Loading(p: Pc) {
    p.JobCmd? || p.JobOffs? || p.JobPost?
  }

  /** A chunk is in the hands of the thread or its child. */
  predicate Holding(p: Pc) {
    Loading(p) || p.JobWait? || p.JobTest? || p.Drop? || Sending(p) || p.Wipe? || p.Recycle?
  }

  predicate Allowed(r: Role, p: Pc) {
    match r
    case Source => !Reading(p) && !p.Drop? && !p.Wipe? && !p.Recycle?
    case Process => !p.Gate? && !p.Pop? && !p.Wipe? && !p.Recycle?
    case Final => p.Idle? || Reading(p) || p.Wipe? || p.Recycle? || p.Done?
  }

  predicate Busy(p: ChildPc) {
    p.Dispatch? || p.Acting? || p.Replying? || p.Leaving?
  }

  function One(b: bool): nat {
    if b then 1 else 0
  }

  // --------------------------------------------------------- one module

  /** The child has not acted on the chunk the thread posted. */
  predicate Unacted(m: Module) {
    m.slot.semJob > 0 || m.child.pc.Dispatch? || m.child.pc.Acting?
  }

  /** The thread holds a chunk its module has not acted on. */
  predicate Fresh(m: Module) {
    (m.pc.Ack? && m.cmd.Job?) || Loading(m.pc) || (m.pc.JobWait? && Unacted(m)) || m.pc.Wipe?
  }

  /** The thread holds a chunk its module has acted on. */
  predicate Processed(m: Module) {
    (m.pc.JobWait? && !Unacted(m)) || m.pc.JobTest? || m.pc.Drop? || Sending(m.pc) || m.pc.Recycle?
  }

  /** The mailbox carries a JOB whose offset the thread has not read. */
  predicate Mailed(m: Module) {
    m.box.cmd.Job? && (m.box.newCmd > 0 || m.pc.TakeCmd? || m.pc.TakeOffs?)
  }

  /** The thread has a chunk. */
  predicate Held(m: Module) {
    Holding(m.pc) || (m.pc.Ack? && m.cmd.Job?)
  }

  function OneIf(b: bool, o: nat): multiset<nat> {
    if b then multiset{o} else multiset{}
  }

  /** The offsets a module has: the one in its mailbox and the one its thread holds. */
  function Load(m: Module): multiset<nat> {
    OneIf(Mailed(m), m.box.offs) + OneIf(Held(m), m.offs)
  }

  /** The semaphores of the slot and what its fields hold at each position. */
  predicate SlotInv(r: Role, m: Module) {
    && (r.Source? ==> m.box.newCmd == 0 && m.box.cmd.Job?)
    && m.slot.semJob + m.slot.semResult + One(Busy(m.child.pc)) == One(Calling(m.pc))
    && (m.pc.Pop? || Holding(m.pc) ==> m.cmd.Job?)
    && (m.pc.JobOffs? || m.pc.JobPost? || m.pc.JobWait? ==> m.slot.cmd.Job?)
    && (m.pc.JobPost? || m.pc.JobWait? ==> m.slot.offs == m.offs)
    && (m.pc.QuitPost? || m.pc.QuitWait? ==> m.slot.cmd.Stop?)
  }

  /** Where the child is while its thread is at a given position. */
  predicate ChildInv(r: Role, m: Module) {
    && (m.child.left ==> m.child.pc.Leaving? || m.child.pc.Exited?)
    && (m.child.pc.Acting? || m.child.pc.Replying? ==> m.pc.JobWait?)
    && (m.child.pc.Leaving? ==> if m.child.left then m.pc.JobWait? else m.pc.QuitWait?)
    && (m.child.pc.Exited? && !m.child.left ==> m.pc.Done? || (m.pc.QuitWait? && m.slot.semResult == 1))
    && (m.pc.QuitWait? && m.child.left ==> m.slot.semJob == 1)
    && (m.pc.QuitWait? && m.slot.semResult > 0 ==> m.child.pc.Exited?)
    && (m.pc.Done? && !r.Final? ==> m.child.pc.Exited? && !m.child.left)
    && (r.Final? ==> m.child.pc.Waiting? && m.child.log == [])
  }

  /** The status a process thread tested is the one its child stored; a child that
      ends leaves 0. */
  predicate VerdictInv(r: Role, m: Module) {
    && (m.pc.Drop? ==> r.Process? && m.slot.cmdResult != 0)
    && (r.Process? && Sending(m.pc) ==> m.slot.cmdResult == 0)
    && (m.child.pc.Leaving? || m.child.pc.Exited? ==> m.slot.cmdResult == 0)
  }

  /** ms ends with its only Quit if ended, and has none otherwise. */
  predicate OneQuit(ms: seq<Message>, ended: bool) {
    (ended ==> ms != []) && forall i | 0 <= i < |ms| :: ms[i] == Quit <==> (ended && i == |ms| - 1)
  }

  /** The child has read its STOP. */
  predicate Stopped(r: Role, m: Module) {
    (m.pc.QuitWait? && m.slot.semJob == 0 && !m.child.pc.Dispatch?) || (m.pc.Done? && !r.Final?)
  }

  /** The child's log is its jobs followed, at the end, by one STOP. */
  predicate LogInv(r: Role, m: Module) {
    !r.Final? ==> OneQuit(m.child.log, Stopped(r, m)) && |m.child.log| == |m.seen| + One(Stopped(r, m))
  }

  /** The messages posted are those of the chunks sent on, and at the end one STOP. */
  predicate PostInv(r: Role, m: Module) {
    if r.Final? then m.out == [] && m.posted == []
    else OneQuit(m.posted, Closed(m.pc)) && |m.posted| == |m.out| + One(Closed(m.pc))
  }

  /** STOP is the last message taken. */
  predicate TakeInv(r: Role, m: Module) {
    if r.Source? then m.taken == [] else OneQuit(m.taken, Halting(m.pc))
  }

  /** A chunk the module has acted on was sent on, dropped, or is still held. */
  predicate FlowInv(r: Role, m: Module) {
    && (!r.Final? ==> |m.seen| == |m.out| + m.dropped + One(Processed(m)))
    && (!r.Process? ==> m.dropped == 0)
  }

  predicate ModuleInv(r: Role, m: Module) {
    Allowed(r, m.pc) && SlotInv(r, m) && ChildInv(r, m) && VerdictInv(r, m) &&
    LogInv(r, m) && PostInv(r, m) && TakeInv(r, m) && FlowInv(r, m)
  }

  // ----------------------------------------------------- two neighbours

  function MessageIn(b: Mailbox): Message {
    if b.cmd.Stop? then Quit else Work(b.offs)
  }

  /** The pair in the mailbox that the thread has not finished reading. */
  function Unread(m: Module): seq<Message> {
    if m.box.newCmd > 0 || Reading(m.pc) then [MessageIn(m.box)] else []
  }

  /** STOP has reached the module. */
  predicate StopSeen(m: Module) {
    (m.box.cmd.Stop? && (m.box.newCmd > 0 || Reading(m.pc))) || Halting(m.pc)
  }

  /** p writes the mailbox of m, m reads it. */
  predicate LinkInv(p: Module, m: Module) {
    && m.box.newCmd + m.box.result + One(Writing(p.pc)) + One(Reading(m.pc)) == 1
    && (p.pc.SendOffs? || p.pc.SendPost? ==> m.box.cmd.Job?)
    && (p.pc.SendPost? ==> m.box.offs == p.offs)
    && (p.pc.HaltPost? ==> m.box.cmd.Stop?)
    && (m.pc.TakeOffs? || m.pc.Ack? ==> m.cmd == m.box.cmd)
    && (m.pc.Ack? ==> m.offs == m.box.offs)
    && (Closed(p.pc) <==> StopSeen(m))
  }

  /** What p posted is what m took, in order, and then what is still in the mailbox. */
  predicate MailInv(p: Module, m: Module) {
    p.posted == m.taken + Unread(m)
  }

  // ------------------------------------------------------- all modules

  function Total(ms: seq<multiset<nat>>): multiset<nat> {
    if ms == [] then multiset{} else Total(ms[..|ms| - 1]) + ms[|ms| - 1]
  }

  function Loads(mods: seq<Module>): seq<multiset<nat>> {
    seq(|mods|, i requires 0 <= i < |mods| => Load(mods[i]))
  }

  /** The offsets in the ring and those the modules have. */
  function Everywhere(s: State): multiset<nat> {
    multiset(s.ring) + Total(Loads(s.mods))
  }

  /** Module k and the link into it. */
  predicate Local(c: Config, mods: seq<Module>, k: nat)
    requires k < |mods|
  {
    && ModuleInv(RoleOf(c, k), mods[k])
    && (k > 0 ==> LinkInv(mods[k - 1], mods[k]) && MailInv(mods[k - 1], mods[k]))
  }

  predicate Inv(c: Config, s: State) {
    && |s.mods| == c.modules >= 2
    && (forall k: nat | k < |s.mods| :: Local(c, s.mods, k))
    && Everywhere(s) == multiset(c.Offsets())
  }

  // --------------------------------------------------- a step, locally

  /** The positions before a chunk is judged; the proofs are split here. */
  predicate Early(p: Pc) {
    p.Idle? || p.Gate? || Reading(p) || p.Pop? || Loading(p) || p.JobWait?
  }

  lemma ReadKeepsSlot(r: Role, v: View, exit: bool, live: bool)
    requires ThreadReady(r, v, exit, live) && Allowed(r, v.me.pc) && SlotInv(r, v.me) && ChildInv(r, v.me)
    requires v.me.pc.Idle? || v.me.pc.Gate? || Reading(v.me.pc)
    ensures SlotInv(r, ThreadMove(r, v, exit, live).me)
  {
  }

  lemma EarlyKeepsSlot(r: Role, v: View, exit: bool, live: bool)
    requires ThreadReady(r, v, exit, live) && Allowed(r, v.me.pc) && SlotInv(r, v.me) && ChildInv(r, v.me)
    requires Early(v.me.pc) && !v.me.pc.Idle? && !v.me.pc.Gate? && !Reading(v.me.pc)
    ensures SlotInv(r, ThreadMove(r, v, exit, live).me)
  {
  }

  lemma HaltKeepsSlot(r: Role, v: View, exit: bool, live: bool)
    requires ThreadReady(r, v, exit, live) && Allowed(r, v.me.pc) && SlotInv(r, v.me) && ChildInv(r, v.me)
    requires Halting(v.me.pc) && !Closed(v.me.pc)
    ensures SlotInv(r, ThreadMove(r, v, exit, live).me)
  {
  }

  lemma QuitKeepsSlot(r: Role, v: View, exit: bool, live: bool)
    requires ThreadReady(r, v, exit, live) && Allowed(r, v.me.pc) && SlotInv(r, v.me) && ChildInv(r, v.me)
    requires Closed(v.me.pc)
    ensures SlotInv(r, ThreadMove(r, v, exit, live).me)
  {
  }

  lemma LateKeepsSlot(r: Role, v: View, exit: bool, live: bool)
    requires ThreadReady(r, v, exit, live) && Allowed(r, v.me.pc) && SlotInv(r, v.me) && ChildInv(r, v.me)
    requires !Early(v.me.pc) && !Halting(v.me.pc)
    ensures SlotInv(r, ThreadMove(r, v, exit, live).me)
  {
  }

  lemma ThreadKeepsSlot(r: Role, v: View, exit: bool, live: bool)
    requires ThreadReady(r, v, exit, live) && Allowed(r, v.me.pc) && SlotInv(r, v.me) && ChildInv(r, v.me)
    ensures SlotInv(r, ThreadMove(r, v, exit, live).me)
  {
    if v.me.pc.Idle? || v.me.pc.Gate? || Reading(v.me.pc) {
      ReadKeepsSlot(r, v, exit, live);
    } else if Early(v.me.pc) {
      EarlyKeepsSlot(r, v, exit, live);
    } else if Closed(v.me.pc) {
      QuitKeepsSlot(r, v, exit, live);
    } else if Halting(v.me.pc) {
      HaltKeepsSlot(r, v, exit, live);
    } else {
      LateKeepsSlot(r, v, exit, live);
    }
  }

  /** The thread signals its child, or waits for it. */
  predicate Signalling(p: Pc) {
    p.JobPost? || p.QuitPost? || Calling(p)
  }

  lemma ThreadKeepsChild(r: Role, v: View, exit: bool, live: bool)
    requires ThreadReady(r, v, exit, live) && Allowed(r, v.me.pc) && SlotInv(r, v.me) && ChildInv(r, v.me)
    ensures ChildInv(r, ThreadMove(r, v, exit, live).me)
  {
    var m := ThreadMove(r, v, exit, live).me;
    if !Signalling(v.me.pc) && !r.Final? {
      assert m.child == v.me.child && m.slot.semJob == v.me.slot.semJob && m.slot.semResult == v.me.slot.semResult;
      assert !m.pc.JobWait? && !m.pc.QuitWait? && m.pc.Done? == v.me.pc.Done?;
    }
  }

  lemma ThreadKeepsVerdict(r: Role, v: View, exit: bool, live: bool)
    requires ThreadReady(r, v, exit, live) && Allowed(r, v.me.pc) && VerdictInv(r, v.me)
    ensures var m := ThreadMove(r, v, exit, live).me; Allowed(r, m.pc) && VerdictInv(r, m)
  {
  }

  lemma ThreadKeepsLog(r: Role, v: View, exit: bool, live: bool)
    requires ThreadReady(r, v, exit, live) && Allowed(r, v.me.pc) && SlotInv(r, v.me) && ChildInv(r, v.me)
    requires LogInv(r, v.me)
    ensures LogInv(r, ThreadMove(r, v, exit, live).me)
  {
    var m := ThreadMove(r, v, exit, live).me;
    if !Signalling(v.me.pc) && !r.Final? {
      assert m.child == v.me.child && m.seen == v.me.seen && Stopped(r, m) == Stopped(r, v.me);
    }
  }

  lemma ThreadKeepsPosts(r: Role, v: View, exit: bool, live: bool)
    requires ThreadReady(r, v, exit, live) && Allowed(r, v.me.pc) && PostInv(r, v.me)
    ensures PostInv(r, ThreadMove(r, v, exit, live).me)
  {
    var m := ThreadMove(r, v, exit, live).me;
    if !v.me.pc.SendPost? && !v.me.pc.HaltPost? {
      assert m.posted == v.me.posted && m.out == v.me.out && (!r.Final? ==> Closed(m.pc) == Closed(v.me.pc));
    }
  }

  lemma ThreadKeepsTakes(r: Role, v: View, exit: bool, live: bool)
    requires ThreadReady(r, v, exit, live) && Allowed(r, v.me.pc) && TakeInv(r, v.me)
    ensures TakeInv(r, ThreadMove(r, v, exit, live).me)
  {
    var m := ThreadMove(r, v, exit, live).me;
    if !v.me.pc.Ack? {
      assert m.taken == v.me.taken && (!r.Source? ==> Halting(m.pc) == Halting(v.me.pc));
    }
  }

  lemma ThreadKeepsFlow(r: Role, v: View, exit: bool, live: bool)
    requires ThreadReady(r, v, exit, live) && Allowed(r, v.me.pc) && SlotInv(r, v.me) && ChildInv(r, v.me)
    requires VerdictInv(r, v.me) && FlowInv(r, v.me)
    ensures FlowInv(r, ThreadMove(r, v, exit, live).me)
  {
    var m := ThreadMove(r, v, exit, live).me;
    if !Signalling(v.me.pc) && !v.me.pc.SendPost? && !v.me.pc.Drop? && !r.Final? {
      assert m.seen == v.me.seen && m.out == v.me.out && m.dropped == v.me.dropped;
      assert Processed(m) == Processed(v.me);
    }
  }

  lemma ThreadKeepsModule(r: Role, v: View, exit: bool, live: bool)
    requires ThreadReady(r, v, exit, live) && ModuleInv(r, v.me)
    ensures ModuleInv(r, ThreadMove(r, v, exit, live).me)
  {
    ThreadKeepsSlot(r, v, exit, live);
    ThreadKeepsChild(r, v, exit, live);
    ThreadKeepsVerdict(r, v, exit, live);
    ThreadKeepsLog(r, v, exit, live);
    ThreadKeepsPosts(r, v, exit, live);
    ThreadKeepsTakes(r, v, exit, live);
    ThreadKeepsFlow(r, v, exit, live);
  }

  lemma ReadKeepsLinkIn(r: Role, p: Module, v: View, exit: bool, live: bool)
    requires ThreadReady(r, v, exit, live) && Allowed(r, v.me.pc) && SlotInv(r, v.me) && !r.Source?
    requires LinkInv(p, v.me)
    requires v.me.pc.Idle? || Reading(v.me.pc)
    ensures LinkInv(p, ThreadMove(r, v, exit, live).me)
  {
  }

  lemma EarlyKeepsLinkIn(r: Role, p: Module, v: View, exit: bool, live: bool)
    requires ThreadReady(r, v, exit, live) && Allowed(r, v.me.pc) && SlotInv(r, v.me) && !r.Source?
    requires LinkInv(p, v.me)
    requires Early(v.me.pc) && !v.me.pc.Idle? && !Reading(v.me.pc)
    ensures LinkInv(p, ThreadMove(r, v, exit, live).me)
  {
  }

  lemma LateKeepsLinkIn(r: Role, p: Module, v: View, exit: bool, live: bool)
    requires ThreadReady(r, v, exit, live) && Allowed(r, v.me.pc) && SlotInv(r, v.me) && !r.Source?
    requires LinkInv(p, v.me)
    requires !Early(v.me.pc)
    ensures LinkInv(p, ThreadMove(r, v, exit, live).me)
  {
  }

  lemma ThreadKeepsLinkIn(r: Role, p: Module, v: View, exit: bool, live: bool)
    requires ThreadReady(r, v, exit, live) && Allowed(r, v.me.pc) && SlotInv(r, v.me) && !r.Source?
    requires LinkInv(p, v.me)
    ensures LinkInv(p, ThreadMove(r, v, exit, live).me)
  {
    if v.me.pc.Idle? || Reading(v.me.pc) {
      ReadKeepsLinkIn(r, p, v, exit, live);
    } else if Early(v.me.pc) {
      EarlyKeepsLinkIn(r, p, v, exit, live);
    } else {
      LateKeepsLinkIn(r, p, v, exit, live);
    }
  }

  lemma EarlyKeepsLinkOut(r: Role, v: View, n: Module, exit: bool, live: bool)
    requires ThreadReady(r, v, exit, live) && Allowed(r, v.me.pc) && SlotInv(r, v.me) && !r.Final?
    requires v.next == n.box && LinkInv(v.me, n)
    requires Early(v.me.pc)
    ensures var w := ThreadMove(r, v, exit, live); LinkInv(w.me, n.(box := w.next))
  {
    var w := ThreadMove(r, v, exit, live);
    assert w.next == v.next && n.(box := w.next) == n;
    assert !Writing(w.me.pc) && !Closed(w.me.pc);
  }

  lemma SendKeepsLinkOut(r: Role, v: View, n: Module, exit: bool, live: bool)
    requires ThreadReady(r, v, exit, live) && Allowed(r, v.me.pc) && SlotInv(r, v.me) && !r.Final?
    requires v.next == n.box && LinkInv(v.me, n)
    requires !Early(v.me.pc) && !Halting(v.me.pc)
    ensures var w := ThreadMove(r, v, exit, live); LinkInv(w.me, n.(box := w.next))
  {
  }

  lemma HaltKeepsLinkOut(r: Role, v: View, n: Module, exit: bool, live: bool)
    requires ThreadReady(r, v, exit, live) && Allowed(r, v.me.pc) && SlotInv(r, v.me) && !r.Final?
    requires v.next == n.box && LinkInv(v.me, n)
    requires Halting(v.me.pc)
    ensures var w := ThreadMove(r, v, exit, live); LinkInv(w.me, n.(box := w.next))
  {
  }

  lemma ThreadKeepsLinkOut(r: Role, v: View, n: Module, exit: bool, live: bool)
    requires ThreadReady(r, v, exit, live) && Allowed(r, v.me.pc) && SlotInv(r, v.me) && !r.Final?
    requires v.next == n.box && LinkInv(v.me, n)
    ensures var w := ThreadMove(r, v, exit, live); LinkInv(w.me, n.(box := w.next))
  {
    if Early(v.me.pc) {
      EarlyKeepsLinkOut(r, v, n, exit, live);
    } else if Halting(v.me.pc) {
      HaltKeepsLinkOut(r, v, n, exit, live);
    } else {
      SendKeepsLinkOut(r, v, n, exit, live);
    }
  }

  /** Only four positions move a chunk: from the ring, to the ring, to the next module. */
  predicate Moving(p: Pc) {
    p.Pop? || p.Drop? || p.Recycle? || p.SendPost?
  }

  lemma EarlyKeepsPlaces(r: Role, v: View, exit: bool, live: bool)
    requires ThreadReady(r, v, exit, live) && Allowed(r, v.me.pc) && SlotInv(r, v.me)
    requires !Moving(v.me.pc) && !v.me.pc.TakeOffs? && Early(v.me.pc)
    ensures var w := ThreadMove(r, v, exit, live);
            && w.ring == v.ring
            && Mailed(w.me) == Mailed(v.me) && (Mailed(v.me) ==> w.me.box.offs == v.me.box.offs)
            && Held(w.me) == Held(v.me) && (Held(v.me) ==> w.me.offs == v.me.offs)
  {
  }

  lemma LateKeepsPlaces(r: Role, v: View, exit: bool, live: bool)
    requires ThreadReady(r, v, exit, live) && Allowed(r, v.me.pc) && SlotInv(r, v.me)
    requires !Moving(v.me.pc) && !Early(v.me.pc)
    ensures var w := ThreadMove(r, v, exit, live);
            && w.ring == v.ring
            && Mailed(w.me) == Mailed(v.me) && (Mailed(v.me) ==> w.me.box.offs == v.me.box.offs)
            && Held(w.me) == Held(v.me) && (Held(v.me) ==> w.me.offs == v.me.offs)
  {
  }

  /** A non-source thread takes what its mailbox p filled holds. */
  lemma ThreadKeepsLoad(r: Role, p: Module, v: View, exit: bool, live: bool)
    requires ThreadReady(r, v, exit, live) && Allowed(r, v.me.pc) && SlotInv(r, v.me)
    requires !Moving(v.me.pc) && (r.Source? || LinkInv(p, v.me))
    ensures var w := ThreadMove(r, v, exit, live); w.ring == v.ring && Load(w.me) == Load(v.me)
  {
    if v.me.pc.TakeOffs? {
      assert !Held(v.me) && !Mailed(ThreadMove(r, v, exit, live).me);
    } else {
      if Early(v.me.pc) {
        EarlyKeepsPlaces(r, v, exit, live);
      } else {
        LateKeepsPlaces(r, v, exit, live);
      }
    }
  }

  lemma ThreadKeepsNextLoad(r: Role, v: View, n: Module, exit: bool, live: bool)
    requires ThreadReady(r, v, exit, live) && !v.me.pc.SendPost?
    requires v.next == n.box && LinkInv(v.me, n)
    ensures Load(n.(box := ThreadMove(r, v, exit, live).next)) == Load(n)
  {
  }

  lemma ThreadKeepsMailIn(r: Role, p: Module, v: View, exit: bool, live: bool)
    requires ThreadReady(r, v, exit, live) && Allowed(r, v.me.pc) && SlotInv(r, v.me)
    requires LinkInv(p, v.me) && MailInv(p, v.me) && !r.Source?
    ensures MailInv(p, ThreadMove(r, v, exit, live).me)
  {
  }

  lemma ThreadKeepsMailOut(r: Role, v: View, n: Module, exit: bool, live: bool)
    requires ThreadReady(r, v, exit, live) && Allowed(r, v.me.pc) && !r.Final?
    requires v.next == n.box && LinkInv(v.me, n) && MailInv(v.me, n)
    ensures var w := ThreadMove(r, v, exit, live); MailInv(w.me, n.(box := w.next))
  {
  }

  lemma NextModuleUnmoved(r: Role, n: Module, box: Mailbox)
    requires ModuleInv(r, n) && !r.Source?
    ensures ModuleInv(r, n.(box := box))
  {
  }

  lemma NextLinkUnmoved(n: Module, box: Mailbox, nn: Module)
    requires LinkInv(n, nn) && MailInv(n, nn)
    ensures LinkInv(n.(box := box), nn) && MailInv(n.(box := box), nn)
  {
  }

  // ------------------------------------------------------- a child's step

  lemma ActionKeepsModule(c: Config, k: nat, r: Role, m: Module, mem: map<nat, Chunk>, item: Chunk, status: int)
    requires m.child.pc.Acting? && ModuleInv(r, m) && !r.Final?
    ensures ModuleInv(r, ChildMove(c, k, m, mem, item, status).0)
  {
  }

  lemma StartKeepsModule(c: Config, k: nat, r: Role, m: Module, mem: map<nat, Chunk>, item: Chunk, status: int)
    requires ChildReady(m) && (m.child.pc.Waiting? || m.child.pc.Dispatch?) && ModuleInv(r, m) && !r.Final?
    ensures ModuleInv(r, ChildMove(c, k, m, mem, item, status).0)
  {
  }

  lemma ReplyKeepsModule(c: Config, k: nat, r: Role, m: Module, mem: map<nat, Chunk>, item: Chunk, status: int)
    requires (m.child.pc.Replying? || m.child.pc.Leaving?) && ModuleInv(r, m) && !r.Final?
    ensures ModuleInv(r, ChildMove(c, k, m, mem, item, status).0)
  {
  }

  lemma ChildKeepsModule(c: Config, k: nat, r: Role, m: Module, mem: map<nat, Chunk>, item: Chunk, status: int)
    requires ChildReady(m) && ModuleInv(r, m) && !r.Final?
    ensures ModuleInv(r, ChildMove(c, k, m, mem, item, status).0)
  {
    if m.child.pc.Acting? {
      ActionKeepsModule(c, k, r, m, mem, item, status);
    } else if m.child.pc.Waiting? || m.child.pc.Dispatch? {
      StartKeepsModule(c, k, r, m, mem, item, status);
    } else {
      ReplyKeepsModule(c, k, r, m, mem, item, status);
    }
  }

  /** Equal in all that links and loads speak of. */
  predicate SameLinks(m: Module, m': Module) {
    && m'.pc == m.pc && m'.cmd == m.cmd && m'.offs == m.offs && m'.box == m.box
    && m'.posted == m.posted && m'.taken == m.taken && m'.out == m.out && m'.dropped == m.dropped
  }

  lemma ChildKeepsLinks(c: Config, k: nat, m: Module, mem: map<nat, Chunk>, item: Chunk, status: int)
    requires ChildReady(m)
    ensures SameLinks(m, ChildMove(c, k, m, mem, item, status).0)
  {
  }

  lemma LinkReadsOnly(p: Module, m: Module, p': Module, m': Module)
    requires LinkInv(p, m) && MailInv(p, m)
    requires SameLinks(p, p') && SameLinks(m, m')
    ensures LinkInv(p', m') && MailInv(p', m')
  {
  }

  // ---------------------------------------------------------- conservation

  lemma MoveAcross(a: multiset<nat>, b: multiset<nat>, a': multiset<nat>, b': multiset<nat>, x: multiset<nat>)
    requires a + b == a' + b'
    ensures a + x + b == a' + x + b'
  {
    assert a + x + b == a + b + x;
  }

  lemma {:induction false} TotalAfter(ms: seq<multiset<nat>>, i: nat, x: multiset<nat>)
    requires i < |ms|
    ensures Total(ms[i := x]) + ms[i] == Total(ms) + x
  {
    var last := |ms| - 1;
    if i == last {
      assert ms[i := x][..last] == ms[..last];
    } else {
      assert ms[i := x][..last] == ms[..last][i := x];
      TotalAfter(ms[..last], i, x);
      MoveAcross(Total(ms[..last][i := x]), ms[i], Total(ms[..last]), x, ms[last]);
    }
  }

  lemma Transferred(r: multiset<nat>, r': multiset<nat>, a: multiset<nat>, a': multiset<nat>, x: multiset<nat>)
    requires r == r' + x && a' == a + x
    ensures r' + a' == r + a
  {
  }

  lemma PoppedLoad(m: Module, o: nat)
    requires m.pc.Pop?
    ensures Load(m.(pc := JobCmd, offs := o)) == Load(m) + multiset{o}
  {
  }

  lemma PopKeepsChunks(r: Role, v: View, exit: bool, live: bool)
    requires ThreadReady(r, v, exit, live) && v.me.pc.Pop?
    ensures var w := ThreadMove(r, v, exit, live);
            w.next == v.next && multiset(w.ring) + Load(w.me) == multiset(v.ring) + Load(v.me)
  {
    var w := ThreadMove(r, v, exit, live);
    PoppedLoad(v.me, v.ring[0]);
    assert v.ring == [v.ring[0]] + w.ring;
    Transferred(multiset(v.ring), multiset(w.ring), Load(v.me), Load(w.me), multiset{v.ring[0]});
  }

  lemma PushKeepsChunks(r: Role, v: View, exit: bool, live: bool)
    requires ThreadReady(r, v, exit, live) && (v.me.pc.Drop? || v.me.pc.Recycle?)
    ensures var w := ThreadMove(r, v, exit, live);
            w.next == v.next && multiset(w.ring) + Load(w.me) == multiset(v.ring) + Load(v.me)
  {
    var w := ThreadMove(r, v, exit, live);
    assert Mailed(w.me) == Mailed(v.me) && w.me.box == v.me.box;
    assert Held(v.me) && !Held(w.me);
    assert multiset(w.ring) == multiset(v.ring) + multiset{v.me.offs};
  }

  lemma PostedLoad(m: Module, m': Module)
    requires m.pc.SendPost? && m'.pc.Idle? && m'.box == m.box
    ensures Load(m) == Load(m') + multiset{m.offs}
  {
  }

  lemma ReceivedLoad(p: Module, n: Module, box: Mailbox)
    requires p.pc.SendPost? && LinkInv(p, n) && box == n.box.(newCmd := n.box.newCmd + 1)
    ensures Load(n.(box := box)) == Load(n) + multiset{p.offs}
  {
  }

  lemma PostKeepsChunks(r: Role, v: View, n: Module, exit: bool, live: bool)
    requires ThreadReady(r, v, exit, live) && v.me.pc.SendPost?
    requires v.next == n.box && LinkInv(v.me, n)
    ensures var w := ThreadMove(r, v, exit, live);
            w.ring == v.ring && Load(w.me) + Load(n.(box := w.next)) == Load(v.me) + Load(n)
  {
    var w := ThreadMove(r, v, exit, live);
    PostedLoad(v.me, w.me);
    ReceivedLoad(v.me, n, w.next);
    Transferred(Load(v.me), Load(w.me), Load(n), Load(n.(box := w.next)), multiset{v.me.offs});
  }

  lemma ThreadKeepsOwnChunks(r: Role, p: Module, v: View, exit: bool, live: bool)
    requires ThreadReady(r, v, exit, live) && Allowed(r, v.me.pc) && SlotInv(r, v.me)
    requires r.Source? || LinkInv(p, v.me)
    requires !v.me.pc.SendPost?
    ensures var w := ThreadMove(r, v, exit, live);
            multiset(w.ring) + Load(w.me) == multiset(v.ring) + Load(v.me)
  {
    if v.me.pc.Pop? {
      PopKeepsChunks(r, v, exit, live);
    } else if v.me.pc.Drop? || v.me.pc.Recycle? {
      PushKeepsChunks(r, v, exit, live);
    } else {
      ThreadKeepsLoad(r, p, v, exit, live);
    }
  }

  /** A thread's step moves a chunk at most between the ring, itself and the next module. */
  lemma ThreadKeepsChunks(r: Role, p: Module, v: View, n: Module, exit: bool, live: bool)
    requires ThreadReady(r, v, exit, live) && Allowed(r, v.me.pc) && SlotInv(r, v.me)
    requires r.Source? || LinkInv(p, v.me)
    requires v.next == n.box && LinkInv(v.me, n)
    ensures var w := ThreadMove(r, v, exit, live);
            multiset(w.ring) + Load(w.me) + Load(n.(box := w.next)) == multiset(v.ring) + Load(v.me) + Load(n)
  {
    if v.me.pc.SendPost? {
      PostKeepsChunks(r, v, n, exit, live);
      assert multiset(v.ring) + Load(v.me) + Load(n) == multiset(v.ring) + (Load(v.me) + Load(n));
    } else {
      ThreadKeepsOwnChunks(r, p, v, exit, live);
      ThreadKeepsNextLoad(r, v, n, exit, live);
    }
  }
}
