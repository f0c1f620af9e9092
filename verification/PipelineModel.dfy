/** The hand-off protocol of a pipeline: one server thread and one child process
    per module, a one-slot mailbox between neighbouring threads, and a ring of
    free chunks.

    Every access to a shared variable or semaphore is one step, so a run is any
    interleaving of the steps of all threads and children.  Module 0 is the
    source, the last module is the finalization thread, the ones between run
    `process_thread`.  Fields whose names are past participles (`seen`, `out`,
    `posted`, `taken`, `log`, `dropped`) only record history. */
module PipelineModel {

  type Chunk = string

  /** `action(k, h)` is what the child of module k does with the last element of
      h when h is everything it was ever given: the new chunk content and the
      status.  A child may thus keep any private state between jobs. */
  datatype Config = Config(
    modules: nat,
    dataOffset: nat,
    dataSize: nat,
    dataCnt: nat,
    action: (nat, seq<Chunk>) -> (Chunk, int))
  {
    predicate Valid() {
      2 <= modules && 0 < dataSize && 0 < dataCnt
    }

    /** The offsets pipeline_thread writes into the ring. */
    function Offsets(): seq<nat> {
      seq(dataCnt, i requires 0 <= i < dataCnt => dataOffset + i * dataSize)
    }
  }

  datatype Role = Source | Process | Final

  function RoleOf(c: Config, k: nat): Role {
    if k == 0 then Source else if k + 1 == c.modules then Final else Process
  }

  datatype Cmd = Stop | Job

  /** What a (cmd, dataoffset) pair in a mailbox means. */
  datatype Message = Quit | Work(offs: nat)

  /** Program counter of a server thread.  `Idle` is the head of its loop. */
  datatype Pc =
    | Idle
    | TakeCmd | TakeOffs | Ack                     // read the own mailbox
    | Gate | Pop                                   // source: is it live?  take a free chunk
    | JobCmd | JobOffs | JobPost | JobWait | JobTest
    | Drop                                         // process: status was not 0
    | SendWait | SendCmd | SendOffs | SendPost     // fill the next mailbox
    | Wipe | Recycle                               // finalization
    | HaltWait | HaltCmd | HaltPost                // send STOP to the next module
    | QuitCmd | QuitPost | QuitWait                // send STOP to the own child
    | Done

  datatype ChildPc = Waiting | Dispatch | Acting | Replying | Leaving | Exited

  /** `new_cmd`, `result`, `cmd` and `dataoffset` of a module. */
  datatype Mailbox = Mailbox(newCmd: nat, result: nat, cmd: Cmd, offs: nat)

  /** The `process_info` slot a thread shares with its child. */
  datatype Slot = Slot(semJob: nat, semResult: nat, cmd: Cmd, offs: nat, cmdResult: int)

  /** `left` says that the child ended because its action returned -1. */
  datatype Child = Child(pc: ChildPc, left: bool, log: seq<Message>)

  datatype Module = Module(
    pc: Pc, cmd: Cmd, offs: nat,
    box: Mailbox, slot: Slot, child: Child,
    seen: seq<Chunk>, out: seq<Chunk>, dropped: nat,
    posted: seq<Message>, taken: seq<Message>)

  datatype State = State(
    mods: seq<Module>,
    ring: seq<nat>,
    mem: map<nat, Chunk>,
    exit: bool,
    live: bool)

  /** A module that has just started: new_cmd = 0, result = 1, the slot zeroed. */
  function Initial(): Module {
    Module(Idle, Job, 0, Mailbox(0, 1, Job, 0), Slot(0, 0, Stop, 0, 0), Child(Waiting, false, []), [], [], 0, [], [])
  }

  /** The state in which every module has started and the ring is filled. */
  function Start(c: Config, mem: map<nat, Chunk>): State {
    State(seq(c.modules, _ => Initial()), c.Offsets(), mem, false, false)
  }

  function Read(mem: map<nat, Chunk>, o: nat): Chunk {
    if o in mem then mem[o] else ""
  }

  /** data[0] = '\0' */
  function Wiped(d: Chunk): Chunk {
    if d == "" then d else d[0 := '\0']
  }

  // ---------------------------------------------------------------- threads

  /** What a thread can reach: its own module, the next module's mailbox, the
      ring and the chunk memory. */
  datatype View = View(me: Module, next: Mailbox, ring: seq<nat>, mem: map<nat, Chunk>)

  predicate ThreadReady(r: Role, v: View, exit: bool, live: bool) {
    match v.me.pc
    case Idle => r.Source? || v.me.box.newCmd > 0
    case Pop => v.ring != []
    case JobWait => v.me.slot.semResult > 0
    case QuitWait => v.me.slot.semResult > 0
    case SendWait => v.next.result > 0
    case HaltWait => v.next.result > 0
    case Done => false
    case _ => true
  }

  function ThreadMove(r: Role, v: View, exit: bool, live: bool): View
    requires ThreadReady(r, v, exit, live)
  {
    var m := v.me;
    match m.pc
    case Idle =>
      if r.Source? then
        v.(me := m.(pc := if exit then HaltWait else Gate))
      else
        v.(me := m.(pc := TakeCmd, box := m.box.(newCmd := m.box.newCmd - 1)))
    case Gate => v.(me := if live then m.(pc := Pop, cmd := m.box.cmd) else m.(pc := Idle))
    case TakeCmd => v.(me := m.(pc := TakeOffs, cmd := m.box.cmd))
    case TakeOffs => v.(me := m.(pc := Ack, offs := m.box.offs))
    case Ack =>
      var after := match (m.cmd, r)
        case (Stop, Final) => Done
        case (Stop, _) => HaltWait
        case (Job, Final) => Wipe
        case (Job, _) => JobCmd;
      v.(me := m.(pc := after, box := m.box.(result := m.box.result + 1),
                  taken := m.taken + [if m.cmd == Stop then Quit else Work(m.offs)]))
    case Pop => v.(me := m.(pc := JobCmd, offs := v.ring[0]), ring := v.ring[1..])
    case JobCmd => v.(me := m.(pc := JobOffs, slot := m.slot.(cmd := m.cmd)))
    case JobOffs => v.(me := m.(pc := JobPost, slot := m.slot.(offs := m.offs)))
    case JobPost => v.(me := m.(pc := JobWait, slot := m.slot.(semJob := m.slot.semJob + 1)))
    case JobWait => v.(me := m.(pc := JobTest, slot := m.slot.(semResult := m.slot.semResult - 1)))
    case JobTest => v.(me := m.(pc := if !r.Source? && m.slot.cmdResult != 0 then Drop else SendWait))
    case Drop => v.(me := m.(pc := Idle, dropped := m.dropped + 1), ring := v.ring + [m.offs])
    case SendWait => v.(me := m.(pc := SendCmd), next := v.next.(result := v.next.result - 1))
    case SendCmd => v.(me := m.(pc := SendOffs), next := v.next.(cmd := Job))
    case SendOffs => v.(me := m.(pc := SendPost), next := v.next.(offs := m.offs))
    case SendPost =>
      v.(me := m.(pc := Idle, out := m.out + [Read(v.mem, m.offs)], posted := m.posted + [Work(m.offs)]),
         next := v.next.(newCmd := v.next.newCmd + 1))
    case Wipe =>
      v.(me := m.(pc := Recycle, seen := m.seen + [Read(v.mem, m.offs)]),
         mem := v.mem[m.offs := Wiped(Read(v.mem, m.offs))])
    case Recycle => v.(me := m.(pc := Idle), ring := v.ring + [m.offs])
    case HaltWait => v.(me := m.(pc := HaltCmd), next := v.next.(result := v.next.result - 1))
    case HaltCmd => v.(me := m.(pc := HaltPost), next := v.next.(cmd := Stop))
    case HaltPost =>
      v.(me := m.(pc := QuitCmd, posted := m.posted + [Quit]),
         next := v.next.(newCmd := v.next.newCmd + 1))
    case QuitCmd => v.(me := m.(pc := QuitPost, slot := m.slot.(cmd := Stop)))
    case QuitPost => v.(me := m.(pc := QuitWait, slot := m.slot.(semJob := m.slot.semJob + 1)))
    case QuitWait => v.(me := m.(pc := Done, slot := m.slot.(semResult := m.slot.semResult - 1)))
  }

  // --------------------------------------------------------------- children

  predicate ChildReady(m: Module) {
    match m.child.pc
    case Waiting => m.slot.semJob > 0
    case Exited => false
    case _ => true
  }

  /** cmd_result: -1 is turned into 0 before it is stored. */
  function ResultOf(status: int): int {
    if status == -1 then 0 else status
  }

  /** The source's child captures whatever its environment gives it; the other
      children apply their action. */
  function Acted(c: Config, k: nat, m: Module, mem: map<nat, Chunk>, item: Chunk, status: int): (Chunk, int) {
    if k == 0 then (item, status) else c.action(k, m.seen + [Read(mem, m.slot.offs)])
  }

  function ChildMove(c: Config, k: nat, m: Module, mem: map<nat, Chunk>, item: Chunk, status: int)
    : (Module, map<nat, Chunk>)
    requires ChildReady(m)
  {
    var ch := m.child;
    match ch.pc
    case Waiting => (m.(child := ch.(pc := Dispatch), slot := m.slot.(semJob := m.slot.semJob - 1)), mem)
    case Dispatch =>
      if m.slot.cmd == Stop then
        (m.(child := ch.(pc := Leaving, log := ch.log + [Quit]), slot := m.slot.(cmdResult := 0)), mem)
      else
        (m.(child := ch.(pc := Acting)), mem)
    case Acting =>
      var (o, st) := Acted(c, k, m, mem, item, status);
      (m.(child := Child(if st == -1 then Leaving else Replying, st == -1, ch.log + [Work(m.slot.offs)]),
          slot := m.slot.(cmdResult := ResultOf(st)),
          seen := m.seen + [if k == 0 then o else Read(mem, m.slot.offs)]),
       mem[m.slot.offs := o])
    case Replying => (m.(child := ch.(pc := Waiting), slot := m.slot.(semResult := m.slot.semResult + 1)), mem)
    case Leaving => (m.(child := ch.(pc := Exited), slot := m.slot.(semResult := m.slot.semResult + 1)), mem)
  }

  // ------------------------------------------------------------ whole system

  /** `item` and `status` are what the source's child captures, if it is the one
      that acts.  RaiseExit and SetLive are steps of the environment. */
  datatype Event =
    | ThreadStep(k: nat)
    | ChildStep(k: nat, item: Chunk, status: int)
    | RaiseExit
    | SetLive(on: bool)

  function ViewOf(s: State, k: nat): View
    requires k < |s.mods|
  {
    View(s.mods[k], if k + 1 < |s.mods| then s.mods[k + 1].box else s.mods[k].box, s.ring, s.mem)
  }

  predicate Enabled(c: Config, s: State, e: Event) {
    match e
    case ThreadStep(k) => k < |s.mods| && ThreadReady(RoleOf(c, k), ViewOf(s, k), s.exit, s.live)
    case ChildStep(k, _, _) => k + 1 < |s.mods| && ChildReady(s.mods[k])
    case RaiseExit => true
    case SetLive(_) => true
  }

  function Apply(c: Config, s: State, e: Event): State
    requires Enabled(c, s, e)
  {
    match e
    case ThreadStep(k) =>
      var v := ThreadMove(RoleOf(c, k), ViewOf(s, k), s.exit, s.live);
      var own := s.mods[k := v.me];
      s.(mods := if k + 1 < |s.mods| then own[k + 1 := own[k + 1].(box := v.next)] else own,
         ring := v.ring, mem := v.mem)
    case ChildStep(k, item, status) =>
      var (m, mem) := ChildMove(c, k, s.mods[k], s.mem, item, status);
      s.(mods := s.mods[k := m], mem := mem)
    case RaiseExit => s.(exit := true)
    case SetLive(on) => s.(live := on)
  }

  /** es can be executed from s, one event after the other. */
  predicate Legal(c: Config, s: State, es: seq<Event>)
    decreases |es|
  {
    es == [] || (Enabled(c, s, es[0]) && Legal(c, Apply(c, s, es[0]), es[1..]))
  }

  function After(c: Config, s: State, es: seq<Event>): State
    requires Legal(c, s, es)
    decreases |es|
  {
    if es == [] then s else After(c, Apply(c, s, es[0]), es[1..])
  }

  /** A run of the pipeline from the moment every module has started. */
  predicate RunOf(c: Config, mem: map<nat, Chunk>, es: seq<Event>) {
    c.Valid() && Legal(c, Start(c, mem), es)
  }

  function StateAfter(c: Config, mem: map<nat, Chunk>, es: seq<Event>): State
    requires RunOf(c, mem, es)
  {
    After(c, Start(c, mem), es)
  }
}
