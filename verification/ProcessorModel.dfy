/** The pipeline whose source captures from the collector: the action of the source's
    child is first_action.  The two step systems run side by side, tied together where the
    child acts. */
module ProcessorModel {
  import C = CollectorModel
  import P = PipelineModel

  /** `text(n)` is the string that stands for name n. */
  datatype Config = Config(pipe: P.Config, coll: C.Config, text: nat -> P.Chunk) {
    predicate Valid() {
      pipe.Valid() && coll.Valid()
    }
  }

  /** What the current call of first_action has come to: nothing yet, the name it took, or
      a return because of the exit flag. */
  datatype Reply = Pending | Named(name: nat) | Unnamed

  datatype System = System(pipe: P.State, coll: C.System, reply: Reply)

  function Start(c: Config, mem: map<nat, P.Chunk>): System {
    System(P.Start(c.pipe, mem), C.Start(c.coll), Pending)
  }

  datatype Event = Pipe(p: P.Event) | Coll(c: C.Event)

  /** The source's child is inside its action. */
  predicate Calling(s: P.State) {
    |s.mods| > 0 && s.mods[0].child.pc.Acting?
  }

  /** The end of that action. */
  predicate Returns(s: P.State, e: P.Event) {
    e.ChildStep? && e.k == 0 && Calling(s)
  }

  /** What the chunk then contains: the name, or what it contained before. */
  function Captured(c: Config, s: System): P.Chunk {
    match s.reply
    case Named(n) => c.text(n)
    case _ => if |s.pipe.mods| > 0 then P.Read(s.pipe.mem, s.pipe.mods[0].slot.offs) else ""
  }

  predicate Enabled(c: Config, s: System, e: Event) {
    match e
    case Pipe(p) =>
      && P.Enabled(c.pipe, s.pipe, p)
      && (Returns(s.pipe, p) ==> !s.reply.Pending? && p.item == Captured(c, s) && p.status == 0)
    case Coll(a) =>
      && C.Enabled(c.coll, s.coll, a)
      && (a.ActionStep? ==> Calling(s.pipe) && s.reply.Pending?)
  }

  /** What a step of first_action brings the call to. */
  function Replied(s: C.System): Reply {
    match s.action
    case Call => if s.exit then Unnamed else Pending
    case PostEmptyReady => if s.published == [] then Unnamed else Named(s.published[|s.published| - 1])
    case _ => Pending
  }

  function Apply(c: Config, s: System, e: Event): System
    requires c.Valid() && Enabled(c, s, e)
  {
    match e
    case Pipe(p) =>
      s.(pipe := P.Apply(c.pipe, s.pipe, p), reply := if Returns(s.pipe, p) then Pending else s.reply)
    case Coll(a) =>
      s.(coll := C.Apply(c.coll, s.coll, a), reply := if a.ActionStep? then Replied(s.coll) else s.reply)
  }

  predicate Legal(c: Config, s: System, es: seq<Event>)
    requires c.Valid()
    decreases |es|
  {
    es == [] || (Enabled(c, s, es[0]) && Legal(c, Apply(c, s, es[0]), es[1..]))
  }

  function After(c: Config, s: System, es: seq<Event>): System
    requires c.Valid() && Legal(c, s, es)
    decreases |es|
  {
    if es == [] then s else After(c, Apply(c, s, es[0]), es[1..])
  }

  /** The events of either side. */
  function Pipes(es: seq<Event>): seq<P.Event> {
    if es == [] then [] else (if es[0].Pipe? then [es[0].p] else []) + Pipes(es[1..])
  }

  function Colls(es: seq<Event>): seq<C.Event> {
    if es == [] then [] else (if es[0].Coll? then [es[0].c] else []) + Colls(es[1..])
  }
}
