/** The round token between `first_action`, the collector thread and the sources.

    `first_action` publishes the name in collector->data and puts a new one
    there; the collector copies it to every source and waits for all of them; a
    source adds its frames to the object named in its src->data until it detects
    the next object.  Names are numbered in the order in which they are
    generated; 0 is the one present at start.  A copy of a name takes two steps,
    so that it can be seen half-done. */
module CollectorModel {

  /** `camera[i]`: source i is a GigE camera, not a TCP stream.  `detects[i]`: it
      has a detection callback.  `adds`: there is an add_frame callback. */
  datatype Config = Config(camera: seq<bool>, detects: seq<bool>, limit: nat, adds: bool) {
    predicate Valid() {
      |camera| == |detects| && 0 < limit
    }
  }

  datatype SourcePc =
    | First                              // wait for the first empty_ready
    | Loop                               // head of the receive loop
    | Judge                              // new_frame_action: is this a new object?
    | PostData | ExitTest | WaitEmpty    // object boundary
    | AddTest | Add | Count              // the frame itself
    | End                                // TCP: the post after the loop
    | Finished

  /** The watchdog thread of a camera source. */
  datatype DogPc = Watching | Closing | Posting | Gone

  /** `quit` records that data_ready was posted without waiting for empty_ready:
      at a boundary with exit_flag set, or by the watchdog. */
  datatype Source = Source(
    pc: SourcePc, exit: bool, empty: nat, ready: nat, obj: nat, frames: nat,
    dog: DogPc, stopped: bool, quit: bool)

  datatype CollectorPc =
    | WaitEmpty
    | Copy(i: nat) | Copying(i: nat) | PostEmpty(i: nat)
    | LoopTest
    | Gather(i: nat)
    | Scan(i: nat) | Again | StopAll(i: nat)
    | Stop(i: nat) | FinalWait(i: nat)
    | CollectorDone

  datatype ActionPc = Call | WaitData | Take | Generate | Write | Writing | PostEmptyReady

  /** A frame in the storage. */
  datatype Stored = Stored(obj: nat, source: nat, frame: nat)

  datatype System = System(
    sources: seq<Source>,
    collector: CollectorPc, exit: bool,
    dataReady: nat, emptyReady: nat,
    name: nat,                           // collector->data
    action: ActionPc, generated: nat,    // first_action and its obj_name
    next: nat,                           // the name generator
    published: seq<nat>,
    store: seq<Stored>)

  /** data_ready = 1, empty_ready = 0 for the collector, 0 and 0 for each source. */
  function Start(c: Config): System {
    System(seq(|c.camera|, _ => Source(First, false, 0, 0, 0, 0, Watching, false, false)),
           CollectorPc.WaitEmpty, false, 1, 0, 0, Call, 0, 1, [], [])
  }

  // ---------------------------------------------------------------- source

  predicate SourceReady(x: Source) {
    match x.pc
    case First => x.empty > 0
    case WaitEmpty => x.empty > 0
    case Finished => false
    case _ => true
  }

  /** One step of the thread that receives the frames of source i; `detected` is
      what the detection callback says, `frame` the number of the frame. */
  function SourceMove(c: Config, i: nat, x: Source, detected: bool, frame: nat): (Source, seq<Stored>)
    requires c.Valid() && i < |c.camera| && SourceReady(x)
  {
    match x.pc
    case First => (x.(pc := Loop, empty := x.empty - 1), [])
    case Loop =>
      if c.camera[i] then
        (if x.stopped then x.(pc := Finished) else x.(pc := Judge), [])
      else
        (if x.exit then x.(pc := End) else x.(pc := Judge), [])
    case Judge =>
      if (c.detects[i] && detected) || x.frames % c.limit == 0 then
        (x.(pc := PostData, frames := 0), [])
      else
        (x.(pc := AddTest), [])
    case PostData => (x.(pc := ExitTest, ready := x.ready + 1), [])
    case ExitTest => (if x.exit then x.(pc := AddTest, quit := true) else x.(pc := SourcePc.WaitEmpty), [])
    case WaitEmpty => (x.(pc := AddTest, empty := x.empty - 1), [])
    case AddTest => (x.(pc := if !x.exit && c.adds then Add else Count), [])
    case Add => (x.(pc := Count), [Stored(x.obj, i, frame)])
    case Count => (x.(pc := Loop, frames := x.frames + 1), [])
    case End => (x.(pc := Finished, ready := x.ready + 1), [])
  }

  /** A read fails: a TCP source sets its exit flag and leaves its loop; the thread that
      receives the packets of a camera just ends. */
  function FailedRead(camera: bool, x: Source): Source {
    if camera then x.(pc := Finished) else x.(pc := End, exit := true)
  }

  predicate DogReady(c: Config, i: nat, x: Source)
    requires i < |c.camera|
  {
    c.camera[i] && !x.pc.First? && !x.dog.Gone? && (x.dog.Watching? ==> x.exit || x.stopped)
  }

  /** The watchdog leaves its loop: it stops the stream, sets exit_flag and posts
      data_ready, whatever the receiving thread is doing. */
  function DogMove(x: Source): Source
    requires !x.dog.Gone?
  {
    match x.dog
    case Watching => x.(dog := Closing, stopped := true)
    case Closing => x.(dog := Posting, exit := true)
    case Posting => x.(dog := Gone, ready := x.ready + 1, quit := true)
  }

  // ------------------------------------------------- collector, first_action

  predicate CollectorReady(s: System) {
    match s.collector
    case WaitEmpty => s.emptyReady > 0
    case Gather(i) => i < |s.sources| ==> s.sources[i].ready > 0
    case FinalWait(i) => i < |s.sources| ==> s.sources[i].ready > 0
    case CollectorDone => false
    case _ => true
  }

  function CollectorMove(s: System): System
    requires CollectorReady(s)
  {
    var n := |s.sources|;
    match s.collector
    case WaitEmpty => s.(collector := Copy(0), emptyReady := s.emptyReady - 1)
    case Copy(i) => s.(collector := if i < n then Copying(i) else LoopTest)
    case Copying(i) =>
      if i < n then s.(collector := PostEmpty(i), sources := s.sources[i := s.sources[i].(obj := s.name)])
      else s.(collector := LoopTest)
    case PostEmpty(i) =>
      if i < n then
        s.(collector := Copy(i + 1), sources := s.sources[i := s.sources[i].(empty := s.sources[i].empty + 1)])
      else s.(collector := LoopTest)
    case LoopTest => s.(collector := if s.exit then Stop(0) else Gather(0))
    case Gather(i) =>
      if i < n then
        s.(collector := Gather(i + 1), sources := s.sources[i := s.sources[i].(ready := s.sources[i].ready - 1)])
      else s.(collector := Scan(0), dataReady := s.dataReady + 1)
    case Scan(i) =>
      // cnt starts at 0 for every source, so it is 1 at most
      if i < n then s.(collector := Scan(i + 1), exit := s.exit || (s.sources[i].exit && n == 1))
      else s.(collector := Again)
    case Again => s.(collector := if s.exit then StopAll(0) else CollectorPc.WaitEmpty)
    case StopAll(i) =>
      if i < n then s.(collector := StopAll(i + 1), sources := s.sources[i := s.sources[i].(exit := true)])
      else s.(collector := LoopTest)
    case Stop(i) =>
      if i < n then s.(collector := FinalWait(i), sources := s.sources[i := s.sources[i].(exit := true)])
      else s.(collector := CollectorDone, dataReady := s.dataReady + 1)
    case FinalWait(i) =>
      if i < n then
        s.(collector := Stop(i + 1), sources := s.sources[i := s.sources[i].(ready := s.sources[i].ready - 1)])
      else s.(collector := Stop(i))
  }

  predicate ActionReady(s: System) {
    s.action.WaitData? ==> s.dataReady > 0
  }

  function ActionMove(s: System): System
    requires ActionReady(s)
  {
    match s.action
    case Call => if s.exit then s.(emptyReady := s.emptyReady + 1) else s.(action := WaitData)
    case WaitData => s.(action := Take, dataReady := s.dataReady - 1)
    case Take => s.(action := Generate, published := s.published + [s.name])
    case Generate => s.(action := Write, generated := s.next, next := s.next + 1)
    case Write => s.(action := Writing)
    case Writing => s.(action := PostEmptyReady, name := s.generated)
    case PostEmptyReady => s.(action := Call, emptyReady := s.emptyReady + 1)
  }

  // ---------------------------------------------------------------- system

  datatype Event =
    | SourceStep(i: nat, detected: bool, frame: nat)
    | DogStep(i: nat)
    | CollectorStep
    | ActionStep
    | ReadFails(i: nat)                  // at the head of source i's loop
    | RaiseExit(i: nat)                  // somebody outside sets exit_flag of source i

  predicate Enabled(c: Config, s: System, e: Event) {
    match e
    case SourceStep(i, _, _) => i < |s.sources| == |c.camera| && SourceReady(s.sources[i])
    case DogStep(i) => i < |s.sources| == |c.camera| && DogReady(c, i, s.sources[i])
    case CollectorStep => CollectorReady(s)
    case ActionStep => ActionReady(s)
    case ReadFails(i) => i < |s.sources| == |c.camera| && s.sources[i].pc.Loop?
    case RaiseExit(i) => i < |s.sources|
  }

  function Apply(c: Config, s: System, e: Event): System
    requires c.Valid() && Enabled(c, s, e)
  {
    match e
    case SourceStep(i, detected, frame) =>
      var (x, added) := SourceMove(c, i, s.sources[i], detected, frame);
      s.(sources := s.sources[i := x], store := s.store + added)
    case DogStep(i) => s.(sources := s.sources[i := DogMove(s.sources[i])])
    case CollectorStep => CollectorMove(s)
    case ActionStep => ActionMove(s)
    case ReadFails(i) => s.(sources := s.sources[i := FailedRead(c.camera[i], s.sources[i])])
    case RaiseExit(i) => s.(sources := s.sources[i := s.sources[i].(exit := true)])
  }

  predicate Legal(c: Config, s: System, es: seq<Event>)
    requires c.Valid()
    decreases |es|
  {
    es == [] || (Enabled(c, s, es[0]) && Legal(c, Apply(c, s, es[0]), es[1..]))
  }

  function After(c: Config, s: System, es: seq<Event>): System
    requires c.Valid() && Legal(c, s, es)
    decreases |es|
  {
    if es == [] then s else After(c, Apply(c, s, es[0]), es[1..])
  }

  /** The watchdog posts data_ready while the receiving thread is inside its
      add_frame callback. */
  predicate Hasty(s: System, e: Event) {
    e.DogStep? && e.i < |s.sources| && s.sources[e.i].dog.Posting? && s.sources[e.i].pc.Add?
  }

  /** A run in which that never happens; always so without camera sources. */
  predicate Careful(c: Config, s: System, es: seq<Event>)
    requires c.Valid()
    decreases |es|
  {
    es == [] ||
    (Enabled(c, s, es[0]) && !Hasty(s, es[0]) && Careful(c, Apply(c, s, es[0]), es[1..]))
  }

  /** The frames of an object, in the order in which they were added. */
  function Contents(store: seq<Stored>, obj: nat): seq<Stored> {
    if store == [] then []
    else
      var last := store[|store| - 1];
      Contents(store[..|store| - 1], obj) + if last.obj == obj then [last] else []
  }

  /** How many of them come from source i. */
  function Frames(store: seq<Stored>, obj: nat, i: nat): nat {
    if store == [] then 0
    else
      var last := store[|store| - 1];
      Frames(store[..|store| - 1], obj, i) + if last.obj == obj && last.source == i then 1 else 0
  }
}
