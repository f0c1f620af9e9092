/** Linking the modules of a pipeline by the ids of their successors. */
module ModuleList {

  /** The position of the first x in xs, or |xs|. */
  function FirstIndex(xs: seq<int>, x: int): (i: nat)
    ensures i <= |xs| && x !in xs[..i]
    ensures i < |xs| ==> xs[i] == x
  {
    if xs == [] || xs[0] == x then 0 else 1 + FirstIndex(xs[1..], x)
  }

  datatype ModuleState = StateUnknown | StateError

  class PipelineModule {
    const id: int
    const nextId: int
    var next: PipelineModule?
    var state: ModuleState

    constructor (id: int, nextId: int)
      ensures this.id == id && this.nextId == nextId && next == null && state == StateUnknown
    {
      this.id, this.nextId := id, nextId;
      next, state := null, StateUnknown;
    }
  }

  function Ids(list: seq<PipelineModule>): (ids: seq<int>)
    ensures |ids| == |list|
  {
    seq(|list|, i requires 0 <= i < |list| => list[i].id)
  }

  /** For every module the position of the module it names as its successor, |list| if
      none has that id. */
  function Links(list: seq<PipelineModule>): (links: seq<nat>)
    ensures |links| == |list| && forall i | 0 <= i < |links| :: links[i] <= |list|
  {
    seq(|list|, i requires 0 <= i < |list| => FirstIndex(Ids(list), list[i].nextId))
  }

  function ModuleAt(list: seq<PipelineModule>, i: nat): PipelineModule?
    requires i <= |list|
  {
    if i < |list| then list[i] else null
  }

  /** m is the first module with the id, or null and there is none. */
  ghost predicate IsFirst(list: seq<PipelineModule>, id: int, m: PipelineModule?) {
    if m == null then forall k | 0 <= k < |list| :: list[k].id != id
    else exists k :: 0 <= k < |list| && list[k] == m && m.id == id && forall j | 0 <= j < k :: list[j].id != id
  }

  lemma FirstIsFirst(list: seq<PipelineModule>, id: int)
    ensures IsFirst(list, id, ModuleAt(list, FirstIndex(Ids(list), id)))
  {
    var i := FirstIndex(Ids(list), id);
    forall k | 0 <= k < i ensures list[k].id != id {
      assert Ids(list)[..i][k] == list[k].id;
    }
    if i < |list| {
      assert list[i].id == id;
    }
  }

  /** The link of a module leads to the first module with the id that it names as its
      successor, and nowhere exactly if there is none. */
  lemma LinksMean(list: seq<PipelineModule>, i: nat)
    requires i < |list|
    ensures IsFirst(list, list[i].nextId, ModuleAt(list, Links(list)[i]))
    ensures Links(list)[i] == |list| <==> forall k | 0 <= k < |list| :: list[k].id != list[i].nextId
  {
    FirstIsFirst(list, list[i].nextId);
    var l := Links(list)[i];
    if l < |list| {
      assert Ids(list)[l] == list[l].id;
    }
  }

  /** pipeline_module_get: the first module with the id. */
  method Get(id: int, list: seq<PipelineModule>) returns (m: PipelineModule?)
    ensures m == ModuleAt(list, FirstIndex(Ids(list), id)) && IsFirst(list, id, m)
  {
    FirstIsFirst(list, id);
    for i := 0 to |list|
      invariant id !in Ids(list)[..i]
    {
      if list[i].id == id {
        FirstIndexIs(Ids(list), id, i);
        return list[i];
      }
    }
    FirstIndexIs(Ids(list), id, |list|);
    m := null;
  }

  lemma {:induction false} FirstIndexIs(xs: seq<int>, x: int, i: nat)
    requires i <= |xs| && x !in xs[..i] && (i < |xs| ==> xs[i] == x)
    ensures FirstIndex(xs, x) == i
  {
    if i > 0 {
      assert xs[0] == xs[..i][0];
      assert xs[1..][..i - 1] == xs[..i][1..];
      FirstIndexIs(xs[1..], x, i - 1);
    }
  }

  /** At most one link leads nowhere. */
  ghost predicate AtMostOneTail(links: seq<nat>) {
    forall i, j | 0 <= i < j < |links| :: links[i] != |links| || links[j] != |links|
  }

  /** Positions t and u are the first two whose links lead nowhere. */
  ghost predicate FirstTwoTails(links: seq<nat>, t: nat, u: nat) {
    && t < u < |links| && links[t] == links[u] == |links|
    && forall i | 0 <= i < u && i != t :: links[i] != |links|
  }

  /** Set the link of one module. */
  method Link(m: PipelineModule, list: seq<PipelineModule>)
    modifies m`next
    ensures m.next == ModuleAt(list, FirstIndex(Ids(list), m.nextId))
  {
    m.next := Get(m.nextId, list);
  }

  /** The loop of pipeline_modules_update: link modules in order, up to and including the second one whose
      successor is missing. */
  method LinkInOrder(list: seq<PipelineModule>) returns (u: nat, ghost t: nat)
    requires forall i, j | 0 <= i < j < |list| :: list[i] != list[j]
    modifies list
    ensures u < |list| ==> FirstTwoTails(Links(list), t, u)
    ensures u >= |list| ==> AtMostOneTail(Links(list))
    ensures forall i {:trigger list[i].next} | 0 <= i < |list| && i <= u ::
              list[i].next == ModuleAt(list, Links(list)[i])
    ensures forall i {:trigger list[i].next} | u < i < |list| :: list[i].next == old(list[i].next)
    ensures forall i {:trigger list[i].state} | 0 <= i < |list| :: list[i].state == old(list[i].state)
  {
    var nullFound := false;
    t, u := 0, 0;
    ghost var links := Links(list);
    while u < |list|
      invariant u <= |list| && (nullFound ==> t < u && links[t] == |list|)
      invariant forall i | 0 <= i < u :: links[i] == |list| ==> nullFound && i == t
      invariant forall i {:trigger list[i].next} | 0 <= i < u :: list[i].next == ModuleAt(list, links[i])
      invariant forall i {:trigger list[i].next} | u <= i < |list| :: list[i].next == old(list[i].next)
      invariant forall i {:trigger list[i].state} | 0 <= i < |list| :: list[i].state == old(list[i].state)
    {
      Link(list[u], list);
      assert list[u].next == ModuleAt(list, links[u]);
      if list[u].next == null {
        if nullFound {
          return;
        }
        nullFound, t := true, u;
      }
      u := u + 1;
    }
  }

  /** pipeline_modules_update: 0 exactly when at most one module's successor is
      missing, and then every link is what it should be. Otherwise it stops at the
      second such module, which is put in the error state; the links after it keep
      their old values. */
  method Update(list: seq<PipelineModule>) returns (rc: int)
    requires forall i, j | 0 <= i < j < |list| :: list[i] != list[j]
    modifies list
    ensures rc == 0 || rc == -1
    ensures rc == 0 <==> AtMostOneTail(Links(list))
    ensures rc == 0 ==> forall i {:trigger list[i].next} | 0 <= i < |list| ::
              list[i].next == ModuleAt(list, Links(list)[i])
    ensures rc == 0 ==> forall i {:trigger list[i].state} | 0 <= i < |list| :: list[i].state == old(list[i].state)
    ensures rc == -1 ==> exists t: nat, u: nat ::
              && FirstTwoTails(Links(list), t, u)
              && (forall i {:trigger list[i].next} | 0 <= i <= u :: list[i].next == ModuleAt(list, Links(list)[i]))
              && (forall i {:trigger list[i].next} | u < i < |list| :: list[i].next == old(list[i].next))
              && list[u].state == StateError
              && (forall i {:trigger list[i].state} | 0 <= i < |list| && i != u :: list[i].state == old(list[i].state))
  {
    var u; ghost var t;
    u, t := LinkInOrder(list);
    if u < |list| {
      assert FirstTwoTails(Links(list), t, u);
      list[u].state := StateError;
      return -1;
    }
    rc := 0;
  }
}
