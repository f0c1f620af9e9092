/** The table of process slots: semaphores and the numbering of children. */
module ProcessTable {

  /** A sem_t: not initialised (or destroyed), or with a value. */
  datatype Sem = Dead | Up(value: nat)

  /** The fields of process_info that are set up here. */
  datatype Slot = Slot(semJob: Sem, semResult: Sem, pid: int)

  const ZEROED := Slot(Dead, Dead, 0)
  const READY := Slot(Up(0), Up(0), -1)
  const DESTROYED := Slot(Dead, Dead, -1)

  /** What process_start is asked to run: nothing (the slot is for a thread), or a
      program that may not be executable and for which fork() may fail. */
  datatype Launch = Internal | Program(executable: bool, forked: bool, pid: nat)

  predicate Works(l: Launch) {
    l.Internal? || (l.executable && l.forked)
  }

  /** How many of the launches succeed in a row, with cnt slots used of max. */
  function Startable(cnt: nat, max: nat, launches: seq<Launch>): nat
    decreases |launches|
  {
    if launches == [] || cnt >= max || !Works(launches[0]) then 0
    else 1 + Startable(cnt + 1, max, launches[1..])
  }

  /** All start exactly when the slots suffice and every launch works. */
  lemma {:induction false} AllStart(cnt: nat, max: nat, launches: seq<Launch>)
    requires cnt <= max
    ensures Startable(cnt, max, launches) <= |launches| && cnt + Startable(cnt, max, launches) <= max
    ensures Startable(cnt, max, launches) == |launches| <==>
              cnt + |launches| <= max &&
              forall i | 0 <= i < |launches| :: launches[i].Internal? || (launches[i].executable && launches[i].forked)
    ensures var n := Startable(cnt, max, launches);
            n < |launches| ==>
              cnt + n == max || (launches[n].Program? && (!launches[n].executable || !launches[n].forked))
    decreases |launches|
  {
    if launches != [] && cnt < max && Works(launches[0]) {
      var rest := launches[1..];
      AllStart(cnt + 1, max, rest);
      assert forall i | 0 < i < |launches| :: launches[i] == rest[i - 1];
      assert forall i | 0 <= i < |rest| :: rest[i] == launches[i + 1];
    }
  }

  /** A segment is made with two slots more than there are modules, and the count of
      used slots is never reset: a second pipeline of the same size in one process
      starts completely only if it has at most two modules. */
  lemma SecondPipeline(launches: seq<Launch>)
    requires forall i | 0 <= i < |launches| :: Works(launches[i])
    ensures Startable(0, |launches| + 2, launches) == |launches|
    ensures Startable(|launches|, |launches| + 2, launches) == |launches| <==> |launches| <= 2
  {
    AllStart(0, |launches| + 2, launches);
    AllStart(|launches|, |launches| + 2, launches);
  }

  datatype PipelineState = InitState | ErrorState

  class Table {
    const slots: array<Slot>
    /** process_cnt and process_cnt_max */
    var cnt: nat
    var max: nat

    ghost predicate Valid()
      reads this
    {
      max <= slots.Length
    }

    constructor (memory: array<Slot>)
      ensures Valid() && slots == memory && cnt == 0 && max == 0
    {
      slots := memory;
      cnt, max := 0, 0;
    }

    /** works[n] is the outcome of the n-th sem_init call. */
    method InitSlot(i: nat, works: nat -> bool) returns (rc: int)
      requires i < slots.Length
      modifies slots
      ensures slots[..] == old(slots[..])[i := if works(2 * i) && works(2 * i + 1) then Slot(Up(0), Up(0), -1)
                                               else Slot(Dead, Dead, 0)]
      ensures rc == if works(2 * i) && works(2 * i + 1) then 0 else -1
    {
      slots[i] := ZEROED;
      if !works(2 * i) {
        return -1;
      }
      slots[i] := slots[i].(semJob := Up(0));
      if !works(2 * i + 1) {
        slots[i] := slots[i].(semJob := Dead);
        return -1;
      }
      slots[i] := slots[i].(semResult := Up(0), pid := -1);
      rc := 0;
    }

    /** process_subsystem_init: every slot is ready, or no semaphore is left and the
        old limit stays. */
    method Init(n: nat, works: nat -> bool) returns (rc: int)
      requires Valid() && n <= slots.Length
      modifies this`max, slots
      ensures rc == 0 || rc == -1
      ensures rc == 0 <==> forall i: nat | i < 2 * n :: works(i)
      ensures slots[n..] == old(slots[n..])
      ensures rc == 0 ==> Valid() && max == n && forall i | 0 <= i < n :: slots[i] == Slot(Up(0), Up(0), -1)
      ensures rc == -1 ==> max == old(max)
      ensures rc == -1 ==> exists f: nat | f < n ::
                && (forall i | 0 <= i < f :: slots[i] == Slot(Dead, Dead, -1)) && slots[f] == Slot(Dead, Dead, 0)
                && (forall i | f < i < n :: slots[i] == old(slots[i]))
    {
      for i := 0 to n
        invariant max == old(max)
        invariant forall j: nat | j < 2 * i :: works(j)
        invariant forall j | 0 <= j < i :: slots[j] == READY
        invariant forall j | i <= j < slots.Length :: slots[j] == old(slots[j])
      {
        var slotRc := InitSlot(i, works);
        if slotRc != 0 {
          for j := 0 to i
            invariant forall l | 0 <= l < j :: slots[l] == DESTROYED
            invariant slots[i] == ZEROED && max == old(max)
            invariant forall l | i < l < slots.Length :: slots[l] == old(slots[l])
          {
            slots[j] := DESTROYED;
          }
          return -1;
        }
      }
      max := n;
      rc := 0;
    }

    /** process_start: the slot is used up even when the program cannot be started. */
    method Start(l: Launch) returns (id: int)
      requires Valid()
      modifies this`cnt, slots
      ensures Valid() && cnt == old(cnt) + (if old(cnt) < max then 1 else 0)
      ensures id == if old(cnt) < max && (l.Internal? || (l.executable && l.forked)) then old(cnt) else -1
      ensures slots[..] == if id == -1 || l.Internal? then old(slots[..])
                           else old(slots[..])[id := old(slots[..])[id].(pid := l.pid)]
    {
      if cnt >= max {
        return -1;
      }
      id := cnt;
      cnt := cnt + 1;
      if l.Internal? {
        return id;
      }
      if !l.executable {
        return -1;
      }
      if !l.forked {
        return -1;
      }
      slots[id] := slots[id].(pid := l.pid);
    }

    /** The start loop of pipeline_thread: modules start in order until one fails; the
        slots given out are consecutive, so distinct, and in the table. The pipeline
        reports a proper start as soon as two modules have started. */
    method StartModules(launches: seq<Launch>) returns (ids: seq<nat>, state: PipelineState)
      requires Valid() && cnt <= max
      modifies this`cnt, slots
      ensures Valid() && old(cnt) + |ids| <= cnt <= max
      ensures ids == seq(Startable(old(cnt), max, launches), i => old(cnt) + i)
      ensures cnt == old(cnt) + |ids| +
                     (if |ids| < |launches| && old(cnt) + |ids| < max then 1 else 0)
      ensures forall i | 0 <= i < |ids| :: ids[i] < max
      ensures state.InitState? <==> |ids| >= 2
    {
      ids := [];
      AllStart(cnt, max, launches);
      for i := 0 to |launches|
        invariant |ids| == i && cnt == old(cnt) + i <= max
        invariant ids == seq(i, j => old(cnt) + j)
        invariant Startable(old(cnt), max, launches) == i + Startable(cnt, max, launches[i..])
      {
        assert launches[i..][0] == launches[i] && launches[i..][1..] == launches[i + 1..];
        var idx := Start(launches[i]);
        if idx == -1 {
          break;
        }
        ids := ids + [idx];
      }
      state := if |ids| >= 2 then InitState else ErrorState;
    }

    /** process_subsystem_destroy: no semaphore is left, no slot can be given out. */
    method Destroy()
      requires Valid()
      modifies this`max, slots
      ensures Valid() && max == 0
      ensures forall i | 0 <= i < old(max) :: slots[i] == Slot(Dead, Dead, -1)
      ensures slots[old(max)..] == old(slots[max..])
    {
      for i := 0 to max
        invariant forall j | 0 <= j < i :: slots[j] == DESTROYED
        invariant forall j | i <= j < slots.Length :: slots[j] == old(slots[j])
        invariant max == old(max)
      {
        slots[i] := DESTROYED;
      }
      max := 0;
    }
  }
}
