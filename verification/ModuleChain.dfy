/** What linking guarantees about the shape of the pipeline. links[i] is the position
    of the successor of module i, |links| where there is none. */
module ModuleChain {
  import ModuleList

  ghost predicate InRange(links: seq<nat>) {
    forall i | 0 <= i < |links| :: links[i] <= |links|
  }

  /** Where h hops from position i lead; past a tail there is only |links|. */
  function Hop(links: seq<nat>, i: nat, h: nat): (j: nat)
    requires InRange(links) && i <= |links|
    ensures j <= |links|
    decreases h
  {
    if h == 0 || i == |links| then i else Hop(links, links[i], h - 1)
  }

  ghost predicate Acyclic(links: seq<nat>)
    requires InRange(links)
  {
    forall i: nat, h: nat | i < |links| && h > 0 :: Hop(links, i, h) != i
  }

  /** t has no successor and module i leads to it in fewer hops than there are
      modules. */
  ghost predicate LeadsTo(links: seq<nat>, i: nat, t: nat)
    requires InRange(links) && i < |links|
  {
    exists h: nat :: h < |links| && Hop(links, i, h) == t
  }

  ghost predicate IsTail(links: seq<nat>, t: nat) {
    t < |links| && links[t] == |links|
  }

  lemma {:induction false} HopsAdd(links: seq<nat>, i: nat, a: nat, b: nat)
    requires InRange(links) && i <= |links|
    ensures Hop(links, i, a + b) == Hop(links, Hop(links, i, a), b)
    decreases a
  {
    if a > 0 && i < |links| {
      HopsAdd(links, links[i], a - 1, b);
    }
  }

  lemma {:induction false} NowhereStays(links: seq<nat>, i: nat, a: nat, b: nat)
    requires InRange(links) && i <= |links| && a <= b && Hop(links, i, a) == |links|
    ensures Hop(links, i, b) == |links|
  {
    HopsAdd(links, i, a, b - a);
  }

  // ------------------------------------------------------------ pigeonhole

  function Range(n: nat): (s: set<nat>)
    ensures |s| == n && forall x: nat :: x in s <==> x < n
  {
    if n == 0 then {} else Range(n - 1) + {n - 1}
  }

  ghost predicate Distinct(xs: seq<nat>) {
    forall i, j | 0 <= i < j < |xs| :: xs[i] != xs[j]
  }

  ghost function Elements(xs: seq<nat>): set<nat> {
    set x | x in xs
  }

  lemma {:induction false} DistinctSize(xs: seq<nat>)
    requires Distinct(xs)
    ensures |Elements(xs)| == |xs|
  {
    if xs != [] {
      var front := xs[..|xs| - 1];
      DistinctSize(front);
      assert xs == front + [xs[|xs| - 1]];
      assert Elements(xs) == Elements(front) + {xs[|xs| - 1]};
      assert xs[|xs| - 1] !in front;
    }
  }

  lemma SubsetSize(a: set<nat>, b: set<nat>)
    requires a <= b
    ensures |a| <= |b| && (|a| == |b| ==> a == b)
  {
    assert b == a + (b - a);
    assert |b| == |a| + |b - a|;
  }

  /** n distinct numbers below n are all of them, and there are no more. */
  lemma Pigeonhole(xs: seq<nat>, n: nat)
    requires Distinct(xs) && forall i | 0 <= i < |xs| :: xs[i] < n
    ensures |xs| <= n
    ensures |xs| == n ==> forall x: nat | x < n :: x in xs
  {
    DistinctSize(xs);
    SubsetSize(Elements(xs), Range(n));
    if |xs| == n {
      forall x: nat | x < n ensures x in xs {
        assert x in Elements(xs);
      }
    }
  }

  // -------------------------------------------------------------- one tail

  /** From a module of an acyclic graph the walk meets no module twice, so it ends at
      some tail, in fewer hops than there are modules. */
  lemma WalkEnds(links: seq<nat>, i: nat) returns (h: nat)
    requires InRange(links) && i < |links| && Acyclic(links)
    ensures h < |links| && IsTail(links, Hop(links, i, h))
  {
    var n := |links|;
    var walk := seq(n + 1, k requires 0 <= k <= n => Hop(links, i, k));
    if Hop(links, i, n) < n {
      forall k | 0 <= k <= n ensures walk[k] < n {
        if walk[k] == n {
          NowhereStays(links, i, k, n);
        }
      }
      forall a, b | 0 <= a < b <= n ensures walk[a] != walk[b] {
        HopsAdd(links, i, a, b - a);
      }
      Pigeonhole(walk, n);
    }
    h := 0;
    while Hop(links, i, h + 1) < n
      invariant h < n && Hop(links, i, h) < n
      decreases n - h
    {
      h := h + 1;
      if h == n {
        assert false;
      }
    }
    HopsAdd(links, i, h, 1);
    assert Hop(links, Hop(links, i, h), 1) == links[Hop(links, i, h)];
  }

  /** If h hops lead nowhere, no number of hops leads back. */
  lemma {:induction false} NoWayBack(links: seq<nat>, i: nat, h: nat, p: nat)
    requires InRange(links) && i < |links| && p > 0 && Hop(links, i, h) == |links|
    ensures Hop(links, i, p) != i
    decreases h
  {
    if Hop(links, i, p) == i {
      if h <= p {
        NowhereStays(links, i, h, p);
        assert false;
      } else {
        HopsAdd(links, i, p, h - p);
        NoWayBack(links, i, h - p, p);
      }
    }
  }

  /** After a successful update of a non-empty list, the graph is acyclic exactly when
      it has a tail that every module leads to; there is no other tail. */
  lemma AcyclicMeansOneTail(links: seq<nat>)
    requires InRange(links) && links != [] && ModuleList.AtMostOneTail(links)
    ensures Acyclic(links) <==>
              exists t: nat :: IsTail(links, t) && forall i: nat | i < |links| :: LeadsTo(links, i, t)
    ensures forall t: nat, u: nat | IsTail(links, t) && IsTail(links, u) :: t == u
  {
    if Acyclic(links) {
      var h := WalkEnds(links, 0);
      var t := Hop(links, 0, h);
      forall i: nat | i < |links| ensures LeadsTo(links, i, t) {
        var g := WalkEnds(links, i);
        assert Hop(links, i, g) == t;
      }
    }
    if t: nat :| IsTail(links, t) && forall i: nat | i < |links| :: LeadsTo(links, i, t) {
      forall i: nat, p: nat | i < |links| && p > 0 ensures Hop(links, i, p) != i {
        assert LeadsTo(links, i, t);
        var h: nat :| h < |links| && Hop(links, i, h) == t;
        HopsAdd(links, i, h, 1);
        assert Hop(links, t, 1) == |links|;
        NoWayBack(links, i, h + 1, p);
      }
    }
  }

  /** With no tail at all there is a cycle. */
  lemma NoTailMeansCycle(links: seq<nat>)
    requires InRange(links) && links != [] && forall t: nat :: !IsTail(links, t)
    ensures !Acyclic(links)
  {
    if Acyclic(links) {
      var h := WalkEnds(links, 0);
      assert false;
    }
  }

  // --------------------------------------------------------------- a chain

  /** From `head` on, one hop after the other visits every module, and then nowhere. */
  ghost predicate ChainFrom(links: seq<nat>, head: nat)
    requires InRange(links)
  {
    && head < |links| && Hop(links, head, |links|) == |links|
    && forall i: nat | i < |links| :: LeadsTo(links, head, i)
  }

  /** No module is the successor of two. */
  ghost predicate OneWriter(links: seq<nat>) {
    forall i, j | 0 <= i < j < |links| :: links[i] == links[j] ==> links[i] == |links|
  }

  /** Two modules as far from the tail as each other are the same. */
  lemma {:induction false} SameDistance(links: seq<nat>, i: nat, j: nat, t: nat, h: nat)
    requires InRange(links) && i < |links| && j < |links| && IsTail(links, t) && OneWriter(links)
    requires Hop(links, i, h) == Hop(links, j, h) == t
    ensures i == j
    decreases h
  {
    if h > 0 {
      assert Hop(links, i, h) == Hop(links, links[i], h - 1);
      assert Hop(links, j, h) == Hop(links, links[j], h - 1);
      assert links[i] < |links| && links[j] < |links|;
      SameDistance(links, links[i], links[j], t, h - 1);
    }
  }

  /** The pipeline the protocol assumes, a chain through all modules, is what linking
      makes exactly when the graph has no cycle, at most one tail, and no module is
      the successor of two. */
  lemma ChainIff(links: seq<nat>)
    requires InRange(links) && links != []
    ensures (exists head: nat :: ChainFrom(links, head)) <==>
              Acyclic(links) && ModuleList.AtMostOneTail(links) && OneWriter(links)
  {
    if Acyclic(links) && ModuleList.AtMostOneTail(links) && OneWriter(links) {
      var head := HeadOf(links);
    }
    if head: nat :| ChainFrom(links, head) {
      ChainIsSimple(links, head);
    }
  }

  /** A walk to the tail through all distances meets the module at any distance. */
  lemma OnTheWay(links: seq<nat>, head: nat, i: nat, t: nat, h: nat)
    requires InRange(links) && head < |links| && i < |links| && IsTail(links, t) && OneWriter(links)
    requires h < |links| && Hop(links, head, |links| - 1) == t && Hop(links, i, h) == t
    ensures LeadsTo(links, head, i)
  {
    var j := |links| - 1 - h;
    HopsAdd(links, head, j, h);
    if Hop(links, head, j) < |links| {
      SameDistance(links, Hop(links, head, j), i, t, h);
    }
  }

  /** How far the modules are from the tail: all differ. */
  lemma Distances(links: seq<nat>, t: nat) returns (far: seq<nat>)
    requires InRange(links) && IsTail(links, t) && OneWriter(links)
    requires forall i: nat | i < |links| :: LeadsTo(links, i, t)
    ensures |far| == |links| && Distinct(far)
    ensures forall i | 0 <= i < |far| :: far[i] < |links| && Hop(links, i, far[i]) == t
  {
    far := [];
    for k := 0 to |links|
      invariant |far| == k
      invariant forall i | 0 <= i < k :: far[i] < |links| && Hop(links, i, far[i]) == t
    {
      assert LeadsTo(links, k, t);
      var h: nat :| h < |links| && Hop(links, k, h) == t;
      far := far + [h];
    }
    forall i, j | 0 <= i < j < |far| ensures far[i] != far[j] {
      if far[i] == far[j] {
        SameDistance(links, i, j, t, far[i]);
      }
    }
  }

  lemma HeadOf(links: seq<nat>) returns (head: nat)
    requires InRange(links) && links != [] && Acyclic(links) && ModuleList.AtMostOneTail(links) && OneWriter(links)
    ensures ChainFrom(links, head)
  {
    var n := |links|;
    AcyclicMeansOneTail(links);
    var t: nat :| IsTail(links, t) && forall i: nat | i < n :: LeadsTo(links, i, t);
    var far := Distances(links, t);
    Pigeonhole(far, n);
    assert n - 1 in far;
    head :| 0 <= head < n && far[head] == n - 1;
    HopsAdd(links, head, n - 1, 1);
    assert Hop(links, t, 1) == n;
    forall i: nat | i < n ensures LeadsTo(links, head, i) {
      OnTheWay(links, head, i, t, far[i]);
    }
  }

  /** The walk of a chain meets every module once. */
  lemma WalkDistinct(links: seq<nat>, head: nat, a: nat, b: nat)
    requires InRange(links) && ChainFrom(links, head) && a < b < |links|
    ensures Hop(links, head, a) != Hop(links, head, b)
    ensures Hop(links, head, b) < |links|
  {
    var n := |links|;
    var at: seq<nat> := [];
    for k := 0 to n
      invariant |at| == k
      invariant forall i | 0 <= i < k :: at[i] < n && Hop(links, head, at[i]) == i
    {
      assert LeadsTo(links, head, k);
      var h: nat :| h < n && Hop(links, head, h) == k;
      at := at + [h];
    }
    Pigeonhole(at, n);
    assert a in at && b in at;
  }

  lemma NextDiffers(links: seq<nat>, head: nat, a: nat, b: nat)
    requires InRange(links) && ChainFrom(links, head) && a < b < |links|
    ensures Hop(links, head, a + 1) != Hop(links, head, b + 1)
  {
    WalkDistinct(links, head, a, b);
    if b + 1 < |links| {
      WalkDistinct(links, head, a + 1, b + 1);
    } else {
      assert Hop(links, head, b + 1) == |links|;
      WalkDistinct(links, head, 0, a + 1);
    }
  }

  lemma ChainIsSimple(links: seq<nat>, head: nat)
    requires InRange(links) && ChainFrom(links, head)
    ensures Acyclic(links) && ModuleList.AtMostOneTail(links) && OneWriter(links)
  {
    var n := |links|;
    forall i: nat, p: nat | i < n && p > 0 ensures Hop(links, i, p) != i {
      assert LeadsTo(links, head, i);
      var k: nat :| k < n && Hop(links, head, k) == i;
      HopsAdd(links, head, k, n - k);
      NoWayBack(links, i, n - k, p);
    }
    forall i, j | 0 <= i < j < n ensures links[i] != links[j] {
      assert LeadsTo(links, head, i) && LeadsTo(links, head, j);
      var a: nat :| a < n && Hop(links, head, a) == i;
      var b: nat :| b < n && Hop(links, head, b) == j;
      HopsAdd(links, head, a, 1);
      HopsAdd(links, head, b, 1);
      NextDiffers(links, head, if a < b then a else b, if a < b then b else a);
    }
  }

  /** It need not be a chain: two modules with the same successor pass the update. */
  lemma TwoWriters()
    ensures var links: seq<nat> := [2, 2, 3];
            InRange(links) && ModuleList.AtMostOneTail(links) && forall head: nat :: !ChainFrom(links, head)
  {
    var links: seq<nat> := [2, 2, 3];
    assert links[0] == links[1] == 2 && |links| == 3;
    assert !OneWriter(links);
    ChainIff(links);
  }

  /** Nor need it end: a module that is its own successor passes it too. */
  lemma OwnSuccessor()
    ensures var links: seq<nat> := [0];
            InRange(links) && ModuleList.AtMostOneTail(links) && forall head: nat :: !ChainFrom(links, head)
  {
    var links: seq<nat> := [0];
    assert Hop(links, 0, 1) == 0;
    assert !Acyclic(links);
    ChainIff(links);
  }
}
