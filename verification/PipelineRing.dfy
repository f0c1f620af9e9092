/** The ring of free chunks is first in, first out over every run. */
module PipelineRing {
  import opened PipelineModel

  /** The chunk that the step e from s takes out of the ring: what its thread has then. */
  function PoppedBy(c: Config, s: State, e: Event): seq<nat>
    requires Enabled(c, s, e)
  {
    if e.ThreadStep? && s.mods[e.k].pc.Pop? then [Apply(c, s, e).mods[e.k].offs] else []
  }

  /** The chunk that it gives back: what its thread had. */
  function PushedBy(s: State, e: Event): seq<nat>
    requires e.ThreadStep? ==> e.k < |s.mods|
  {
    if e.ThreadStep? && (s.mods[e.k].pc.Drop? || s.mods[e.k].pc.Recycle?) then [s.mods[e.k].offs] else []
  }

  function Popped(c: Config, s: State, es: seq<Event>): seq<nat>
    requires Legal(c, s, es)
    decreases |es|
  {
    if es == [] then [] else PoppedBy(c, s, es[0]) + Popped(c, Apply(c, s, es[0]), es[1..])
  }

  function Pushed(c: Config, s: State, es: seq<Event>): seq<nat>
    requires Legal(c, s, es)
    decreases |es|
  {
    if es == [] then [] else PushedBy(s, es[0]) + Pushed(c, Apply(c, s, es[0]), es[1..])
  }

  lemma OneRingStep(c: Config, s: State, e: Event)
    requires Enabled(c, s, e)
    ensures s.ring + PushedBy(s, e) == PoppedBy(c, s, e) + Apply(c, s, e).ring
  {
  }

  lemma Chain(a: seq<nat>, b: seq<nat>, x: seq<nat>, y: seq<nat>, r: seq<nat>, xs: seq<nat>, ys: seq<nat>)
    requires a + x == y + b && b + xs == ys + r
    ensures a + (x + xs) == (y + ys) + r
  {
    assert a + (x + xs) == (a + x) + xs == y + (b + xs) == (y + ys) + r;
  }

  /** First in, first out: the chunks in the ring and then those given back are those
      taken and then those in the ring, in this order. */
  lemma {:induction false} FirstInFirstOut(c: Config, s: State, es: seq<Event>)
    requires Legal(c, s, es)
    ensures s.ring + Pushed(c, s, es) == Popped(c, s, es) + After(c, s, es).ring
    decreases |es|
  {
    if es != [] {
      var t := Apply(c, s, es[0]);
      OneRingStep(c, s, es[0]);
      FirstInFirstOut(c, t, es[1..]);
      Chain(s.ring, t.ring, PushedBy(s, es[0]), PoppedBy(c, s, es[0]), After(c, s, es).ring,
            Pushed(c, t, es[1..]), Popped(c, t, es[1..]));
    }
  }

  /** From the start the chunks are taken in the order of their offsets, and then in
      the order in which they were given back. */
  lemma ChunksInTurn(c: Config, mem: map<nat, Chunk>, es: seq<Event>)
    requires RunOf(c, mem, es)
    ensures var s := Start(c, mem);
            Popped(c, s, es) + StateAfter(c, mem, es).ring
            == seq(c.dataCnt, i requires 0 <= i < c.dataCnt => c.dataOffset + i * c.dataSize) + Pushed(c, s, es)
  {
    FirstInFirstOut(c, Start(c, mem), es);
  }
}
