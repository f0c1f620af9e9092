/** The receive loop groups packets by frame id, and undoes what a sender does. */
module GvspFrames {
  import opened Bytes
  import opened Gvsp

  lemma {:induction false} FrontOfCons<T>(x: T, xs: seq<T>)
    ensures Front([x] + xs) == if xs == [] then [] else [x] + Front(xs)
  {
  }

  lemma LeadParts(last: nat, ps: seq<Packet>)
    requires ps != [] && FrameId(ps[0]) == last
    ensures var n := Lead(last, ps);
            && n == 1 + Lead(last, ps[1..]) && ps[1..][n - 1..] == ps[n..]
            && Blocks(ps[..n]) == Block(ps[0]) + Blocks(ps[1..][..n - 1])
  {
    var n := Lead(last, ps);
    assert ps[..n][1..] == ps[1..][..n - 1];
  }

  /** What is still to be delivered of ps when `image` has been collected of frame
      `last`: that frame, once its id changes, and then the frames of the rest. */
  function Due(last: nat, image: seq<byte>, ps: seq<Packet>): seq<Frame> {
    var n := Lead(last, ps);
    if n == |ps| then [] else [Frame(last, image + Blocks(ps[..n]))] + FramesOf(Front(Groups(ps[n..])))
  }

  lemma DueSameFrame(last: nat, image: seq<byte>, ps: seq<Packet>)
    requires ps != [] && FrameId(ps[0]) == last
    ensures Due(last, image, ps) == Due(last, image + Block(ps[0]), ps[1..])
  {
    var n := Lead(last, ps);
    LeadParts(last, ps);
    assert image + Block(ps[0]) + Blocks(ps[1..][..n - 1]) == image + Blocks(ps[..n]);
  }

  /** The frames of ps seen from its first packet. */
  lemma DueFirstFrame(ps: seq<Packet>)
    requires ps != []
    ensures FramesOf(Front(Groups(ps))) == Due(FrameId(ps[0]), Block(ps[0]), ps[1..])
  {
    var m := Lead(FrameId(ps[0]), ps[1..]);
    assert ps[1..][m..] == ps[1 + m..];
    FrontOfCons(ps[..1 + m], Groups(ps[1 + m..]));
    assert ps[..1 + m][1..] == ps[1..][..m];
  }

  lemma DueNextFrame(last: nat, image: seq<byte>, ps: seq<Packet>)
    requires ps != [] && FrameId(ps[0]) != last
    ensures Due(last, image, ps) == [Frame(last, image)] + Due(FrameId(ps[0]), Block(ps[0]), ps[1..])
  {
    DueFirstFrame(ps);
    assert ps[0..] == ps && ps[..0] == [];
    assert image + Blocks([]) == image;
  }

  lemma {:induction false} EmittedInside(last: nat, image: seq<byte>, ps: seq<Packet>)
    ensures Emitted(Grouping(true, last, image), ps) == Due(last, image, ps)
    decreases |ps|
  {
    if ps != [] {
      if FrameId(ps[0]) == last {
        EmittedInside(last, image + Block(ps[0]), ps[1..]);
        DueSameFrame(last, image, ps);
      } else {
        EmittedInside(FrameId(ps[0]), Block(ps[0]), ps[1..]);
        DueNextFrame(last, image, ps);
      }
    }
  }

  /** The frames the loop delivers are those of the grouping of the packets by frame
      id, without the leading packets of id 0 and without the last, unfinished one. */
  lemma {:induction false} EmittedIsGrouping(ps: seq<Packet>)
    ensures Emitted(NO_FRAME, ps) == FramesIn(ps)
    decreases |ps|
  {
    if ps != [] {
      if FrameId(ps[0]) == 0 {
        EmittedIsGrouping(ps[1..]);
        assert ps[1..][Lead(0, ps[1..])..] == ps[Lead(0, ps)..];
      } else {
        EmittedInside(FrameId(ps[0]), Block(ps[0]), ps[1..]);
        DueFirstFrame(ps);
        assert ps[0..] == ps;
      }
    } else {
      assert ps[0..] == [];
    }
  }

  ghost predicate GroupsFit(gs: seq<seq<Packet>>) {
    forall i :: 0 <= i < |gs| ==> |Blocks(gs[i])| <= MAX_FRAME_SIZE
  }

  lemma GroupsFitCons(g: seq<Packet>, gs: seq<seq<Packet>>)
    ensures GroupsFit([g] + gs) <==> |Blocks(g)| <= MAX_FRAME_SIZE && GroupsFit(gs)
  {
    var all := [g] + gs;
    assert all[0] == g;
    assert forall i :: 0 <= i < |gs| ==> all[i + 1] == gs[i];
    if GroupsFit(all) {
      forall i | 0 <= i < |gs| ensures |Blocks(gs[i])| <= MAX_FRAME_SIZE {
        assert |Blocks(all[i + 1])| <= MAX_FRAME_SIZE;
      }
    }
  }

  lemma {:induction false} BoundedInside(last: nat, image: seq<byte>, ps: seq<Packet>)
    requires |image| <= MAX_FRAME_SIZE
    ensures var n := Lead(last, ps);
            Bounded(Grouping(true, last, image), ps)
            <==> |image| + |Blocks(ps[..n])| <= MAX_FRAME_SIZE && GroupsFit(Groups(ps[n..]))
    decreases |ps|
  {
    var n := Lead(last, ps);
    if ps != [] {
      if FrameId(ps[0]) == last {
        LeadParts(last, ps);
        if |image + Block(ps[0])| <= MAX_FRAME_SIZE {
          BoundedInside(last, image + Block(ps[0]), ps[1..]);
        }
      } else {
        assert ps[0..] == ps && ps[..0] == [];
        BoundedStart(ps);
      }
    }
  }

  lemma {:induction false} BoundedStart(ps: seq<Packet>)
    requires ps != []
    ensures (|Block(ps[0])| <= MAX_FRAME_SIZE && Bounded(Grouping(true, FrameId(ps[0]), Block(ps[0])), ps[1..]))
            <==> GroupsFit(Groups(ps))
    decreases |ps|, 0
  {
    var id := FrameId(ps[0]);
    var m := Lead(id, ps[1..]);
    var g, gs := ps[..1 + m], Groups(ps[1 + m..]);
    assert g[1..] == ps[1..][..m];
    assert ps[1..][m..] == ps[1 + m..];
    GroupsFitCons(g, gs);
    if |Block(ps[0])| <= MAX_FRAME_SIZE {
      BoundedInside(id, Block(ps[0]), ps[1..]);
    }
  }

  /** The loop stays inside the image buffer exactly if the blocks of every group, the
      unfinished one included, fit it. */
  lemma {:induction false} BoundedIffFits(ps: seq<Packet>)
    ensures Bounded(NO_FRAME, ps) <==> Fits(ps[Lead(0, ps)..])
    decreases |ps|
  {
    if ps != [] {
      if FrameId(ps[0]) == 0 {
        BoundedIffFits(ps[1..]);
        assert ps[1..][Lead(0, ps[1..])..] == ps[Lead(0, ps)..];
      } else {
        BoundedStart(ps);
        assert ps[0..] == ps;
      }
    }
  }

  // --------------------------------------------------------- counting blocks

  /** The number of data blocks among ps with 16-bit, or with 64-bit, frame ids. */
  function BlockCount(ps: seq<Packet>, extended: bool): nat {
    if ps == [] then 0
    else BlockCount(ps[1..], extended) + if IsBlock(ps[0]) && HasExtendedIds(ps[0]) == extended then 1 else 0
  }

  /** Every block adds the whole receive buffer but for its header. */
  lemma {:induction false} BlockBytes(ps: seq<Packet>, n: nat)
    requires forall p | p in ps :: |p| == n
    ensures |Blocks(ps)| == BlockTotal(ps, n)
  {
    if ps != [] {
      BlockBytes(ps[1..], n);
      assert |Blocks(ps)| == |Block(ps[0])| + |Blocks(ps[1..])|;
      Distribute(BlockCount(ps[1..], false), n - HEADER_END);
      Distribute(BlockCount(ps[1..], true), n - EXTENDED_HEADER_END);
    }
  }

  lemma Distribute(k: int, x: int)
    ensures (k + 1) * x == k * x + x
  {
  }

  /** The image bytes of g when the receive buffer has n bytes. */
  function BlockTotal(g: seq<Packet>, n: nat): int {
    BlockCount(g, false) * (n - HEADER_END) + BlockCount(g, true) * (n - EXTENDED_HEADER_END)
  }

  /** No group has so many blocks that they exceed the image buffer. */
  ghost predicate FewBlocks(ps: seq<Packet>, n: nat) {
    forall i :: 0 <= i < |Groups(ps)| ==> BlockTotal(Groups(ps)[i], n) <= MAX_FRAME_SIZE
  }

  lemma {:induction false} GroupsAreParts(ps: seq<Packet>, i: nat, p: Packet)
    requires i < |Groups(ps)| && p in Groups(ps)[i]
    ensures p in ps
    decreases |ps|
  {
    if i > 0 {
      assert Groups(ps)[i] == Groups(ps[Cut(ps)..])[i - 1];
      GroupsAreParts(ps[Cut(ps)..], i - 1, p);
    }
  }

  lemma GroupBytes(ps: seq<Packet>, n: nat, i: nat)
    requires i < |Groups(ps)| && forall p | p in ps :: |p| == n
    ensures |Blocks(Groups(ps)[i])| == BlockTotal(Groups(ps)[i], n)
  {
    forall p | p in Groups(ps)[i] ensures |p| == n {
      GroupsAreParts(ps, i, p);
    }
    BlockBytes(Groups(ps)[i], n);
  }

  /** The loop stays inside the image buffer exactly if no group, the unfinished one
      included, has too many blocks. */
  lemma BoundedIffFewBlocks(ps: seq<Packet>, n: nat)
    requires forall p | p in ps :: |p| == n
    ensures Bounded(NO_FRAME, ps) <==> FewBlocks(ps[Lead(0, ps)..], n)
  {
    var rest := ps[Lead(0, ps)..];
    BoundedIffFits(ps);
    forall i: nat | i < |Groups(rest)| ensures |Blocks(Groups(rest)[i])| == BlockTotal(Groups(rest)[i], n) {
      GroupBytes(rest, n, i);
    }
    FitsIff(rest, n);
  }

  lemma FitsIff(ps: seq<Packet>, n: nat)
    requires forall i :: 0 <= i < |Groups(ps)| ==> |Blocks(Groups(ps)[i])| == BlockTotal(Groups(ps)[i], n)
    ensures Fits(ps) <==> FewBlocks(ps, n)
  {
  }
}
