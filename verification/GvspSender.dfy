/** What a camera sends and what is delivered. */
module GvspSender {
  import opened Bytes
  import opened Gvsp
  import opened GvspWire
  import GvspFrames

  /** The packets of frame after frame. */
  function Sent(gs: seq<seq<Packet>>): seq<Packet> {
    if gs == [] then [] else gs[0] + Sent(gs[1..])
  }

  /** Every frame has at least one packet, all with its id, and neighbouring frames
      have different ids. */
  ghost predicate WellSent(gs: seq<seq<Packet>>) {
    && (forall i :: 0 <= i < |gs| ==> gs[i] != [] && forall p | p in gs[i] :: FrameId(p) == FrameId(gs[i][0]))
    && (forall i :: 0 < i < |gs| ==> FrameId(gs[i][0]) != FrameId(gs[i - 1][0]))
  }

  lemma {:induction false} LeadOf(id: nat, g: seq<Packet>, rest: seq<Packet>)
    requires (forall p | p in g :: FrameId(p) == id) && (rest == [] || FrameId(rest[0]) != id)
    ensures Lead(id, g + rest) == |g|
  {
    if g == [] {
      assert g + rest == rest;
    } else {
      assert (g + rest)[1..] == g[1..] + rest;
      LeadOf(id, g[1..], rest);
    }
  }

  lemma FirstGroup(g: seq<Packet>, rest: seq<Packet>)
    requires g != [] && forall p | p in g :: FrameId(p) == FrameId(g[0])
    requires rest == [] || FrameId(rest[0]) != FrameId(g[0])
    ensures Groups(g + rest) == [g] + Groups(rest)
  {
    assert (g + rest)[1..] == g[1..] + rest;
    LeadOf(FrameId(g[0]), g[1..], rest);
    assert Cut(g + rest) == |g|;
    assert (g + rest)[..|g|] == g && (g + rest)[|g|..] == rest;
    assert Groups(g + rest) == [(g + rest)[..|g|]] + Groups((g + rest)[|g|..]);
  }

  lemma {:induction false} GroupsOfSent(gs: seq<seq<Packet>>)
    requires WellSent(gs)
    ensures Groups(Sent(gs)) == gs
  {
    if gs != [] {
      var g, rest := gs[0], Sent(gs[1..]);
      assert WellSent(gs[1..]) by {
        assert forall i | 0 <= i < |gs[1..]| :: gs[1..][i] == gs[i + 1];
      }
      GroupsOfSent(gs[1..]);
      assert rest != [] ==> rest[0] == gs[1][0];
      FirstGroup(g, rest);
    }
  }

  /** Packets grouped as a sender groups them are delivered as those frames, but for
      the last, whose end has not been seen. */
  lemma {:induction false} GroupsDelivered(gs: seq<seq<Packet>>)
    requires WellSent(gs) && gs != [] && FrameId(gs[0][0]) != 0
    ensures Emitted(NO_FRAME, Sent(gs)) == FramesOf(Front(gs))
  {
    var ps := Sent(gs);
    GvspFrames.EmittedIsGrouping(ps);
    GroupsOfSent(gs);
    assert ps[0] == gs[0][0];
    assert ps[0..] == ps;
  }

  // ----------------------------------------------- from datagrams to packets

  /** The datagrams that arrive. */
  function Datagrams(arrivals: seq<Arrival>): seq<seq<byte>> {
    if arrivals == [] || arrivals[0].Broken? then []
    else (if arrivals[0].Datagram? then [arrivals[0].bytes] else []) + Datagrams(arrivals[1..])
  }

  /** b is a receive buffer of n bytes in which d has arrived. */
  ghost predicate Fills(b: seq<byte>, d: seq<byte>, n: nat) {
    d <= b && |b| == n
  }

  ghost predicate AllFill(bs: seq<seq<byte>>, ds: seq<seq<byte>>, n: nat) {
    |bs| == |ds| && forall i | 0 <= i < |ds| :: Fills(bs[i], ds[i], n)
  }

  lemma AllFillCons(b: seq<byte>, d: seq<byte>, bs: seq<seq<byte>>, ds: seq<seq<byte>>, n: nat)
    requires Fills(b, d, n) && AllFill(bs, ds, n)
    ensures AllFill([b] + bs, [d] + ds, n)
  {
  }

  lemma {:induction false} ReceivedFills(buffer: seq<byte>, arrivals: seq<Arrival>)
    requires forall d | d in Datagrams(arrivals) :: |d| <= |buffer|
    ensures AllFill(Received(buffer, arrivals), Datagrams(arrivals), |buffer|)
    decreases |arrivals|
  {
    if arrivals != [] && !arrivals[0].Broken? {
      var rest := arrivals[1..];
      assert forall d | d in Datagrams(rest) :: d in Datagrams(arrivals);
      if arrivals[0].Datagram? {
        var d := arrivals[0].bytes;
        assert d in Datagrams(arrivals);
        var b := d + buffer[|d|..];
        ReceivedFills(b, rest);
        assert Received(buffer, arrivals) == [b] + Received(b, rest);
        assert Datagrams(arrivals) == [d] + Datagrams(rest);
        AllFillCons(b, d, Received(b, rest), Datagrams(rest), |buffer|);
      } else {
        ReceivedFills(buffer, rest);
      }
    }
  }

  /** The header of a datagram is that of the buffer, and a block is as much longer
      as the datagram is shorter than the buffer. */
  lemma FilledPacket(b: seq<byte>, d: Packet, n: nat)
    requires Fills(b, d, n)
    ensures HeaderWhole(b) && FrameId(b) == FrameId(d) && IsBlock(b) == IsBlock(d)
    ensures Block(d) <= Block(b) && |Block(b)| == |Block(d)| + if IsBlock(d) then n - |d| else 0
  {
    assert forall i | 0 <= i < |d| :: b[i] == d[i];
    assert b[0..2] == d[0..2] && b[2..4] == d[2..4];
    if d[4] >= 0x80 {
      assert b[8..16] == d[8..16];
    }
  }

  /** Every block datagram is as long as the receive buffer. */
  ghost predicate FullBlocks(ds: seq<Packet>, n: nat) {
    forall d | d in ds :: IsBlock(d) ==> |d| == n
  }

  /** The image collected from the buffers is that of the datagrams exactly if all
      block datagrams are full; otherwise it is longer. */
  lemma {:induction false} FilledBlocks(bs: seq<Packet>, ds: seq<Packet>, n: nat)
    requires AllFill(bs, ds, n)
    ensures |Blocks(bs)| >= |Blocks(ds)|
    ensures Blocks(bs) == Blocks(ds) <==> FullBlocks(ds, n)
    ensures |Blocks(bs)| == |Blocks(ds)| ==> FullBlocks(ds, n)
  {
    if ds != [] {
      var b, d := bs[0], ds[0];
      FilledPacket(b, d, n);
      FilledBlocks(bs[1..], ds[1..], n);
      assert FullBlocks(ds, n) <==> (IsBlock(d) ==> |d| == n) && FullBlocks(ds[1..], n) by {
        assert ds == [d] + ds[1..];
      }
      if |Block(b)| == |Block(d)| {
        assert Block(b) == Block(d);
      }
    }
  }

  /** The buffers cut as the sender's frames are. */
  function Recut(bs: seq<Packet>, gs: seq<seq<Packet>>): (cs: seq<seq<Packet>>)
    requires |bs| == |Sent(gs)|
    ensures |cs| == |gs|
  {
    if gs == [] then [] else [bs[..|gs[0]|]] + Recut(bs[|gs[0]|..], gs[1..])
  }

  lemma CutFills(bs: seq<seq<byte>>, g: seq<seq<byte>>, rest: seq<seq<byte>>, n: nat)
    requires AllFill(bs, g + rest, n)
    ensures |g| <= |bs| && AllFill(bs[..|g|], g, n) && AllFill(bs[|g|..], rest, n)
  {
    var k := |g|;
    forall i | 0 <= i < k ensures Fills(bs[..k][i], g[i], n) {
      assert Fills(bs[i], (g + rest)[i], n);
    }
    forall i | 0 <= i < |rest| ensures Fills(bs[k..][i], rest[i], n) {
      assert Fills(bs[k + i], (g + rest)[k + i], n);
    }
  }

  lemma RecutCons(bs: seq<Packet>, gs: seq<seq<Packet>>)
    requires gs != [] && |bs| == |Sent(gs)|
    ensures var k := |gs[0]|;
            && k <= |bs| && |bs[k..]| == |Sent(gs[1..])|
            && Recut(bs, gs) == [bs[..k]] + Recut(bs[k..], gs[1..])
            && Sent(Recut(bs, gs)) == bs[..k] + Sent(Recut(bs[k..], gs[1..]))
  {
    var k := |gs[0]|;
    assert Recut(bs, gs)[1..] == Recut(bs[k..], gs[1..]);
  }

  lemma {:induction false} RecutIsCut(bs: seq<Packet>, gs: seq<seq<Packet>>, n: nat)
    requires AllFill(bs, Sent(gs), n)
    ensures Sent(Recut(bs, gs)) == bs
    ensures forall i | 0 <= i < |gs| :: AllFill(Recut(bs, gs)[i], gs[i], n)
  {
    if gs != [] {
      var k := |gs[0]|;
      CutFills(bs, gs[0], Sent(gs[1..]), n);
      RecutCons(bs, gs);
      RecutIsCut(bs[k..], gs[1..], n);
      assert bs == bs[..k] + bs[k..];
    }
  }

  lemma {:induction false} FrameAt(gs: seq<seq<Packet>>, i: nat)
    requires i < |gs| && forall j | 0 <= j < |gs| :: gs[j] != []
    ensures FramesOf(gs)[i] == Frame(FrameId(gs[i][0]), Blocks(gs[i]))
  {
    if i > 0 {
      FrameAt(gs[1..], i - 1);
    }
  }

  lemma FilledGroup(g: seq<Packet>, h: seq<Packet>, n: nat)
    requires AllFill(g, h, n) && h != [] && forall d | d in h :: FrameId(d) == FrameId(h[0])
    ensures g != [] && FrameId(g[0]) == FrameId(h[0]) && forall b | b in g :: FrameId(b) == FrameId(g[0])
  {
    forall i | 0 <= i < |g| ensures FrameId(g[i]) == FrameId(h[0]) {
      FilledPacket(g[i], h[i], n);
    }
  }

  lemma RecutDelivered(bs: seq<Packet>, gs: seq<seq<Packet>>, n: nat)
    requires AllFill(bs, Sent(gs), n) && WellSent(gs) && gs != [] && FrameId(gs[0][0]) != 0
    ensures var fs := Emitted(NO_FRAME, bs);
            && |fs| == |gs| - 1
            && forall i | 0 <= i < |fs| :: fs[i] == Frame(FrameId(gs[i][0]), Blocks(Recut(bs, gs)[i]))
  {
    var cs := Recut(bs, gs);
    RecutIsCut(bs, gs, n);
    RecutWellSent(cs, gs, n);
    GroupsDelivered(cs);
    forall i: nat | i < |gs| - 1
      ensures FramesOf(Front(cs))[i] == Frame(FrameId(gs[i][0]), Blocks(cs[i]))
    {
      FrameAt(Front(cs), i);
    }
  }

  lemma RecutWellSent(cs: seq<seq<Packet>>, gs: seq<seq<Packet>>, n: nat)
    requires WellSent(gs) && |cs| == |gs| && forall i | 0 <= i < |gs| :: AllFill(cs[i], gs[i], n)
    ensures WellSent(cs) && forall i | 0 <= i < |gs| :: FrameId(cs[i][0]) == FrameId(gs[i][0])
  {
    forall j | 0 <= j < |gs| ensures cs[j] != [] && FrameId(cs[j][0]) == FrameId(gs[j][0])
                             ensures forall b | b in cs[j] :: FrameId(b) == FrameId(cs[j][0]) {
      FilledGroup(cs[j], gs[j], n);
    }
  }

  /** Packets of frames gs, in datagrams of at most packet_size bytes, are delivered
      frame by frame, but for the last, and each image is complete exactly if its data
      blocks filled whole packets. */
  lemma PacketsRoundTrip(buffer: seq<byte>, arrivals: seq<Arrival>, gs: seq<seq<Packet>>)
    requires |buffer| >= EXTENDED_HEADER_END && WellSent(gs) && gs != [] && FrameId(gs[0][0]) != 0
    requires Datagrams(arrivals) == Sent(gs) && forall d | d in Datagrams(arrivals) :: |d| <= |buffer|
    ensures var fs := Emitted(NO_FRAME, Received(buffer, arrivals));
            && |fs| == |gs| - 1
            && forall i | 0 <= i < |fs| ::
                 && fs[i].id == FrameId(gs[i][0])
                 && |fs[i].image| >= |Blocks(gs[i])|
                 && (fs[i].image == Blocks(gs[i]) <==> FullBlocks(gs[i], |buffer|))
  {
    var n := |buffer|;
    var bs: seq<Packet> := Received(buffer, arrivals);
    ReceivedFills(buffer, arrivals);
    RecutDelivered(bs, gs, n);
    forall i: nat | i < |gs| - 1
      ensures |Blocks(Recut(bs, gs)[i])| >= |Blocks(gs[i])|
      ensures Blocks(Recut(bs, gs)[i]) == Blocks(gs[i]) <==> FullBlocks(gs[i], n)
    {
      RecutIsCut(bs, gs, n);
      FilledBlocks(Recut(bs, gs)[i], gs[i], n);
    }
  }

  // ------------------------------------------------- from values to images

  /** Frames of packets of one kind: each frame has packets, all with its id, and
      neighbouring frames have different ids. */
  ghost predicate WellMeant(frames: seq<seq<Outgoing>>, extended: bool) {
    && (forall i :: 0 <= i < |frames| ==> frames[i] != [] && OneFrame(frames[i], extended))
    && (forall i :: 0 < i < |frames| ==> frames[i][0].id != frames[i - 1][0].id)
  }

  ghost predicate OneFrame(xs: seq<Outgoing>, extended: bool) {
    forall x | x in xs :: x.Valid() && (x.Extended? <==> extended) && x.id == xs[0].id
  }

  function Wires(xs: seq<Outgoing>): (ps: seq<Packet>)
    requires forall x | x in xs :: x.Valid()
    ensures |ps| == |xs| && forall i | 0 <= i < |xs| :: ps[i] == xs[i].Wire()
  {
    if xs == [] then [] else [xs[0].Wire()] + Wires(xs[1..])
  }

  function Stream(frames: seq<seq<Outgoing>>): seq<Packet>
    requires forall i, x | 0 <= i < |frames| && x in frames[i] :: x.Valid()
  {
    if frames == [] then [] else Wires(frames[0]) + Stream(frames[1..])
  }

  /** The image a camera sends with the packets of a frame. */
  function Image(xs: seq<Outgoing>): seq<byte> {
    if xs == [] then [] else (if xs[0].CarriesImage() then xs[0].payload else []) + Image(xs[1..])
  }

  /** Every packet with image data is n bytes long. */
  ghost predicate AllFull(xs: seq<Outgoing>, n: nat) {
    forall x | x in xs && x.Valid() :: x.CarriesImage() ==> |x.Wire()| == n
  }

  lemma {:induction false} WiresOfFrame(xs: seq<Outgoing>)
    requires forall x | x in xs :: x.Valid()
    ensures Blocks(Wires(xs)) == Image(xs)
    ensures forall i | 0 <= i < |xs| :: ReadsAs(Wires(xs)[i], xs[i])
  {
    if xs != [] {
      FieldsReadBack(xs[0]);
      WiresOfFrame(xs[1..]);
    }
  }

  lemma FullIfFull(xs: seq<Outgoing>, n: nat)
    requires forall x | x in xs :: x.Valid()
    ensures FullBlocks(Wires(xs), n) <==> AllFull(xs, n)
  {
    WiresOfFrame(xs);
    var ps := Wires(xs);
    if FullBlocks(ps, n) {
      forall x | x in xs ensures x.CarriesImage() ==> |x.Wire()| == n {
        var i :| 0 <= i < |xs| && xs[i] == x;
        assert ps[i] in ps;
      }
    }
  }

  function AllWires(frames: seq<seq<Outgoing>>): (gs: seq<seq<Packet>>)
    requires forall i, x | 0 <= i < |frames| && x in frames[i] :: x.Valid()
    ensures |gs| == |frames| && forall i | 0 <= i < |frames| :: gs[i] == Wires(frames[i])
    ensures Sent(gs) == Stream(frames)
  {
    if frames == [] then [] else [Wires(frames[0])] + AllWires(frames[1..])
  }

  /** All packets of a frame are seen with its id. */
  lemma FrameSeen(xs: seq<Outgoing>, extended: bool)
    requires xs != [] && OneFrame(xs, extended)
    ensures var ps := Wires(xs);
            ps != [] && forall p | p in ps :: FrameId(p) == xs[0].SeenId()
  {
    var ps := Wires(xs);
    WiresOfFrame(xs);
    forall p | p in ps ensures FrameId(p) == xs[0].SeenId() {
      var j :| 0 <= j < |ps| && ps[j] == p;
      SeenApart(xs[j], xs[0]);
    }
  }

  lemma MeantIsSent(frames: seq<seq<Outgoing>>, extended: bool)
    requires WellMeant(frames, extended)
    ensures WellSent(AllWires(frames))
  {
    var gs := AllWires(frames);
    forall i | 0 <= i < |gs|
      ensures gs[i] != [] && FrameId(gs[i][0]) == frames[i][0].SeenId()
      ensures forall p | p in gs[i] :: FrameId(p) == FrameId(gs[i][0])
    {
      FrameSeen(frames[i], extended);
      assert gs[i][0] in gs[i];
    }
    forall i | 0 < i < |gs| ensures FrameId(gs[i][0]) != FrameId(gs[i - 1][0]) {
      assert frames[i][0] in frames[i] && frames[i - 1][0] in frames[i - 1];
      SeenApart(frames[i][0], frames[i - 1][0]);
    }
  }

  /** What a camera with frame ids from 1 on sends, in datagrams of at most packet_size
      bytes, is delivered frame by frame, but for the last: with the id sent, of which a
      64-bit one has its bytes reversed, and with the image sent exactly if each packet
      with image data was a whole one.  A shorter one is padded with what the buffer
      held before. */
  lemma SenderRoundTrip(buffer: seq<byte>, arrivals: seq<Arrival>, frames: seq<seq<Outgoing>>, extended: bool)
    requires |buffer| >= EXTENDED_HEADER_END && WellMeant(frames, extended) && frames != [] && frames[0][0].id != 0
    requires Datagrams(arrivals) == Stream(frames) && forall d | d in Datagrams(arrivals) :: |d| <= |buffer|
    ensures var fs := Emitted(NO_FRAME, Received(buffer, arrivals));
            && |fs| == |frames| - 1
            && forall i | 0 <= i < |fs| ::
                 && fs[i].id == (if extended then Swapped(frames[i][0].id, 8) else frames[i][0].id)
                 && |fs[i].image| >= |Image(frames[i])|
                 && (fs[i].image == Image(frames[i]) <==> AllFull(frames[i], |buffer|))
  {
    var gs := AllWires(frames);
    MeantIsSent(frames, extended);
    SeenApart(frames[0][0], frames[0][0]);
    forall i | 0 <= i < |gs|
      ensures FrameId(gs[i][0]) == frames[i][0].SeenId() && Blocks(gs[i]) == Image(frames[i])
      ensures FullBlocks(gs[i], |buffer|) <==> AllFull(frames[i], |buffer|)
    {
      WiresOfFrame(frames[i]);
      FullIfFull(frames[i], |buffer|);
    }
    PacketsRoundTrip(buffer, arrivals, gs);
  }

  /** It fails: two frames of one block with one byte each, received with a buffer of
      20 bytes.  The image of the first is delivered with 11 stale bytes. */
  lemma ShortBlockIsPadded(buffer: seq<byte>)
    requires |buffer| == EXTENDED_HEADER_END
    ensures var a: seq<byte>, b: seq<byte> := [0, 0, 0, 1, 3, 0, 0, 1, 7], [0, 0, 0, 2, 3, 0, 0, 1, 9];
            && HeaderWhole(a) && Block(a) == [7]
            && Emitted(NO_FRAME, Received(buffer, [Datagram(a), Datagram(b)])) == [Frame(1, [7] + buffer[9..])]
  {
    var a: seq<byte>, b: seq<byte> := [0, 0, 0, 1, 3, 0, 0, 1, 7], [0, 0, 0, 2, 3, 0, 0, 1, 9];
    var p: Packet := a + buffer[9..];
    var q: Packet := b + p[9..];
    assert Received(buffer, [Datagram(a), Datagram(b)]) == [p, q] by {
      OneReceived(buffer, a, [Datagram(b)]);
      OneReceived(p, b, []);
    }
    IdOfTwoBytes(p, 1);
    IdOfTwoBytes(q, 2);
    BlockOf(a);
    BlockOf(p);
    assert a[8..] == [7] && p[8..] == [7] + buffer[9..];
    TwoFrames(p, q);
  }

  lemma BlockOf(p: Packet)
    requires p[0] == 0 && p[1] == 0 && p[4] == 3
    ensures Block(p) == p[8..]
  {
    NoError(p);
  }

  lemma OneReceived(buffer: seq<byte>, d: seq<byte>, rest: seq<Arrival>)
    requires |d| <= |buffer|
    ensures var b := d + buffer[|d|..]; Received(buffer, [Datagram(d)] + rest) == [b] + Received(b, rest)
  {
    assert ([Datagram(d)] + rest)[1..] == rest;
  }

  lemma TwoFrames(p: Packet, q: Packet)
    requires FrameId(p) != 0 && FrameId(q) != FrameId(p)
    ensures Emitted(NO_FRAME, [p, q]) == [Frame(FrameId(p), Block(p))]
  {
    assert [p, q][1..] == [q] && [q][1..] == [];
    assert Emitted(Next(NO_FRAME, p), [q]) == Ended(Next(NO_FRAME, p), q) + Emitted(Next(Next(NO_FRAME, p), q), []);
  }

  /** A packet whose status says that its content is not available is taken for a good
      one: what it carries goes into the image if and only if it is a data block. */
  lemma UnavailableIsUsed(p: Packet, q: Packet)
    requires Status(p) == GVSP_PACKET_TYPE_PACKET_UNAVAILABLE
    requires FrameId(p) != 0 && FrameId(q) != FrameId(p)
    ensures var image := if ContentType(p) == GVSP_CONTENT_TYPE_DATA_BLOCK then Data(p) else [];
            Emitted(NO_FRAME, [p, q]) == [Frame(FrameId(p), image)]
  {
    TwoFrames(p, q);
  }

  lemma BigOfTwo(a: byte, b: byte)
    ensures Big([a, b]) == 256 * a as nat + b as nat
  {
    assert [a, b][..1] == [a];
    assert Big([a]) == 256 * Big([]) + a as nat;
  }

  lemma UnavailableByte()
    ensures var p: seq<byte>, q: seq<byte> := [0x80, 0x0c, 0, 1, 3, 0, 0, 1, 7], [0, 0, 0, 2, 3, 0, 0, 1, 9];
            && Status(p) == GVSP_PACKET_TYPE_PACKET_UNAVAILABLE
            && Emitted(NO_FRAME, [p, q]) == [Frame(1, [7])]
  {
    var p: Packet := [0x80, 0x0c, 0, 1, 3, 0, 0, 1, 7];
    var q: Packet := [0, 0, 0, 2, 3, 0, 0, 1, 9];
    assert p[0..2] == [0x80, 0x0c];
    BigOfTwo(0x80, 0x0c);
    IdOfTwoBytes(p, 1);
    IdOfTwoBytes(q, 2);
    UnavailableIsUsed(p, q);
  }

  lemma {:induction false} SameBlocks(p: Packet, k: nat)
    requires IsBlock(p) && !HasExtendedIds(p)
    ensures var ps: seq<Packet> := seq(k, _ => p);
            GvspFrames.BlockCount(ps, false) == k && GvspFrames.BlockCount(ps, true) == 0
  {
    if k > 0 {
      var ps: seq<Packet> := seq(k, _ => p);
      assert ps[1..] == seq(k - 1, _ => p);
      SameBlocks(p, k - 1);
    }
  }

  /** A frame of k blocks in packets of 1500 bytes. */
  lemma FrameOfBlocks(p: Packet, k: nat)
    requires |p| == 1500 && IsBlock(p) && !HasExtendedIds(p) && FrameId(p) != 0 && k > 0
    ensures Bounded(NO_FRAME, seq(k, _ => p)) <==> k * 1492 <= MAX_FRAME_SIZE
  {
    var ps: seq<Packet> := seq(k, _ => p);
    assert Sent([ps]) == ps + Sent([]) == ps;
    GroupsOfSent([ps]);
    assert ps[0] == p && ps[0..] == ps;
    SameBlocks(p, k);
    assert GvspFrames.BlockTotal(Groups(ps)[0], 1500) == k * 1492;
    GvspFrames.BoundedIffFewBlocks(ps, 1500);
  }

  /** The image buffer has room for a frame of 80428 blocks in packets of 1500 bytes, and is
      exceeded by one more. */
  lemma FrameTooBig() returns (p: Packet)
    ensures |p| == 1500 && Bounded(NO_FRAME, seq(80428, _ => p)) && !Bounded(NO_FRAME, seq(80429, _ => p))
  {
    p := [0, 0, 0, 1, 3, 0, 0, 1] + seq(1492, _ => 0);
    NoError(p);
    IdOfTwoBytes(p, 1);
    FrameOfBlocks(p, 80428);
    FrameOfBlocks(p, 80429);
  }

  lemma IdOfTwoBytes(p: Packet, id: byte)
    requires !HasExtendedIds(p) && p[2] == 0 && p[3] == id
    ensures FrameId(p) == id as nat
  {
    assert p[2..4] == [0, id];
    BigOfTwo(0, id);
  }

  lemma NoError(p: Packet)
    requires p[0] == 0 && p[1] == 0
    ensures !IsError(p)
  {
    assert p[0..2] == [0, 0];
    BigOfTwo(0, 0);
  }
}
