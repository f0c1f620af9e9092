/** Packets of the GigE Vision stream protocol and their grouping into frames. */
module Gvsp {
  import opened Bytes

  const MAX_FRAME_SIZE: nat := 120_000_000
  const GVCP_PACKET_TYPE_ERROR: nat := 0x80
  const GVSP_PACKET_TYPE_PACKET_UNAVAILABLE: nat := 0x800c
  const GVSP_CONTENT_TYPE_DATA_BLOCK: nat := 3
  const HEADER_END: nat := 8             // packet and header structure
  const EXTENDED_HEADER_END: nat := 20   // packet and extended header structure

  predicate HeaderWhole(p: seq<byte>) {
    |p| >= HEADER_END && (p[4] >= 0x80 ==> |p| >= EXTENDED_HEADER_END)
  }

  /** Bytes with a whole header: a datagram as it was sent, or the receive buffer after
      one arrived.  The buffer always has packet_size bytes, of which a shorter
      datagram replaces only the first ones. */
  type Packet = p: seq<byte> | HeaderWhole(p) witness seq(HEADER_END, _ => 0)

  function Big(bs: seq<byte>): nat {
    if bs == [] then 0 else 256 * Big(bs[..|bs| - 1]) + bs[|bs| - 1] as nat
  }

  predicate HasExtendedIds(p: Packet) {
    p[4] >= 0x80
  }

  function ContentType(p: Packet): nat {
    p[4] as nat % 0x80
  }

  /** 16 bits in network order, or 64 bits as they are on a little-endian host. */
  function FrameId(p: Packet): nat {
    if HasExtendedIds(p) then Little(p[8..16]) else Big(p[2..4])
  }

  /** What the sender says of the packet. */
  function Status(p: Packet): nat {
    Big(p[0..2])
  }

  predicate IsError(p: Packet) {
    Status(p) == GVCP_PACKET_TYPE_ERROR
  }

  function HeaderLen(p: Packet): nat {
    if HasExtendedIds(p) then EXTENDED_HEADER_END else HEADER_END
  }

  /** gvsp_packet_get_data, for gvsp_packet_get_data_size bytes: everything behind
      the header. */
  function Data(p: Packet): seq<byte> {
    p[HeaderLen(p)..]
  }

  predicate IsBlock(p: Packet) {
    !IsError(p) && ContentType(p) == GVSP_CONTENT_TYPE_DATA_BLOCK
  }

  /** What a packet adds to the frame it belongs to. */
  function Block(p: Packet): seq<byte> {
    if IsBlock(p) then Data(p) else []
  }

  datatype Frame = Frame(id: nat, image: seq<byte>)

  // ------------------------------------------------- frames of a packet list

  function Blocks(ps: seq<Packet>): seq<byte> {
    if ps == [] then [] else Block(ps[0]) + Blocks(ps[1..])
  }

  /** How many packets at the beginning of ps have the frame id. */
  function Lead(id: nat, ps: seq<Packet>): (n: nat)
    ensures n <= |ps|
  {
    if ps == [] || FrameId(ps[0]) != id then 0 else 1 + Lead(id, ps[1..])
  }

  /** The length of the first group. */
  function Cut(ps: seq<Packet>): (n: nat)
    requires ps != []
    ensures 1 <= n <= |ps|
  {
    1 + Lead(FrameId(ps[0]), ps[1..])
  }

  /** ps cut wherever the frame id changes. */
  function Groups(ps: seq<Packet>): (gs: seq<seq<Packet>>)
    ensures forall i | 0 <= i < |gs| :: gs[i] != []
    ensures gs == [] <==> ps == []
  {
    if ps == [] then [] else [ps[..Cut(ps)]] + Groups(ps[Cut(ps)..])
  }

  function FramesOf(gs: seq<seq<Packet>>): (fs: seq<Frame>)
    requires forall i | 0 <= i < |gs| :: gs[i] != []
    ensures |fs| == |gs|
  {
    if gs == [] then [] else [Frame(FrameId(gs[0][0]), Blocks(gs[0]))] + FramesOf(gs[1..])
  }

  function Front<T>(xs: seq<T>): seq<T> {
    if xs == [] then [] else xs[..|xs| - 1]
  }

  /** The packets before the first with a frame id other than 0 belong to no frame;
      the last group is not finished. */
  function FramesIn(ps: seq<Packet>): seq<Frame> {
    FramesOf(Front(Groups(ps[Lead(0, ps)..])))
  }

  /** Every group fits the image buffer. */
  ghost predicate Fits(ps: seq<Packet>) {
    forall i :: 0 <= i < |Groups(ps)| ==> |Blocks(Groups(ps)[i])| <= MAX_FRAME_SIZE
  }

  // ------------------------------------------------------ the receive loop

  /** What arrives: nothing within a second, a packet of at most packet_size bytes,
      or an error of epoll or the socket. */
  datatype Arrival = Nothing | Datagram(bytes: seq<byte>) | Broken

  /** The successive contents of the receive buffer. */
  function Received(buffer: seq<byte>, arrivals: seq<Arrival>): (ps: seq<seq<byte>>)
    ensures forall i | 0 <= i < |ps| :: |ps[i]| == |buffer|
    decreases |arrivals|
  {
    if arrivals == [] || arrivals[0].Broken? then []
    else if arrivals[0].Datagram? && |arrivals[0].bytes| <= |buffer| then
      var b := arrivals[0].bytes + buffer[|arrivals[0].bytes|..];
      [b] + Received(b, arrivals[1..])
    else Received(buffer, arrivals[1..])
  }

  /** The frame being collected; last is 0 and nothing is collected at first. */
  datatype Grouping = Grouping(started: bool, last: nat, image: seq<byte>)

  const NO_FRAME: Grouping := Grouping(false, 0, [])

  function Next(g: Grouping, p: Packet): Grouping {
    if FrameId(p) != g.last then Grouping(true, FrameId(p), Block(p))
    else if g.started then g.(image := g.image + Block(p))
    else g
  }

  /** The frame that p ends. */
  function Ended(g: Grouping, p: Packet): seq<Frame> {
    if FrameId(p) != g.last && g.started then [Frame(g.last, g.image)] else []
  }

  function Emitted(g: Grouping, ps: seq<Packet>): seq<Frame>
    decreases |ps|
  {
    if ps == [] then [] else Ended(g, ps[0]) + Emitted(Next(g, ps[0]), ps[1..])
  }

  /** The loop never writes behind the image buffer. */
  predicate Bounded(g: Grouping, ps: seq<Packet>)
    decreases |ps|
  {
    ps == [] || (|Next(g, ps[0]).image| <= MAX_FRAME_SIZE && Bounded(Next(g, ps[0]), ps[1..]))
  }

  lemma EmittedNext(g: Grouping, ps: seq<Packet>, sent: seq<Frame>)
    requires ps != []
    ensures sent + Emitted(g, ps) == sent + Ended(g, ps[0]) + Emitted(Next(g, ps[0]), ps[1..])
    ensures Bounded(g, ps) <==> |Next(g, ps[0]).image| <= MAX_FRAME_SIZE && Bounded(Next(g, ps[0]), ps[1..])
  {
  }

  class Camera {
    const packet: array<byte>            // the receive buffer
    const buffer: array<byte>            // iframe.buffer
    var bufferSize: nat                  // iframe.buffer_size
    var started: bool
    var lastFrameId: nat
    var delivered: seq<Frame>            // calls of new_frame_action

    ghost predicate Valid()
      reads this
    {
      && packet != buffer && packet.Length >= EXTENDED_HEADER_END
      && buffer.Length == MAX_FRAME_SIZE && bufferSize <= buffer.Length
    }

    ghost function State(): Grouping
      requires Valid()
      reads this, buffer
    {
      Grouping(started, lastFrameId, buffer[..bufferSize])
    }

    constructor (packetSize: nat)
      requires packetSize >= EXTENDED_HEADER_END
      ensures Valid() && State() == NO_FRAME && delivered == []
      ensures packet.Length == packetSize && fresh(packet) && fresh(buffer)
    {
      packet := new byte[packetSize];
      buffer := new byte[MAX_FRAME_SIZE];
      bufferSize, started, lastFrameId, delivered := 0, false, 0, [];
    }

    /** The part of the loop body that works on the packet in the receive buffer.
        `over` is set instead of writing behind the image buffer. */
    method OnPacket() returns (over: bool)
      requires Valid() && (!started ==> bufferSize == 0)
      modifies this, buffer
      ensures Valid() && (!started ==> bufferSize == 0)
      ensures over <==> |Next(old(State()), packet[..]).image| > MAX_FRAME_SIZE
      ensures !over ==> State() == Next(old(State()), packet[..])
      ensures !over ==> delivered == old(delivered) + Ended(old(State()), packet[..])
    {
      over := false;
      var p: Packet := packet[..];
      var frameId := FrameId(p);
      if frameId != lastFrameId {
        if started {
          delivered := delivered + [Frame(lastFrameId, buffer[..bufferSize])];
        }
        bufferSize := 0;
        started := true;
        lastFrameId := frameId;
      }
      if started && IsBlock(p) {
        var data := Data(p);
        if bufferSize + |data| > MAX_FRAME_SIZE {
          over := true;
        } else {
          Fill(buffer, bufferSize, data);
          bufferSize := bufferSize + |data|;
        }
      }
    }

    method OnDatagram(bytes: seq<byte>) returns (over: bool)
      requires Valid() && (!started ==> bufferSize == 0) && |bytes| <= packet.Length
      modifies this, packet, buffer
      ensures Valid() && (!started ==> bufferSize == 0)
      ensures packet[..] == bytes + old(packet[..])[|bytes|..]
      ensures over <==> |Next(old(State()), packet[..]).image| > MAX_FRAME_SIZE
      ensures !over ==> State() == Next(old(State()), packet[..])
      ensures !over ==> delivered == old(delivered) + Ended(old(State()), packet[..])
    {
      ghost var stale := packet[..];
      Fill(packet, 0, bytes);
      assert packet[..] == bytes + stale[|bytes|..];
      over := OnPacket();
    }

    /** camera_gvsp_thread on what arrives. */
    method GvspThread(arrivals: seq<Arrival>) returns (over: bool)
      requires Valid() && State() == NO_FRAME
      requires forall i | 0 <= i < |arrivals| :: arrivals[i].Datagram? ==> |arrivals[i].bytes| <= packet.Length
      modifies this, packet, buffer
      ensures Valid()
      ensures var ps := Received(old(packet[..]), arrivals);
              && (over <==> !Bounded(NO_FRAME, ps))
              && (!over ==> delivered == old(delivered) + Emitted(NO_FRAME, ps))
    {
      var broken, k := false, 0;
      ghost var all, before := Received(packet[..], arrivals), delivered;
      ghost var ps: seq<Packet> := all;
      over := false;
      while k < |arrivals| && !over && !broken
        invariant 0 <= k <= |arrivals| && Valid() && (!started ==> bufferSize == 0)
        invariant ps == if broken then [] else Received(packet[..], arrivals[k..])
        invariant over ==> !Bounded(NO_FRAME, all)
        invariant !over ==> (Bounded(State(), ps) <==> Bounded(NO_FRAME, all))
        invariant !over ==> delivered + Emitted(State(), ps) == before + Emitted(NO_FRAME, all)
      {
        assert arrivals[k..][0] == arrivals[k] && arrivals[k..][1..] == arrivals[k + 1..];
        match arrivals[k] {
          case Nothing =>
          case Broken => broken := true;
          case Datagram(bytes) =>
            EmittedNext(State(), ps, delivered);
            over := OnDatagram(bytes);
            ps := ps[1..];
        }
        k := k + 1;
      }
    }
  }
}
