/** The packets a camera sends, built from the values it means: AIA GigE Vision
    Specification 2.0, GVSP header formats. */
module GvspWire {
  import opened Bytes
  import opened Gvsp

  /** x in n bytes in network order: most significant byte first. */
  function Network(x: nat, n: nat): (bs: seq<byte>)
    ensures |bs| == n
  {
    if n == 0 then [] else Network(x / 256, n - 1) + [(x % 256) as byte]
  }

  /** x with its n bytes in reverse order. */
  function Swapped(x: nat, n: nat): nat {
    if n == 0 then 0 else x % 256 * Power256(n - 1) + Swapped(x / 256, n - 1)
  }

  /** What a camera means by a packet: with a 16-bit frame id, or with a 64-bit one. */
  datatype Outgoing =
    | Standard(status: nat, id: nat, content: nat, number: nat, payload: seq<byte>)
    | Extended(status: nat, flags: nat, content: nat, reserved: nat, id: nat, number: nat, payload: seq<byte>)
  {
    predicate Valid() {
      && status < 0x1_0000 && content < 0x80
      && match this
         case Standard(_, id, _, number, _) => id < 0x1_0000 && number < 0x100_0000
         case Extended(_, flags, _, reserved, id, number, _) =>
           flags < 0x1_0000 && reserved < 0x100_0000 && id < TWO_TO_64 && number < TWO_TO_32
    }

    function Wire(): (p: seq<byte>)
      requires Valid()
      ensures HeaderWhole(p)
    {
      match this
      case Standard(status, id, content, number, payload) =>
        Network(status, 2) + Network(id, 2) + Network(content, 1) + Network(number, 3) + payload
      case Extended(status, flags, content, reserved, id, number, payload) =>
        Network(status, 2) + Network(flags, 2) + Network(0x80 + content, 1) + Network(reserved, 3)
        + Network(id, 8) + Network(number, 4) + payload
    }

    /** Image data that is not marked as an error. */
    predicate CarriesImage() {
      status != 0x80 && content == 3
    }

    /** The frame id as the receiver sees it. */
    function SeenId(): nat {
      if Extended? then Swapped(id, 8) else id
    }
  }

  lemma {:induction false} NetworkReadBack(x: nat, n: nat)
    requires x < Power256(n)
    ensures Big(Network(x, n)) == x
  {
    if n > 0 {
      NetworkReadBack(x / 256, n - 1);
      assert Network(x, n)[..n - 1] == Network(x / 256, n - 1);
    }
  }

  lemma {:induction false} LittleOfLast(bs: seq<byte>, b: byte)
    ensures Little(bs + [b]) == Little(bs) + Power256(|bs|) * b as nat
  {
    if bs == [] {
      assert [] + [b] == [b];
      assert [b][1..] == [];
    } else {
      LittleOfLast(bs[1..], b);
      assert (bs + [b])[1..] == bs[1..] + [b];
    }
  }

  lemma {:induction false} NetworkUnconverted(x: nat, n: nat)
    ensures Little(Network(x, n)) == Swapped(x, n)
  {
    if n > 0 {
      NetworkUnconverted(x / 256, n - 1);
      LittleOfLast(Network(x / 256, n - 1), (x % 256) as byte);
    }
  }

  lemma SmallPowers()
    ensures Power256(1) == 0x100 && Power256(2) == 0x1_0000 && Power256(3) == 0x100_0000
  {
  }

  /** What is read from the packet of a sent value. */
  ghost predicate ReadsAs(p: seq<byte>, x: Outgoing) {
    && HeaderWhole(p) && (HasExtendedIds(p) <==> x.Extended?)
    && Status(p) == x.status && FrameId(p) == x.SeenId() && ContentType(p) == x.content
    && Data(p) == x.payload && (IsError(p) <==> x.status == 0x80)
  }

  lemma StandardReadBack(x: Outgoing)
    requires x.Valid() && x.Standard?
    ensures ReadsAs(x.Wire(), x)
  {
    var p := x.Wire();
    SmallPowers();
    NetworkReadBack(x.status, 2);
    NetworkReadBack(x.id, 2);
    assert p[0..2] == Network(x.status, 2) && p[2..4] == Network(x.id, 2) && p[8..] == x.payload;
    assert p[4] == Network(x.content, 1)[0] == x.content as byte;
  }

  lemma ExtendedReadBack(x: Outgoing)
    requires x.Valid() && x.Extended?
    ensures ReadsAs(x.Wire(), x)
  {
    var p := x.Wire();
    SmallPowers();
    NetworkReadBack(x.status, 2);
    NetworkUnconverted(x.id, 8);
    assert p[0..2] == Network(x.status, 2) && p[8..16] == Network(x.id, 8) && p[20..] == x.payload;
    assert p[4] == Network(0x80 + x.content, 1)[0] == (0x80 + x.content) as byte;
  }

  /** Status, content type and payload are read as they were sent, a 16-bit frame id
      too, and a 64-bit one with its bytes in reverse order; the packet is an error
      exactly if its status is 0x80. */
  lemma FieldsReadBack(x: Outgoing)
    requires x.Valid()
    ensures ReadsAs(x.Wire(), x)
  {
    if x.Standard? {
      StandardReadBack(x);
    } else {
      ExtendedReadBack(x);
    }
  }

  lemma {:induction false} SwappedBelow(x: nat, n: nat)
    ensures Swapped(x, n) < Power256(n)
  {
    if n > 0 {
      SwappedBelow(x / 256, n - 1);
      BelowProduct(x % 256, 256, Swapped(x / 256, n - 1), Power256(n - 1));
    }
  }

  lemma BelowProduct(a: nat, b: nat, r: nat, d: nat)
    requires a < b && r < d
    ensures a * d + r < b * d
  {
    assert (b - a - 1) * d >= 0;
    assert b * d == a * d + d + (b - a - 1) * d;
  }

  lemma DigitsAgree(a: nat, b: nat, r: nat, s: nat, d: nat)
    requires a * d + r == b * d + s && r < d && s < d
    ensures a == b && r == s
  {
    if a < b {
      BelowProduct(a, b, r, d);
    } else if b < a {
      BelowProduct(b, a, s, d);
    }
  }

  /** Different ids are seen as different ids. */
  lemma {:induction false} SwappedApart(x: nat, y: nat, n: nat)
    requires x < Power256(n) && y < Power256(n) && Swapped(x, n) == Swapped(y, n)
    ensures x == y
  {
    if n > 0 {
      SwappedBelow(x / 256, n - 1);
      SwappedBelow(y / 256, n - 1);
      DigitsAgree(x % 256, y % 256, Swapped(x / 256, n - 1), Swapped(y / 256, n - 1), Power256(n - 1));
      SwappedApart(x / 256, y / 256, n - 1);
    }
  }

  lemma {:induction false} SwappedZero(n: nat)
    ensures Swapped(0, n) == 0
  {
    if n > 0 {
      SwappedZero(n - 1);
    }
  }

  /** Ids of one kind are the same where they are seen as the same. */
  lemma SeenApart(x: Outgoing, y: Outgoing)
    requires x.Valid() && y.Valid() && (x.Extended? <==> y.Extended?)
    ensures x.SeenId() == y.SeenId() <==> x.id == y.id
    ensures x.SeenId() == 0 <==> x.id == 0
  {
    Powers();
    SwappedZero(8);
    if x.Extended? {
      if x.SeenId() == y.SeenId() {
        SwappedApart(x.id, y.id, 8);
      }
      if x.SeenId() == 0 {
        SwappedApart(x.id, 0, 8);
      }
    }
  }
}
