/** Frame ids of 64 bits are not converted from network order. */
module GvspIds {
  import opened Bytes
  import opened Gvsp

  function Reversed(bs: seq<byte>): (r: seq<byte>)
    ensures |r| == |bs|
  {
    if bs == [] then [] else Reversed(bs[1..]) + [bs[0]]
  }

  lemma {:induction false} BigIsLittleReversed(bs: seq<byte>)
    ensures Little(bs) == Big(Reversed(bs))
  {
    if bs != [] {
      BigIsLittleReversed(bs[1..]);
      assert Reversed(bs)[..|bs| - 1] == Reversed(bs[1..]);
    }
  }

  lemma {:induction false} BigIsInjective(a: seq<byte>, b: seq<byte>)
    requires |a| == |b|
    ensures Big(a) == Big(b) <==> a == b
  {
    if a != [] {
      var n := |a| - 1;
      BigIsInjective(a[..n], b[..n]);
      assert a == a[..n] + [a[n]] && b == b[..n] + [b[n]];
    }
  }

  /** An extended frame id is not converted from network order: the id delivered is
      the one on the wire exactly if its bytes read the same in both directions.
      Different ids stay different, so the grouping is not affected. */
  lemma ExtendedIdUnconverted(p: Packet, q: Packet)
    requires HasExtendedIds(p) && HasExtendedIds(q)
    ensures FrameId(p) == Big(p[8..16]) <==> Reversed(p[8..16]) == p[8..16]
    ensures FrameId(p) == FrameId(q) <==> Big(p[8..16]) == Big(q[8..16])
  {
    var a, b := p[8..16], q[8..16];
    BigIsLittleReversed(a);
    BigIsLittleReversed(b);
    BigIsInjective(Reversed(a), a);
    BigIsInjective(a, b);
    BigIsInjective(Reversed(a), Reversed(b));
    ReversedTwice(a);
    ReversedTwice(b);
  }

  lemma {:induction false} ReversedEnds(bs: seq<byte>, x: byte)
    ensures Reversed(bs + [x]) == [x] + Reversed(bs)
  {
    if bs == [] {
      assert [] + [x] == [x];
    } else {
      assert (bs + [x])[1..] == bs[1..] + [x];
      ReversedEnds(bs[1..], x);
    }
  }

  lemma {:induction false} ReversedTwice(bs: seq<byte>)
    ensures Reversed(Reversed(bs)) == bs
  {
    if bs != [] {
      ReversedTwice(bs[1..]);
      ReversedEnds(Reversed(bs[1..]), bs[0]);
    }
  }

  /** Id 2^56 on the wire is delivered as 1. */
  lemma IdReadBackwards(p: Packet)
    requires HasExtendedIds(p) && p[8..16] == [1, 0, 0, 0, 0, 0, 0, 0]
    ensures Big(p[8..16]) != FrameId(p) == 1
  {
    var bs := p[8..16];
    LittleOfZeros(7);
    assert bs[1..] == seq(7, _ => 0);
    assert Big(bs) == 256 * Big(bs[..7]) + 0;
  }

  lemma {:induction false} LittleOfZeros(n: nat)
    ensures Little(seq(n, _ => 0)) == 0
  {
    if n > 0 {
      assert seq(n, _ => 0 as byte)[1..] == seq(n - 1, _ => 0);
      LittleOfZeros(n - 1);
    }
  }
}
