/** Bytes, the little-endian encoding of C integers, and size_t subtraction. */
module Bytes {

  newtype byte = x: int | 0 <= x < 256

  const SIZE_T_LEN: nat := 8
  const INT_LEN: nat := 4
  const TWO_TO_32: nat := 0x1_0000_0000
  const TWO_TO_64: nat := 0x1_0000_0000_0000_0000

  /** The unsigned number whose little-endian encoding is bs. */
  function Little(bs: seq<byte>): nat {
    if bs == [] then 0 else bs[0] as nat + 256 * Little(bs[1..])
  }

  function Power256(n: nat): nat {
    if n == 0 then 1 else 256 * Power256(n - 1)
  }

  /** x in n bytes, least significant byte first. */
  function Encoded(x: nat, n: nat): (bs: seq<byte>)
    ensures |bs| == n
  {
    if n == 0 then [] else [(x % 256) as byte] + Encoded(x / 256, n - 1)
  }

  lemma {:induction false} DecodeEncoded(x: nat, n: nat)
    requires x < Power256(n)
    ensures Little(Encoded(x, n)) == x
  {
    if n > 0 {
      DecodeEncoded(x / 256, n - 1);
      assert Encoded(x, n)[1..] == Encoded(x / 256, n - 1);
    }
  }

  /** The least significant byte comes first. */
  lemma {:induction false} LeastFirst(x: nat, n: nat, i: nat)
    requires x < 256 && i < n
    ensures Encoded(x, n)[i] as nat == if i == 0 then x else 0
  {
    if i > 0 {
      assert x / 256 == 0;
      LeastFirst(0, n - 1, i - 1);
    }
  }

  lemma DecodeLength(x: nat)
    requires x < TWO_TO_64
    ensures Little(Encoded(x, SIZE_T_LEN)) == x
  {
    Powers();
    DecodeEncoded(x, SIZE_T_LEN);
  }

  /** Bytes that agree from `at` on agree in every slice from there. */
  lemma SliceOfTail(d: seq<byte>, r: seq<byte>, at: nat, lo: nat, hi: nat)
    requires |d| == |r| && at <= lo <= hi <= |d| && d[at..] == r[at..]
    ensures d[lo..hi] == r[lo..hi]
  {
    forall i | lo <= i < hi ensures d[i] == r[i] {
      assert d[i] == d[at..][i - at] && r[i] == r[at..][i - at];
    }
  }

  lemma Powers()
    ensures Power256(SIZE_T_LEN) == TWO_TO_64 && Power256(INT_LEN) == TWO_TO_32
  {
    assert Power256(4) == 256 * Power256(3) && Power256(3) == 256 * Power256(2) && Power256(2) == 256 * Power256(1);
    assert Power256(8) == 256 * Power256(7) && Power256(7) == 256 * Power256(6);
    assert Power256(6) == 256 * Power256(5) && Power256(5) == 256 * Power256(4);
  }

  /** a - b in size_t. */
  function Sub64(a: nat, b: nat): nat {
    (a - b) % TWO_TO_64
  }

  /** The int whose 32 bits are those of x. */
  function ToInt32(x: nat): int {
    if x < TWO_TO_32 / 2 then x else x - TWO_TO_32
  }

  function FromInt32(i: int): nat {
    i % TWO_TO_32
  }

  lemma Int32RoundTrip(i: int)
    requires -(TWO_TO_32 / 2) <= i < TWO_TO_32 / 2
    ensures FromInt32(i) < TWO_TO_32 && ToInt32(FromInt32(i)) == i
  {
  }

  function Joined(pieces: seq<seq<byte>>): seq<byte> {
    if pieces == [] then [] else pieces[0] + Joined(pieces[1..])
  }

  /** Store bytes in buffer from position `at` on. */
  method Fill(buffer: array<byte>, at: nat, bytes: seq<byte>)
    requires at + |bytes| <= buffer.Length
    modifies buffer
    ensures buffer[..at + |bytes|] == old(buffer[..at]) + bytes
    ensures buffer[at + |bytes|..] == old(buffer[at + |bytes|..])
  {
    forall j | 0 <= j < |bytes| {
      buffer[at + j] := bytes[j];
    }
    assert forall j | 0 <= j < |bytes| :: buffer[at + j] == bytes[j];
  }
}
