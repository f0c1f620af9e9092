/** The frames a TCP source delivers are those that were sent, however read() cuts
    the payloads, exactly as long as it does not cut a header. */
module TcpFrames {
  import opened Bytes
  import opened TcpReassembly

  /** What a sender puts on the wire for one frame. */
  datatype Record = Record(id: int, padding: seq<byte>, payload: seq<byte>)

  ghost predicate WellFormed(l: Layout, rec: Record) {
    && l.Valid()
    && -(TWO_TO_32 / 2) <= rec.id < TWO_TO_32 / 2
    && |rec.padding| == l.headerLen - SIZE_T_LEN - INT_LEN
    && |rec.payload| == l.dataLen
  }

  function Header(l: Layout, rec: Record): seq<byte> {
    Encoded(l.headerLen + l.dataLen, SIZE_T_LEN) + Encoded(FromInt32(rec.id), INT_LEN) + rec.padding
  }

  function Wire(l: Layout, recs: seq<Record>): seq<byte> {
    if recs == [] then [] else Header(l, recs[0]) + recs[0].payload + Wire(l, recs[1..])
  }

  /** The bytes that arrived before the first failure. */
  function Arrived(results: seq<ReadResult>): seq<byte> {
    if results == [] || results[0].Failed? then [] else results[0].bytes + Arrived(results[1..])
  }

  /** The frames whose last byte is among the first n bytes of the wire. */
  function Complete(l: Layout, recs: seq<Record>, n: nat): seq<Frame> {
    if recs == [] || n < l.headerLen + l.dataLen then []
    else [Frame(recs[0].id, recs[0].payload)] + Complete(l, recs[1..], n - l.headerLen - l.dataLen)
  }

  /** No read() returns a part of a header. */
  ghost predicate HeadersWhole(l: Layout, r: Receiver, results: seq<ReadResult>)
    requires l.Valid()
    decreases |results|
  {
    results != [] && !r.failed && !r.over ==>
      && (!r.headerOk && results[0].Got? && results[0].bytes != [] ==> |results[0].bytes| == l.headerLen)
      && HeadersWhole(l, Turn(l, r, results[0]), results[1..])
  }

  lemma HeaderFields(l: Layout, rec: Record)
    requires WellFormed(l, rec)
    ensures var h := Header(l, rec);
            |h| == l.headerLen && SizeField(h) == l.headerLen + l.dataLen && IdField(h) == rec.id
  {
    var h := Header(l, rec);
    Powers();
    assert h[..SIZE_T_LEN] == Encoded(l.headerLen + l.dataLen, SIZE_T_LEN);
    assert h[SIZE_T_LEN..SIZE_T_LEN + INT_LEN] == Encoded(FromInt32(rec.id), INT_LEN);
    Int32RoundTrip(rec.id);
    DecodeEncoded(l.headerLen + l.dataLen, SIZE_T_LEN);
    DecodeEncoded(FromInt32(rec.id), INT_LEN);
  }

  /** The receiver is at the beginning of recs, or inside the payload of recs[0]
      and asks for exactly what is missing of it. */
  ghost predicate Aligned(l: Layout, r: Receiver, recs: seq<Record>) {
    && !r.failed && !r.over
    && (forall i | 0 <= i < |recs| :: WellFormed(l, recs[i]))
    && if r.headerOk then
         && recs != [] && r.id == recs[0].id && r.part <= recs[0].payload
         && |r.part| < l.dataLen && r.remaining == l.dataLen - |r.part|
       else
         r.part == [] && r.remaining == l.headerLen
  }

  /** What of the wire is still to come. */
  function Coming(l: Layout, r: Receiver, recs: seq<Record>): seq<byte>
    requires r.headerOk ==> recs != [] && |r.part| <= |recs[0].payload|
  {
    if r.headerOk then recs[0].payload[|r.part|..] + Wire(l, recs[1..]) else Wire(l, recs)
  }

  /** How many bytes of recs have been used. */
  function Used(l: Layout, r: Receiver): nat {
    if r.headerOk then l.headerLen + |r.part| else 0
  }

  /** A read that completes a header. */
  lemma StoreHeader(l: Layout, r: Receiver, rec: Record, bs: seq<byte>)
    requires WellFormed(l, rec) && !r.headerOk && r.part + bs == Header(l, rec)
    ensures Store(l, r, bs) ==
              if l.dataLen > 0 then
                r.(headerOk := true, part := [], id := rec.id, remaining := l.headerLen + l.dataLen - |bs|)
              else
                Deliver(l, r.(headerOk := true, part := [], id := rec.id), [])
  {
    HeaderFields(l, rec);
  }

  lemma WireParts(l: Layout, recs: seq<Record>, n: nat)
    requires recs != [] && WellFormed(l, recs[0]) && n == l.headerLen
    ensures Wire(l, recs) == Header(l, recs[0]) + (recs[0].payload + Wire(l, recs[1..]))
    ensures n <= |Wire(l, recs)| && Wire(l, recs)[..n] == Header(l, recs[0])
  {
    HeaderFields(l, recs[0]);
  }

  /** A read that returns the header of the next record. */
  lemma HeaderRead(l: Layout, r: Receiver, recs: seq<Record>, bs: seq<byte>)
    requires l.Valid() && Aligned(l, r, recs) && !r.headerOk
    requires |bs| == l.headerLen && bs <= Coming(l, r, recs)
    ensures recs != []
    ensures var q := Store(l, r, bs);
            if l.dataLen > 0 then
              && Aligned(l, q, recs) && q.headerOk && q.part == [] && q.frames == r.frames
              && Coming(l, r, recs) == bs + Coming(l, q, recs)
            else
              && Aligned(l, q, recs[1..]) && !q.headerOk
              && q.frames == r.frames + [Frame(recs[0].id, recs[0].payload)]
              && Coming(l, r, recs) == bs + Coming(l, q, recs[1..])
  {
    WireParts(l, recs, |bs|);
    assert r.part + bs == bs;
    StoreHeader(l, r, recs[0], bs);
    if l.dataLen > 0 {
      assert recs[0].payload[0..] == recs[0].payload;
    } else {
      assert recs[0].payload == [];
      assert recs[0].payload + Wire(l, recs[1..]) == Wire(l, recs[1..]);
    }
  }

  lemma PayloadParts(payload: seq<byte>, part: seq<byte>, bs: seq<byte>, rest: seq<byte>)
    requires part <= payload && |part| + |bs| <= |payload| && bs <= payload[|part|..] + rest
    ensures var n := |part| + |bs|;
            && part + bs == payload[..n]
            && payload[|part|..] + rest == bs + (payload[n..] + rest)
            && (n == |payload| ==> payload[..n] == payload && payload[n..] + rest == rest)
  {
    var n := |part| + |bs|;
    assert bs == payload[|part|..n];
    assert payload[|part|..] == bs + payload[n..];
  }

  /** A read that returns more of a payload. */
  lemma PayloadRead(l: Layout, r: Receiver, recs: seq<Record>, bs: seq<byte>)
    requires l.Valid() && Aligned(l, r, recs) && r.headerOk
    requires |bs| <= r.remaining && bs <= Coming(l, r, recs)
    ensures var q := Store(l, r, bs);
            if |r.part| + |bs| < l.dataLen then
              && Aligned(l, q, recs) && q.headerOk && |q.part| == |r.part| + |bs| && q.frames == r.frames
              && Coming(l, r, recs) == bs + Coming(l, q, recs)
            else
              && Aligned(l, q, recs[1..]) && !q.headerOk && |r.part| + |bs| == l.dataLen
              && q.frames == r.frames + [Frame(recs[0].id, recs[0].payload)]
              && Coming(l, r, recs) == bs + Coming(l, q, recs[1..])
  {
    var payload, n := recs[0].payload, |r.part| + |bs|;
    PayloadParts(payload, r.part, bs, Wire(l, recs[1..]));
  }

  /** A read that returns nothing changes nothing, another one stores its bytes. */
  lemma AlignedTurn(l: Layout, r: Receiver, recs: seq<Record>, bs: seq<byte>)
    requires l.Valid() && Aligned(l, r, recs)
    ensures Turn(l, r, Got(bs)) == if bs == [] then r else Store(l, r, bs)
    ensures Asked(l, r) == r.remaining
  {
    assert r.(remaining := r.remaining) == r;
  }

  lemma AlignedRead(l: Layout, r: Receiver, recs: seq<Record>, bs: seq<byte>) returns (done: bool)
    requires l.Valid() && Aligned(l, r, recs) && bs <= Coming(l, r, recs)
    requires |bs| <= r.remaining && (!r.headerOk ==> |bs| == l.headerLen)
    ensures recs != [] && var q := Store(l, r, bs); var todo := if done then recs[1..] else recs;
            && Aligned(l, q, todo) && Coming(l, r, recs) == bs + Coming(l, q, todo)
            && q.frames == (if done then r.frames + [Frame(recs[0].id, recs[0].payload)] else r.frames)
            && Used(l, r) + |bs| == (if done then l.headerLen + l.dataLen else Used(l, q))
            && (done ==> Used(l, q) == 0)
  {
    if r.headerOk {
      PayloadRead(l, r, recs, bs);
    } else {
      HeaderRead(l, r, recs, bs);
    }
    done := !Store(l, r, bs).headerOk;
  }

  lemma NextComplete(l: Layout, recs: seq<Record>, frames: seq<Frame>, n: nat)
    requires recs != []
    ensures frames + Complete(l, recs, l.headerLen + l.dataLen + n)
         == frames + [Frame(recs[0].id, recs[0].payload)] + Complete(l, recs[1..], n)
  {
    assert Complete(l, recs, l.headerLen + l.dataLen + n)
        == [Frame(recs[0].id, recs[0].payload)] + Complete(l, recs[1..], n);
  }

  lemma AlignedBytes(l: Layout, r: Receiver, recs: seq<Record>, bs: seq<byte>, rest: seq<byte>)
    returns (todo: seq<Record>)
    requires l.Valid() && Aligned(l, r, recs) && |bs| <= r.remaining
    requires (!r.headerOk ==> |bs| == l.headerLen) && bs + rest <= Coming(l, r, recs)
    ensures var q := Store(l, r, bs);
            && Aligned(l, q, todo) && rest <= Coming(l, q, todo)
            && r.frames + Complete(l, recs, Used(l, r) + |bs| + |rest|)
               == q.frames + Complete(l, todo, Used(l, q) + |rest|)
  {
    assert bs <= Coming(l, r, recs);
    var done := AlignedRead(l, r, recs, bs);
    todo := if done then recs[1..] else recs;
    PrefixCancel(bs, rest, Coming(l, Store(l, r, bs), todo));
    if done {
      NextComplete(l, recs, r.frames, |rest|);
    }
  }

  /** With n more bytes of recs, `due` is what has been delivered. */
  ghost predicate Owes(l: Layout, r: Receiver, recs: seq<Record>, n: nat, due: seq<Frame>) {
    due == r.frames + Complete(l, recs, Used(l, r) + n)
  }

  /** One turn of the loop: what is delivered by it and what is to come add up. */
  lemma AlignedStep(l: Layout, r: Receiver, q: Receiver, recs: seq<Record>,
                    bs: seq<byte>, rest: seq<byte>, all: seq<byte>, due: seq<Frame>)
    returns (todo: seq<Record>)
    requires l.Valid() && Aligned(l, r, recs) && |bs| <= r.remaining
    requires !r.headerOk && bs != [] ==> |bs| == l.headerLen
    requires all == bs + rest && all <= Coming(l, r, recs)
    requires q == if bs == [] then r else Store(l, r, bs)
    requires Owes(l, r, recs, |all|, due)
    ensures Aligned(l, q, todo) && rest <= Coming(l, q, todo)
    ensures Owes(l, q, todo, |rest|, due)
  {
    if bs == [] {
      assert bs + rest == rest;
      todo := recs;
    } else {
      todo := AlignedBytes(l, r, recs, bs, rest);
    }
  }

  lemma AlignedEnd(l: Layout, r: Receiver, recs: seq<Record>, results: seq<ReadResult>)
    requires l.Valid() && Aligned(l, r, recs) && (results == [] || results[0].Failed?)
    ensures !Run(l, r, results).over && Run(l, r, results).frames == r.frames
    ensures r.frames + Complete(l, recs, Used(l, r) + |Arrived(results)|) == r.frames
  {
    assert Arrived(results) == [] && Complete(l, recs, Used(l, r)) == [];
    if results != [] {
      assert Run(l, r, results) == Run(l, Turn(l, r, results[0]), results[1..]) == Turn(l, r, results[0]);
    }
  }

  lemma FirstRead(l: Layout, r: Receiver, recs: seq<Record>, results: seq<ReadResult>) returns (q: Receiver)
    requires l.Valid() && Aligned(l, r, recs) && results != [] && results[0].Got?
    requires Admissible(l, r, results) && HeadersWhole(l, r, results)
    ensures var bs, rest := results[0].bytes, results[1..];
            && q == (if bs == [] then r else Store(l, r, bs))
            && Arrived(results) == bs + Arrived(rest) && Run(l, r, results) == Run(l, q, rest)
            && Admissible(l, q, rest) && HeadersWhole(l, q, rest)
            && |bs| <= r.remaining && (!r.headerOk && bs != [] ==> |bs| == l.headerLen)
  {
    AlignedTurn(l, r, recs, results[0].bytes);
    q := Turn(l, r, results[0]);
  }

  lemma AlignedFirst(l: Layout, r: Receiver, recs: seq<Record>, bs: seq<byte>, rest: seq<ReadResult>,
                     end: Receiver, due: seq<Frame>)
    returns (q: Receiver, todo: seq<Record>)
    requires var results := [Got(bs)] + rest;
             && l.Valid() && Aligned(l, r, recs) && Admissible(l, r, results) && HeadersWhole(l, r, results)
             && Arrived(results) <= Coming(l, r, recs) && end == Run(l, r, results)
             && Owes(l, r, recs, |Arrived(results)|, due)
    ensures Aligned(l, q, todo) && Admissible(l, q, rest) && HeadersWhole(l, q, rest)
    ensures Arrived(rest) <= Coming(l, q, todo) && end == Run(l, q, rest)
    ensures Owes(l, q, todo, |Arrived(rest)|, due)
  {
    var results := [Got(bs)] + rest;
    assert results[1..] == rest;
    q := FirstRead(l, r, recs, results);
    todo := AlignedStep(l, r, q, recs, bs, Arrived(rest), Arrived(results), due);
  }

  /** `end` is the receiver at the end, `due` what has been delivered then. */
  lemma {:induction false} AlignedRun(l: Layout, r: Receiver, recs: seq<Record>, results: seq<ReadResult>,
                                      end: Receiver, due: seq<Frame>)
    requires l.Valid() && Aligned(l, r, recs)
    requires Admissible(l, r, results) && HeadersWhole(l, r, results)
    requires Arrived(results) <= Coming(l, r, recs)
    requires end == Run(l, r, results)
    requires Owes(l, r, recs, |Arrived(results)|, due)
    ensures !end.over && end.frames == due
    decreases |results|
  {
    if results == [] || results[0].Failed? {
      AlignedEnd(l, r, recs, results);
    } else {
      var bs, rest := results[0].bytes, results[1..];
      assert results == [Got(bs)] + rest;
      var q, todo := AlignedFirst(l, r, recs, bs, rest, end, due);
      AlignedRun(l, q, todo, rest, end, due);
    }
  }

  lemma PrefixCancel(a: seq<byte>, b: seq<byte>, c: seq<byte>)
    requires a + b <= a + c
    ensures b <= c
  {
    assert (a + b)[|a|..] == b && (a + c)[|a|..] == c;
    assert forall i | 0 <= i < |b| :: b[i] == (a + b)[|a| + i] == (a + c)[|a| + i] == c[i];
  }

  lemma FreshAligned(l: Layout, recs: seq<Record>)
    requires l.Valid() && forall i | 0 <= i < |recs| :: WellFormed(l, recs[i])
    ensures var r := Fresh(l); Aligned(l, r, recs) && Coming(l, r, recs) == Wire(l, recs) && Used(l, r) == 0
  {
  }

  /** For every list of well-formed records and every way read() cuts their payloads,
      reads of nothing included: if no header is cut, nothing is stored outside the
      buffers, and the frames delivered are those of the records that arrived
      completely, in order. */
  lemma {:induction false} StreamReassembled(l: Layout, recs: seq<Record>, results: seq<ReadResult>)
    requires l.Valid() && forall i | 0 <= i < |recs| :: WellFormed(l, recs[i])
    requires Admissible(l, Fresh(l), results) && HeadersWhole(l, Fresh(l), results)
    requires Arrived(results) <= Wire(l, recs)
    ensures !Run(l, Fresh(l), results).over
    ensures Run(l, Fresh(l), results).frames == Complete(l, recs, |Arrived(results)|)
  {
    FreshAligned(l, recs);
    var due := Complete(l, recs, |Arrived(results)|);
    assert [] + due == due;
    AlignedRun(l, Fresh(l), recs, results, Run(l, Fresh(l), results), due);
  }

  /** Once everything has arrived every record has been delivered, in order. */
  lemma {:induction false} WholeWire(l: Layout, recs: seq<Record>)
    requires l.Valid() && forall i | 0 <= i < |recs| :: WellFormed(l, recs[i])
    ensures Complete(l, recs, |Wire(l, recs)|)
         == seq(|recs|, i requires 0 <= i < |recs| => Frame(recs[i].id, recs[i].payload))
  {
    if recs != [] {
      HeaderFields(l, recs[0]);
      WholeWire(l, recs[1..]);
    }
  }

  // ------------------------------------------------------- a header in pieces

  function Pieces(pieces: seq<seq<byte>>): seq<ReadResult> {
    seq(|pieces|, i requires 0 <= i < |pieces| => Got(pieces[i]))
  }

  /** A read that returns less than what is missing of a header. */
  lemma StorePart(l: Layout, r: Receiver, bs: seq<byte>)
    requires l.Valid() && !r.failed && !r.over && !r.headerOk && bs != []
    requires |r.part| + |bs| < l.headerLen && r.remaining == l.headerLen - |r.part|
    ensures Turn(l, r, Got(bs)) == r.(part := r.part + bs, remaining := r.remaining - |bs|)
  {
  }

  /** A read that returns what is missing of a header. */
  lemma StoreRest(l: Layout, r: Receiver, rec: Record, bs: seq<byte>)
    requires WellFormed(l, rec) && !r.failed && !r.over && !r.headerOk && bs != [] && l.dataLen > 0
    requires |r.part| < l.headerLen && r.remaining == l.headerLen - |r.part| && r.part + bs == Header(l, rec)
    ensures Turn(l, r, Got(bs)) == r.(headerOk := true, part := [], id := rec.id,
                                      remaining := l.headerLen - |bs| + l.dataLen)
  {
    assert r.(remaining := Asked(l, r)) == r;
    StoreHeader(l, r, rec, bs);
  }

  lemma PieceParts(part: seq<byte>, pieces: seq<seq<byte>>)
    requires pieces != [] && forall i | 0 <= i < |pieces| :: pieces[i] != []
    ensures part + pieces[0] + Joined(pieces[1..]) == part + Joined(pieces)
    ensures if |pieces| == 1 then part + pieces[0] == part + Joined(pieces)
            else |part| + |pieces[0]| < |part + Joined(pieces)|
  {
    var rest := pieces[1..];
    assert Joined(pieces) == pieces[0] + Joined(rest);
    if rest != [] {
      assert Joined(rest) == rest[0] + Joined(rest[1..]);
    }
  }

  lemma FirstPiece(l: Layout, r: Receiver, pieces: seq<seq<byte>>)
    requires l.Valid() && pieces != [] && !r.failed && !r.over
    ensures Run(l, r, Pieces(pieces)) == Run(l, Turn(l, r, Got(pieces[0])), Pieces(pieces[1..]))
  {
    assert Pieces(pieces)[1..] == Pieces(pieces[1..]);
  }

  /** After a header the receiver asks for as much more than the payload as the last
      piece of the header was shorter than the header. */
  lemma {:induction false} HeaderInPieces(l: Layout, r: Receiver, rec: Record, pieces: seq<seq<byte>>)
    requires WellFormed(l, rec) && pieces != [] && forall i | 0 <= i < |pieces| :: pieces[i] != []
    requires !r.failed && !r.over && !r.headerOk && |r.part| < l.headerLen && r.remaining == l.headerLen - |r.part|
    requires r.part + Joined(pieces) == Header(l, rec) && l.dataLen > 0
    ensures var last := |pieces[|pieces| - 1]|;
            && last <= l.headerLen
            && Run(l, r, Pieces(pieces)) == r.(headerOk := true, part := [], id := rec.id,
                                               remaining := l.headerLen - last + l.dataLen)
    decreases |pieces|
  {
    var bs, rest := pieces[0], pieces[1..];
    FirstPiece(l, r, pieces);
    PieceParts(r.part, pieces);
    HeaderFields(l, rec);
    if rest == [] {
      StoreRest(l, r, rec, bs);
    } else {
      StorePart(l, r, bs);
      HeaderInPieces(l, Turn(l, r, Got(bs)), rec, rest);
    }
  }

  lemma {:induction false} FramesOnlyGrow(l: Layout, r: Receiver, results: seq<ReadResult>)
    requires l.Valid()
    ensures r.frames <= Run(l, r, results).frames
    decreases |results|
  {
    if results != [] && !r.failed && !r.over {
      FramesOnlyGrow(l, Turn(l, r, results[0]), results[1..]);
    }
  }

  lemma {:induction false} PayloadDelivered(l: Layout, r: Receiver, payload: seq<byte>, results: seq<ReadResult>)
    requires l.Valid() && |payload| == l.dataLen && !r.failed && !r.over && r.headerOk
    requires r.part <= payload && |r.part| < l.dataLen && r.remaining == l.dataLen - |r.part|
    requires Admissible(l, r, results) && payload[|r.part|..] <= Arrived(results)
    ensures r.frames + [Frame(r.id, payload)] <= Run(l, r, results).frames
    decreases |results|
  {
    var bs, rest := results[0].bytes, results[1..];
    var q := Turn(l, r, results[0]);
    var missing := payload[|r.part|..];
    assert r.(remaining := Asked(l, r)) == r;
    assert Arrived(results) == bs + Arrived(rest);
    assert bs == missing[..|bs|];
    assert r.part + bs == payload[..|r.part| + |bs|];
    if |r.part| + |bs| == l.dataLen {
      assert r.part + bs == payload;
      FramesOnlyGrow(l, q, rest);
    } else {
      assert missing == bs + payload[|r.part| + |bs|..];
      PrefixCancel(bs, payload[|r.part| + |bs|..], Arrived(rest));
      if bs == [] {
        assert q == r;
      }
      PayloadDelivered(l, q, payload, rest);
    }
  }

  /** Whatever read() does with the payload and what follows it, the frame is the
      first to be delivered. */
  ghost predicate SurelyDelivered(l: Layout, r: Receiver, rec: Record)
    requires l.Valid()
  {
    forall results :: Admissible(l, r, results) && rec.payload <= Arrived(results) ==>
                        r.frames + [Frame(rec.id, rec.payload)] <= Run(l, r, results).frames
  }

  /** A header that arrives in several pieces can cost the frame, one that arrives in
      one piece cannot. */
  lemma DeliveredIffHeaderWhole(l: Layout, rec: Record, pieces: seq<seq<byte>>)
    requires WellFormed(l, rec) && l.dataLen > 0
    requires pieces != [] && (forall i | 0 <= i < |pieces| :: pieces[i] != []) && Joined(pieces) == Header(l, rec)
    ensures SurelyDelivered(l, Run(l, Fresh(l), Pieces(pieces)), rec) <==> |pieces| == 1
  {
    var r := Run(l, Fresh(l), Pieces(pieces));
    HeaderFields(l, rec);
    assert [] + Joined(pieces) == Joined(pieces);
    HeaderInPieces(l, Fresh(l), rec, pieces);
    LastPiece(pieces);
    if |pieces| == 1 {
      forall results | Admissible(l, r, results) && rec.payload <= Arrived(results)
        ensures r.frames + [Frame(rec.id, rec.payload)] <= Run(l, r, results).frames
      {
        assert rec.payload[0..] == rec.payload;
        PayloadDelivered(l, r, rec.payload, results);
      }
    } else {
      var tooMuch := rec.payload + [0];
      var results := [Got(tooMuch)];
      var q := Turn(l, r, results[0]);
      assert [] + tooMuch == tooMuch;
      assert q.over && results[1..] == [];
      assert Arrived(results) == tooMuch + Arrived(results[1..]) == tooMuch;
      assert Run(l, r, results) == Run(l, q, []) == q;
      assert Admissible(l, r, results);
    }
  }

  lemma {:induction false} LastPiece(pieces: seq<seq<byte>>)
    requires pieces != [] && forall i | 0 <= i < |pieces| :: pieces[i] != []
    ensures |pieces[|pieces| - 1]| <= |Joined(pieces)|
    ensures |pieces[|pieces| - 1]| == |Joined(pieces)| <==> |pieces| == 1
    decreases |pieces|
  {
    if |pieces| > 1 {
      LastPiece(pieces[1..]);
    } else {
      assert Joined(pieces[1..]) == [];
    }
  }
}
