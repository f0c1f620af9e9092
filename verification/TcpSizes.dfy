/** What the size field of a TCP header does: the loop asks for as much as it says, and a
    frame is sure to be delivered exactly for certain sizes. */
module TcpSizes {
  import opened Bytes
  import opened TcpReassembly
  import opened TcpFrames
  import opened Spans

  lemma StoreAnyRest(l: Layout, r: Receiver, h: seq<byte>, bs: seq<byte>)
    requires l.Valid() && !r.failed && !r.over && !r.headerOk && bs != [] && l.dataLen > 0 && |h| == l.headerLen
    requires |r.part| < l.headerLen && r.remaining == l.headerLen - |r.part| && r.part + bs == h
    ensures Turn(l, r, Got(bs)) == r.(headerOk := true, part := [], id := IdField(h),
                                      remaining := Sub64(SizeField(h), |bs|))
  {
    assert r.(remaining := Asked(l, r)) == r;
  }

  /** After a header, in however many pieces, the receiver has its id and asks for the
      size in it minus the length of the last piece, in size_t. */
  lemma {:induction false} AnyHeaderInPieces(l: Layout, r: Receiver, h: seq<byte>, pieces: seq<seq<byte>>)
    requires l.Valid() && l.dataLen > 0 && |h| == l.headerLen
    requires pieces != [] && forall i | 0 <= i < |pieces| :: pieces[i] != []
    requires !r.failed && !r.over && !r.headerOk && |r.part| < l.headerLen && r.remaining == l.headerLen - |r.part|
    requires r.part + Joined(pieces) == h
    ensures Run(l, r, Pieces(pieces)) == r.(headerOk := true, part := [], id := IdField(h),
                                            remaining := Sub64(SizeField(h), |pieces[|pieces| - 1]|))
    decreases |pieces|
  {
    var bs, rest := pieces[0], pieces[1..];
    FirstPiece(l, r, pieces);
    PieceParts(r.part, pieces);
    if rest == [] {
      StoreAnyRest(l, r, h, bs);
    } else {
      StorePart(l, r, bs);
      AnyHeaderInPieces(l, Turn(l, r, Got(bs)), h, rest);
    }
  }

  /** A receiver in the middle of a payload. */
  ghost predicate Inside(l: Layout, r: Receiver, payload: seq<byte>) {
    && l.Valid() && !r.failed && !r.over && r.headerOk
    && |payload| == l.dataLen && r.part <= payload && |r.part| < l.dataLen
  }

  /** What is missing of the payload is what is asked for and then a whole number of
      headers. */
  ghost predicate Meets(l: Layout, gap: nat, asked: nat) {
    exists j: nat :: asked + Span(l.headerLen, j) == gap
  }

  /** What is missing when all that was asked for has come: a header is asked for next. */
  lemma AskedNext(l: Layout, gap: nat, asked: nat)
    requires asked < gap
    ensures Meets(l, gap, asked) <==> Meets(l, gap - asked, l.headerLen)
  {
    if Meets(l, gap, asked) {
      var j: nat :| asked + Span(l.headerLen, j) == gap;
      assert l.headerLen + Span(l.headerLen, j - 1) == gap - asked;
    }
    if Meets(l, gap - asked, l.headerLen) {
      var j: nat :| l.headerLen + Span(l.headerLen, j) == gap - asked;
      assert asked + Span(l.headerLen, j + 1) == gap;
    }
  }

  lemma AskedLess(l: Layout, gap: nat, asked: nat, n: nat)
    requires n <= asked && n <= gap
    ensures Meets(l, gap, asked) <==> Meets(l, gap - n, asked - n)
  {
    if Meets(l, gap, asked) {
      var j: nat :| asked + Span(l.headerLen, j) == gap;
      assert (asked - n) + Span(l.headerLen, j) == gap - n;
    }
    if Meets(l, gap - n, asked - n) {
      var j: nat :| (asked - n) + Span(l.headerLen, j) == gap - n;
      assert asked + Span(l.headerLen, j) == gap;
    }
  }

  /** A read inside the payload. */
  lemma ReadInside(l: Layout, r: Receiver, payload: seq<byte>, bs: seq<byte>)
    requires Inside(l, r, payload) && bs <= payload[|r.part|..] && |bs| <= Asked(l, r)
    requires Asked(l, r) < TWO_TO_64
    ensures var q, gap := Turn(l, r, Got(bs)), l.dataLen - |r.part|;
            if |bs| == gap then
              q.frames == r.frames + [Frame(r.id, payload)]
            else
              && Inside(l, q, payload) && q.id == r.id && q.frames == r.frames && |q.part| == |r.part| + |bs|
              && Asked(l, q) == if |bs| < Asked(l, r) then Asked(l, r) - |bs| else l.headerLen
  {
    var missing := payload[|r.part|..];
    assert bs == missing[..|bs|];
    assert r.part + bs == payload[..|r.part| + |bs|];
    if |bs| == |missing| {
      assert r.part + bs == payload;
    }
    if bs == [] {
      assert r.part + bs == r.part;
    }
  }

  /** If the request meets the end of the payload the frame is delivered whatever the
      reads return. */
  lemma {:induction false} MeetsDelivers(l: Layout, r: Receiver, payload: seq<byte>, results: seq<ReadResult>)
    requires Inside(l, r, payload) && Asked(l, r) < TWO_TO_64 && Meets(l, l.dataLen - |r.part|, Asked(l, r))
    requires Admissible(l, r, results) && payload[|r.part|..] <= Arrived(results)
    ensures r.frames + [Frame(r.id, payload)] <= Run(l, r, results).frames
    decreases |results|
  {
    var bs, rest := results[0].bytes, results[1..];
    var q, missing := Turn(l, r, results[0]), payload[|r.part|..];
    assert Arrived(results) == bs + Arrived(rest);
    assert bs == missing[..|bs|];
    ReadInside(l, r, payload, bs);
    if |bs| == |missing| {
      FramesOnlyGrow(l, q, rest);
    } else {
      assert missing == bs + payload[|q.part|..];
      PrefixCancel(bs, payload[|q.part|..], Arrived(rest));
      if |bs| == Asked(l, r) {
        AskedNext(l, l.dataLen - |r.part|, |bs|);
      } else {
        AskedLess(l, l.dataLen - |r.part|, Asked(l, r), |bs|);
      }
      MeetsDelivers(l, q, payload, rest);
    }
  }

  lemma OneResult(l: Layout, r: Receiver, bs: seq<byte>)
    requires l.Valid() && !r.failed && !r.over && |bs| <= Asked(l, r)
    ensures Admissible(l, r, [Got(bs)]) && Arrived([Got(bs)]) == bs
    ensures Run(l, r, [Got(bs)]) == Turn(l, r, Got(bs))
  {
    var q := Turn(l, r, Got(bs));
    assert [Got(bs)][1..] == [];
    assert Arrived([Got(bs)]) == bs + Arrived([]) == bs;
    assert Run(l, q, []) == q && Admissible(l, q, []);
  }

  /** Otherwise some reads go beyond the payload instead. */
  lemma {:induction false} MissLoses(l: Layout, r: Receiver, payload: seq<byte>) returns (results: seq<ReadResult>)
    requires Inside(l, r, payload) && Asked(l, r) < TWO_TO_64 && !Meets(l, l.dataLen - |r.part|, Asked(l, r))
    ensures Admissible(l, r, results) && payload[|r.part|..] <= Arrived(results)
    ensures Run(l, r, results).over && Run(l, r, results).frames == r.frames
    decreases l.dataLen - |r.part|
  {
    var missing, asked := payload[|r.part|..], Asked(l, r);
    if asked > |missing| {
      var bs := missing + [0];
      results := [Got(bs)];
      OneResult(l, r, bs);
      assert |r.part + bs| > l.dataLen;
    } else {
      var bs := missing[..asked];
      if asked == |missing| {
        assert asked + Span(l.headerLen, 0) == |missing|;
      }
      ReadInside(l, r, payload, bs);
      var q := Turn(l, r, Got(bs));
      AskedNext(l, l.dataLen - |r.part|, asked);
      var rest := MissLoses(l, q, payload);
      results := [Got(bs)] + rest;
      assert results[1..] == rest;
      assert missing == bs + payload[|q.part|..];
      assert Arrived(results) == bs + Arrived(rest);
    }
  }

  /** For every header and payload of the configured lengths, however the header is cut:
      the frame is sure to be delivered, with the id in the header, if and only if the
      size in the header minus the length of the last piece is the length of the payload
      or less by a whole number of headers. */
  lemma DeliveredIffSizeMeets(l: Layout, h: seq<byte>, payload: seq<byte>, pieces: seq<seq<byte>>)
    requires l.Valid() && l.dataLen > 0 && |h| == l.headerLen && |payload| == l.dataLen
    requires pieces != [] && (forall i | 0 <= i < |pieces| :: pieces[i] != []) && Joined(pieces) == h
    ensures var asked := Sub64(SizeField(h), |pieces[|pieces| - 1]|);
            SurelyDelivered(l, Run(l, Fresh(l), Pieces(pieces)), Record(IdField(h), [], payload))
            <==> exists j: nat :: asked + Span(l.headerLen, j) == l.dataLen
  {
    var asked := Sub64(SizeField(h), |pieces[|pieces| - 1]|);
    var rec := Record(IdField(h), [], payload);
    assert [] + Joined(pieces) == h;
    AnyHeaderInPieces(l, Fresh(l), h, pieces);
    var r := Run(l, Fresh(l), Pieces(pieces));
    assert payload[0..] == payload;
    if asked == 0 {
      AskedNext(l, l.dataLen, 0);
    }
    assert Meets(l, l.dataLen, asked) <==> Meets(l, l.dataLen, Asked(l, r));
    if Meets(l, l.dataLen, Asked(l, r)) {
      forall results | Admissible(l, r, results) && rec.payload <= Arrived(results)
        ensures r.frames + [Frame(rec.id, rec.payload)] <= Run(l, r, results).frames
      {
        MeetsDelivers(l, r, payload, results);
      }
      assert SurelyDelivered(l, r, rec);
      assert exists j: nat :: asked + Span(l.headerLen, j) == l.dataLen;
    } else {
      var results := MissLoses(l, r, payload);
      assert rec.payload <= Arrived(results);
      assert !(r.frames + [Frame(rec.id, rec.payload)] <= Run(l, r, results).frames);
    }
  }
}
