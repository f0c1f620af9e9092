/** How a TCP source cuts its byte stream into frames. */
module TcpReassembly {
  import opened Bytes

  /** Header: size_t with the size of header and payload, int with the frame id,
      and whatever the configured length leaves. */
  datatype Layout = Layout(headerLen: nat, dataLen: nat) {
    predicate Valid() {
      SIZE_T_LEN + INT_LEN <= headerLen && headerLen + dataLen < TWO_TO_64
    }
  }

  datatype Frame = Frame(id: int, payload: seq<byte>)

  /** What read() returned: -1, or the bytes it stored (none at all is 0). */
  datatype ReadResult = Failed | Got(bytes: seq<byte>)

  /** The locals of the receiving loop; `part` is what is in the buffer that is
      being filled, so |part| is recieved_len.  `over` says that read() was made to
      store bytes behind the payload buffer. */
  datatype Receiver = Receiver(
    headerOk: bool, part: seq<byte>, remaining: nat, id: int, frames: seq<Frame>, failed: bool, over: bool)

  function Fresh(l: Layout): Receiver {
    Receiver(false, [], l.headerLen, -1, [], false, false)
  }

  function SizeField(header: seq<byte>): nat
    requires |header| >= SIZE_T_LEN + INT_LEN
  {
    Little(header[..SIZE_T_LEN])
  }

  function IdField(header: seq<byte>): int
    requires |header| >= SIZE_T_LEN + INT_LEN
  {
    ToInt32(Little(header[SIZE_T_LEN..SIZE_T_LEN + INT_LEN]))
  }

  /** The length the next read() asks for. */
  function Asked(l: Layout, r: Receiver): nat {
    if r.remaining == 0 then l.headerLen else r.remaining
  }

  function Deliver(l: Layout, r: Receiver, payload: seq<byte>): Receiver {
    r.(headerOk := false, part := [], remaining := l.headerLen, frames := r.frames + [Frame(r.id, payload)])
  }

  /** The loop body after a read() that stored bs, with bs not empty.  The end of a
      header falls through to the payload branch, which subtracts the length of the
      last read from the size in the header. */
  function Store(l: Layout, r: Receiver, bs: seq<byte>): Receiver
    requires l.Valid()
  {
    var part := r.part + bs;
    if !r.headerOk then
      if |part| < l.headerLen then
        r.(part := part, remaining := Sub64(r.remaining, |bs|))
      else if |part| == l.headerLen then
        var h := r.(headerOk := true, part := [], id := IdField(part));
        if 0 < l.dataLen then h.(remaining := Sub64(SizeField(part), |bs|)) else Deliver(l, h, [])
      else
        r.(over := true)
    else if |part| < l.dataLen then
      r.(part := part, remaining := Sub64(r.remaining, |bs|))
    else if |part| == l.dataLen then
      Deliver(l, r, part)
    else
      r.(over := true)
  }

  function Turn(l: Layout, r: Receiver, read: ReadResult): Receiver
    requires l.Valid()
  {
    var q := r.(remaining := Asked(l, r));
    match read
    case Failed => q.(failed := true)
    case Got(bs) => if bs == [] then q else Store(l, q, bs)
  }

  /** The loop, on a sequence of results of read(). */
  function Run(l: Layout, r: Receiver, results: seq<ReadResult>): Receiver
    requires l.Valid()
    decreases |results|
  {
    if results == [] || r.failed || r.over then r else Run(l, Turn(l, r, results[0]), results[1..])
  }

  /** read() never returns more than it was asked for. */
  ghost predicate Admissible(l: Layout, r: Receiver, results: seq<ReadResult>)
    requires l.Valid()
    decreases |results|
  {
    results != [] && !r.failed && !r.over ==>
      && (results[0].Got? ==> |results[0].bytes| <= Asked(l, r))
      && Admissible(l, Turn(l, r, results[0]), results[1..])
  }

  // ------------------------------------------------------------ the loop

  /** A source with its packet buffers, the variables of its receiving loop, and the
      frames it handed to new_frame_action. */
  class DataSource {
    const layout: Layout
    const header: array<byte>
    const data: array<byte>
    var received: nat
    var remaining: nat
    var headerOk: bool
    var frameId: int
    var delivered: seq<Frame>

    ghost predicate Valid()
      reads this
    {
      && layout.Valid() && header != data
      && header.Length == layout.headerLen && data.Length == layout.dataLen
      && received <= (if headerOk then data.Length else header.Length)
    }

    ghost function State(failed: bool, over: bool): Receiver
      requires Valid()
      reads this, header, data
    {
      Receiver(headerOk, if headerOk then data[..received] else header[..received], remaining, frameId,
               delivered, failed, over)
    }

    constructor (l: Layout)
      requires l.Valid()
      ensures Valid() && layout == l && State(false, false) == Fresh(l) && fresh(header) && fresh(data)
    {
      layout := l;
      header := new byte[l.headerLen];
      data := new byte[l.dataLen];
      received, remaining, headerOk, frameId, delivered := 0, l.headerLen, false, -1, [];
    }

    /** read() stored bytes behind the first `received` ones of the current buffer. */
    method OnBytes(bytes: seq<byte>)
      requires Valid() && received + |bytes| <= (if headerOk then data.Length else header.Length) && bytes != []
      modifies this, header, data
      ensures Valid() && State(false, false) == Store(layout, old(State(false, false)), bytes)
    {
      var n := |bytes|;
      ghost var r := State(false, false);
      ghost var part := r.part + bytes;
      Fill(if headerOk then data else header, received, bytes);
      received := received + n;
      if !headerOk && received < layout.headerLen {
        remaining := Sub64(remaining, n);
      }
      if !headerOk && received == layout.headerLen {
        assert header[..] == part;
        frameId := IdField(header[..]);
        received := 0;
        remaining := SizeField(header[..]);
        headerOk := true;
      }
      if headerOk && received < layout.dataLen {
        remaining := Sub64(remaining, n);
      }
      if headerOk && received == layout.dataLen {
        assert data[..] == data[..received];
        remaining := layout.headerLen;
        received := 0;
        headerOk := false;
        delivered := delivered + [Frame(frameId, data[..])];
      }
    }

    /** source_data_thread_tcp on what its reads return.  `over` is set, and the loop
        given up, when a read goes beyond a buffer. */
    method ReceiveLoop(results: seq<ReadResult>) returns (failed: bool, over: bool)
      requires Valid()
      modifies this, header, data
      ensures Valid()
      ensures State(failed, over) == Run(layout, old(State(false, false)), results)
    {
      failed, over := false, false;
      var k := 0;
      while k < |results| && !failed && !over
        invariant 0 <= k <= |results| && Valid()
        invariant Run(layout, State(failed, over), results[k..]) == Run(layout, old(State(false, false)), results)
      {
        assert results[k..][0] == results[k] && results[k..][1..] == results[k + 1..];
        if remaining == 0 {
          remaining := layout.headerLen;
        }
        match results[k] {
          case Failed =>
            failed := true;
          case Got(bytes) =>
            if bytes != [] {
              if received + |bytes| > (if headerOk then data.Length else header.Length) {
                over := true;
              } else {
                OnBytes(bytes);
              }
            }
        }
        k := k + 1;
      }
    }
  }
}
