/** remotetrack.go: a remote track's read loop, which reads RTP packets
    into buffers of the shared RTPPool and hands them to onRead; the
    unmarshalling that strips RTP padding (section 5.1 of RFC 3550); the
    debounced PLI request; and the callbacks run when the track ends. */
module RemoteTracks {
  import opened Common
  import opened SyncPool
  import opened PacketManagement
  import opened RtpPool

  // ---------------------------------------------------------- unmarshal

  /** The fixed part of an RTP header (section 5.1 of RFC 3550). */
  const HeaderMinLen: nat := 12

  const ErrBufferTooShort := Error("remote track buffer too short")

  /** What pion's Header.Unmarshal reports for a buffer: the header and
      the number of bytes it took, or its error. */
  datatype HeaderParse = Parsed(header: Header, size: nat) | ParseFailed(err: Error)

  /** A parsed header is at least the fixed 12 bytes and lies inside the buffer. */
  predicate ParseFits(parse: HeaderParse, len: nat)
  {
    parse.Parsed? ==> HeaderMinLen <= parse.size <= len
  }

  /** unmarshal(buf, p) with buf a prefix of buffer b: on a header error
      p is left alone; otherwise p takes the header, with the padding bit
      its PaddingSize is the last byte and the payload end moves back by
      that much, and p.Payload becomes the window of b between the header
      and that end, unless the end falls before the header's. */
  function Unmarshal(buf: seq<uint8>, parse: HeaderParse, p: RtpPacket, b: Ref): (r: (RtpPacket, Option<Error>))
    requires ParseFits(parse, |buf|)
    ensures parse.ParseFailed? ==> r == (p, Some(parse.err))
    ensures parse.Parsed? ==> r.0.header == parse.header
    ensures r.1.None? ==> parse.Parsed? && r.0.payload.Window? && r.0.payload.buf == b
                          && parse.size == r.0.payload.lo <= r.0.payload.hi <= |buf|
    ensures r.1.Some? ==> r.0.payload == p.payload
  {
    match parse
    case ParseFailed(err) => (p, Some(err))
    case Parsed(h, n) =>
      var pad: uint8 := if h.padding then buf[|buf| - 1] else p.paddingSize;
      var end: int := if h.padding then |buf| - pad else |buf|;
      var p1 := p.(header := h, paddingSize := pad);
      if end < n then (p1, Some(ErrBufferTooShort)) else (p1.(payload := Window(b, n, end)), None)
  }

  /** RTP padding of k bytes: zeros, then the count k itself in the last byte. */
  function Padding(k: nat): (r: seq<uint8>)
    requires 1 <= k < 0x100
    ensures |r| == k && r[k - 1] == k
  {
    Zeros(k - 1) + [k]
  }

  /** A packet as a sender lays it out (section 5.1 of RFC 3550): header
      bytes, payload, and `pad` bytes of padding when pad > 0. */
  function Packetize(hdr: seq<uint8>, payload: seq<uint8>, pad: nat): (r: seq<uint8>)
    requires pad < 0x100
    ensures |r| == |hdr| + |payload| + pad
  {
    hdr + payload + (if pad == 0 then [] else Padding(pad))
  }

  /** unmarshal recovers what the sender packetized: the header, the
      padding size and exactly the payload bytes. */
  lemma UnmarshalRoundTrip(hdr: seq<uint8>, payload: seq<uint8>, pad: nat, h: Header, p: RtpPacket, b: Ref)
    requires pad < 0x100 && HeaderMinLen <= |hdr| && (h.padding <==> pad > 0)
    ensures var buf := Packetize(hdr, payload, pad);
      var (q, err) := Unmarshal(buf, Parsed(h, |hdr|), p, b);
      && err.None? && q.header == h
      && (pad > 0 ==> q.paddingSize == pad)
      && q.payload == Window(b, |hdr|, |hdr| + |payload|)
      && buf[q.payload.lo..q.payload.hi] == payload
  {
    var buf := Packetize(hdr, payload, pad);
    if pad > 0 {
      assert buf[|buf| - 1] == Padding(pad)[pad - 1];
    }
    assert buf[|hdr|..|hdr| + |payload|] == payload;
  }

  /** Without the padding bit, the payload is every byte after the header. */
  lemma UnmarshalPlain(buf: seq<uint8>, h: Header, n: nat, p: RtpPacket, b: Ref)
    requires !h.padding && HeaderMinLen <= n <= |buf|
    ensures var (q, err) := Unmarshal(buf, Parsed(h, n), p, b);
      && err.None? && q == p.(header := h, payload := Window(b, n, |buf|))
  {
  }

  /** With a parsed header, unmarshal fails exactly when the padding
      size taken from the last byte reaches into the header, and then
      with "remote track buffer too short", having set the header and the
      padding size but not the payload. */
  lemma UnmarshalTooShort(buf: seq<uint8>, h: Header, n: nat, p: RtpPacket, b: Ref)
    requires HeaderMinLen <= n <= |buf|
    ensures var (q, err) := Unmarshal(buf, Parsed(h, n), p, b);
      && (err.Some? <==> h.padding && buf[|buf| - 1] > |buf| - n)
      && (err.Some? ==> err == Some(ErrBufferTooShort)
                        && q == p.(header := h, paddingSize := buf[|buf| - 1]))
  {
  }

  // ------------------------------------------------- one read iteration

  /** What track.Read reports for one call: end of stream, another
      error, or the bytes of one packet, its attributes and what the
      header parser makes of them. */
  datatype ReadResult =
    | ReadEof
    | ReadError(err: Error)
    | ReadBytes(data: seq<uint8>, attrs: Attrs, parse: HeaderParse)

  /** One turn of readRTP's loop as its environment decides it: the
      context is cancelled, setting the read deadline fails, or a read
      happens, with the picks the pools use for the buffer and the packet. */
  datatype ReadEvent =
    | Cancelled
    | DeadlineFailed(err: Error)
    | Read(result: ReadResult, bufferPick: nat, packetPick: nat)

  /** A read returns at most one buffer's worth of bytes. */
  predicate EventFits(ev: ReadEvent)
  {
    ev.Read? && ev.result.ReadBytes? ==>
      |ev.result.data| <= MaxPayloadLen && ParseFits(ev.result.parse, |ev.result.data|)
  }

  /** What onRead is given: the attributes and the packet as it stands
      when onRead runs, with the bytes its payload slice shows. */
  datatype Delivery = Delivery(attrs: Attrs, header: Header, paddingSize: uint8, payload: seq<uint8>)

  /** Which PutPacket the loop calls: the source's, or the corrected one. */
  datatype PutVersion = AsWritten | Corrected

  function PutPacketBy(w: World, q: Ref, v: PutVersion): (r: World)
    requires Closed(w) && q < |w.rtpPackets.objs|
    ensures Closed(r)
  {
    if v.AsWritten? then PutPacketAsWritten(w, q) else PutPacket(w, q)
  }

  /** track.Read(*buffer): the bytes read overwrite the start of buffer b. */
  function ReadInto(w: World, b: Ref, data: seq<uint8>): (r: World)
    requires Closed(w) && b < |w.buffers.objs| && |data| <= MaxPayloadLen
    ensures Closed(r) && b < |r.buffers.objs| && r.buffers.objs[b][..|data|] == data
  {
    var buf := Copy(w.buffers.objs[b], data);
    assert buf[..|data|] == data;
    w.(buffers := w.buffers.(objs := w.buffers.objs[b := Copy(w.buffers.objs[b], data)]))
  }

  /** The rest of an iteration once a non-empty read landed in buffer b:
      GetPacket, unmarshal, onRead on success, then PutPayload and PutPacket. */
  function ReadPacket(w: World, b: Ref, data: seq<uint8>, attrs: Attrs, parse: HeaderParse, pick: nat, v: PutVersion)
    : (r: (World, Option<Delivery>))
    requires Closed(w) && b < |w.buffers.objs| && |data| <= MaxPayloadLen && ParseFits(parse, |data|)
    ensures Closed(r.0)
  {
    var w2 := ReadInto(w, b, data);
    var (w3, q) := GetPacket(w2, pick);
    var (pk, err) := Unmarshal(w3.buffers.objs[b][..|data|], parse, w3.rtpPackets.objs[q], b);
    var w4 := w3.(rtpPackets := w3.rtpPackets.(objs := w3.rtpPackets.objs[q := pk]));
    var delivery :=
      if err.None? then Some(Delivery(attrs, pk.header, pk.paddingSize, w4.buffers.objs[b][pk.payload.lo..pk.payload.hi]))
      else None;
    (PutPacketBy(PutPayload(w4, b), q, v), delivery)
  }

  /** One iteration of readRTP's loop: the new pools, whether the loop
      goes on, and what onRead was given, if it ran. */
  function Iteration(w: World, ev: ReadEvent, v: PutVersion): (r: (World, bool, Option<Delivery>))
    requires Closed(w) && EventFits(ev)
    ensures Closed(r.0)
  {
    match ev
    case Cancelled => (w, false, None)
    case DeadlineFailed(_) => (w, false, None)
    case Read(res, bufferPick, packetPick) =>
      var (w1, b) := GetPayload(w, bufferPick);
      match res
      case ReadEof => (PutPayload(w1, b), false, None)
      case ReadError(_) => (PutPayload(w1, b), true, None)
      case ReadBytes(data, attrs, parse) =>
        if |data| == 0 then (PutPayload(w1, b), true, None)
        else
          var (w', d) := ReadPacket(w1, b, data, attrs, parse, packetPick, v);
          (w', true, d)
  }

  // ------------------------------------------- proofs about an iteration

  /** The bytes read into an owned buffer disturb nothing else. */
  lemma ReadIntoValid(w: World, b: Ref, data: seq<uint8>)
    requires Valid(w) && Owned(w, b) && |data| <= MaxPayloadLen
    ensures var w' := ReadInto(w, b, data);
      && Valid(w') && Owned(w', b) && Undisturbed(w, w', None)
      && w'.buffers.pool == w.buffers.pool && |w'.buffers.objs| == |w.buffers.objs|
      && w'.rtpPackets == w.rtpPackets
  {
    var w' := ReadInto(w, b, data);
    forall q: Ref | Live(w, q)
      ensures LiveShape(w', w.packets.objs[q]) && PayloadOf(w', q) == PayloadOf(w, q)
    {
      assert LiveShape(w, w.packets.objs[q]);
    }
  }

  /** Setting an out-of-pool rtp.Packet whose payload is nil or a window
      of an allocated buffer keeps the invariant and disturbs no packet. */
  lemma SetRtpValid(w: World, q: Ref, pk: RtpPacket)
    requires Valid(w) && q < |w.rtpPackets.objs| && q !in w.rtpPackets.pool && SliceOk(w, pk.payload)
    ensures var w' := w.(rtpPackets := w.rtpPackets.(objs := w.rtpPackets.objs[q := pk]));
      Valid(w') && Undisturbed(w, w', None)
  {
  }

  /** ReadPacket with an owned buffer (corrected PutPacket): the
      invariant holds, the buffer is back in its pool, the rtp.Packet
      pool regains what it had and any packet New made, and no live
      packet changes. */
  lemma ReadPacketValid(w: World, b: Ref, data: seq<uint8>, attrs: Attrs, parse: HeaderParse, pick: nat)
    requires Valid(w) && Owned(w, b) && |data| <= MaxPayloadLen && ParseFits(parse, |data|)
    ensures var (w', d) := ReadPacket(w, b, data, attrs, parse, pick, Corrected);
      && Valid(w') && Undisturbed(w, w', None)
      && |w'.buffers.objs| == |w.buffers.objs|
      && (forall x :: x in w'.buffers.pool <==> x in w.buffers.pool || x == b)
      && |w'.rtpPackets.objs| <= |w.rtpPackets.objs| + 1
      && (forall x :: x in w'.rtpPackets.pool <==> x in w.rtpPackets.pool || |w.rtpPackets.objs| <= x < |w'.rtpPackets.objs|)
  {
    var w2 := ReadInto(w, b, data);
    ReadIntoValid(w, b, data);
    var (w3, q) := GetPacket(w2, pick);
    GetPacketValid(w2, pick);
    UndisturbedTrans(w, w2, w3, None);
    var (pk, err) := Unmarshal(w3.buffers.objs[b][..|data|], parse, w3.rtpPackets.objs[q], b);
    var w4 := w3.(rtpPackets := w3.rtpPackets.(objs := w3.rtpPackets.objs[q := pk]));
    SetRtpValid(w3, q, pk);
    UndisturbedTrans(w, w3, w4, None);
    assert Owned(w4, b);
    var w5 := PutPayload(w4, b);
    PutPayloadValid(w4, b);
    UndisturbedTrans(w, w4, w5, None);
    var w6 := PutPacket(w5, q);
    PutPacketValid(w5, q);
    UndisturbedTrans(w, w5, w6, None);
    assert ReadPacket(w, b, data, attrs, parse, pick, Corrected).0 == w6;
  }

  /** The pools after an iteration hold what they held before and every
      object New made during it, and New made at most one of each kind. */
  ghost predicate PoolsRestored(w: World, w': World)
  {
    && |w'.buffers.objs| <= |w.buffers.objs| + 1
    && (forall x :: x in w'.buffers.pool <==> x in w.buffers.pool || |w.buffers.objs| <= x < |w'.buffers.objs|)
    && |w'.rtpPackets.objs| <= |w.rtpPackets.objs| + 1
    && (forall x :: x in w'.rtpPackets.pool <==> x in w.rtpPackets.pool || |w.rtpPackets.objs| <= x < |w'.rtpPackets.objs|)
  }

  /** GetPayload then PutPayload, the path of a read that ends in an
      error or reads nothing: the buffer goes back and nothing else changes. */
  lemma ReturnPayloadValid(w: World, pick: nat)
    requires Valid(w)
    ensures var (w1, b) := GetPayload(w, pick); var w' := PutPayload(w1, b);
      Valid(w') && Undisturbed(w, w', None) && PoolsRestored(w, w')
  {
    var (w1, b) := GetPayload(w, pick);
    GetPayloadValid(w, pick);
    PutPayloadValid(w1, b);
    UndisturbedTrans(w, w1, PutPayload(w1, b), None);
  }

  /** A non-empty read, on its failure and its success path alike. */
  lemma ReadBytesValid(w: World, data: seq<uint8>, attrs: Attrs, parse: HeaderParse, bufferPick: nat, packetPick: nat)
    requires Valid(w) && |data| <= MaxPayloadLen && ParseFits(parse, |data|)
    ensures var (w1, b) := GetPayload(w, bufferPick);
      var w' := ReadPacket(w1, b, data, attrs, parse, packetPick, Corrected).0;
      Valid(w') && Undisturbed(w, w', None) && PoolsRestored(w, w')
  {
    var (w1, b) := GetPayload(w, bufferPick);
    GetPayloadValid(w, bufferPick);
    ReadPacketValid(w1, b, data, attrs, parse, packetPick);
    UndisturbedTrans(w, w1, ReadPacket(w1, b, data, attrs, parse, packetPick, Corrected).0, None);
  }

  /** Every iteration (corrected PutPacket) keeps the invariant and
      leaves every live packet as it was. It stops exactly on a
      cancelled context, a failed deadline or end of stream, and changes
      nothing in the first two cases. On every path that took a buffer
      or a packet it gives it back: afterwards the pools hold what they
      held before and every object New made during the iteration. */
  lemma IterationValid(w: World, ev: ReadEvent)
    requires Valid(w) && EventFits(ev)
    ensures var (w', more, d) := Iteration(w, ev, Corrected);
      && Valid(w') && Undisturbed(w, w', None) && PoolsRestored(w, w')
      && (more <==> ev.Read? && !ev.result.ReadEof?)
      && (!ev.Read? ==> w' == w)
      && (d.Some? ==> ev.Read? && ev.result.ReadBytes?)
  {
    if ev.Read? {
      if ev.result.ReadBytes? && |ev.result.data| > 0 {
        ReadBytesValid(w, ev.result.data, ev.result.attrs, ev.result.parse, ev.bufferPick, ev.packetPick);
      } else {
        ReturnPayloadValid(w, ev.bufferPick);
      }
    }
  }

  /** onRead is called exactly when a non-empty read unmarshals, and is
      given the read's attributes, the parsed header and exactly the
      bytes between the header and the padding. */
  lemma IterationDelivers(w: World, data: seq<uint8>, attrs: Attrs, h: Header, n: nat, bufferPick: nat, packetPick: nat, v: PutVersion)
    requires Closed(w) && 0 < |data| <= MaxPayloadLen && HeaderMinLen <= n <= |data|
    ensures var ev := Read(ReadBytes(data, attrs, Parsed(h, n)), bufferPick, packetPick);
      var end := if h.padding then |data| - data[|data| - 1] else |data|;
      var (w', more, d) := Iteration(w, ev, v);
      && more
      && (d.Some? <==> n <= end)
      && (d.Some? ==> && d.value.attrs == attrs && d.value.header == h
                      && (h.padding ==> d.value.paddingSize == data[|data| - 1])
                      && d.value.payload == data[n..end])
  {
    var (w1, b) := GetPayload(w, bufferPick);
    var w2 := ReadInto(w1, b, data);
    var (w3, q) := GetPacket(w2, packetPick);
    assert w3.buffers == w2.buffers;
    var buf := w3.buffers.objs[b][..|data|];
    assert buf == data;
    var (pk, err) := Unmarshal(buf, Parsed(h, n), w3.rtpPackets.objs[q], b);
    if err.None? {
      assert w3.buffers.objs[b][pk.payload.lo..pk.payload.hi] == buf[pk.payload.lo..pk.payload.hi];
    }
  }

  /** A packet packetized as section 5.1 of RFC 3550 lays it out reaches
      onRead with exactly its payload. */
  lemma IterationRoundTrip(w: World, hdr: seq<uint8>, payload: seq<uint8>, pad: nat, h: Header, attrs: Attrs,
                           bufferPick: nat, packetPick: nat, v: PutVersion)
    requires Closed(w) && pad < 0x100 && HeaderMinLen <= |hdr| && (h.padding <==> pad > 0)
    requires |hdr| + |payload| + pad <= MaxPayloadLen
    ensures var ev := Read(ReadBytes(Packetize(hdr, payload, pad), attrs, Parsed(h, |hdr|)), bufferPick, packetPick);
      Iteration(w, ev, v).2 == Some(Delivery(attrs, h, Iteration(w, ev, v).2.value.paddingSize, payload))
  {
    var data := Packetize(hdr, payload, pad);
    UnmarshalRoundTrip(hdr, payload, pad, h, ZeroRtpPacket, 0);
    IterationDelivers(w, data, attrs, h, |hdr|, bufferPick, packetPick, v);
    var end := if h.padding then |data| - data[|data| - 1] else |data|;
    assert end == |hdr| + |payload|;
    assert data[|hdr|..end] == payload;
  }

  // --------------------------------------------------- the whole loop

  /** readRTP over a finite run of events (corrected PutPacket): the
      pools afterwards, what onRead was given in order, and whether the
      loop returned (so that onEnded ran) before the events ran out. */
  function Run(w: World, events: seq<ReadEvent>): (r: (World, seq<Delivery>, bool))
    requires Closed(w) && forall e | e in events :: EventFits(e)
    ensures Closed(r.0)
    decreases |events|
  {
    if events == [] then (w, [], false)
    else
      var (w1, more, d) := Iteration(w, events[0], Corrected);
      if !more then (w1, Delivered(d), true)
      else Join(Delivered(d), Run(w1, events[1..]))
  }

  /** What onRead was given in one iteration, as a list. */
  function Delivered(d: Option<Delivery>): seq<Delivery>
  {
    if d.Some? then [d.value] else []
  }

  /** The outcome of a run that earlier iterations gave `ds` before. */
  function Join(ds: seq<Delivery>, r: (World, seq<Delivery>, bool)): (World, seq<Delivery>, bool)
  {
    (r.0, ds + r.1, r.2)
  }

  lemma JoinJoin(a: seq<Delivery>, b: seq<Delivery>, r: (World, seq<Delivery>, bool))
    ensures Join(a, Join(b, r)) == Join(a + b, r)
  {
    assert a + (b + r.1) == (a + b) + r.1;
  }

  /** One more iteration of a run, seen from the outcome of the whole run. */
  lemma RunStep(w: World, events: seq<ReadEvent>, i: nat, ds: seq<Delivery>)
    requires Closed(w) && i < |events| && forall e | e in events :: EventFits(e)
    ensures var (w1, more, d) := Iteration(w, events[i], Corrected);
      && (more ==> Join(ds, Run(w, events[i..])) == Join(ds + Delivered(d), Run(w1, events[i + 1..])))
      && (!more ==> Join(ds, Run(w, events[i..])) == (w1, ds + Delivered(d), true))
  {
    assert events[i..][1..] == events[i + 1..];
    var (w1, more, d) := Iteration(w, events[i], Corrected);
    if more {
      JoinJoin(ds, Delivered(d), Run(w1, events[i + 1..]));
    }
  }

  /** However many iterations run, the invariant holds, every live packet
      is untouched and no pooled buffer or packet is lost. */
  lemma {:induction false} RunValid(w: World, events: seq<ReadEvent>)
    requires Valid(w) && forall e | e in events :: EventFits(e)
    ensures var w' := Run(w, events).0;
      && Valid(w') && Undisturbed(w, w', None)
      && (forall x | x in w.buffers.pool :: x in w'.buffers.pool)
      && (forall x | x in w.rtpPackets.pool :: x in w'.rtpPackets.pool)
    decreases |events|
  {
    if events != [] {
      var (w1, more, d) := Iteration(w, events[0], Corrected);
      IterationValid(w, events[0]);
      if more {
        assert forall e | e in events[1..] :: e in events;
        RunValid(w1, events[1..]);
        UndisturbedTrans(w, w1, Run(w, events).0, None);
      }
    }
  }

  /** The loop returns, and onEnded runs, exactly when some event
      cancels it, fails the deadline or reports end of stream. */
  lemma {:induction false} RunEnds(w: World, events: seq<ReadEvent>)
    requires Closed(w) && forall e | e in events :: EventFits(e)
    ensures Run(w, events).2 <==> exists i | 0 <= i < |events| :: !events[i].Read? || events[i].result.ReadEof?
    decreases |events|
  {
    if events != [] {
      var (w1, more, d) := Iteration(w, events[0], Corrected);
      assert more <==> events[0].Read? && !events[0].result.ReadEof?;
      if more {
        assert forall e | e in events[1..] :: e in events;
        RunEnds(w1, events[1..]);
        assert forall i | 0 <= i < |events[1..]| :: events[1..][i] == events[i + 1];
        if exists i | 0 <= i < |events| :: !events[i].Read? || events[i].result.ReadEof? {
          var i :| 0 <= i < |events| && (!events[i].Read? || events[i].result.ReadEof?);
          assert events[1..][i - 1] == events[i];
        }
      }
    }
  }

  // The states of the scenario below, written out.
  const StaleData: seq<uint8> := Zeros(12) + [5]
  const LiveData: seq<uint8> := Zeros(12) + [9]
  const BufferStale := Copy(BlankPayload, StaleData)
  const BufferLive := Copy(BlankPayload, LiveData)
  const StaleRtp := RtpPacket(ZeroHeader, 0, Window(0, 12, 13))
  const LivePacket := Packet(1, Some(0), Some(0), Window(0, 0, 13), None)
  const GoodRead := Read(ReadBytes(StaleData, map[], Parsed(ZeroHeader, 12)), 0, 0)
  const BadRead := Read(ReadBytes(StaleData, map[], ParseFailed(Error("RTP header size insufficient"))), 0, 0)
  const ReadW1 := World(Store([BlankPayload], [0]), Store([], []), Store([], []), Store([], []), Store([StaleRtp], [0]))
  const ReadW2 := World(Store([BufferLive], []), Store([ZeroHeader], []), Store([], []),
                        Store([LivePacket], []), Store([StaleRtp], [0]))
  const ReadW3 := World(Store([BlankPayload, BlankPayload], [1]), Store([ZeroHeader], []), Store([], []),
                        Store([LivePacket], []), Store([StaleRtp], [0]))

  lemma ReadStep1Packet()
    ensures var w := EmptyWorld.(buffers := Store([BlankPayload], []));
      ReadPacket(w, 0, StaleData, map[], Parsed(ZeroHeader, 12), 0, AsWritten) == (ReadW1, Some(Delivery(map[], ZeroHeader, 0, [5])))
  {
    var w1 := EmptyWorld.(buffers := Store([BlankPayload], []));
    var w2 := w1.(buffers := Store([BufferStale], []));
    assert ReadInto(w1, 0, StaleData) == w2;
    assert EmptyWorld.rtpPackets.objs + [ZeroRtpPacket] == [ZeroRtpPacket];
    var w3 := w2.(rtpPackets := Store([ZeroRtpPacket], []));
    assert GetPacket(w2, 0) == (w3, 0);
    assert BufferStale[..13] == StaleData;
    assert Unmarshal(StaleData, Parsed(ZeroHeader, 12), ZeroRtpPacket, 0) == (StaleRtp, None);
    var w4 := w3.(rtpPackets := Store([StaleRtp], []));
    assert [ZeroRtpPacket][0 := StaleRtp] == [StaleRtp];
    assert BufferStale[12..13] == [5];
    BlankedIsBlank(BufferStale);
    var w5 := w4.(buffers := Store([BlankPayload], [0]));
    assert PutPayload(w4, 0) == w5;
    BlankSliceOfBlank(w5, StaleRtp.payload);
    assert PutPacketAsWritten(w5, 0) == ReadW1;
  }

  lemma ReadStep1()
    ensures Iteration(EmptyWorld, GoodRead, AsWritten) == (ReadW1, true, Some(Delivery(map[], ZeroHeader, 0, [5])))
  {
    assert EmptyWorld.buffers.objs + [BlankPayload] == [BlankPayload];
    var w1 := EmptyWorld.(buffers := Store([BlankPayload], []));
    assert GetPayload(EmptyWorld, 0) == (w1, 0);
    ReadStep1Packet();
  }

  lemma ReadStep2()
    ensures Closed(ReadW1) && PacketManagement.NewPacket(ReadW1, ZeroHeader, Some(LiveData), None, FirstPicks) == (ReadW2, Ok(0))
  {
    var w1 := ReadW1.(packets := Store([Packet(1, None, None, NilSlice, None)], []));
    assert ReadW1.packets.objs + [ZeroPacket] == [ZeroPacket];
    assert Get(ReadW1.packets, ZeroPacket, 0) == (Store([ZeroPacket], []), 0);
    assert [ZeroPacket][0 := ZeroPacket.(count := 1)] == [Packet(1, None, None, NilSlice, None)];
    assert AcquirePacket(ReadW1, 0) == (w1, 0);
    var w2 := w1.(headers := Store([ZeroHeader], []),
                  packets := Store([Packet(1, Some(0), None, NilSlice, None)], []));
    assert ReadW1.headers.objs + [ZeroHeader] == [ZeroHeader];
    assert AttachHeader(w1, 0, ZeroHeader, 0) == w2;
    assert Take([0], 0) == (0, []);
    assert AttachPayload(w2, 0, LiveData, 0) == ReadW2;
  }

  lemma ReadW2Closed()
    ensures Closed(ReadW2)
  {
    ReadStep2();
  }

  /** Zeroing bytes 12 to 13 of the live packet's buffer blanks it. */
  lemma StaleBlankingClearsLive()
    ensures BufferLive[..12] + Copy(BufferLive[12..13], BlankPayload) + BufferLive[13..] == BlankPayload
  {
    var r := BufferLive[..12] + Copy(BufferLive[12..13], BlankPayload) + BufferLive[13..];
    assert forall i | 0 <= i < |r| :: r[i] == BlankPayload[i];
  }

  lemma ReadStep3Packet()
    ensures var w := ReadW2.(buffers := Store([BufferLive, BlankPayload], []));
      Closed(w) && ReadPacket(w, 1, StaleData, map[], BadRead.result.parse, 0, AsWritten) == (ReadW3, None)
  {
    ReadW2Closed();
    var w1 := ReadW2.(buffers := Store([BufferLive, BlankPayload], []));
    assert GetPayload(ReadW2, 0) == (w1, 1) by {
      assert ReadW2.buffers.objs + [BlankPayload] == [BufferLive, BlankPayload];
    }
    var w2 := w1.(buffers := Store([BufferLive, BufferStale], []));
    assert ReadInto(w1, 1, StaleData) == w2;
    assert Take([0], 0) == (0, []);
    var w3 := w2.(rtpPackets := Store([StaleRtp], []));
    assert GetPacket(w2, 0) == (w3, 0);
    assert [StaleRtp][0 := StaleRtp] == [StaleRtp];
    BlankedIsBlank(BufferStale);
    var w5 := w3.(buffers := Store([BufferLive, BlankPayload], [1]));
    assert PutPayload(w3, 1) == w5;
    StaleBlankingClearsLive();
    var w6 := w5.(buffers := Store([BlankPayload, BlankPayload], [1]));
    assert BlankSlice(w5, StaleRtp.payload) == w6;
    assert PutPacketAsWritten(w5, 0) == ReadW3;
  }

  lemma ReadStep3()
    ensures Closed(ReadW2) && Iteration(ReadW2, BadRead, AsWritten) == (ReadW3, true, None)
  {
    ReadW2Closed();
    assert ReadW2.buffers.objs + [BlankPayload] == [BufferLive, BlankPayload];
    var w1 := ReadW2.(buffers := Store([BufferLive, BlankPayload], []));
    assert GetPayload(ReadW2, 0) == (w1, 1);
    ReadStep3Packet();
  }

  /** The source's PutPacket pools an rtp.Packet that still holds its
      payload slice, and a later header error blanks that slice in
      whatever buffer it now lies in. A read of [0 x 12, 5] lands in
      buffer 0 and its payload [5] is delivered; buffer 0 goes back to
      the pool and is taken by NewPacket for the payload [0 x 12, 9]; a
      second read whose header fails to parse recycles the rtp.Packet
      and zeroes byte 12 of buffer 0, so the live packet's payload reads
      back as thirteen zeros. */
  lemma ReadLoopAsWrittenCorrupts()
    ensures var (w1, more1, d1) := Iteration(EmptyWorld, GoodRead, AsWritten);
      && more1 && d1 == Some(Delivery(map[], ZeroHeader, 0, [5]))
      && var (w2, r2) := PacketManagement.NewPacket(w1, ZeroHeader, Some(LiveData), None, FirstPicks);
      && r2 == Ok(0) && Live(w2, 0) && PayloadOf(w2, 0) == Some(LiveData)
      && var (w3, more3, d3) := Iteration(w2, BadRead, AsWritten);
      && more3 && d3.None?
      && Live(w3, 0) && w3.packets.objs[0] == w2.packets.objs[0]
      && PayloadOf(w3, 0) == Some(Zeros(13))
  {
    ReadStep1();
    ReadStep2();
    ReadStep3();
    assert BufferLive[0..13] == LiveData;
    assert BlankPayload[0..13] == Zeros(13);
  }

  // ------------------------------------------------------- the track

  /** The longest gap between two PLI requests that are merged into one. */
  const MaxPliGap: Duration := 250 * Millisecond

  /** SendPLI at `now` goes ahead when no request was accepted yet (the
      zero time is long past) or the last accepted one is at least
      250 ms old. */
  predicate PliDue(last: Option<Time>, now: Time)
  {
    last.None? || now - last.value >= MaxPliGap
  }

  /** The requests that SendPLI calls at the given times pass on to onPLI. */
  function PliSeries(last: Option<Time>, calls: seq<Time>): (sent: seq<Time>)
    ensures |sent| <= |calls|
    decreases |calls|
  {
    if calls == [] then []
    else if PliDue(last, calls[0]) then [calls[0]] + PliSeries(Some(calls[0]), calls[1..])
    else PliSeries(last, calls[1..])
  }

  /** The lastPLIRequestTime after SendPLI calls at the given times. */
  function PliLast(last: Option<Time>, calls: seq<Time>): (r: Option<Time>)
    ensures r.Some? ==> (last.Some? && r == last) || r.value in calls
    decreases |calls|
  {
    if calls == [] then last
    else PliLast(if PliDue(last, calls[0]) then Some(calls[0]) else last, calls[1..])
  }

  /** Any two requests passed on are at least 250 ms apart, and the
      first is at least 250 ms after the last one accepted before. */
  lemma {:induction false} PliSpacing(last: Option<Time>, calls: seq<Time>)
    ensures var sent := PliSeries(last, calls);
      && (forall i | 0 <= i < |sent| - 1 :: sent[i + 1] - sent[i] >= MaxPliGap)
      && (last.Some? && sent != [] ==> sent[0] - last.value >= MaxPliGap)
    decreases |calls|
  {
    if calls != [] {
      if PliDue(last, calls[0]) {
        PliSpacing(Some(calls[0]), calls[1..]);
        var rest := PliSeries(Some(calls[0]), calls[1..]);
        assert PliSeries(last, calls) == [calls[0]] + rest;
      } else {
        PliSpacing(last, calls[1..]);
      }
    }
  }

  /** Two calls 100 ms apart give one PLI; 260 ms apart, two. */
  lemma PliDebounce(t: Time)
    ensures PliSeries(None, [t, t + 100 * Millisecond]) == [t]
    ensures PliSeries(None, [t, t + 260 * Millisecond]) == [t, t + 260 * Millisecond]
  {
    assert [t, t + 100 * Millisecond][1..] == [t + 100 * Millisecond];
    assert [t, t + 260 * Millisecond][1..] == [t + 260 * Millisecond];
  }

  /** remoteTrack: the fields the core reads and writes. `pliRequests`
      records each call of onPLI with the time it was made, and
      `endedCalls` each callback onEnded ran. */
  class RemoteTrack {
    var lastPLIRequestTime: Option<Time>
    var onEndedCallbacks: seq<CallbackId>
    var pliRequests: seq<Time>
    var endedCalls: seq<CallbackId>

    /** newRemoteTrack: no PLI requested yet and no ended callbacks. */
    constructor ()
      ensures lastPLIRequestTime == None && onEndedCallbacks == []
      ensures pliRequests == [] && endedCalls == []
    {
      lastPLIRequestTime := None;
      onEndedCallbacks := [];
      pliRequests := [];
      endedCalls := [];
    }

    /** SendPLI: within 250 ms of the last accepted request nothing
        happens; otherwise now is recorded and onPLI called once. */
    method SendPLI(now: Time)
      modifies this`lastPLIRequestTime, this`pliRequests
      ensures PliDue(old(lastPLIRequestTime), now) ==>
                lastPLIRequestTime == Some(now) && pliRequests == old(pliRequests) + [now]
      ensures !PliDue(old(lastPLIRequestTime), now) ==>
                lastPLIRequestTime == old(lastPLIRequestTime) && pliRequests == old(pliRequests)
    {
      if lastPLIRequestTime.Some? && now - lastPLIRequestTime.value < MaxPliGap {
        return;
      }
      lastPLIRequestTime := Some(now);
      pliRequests := pliRequests + [now];
    }

    /** enableIntervalPLI's ticker loop: SendPLI at every tick until the
        context ends. The requests passed on are those PliSeries picks. */
    method IntervalPLI(ticks: seq<Time>)
      modifies this`lastPLIRequestTime, this`pliRequests
      ensures pliRequests == old(pliRequests) + PliSeries(old(lastPLIRequestTime), ticks)
      ensures lastPLIRequestTime == PliLast(old(lastPLIRequestTime), ticks)
    {
      var i := 0;
      while i < |ticks|
        invariant 0 <= i <= |ticks|
        invariant old(pliRequests) + PliSeries(old(lastPLIRequestTime), ticks)
                  == pliRequests + PliSeries(lastPLIRequestTime, ticks[i..])
        invariant PliLast(old(lastPLIRequestTime), ticks) == PliLast(lastPLIRequestTime, ticks[i..])
      {
        assert ticks[i..][1..] == ticks[i + 1..];
        SendPLI(ticks[i]);
        i := i + 1;
      }
    }

    /** onEnded: every callback runs once, in the order registered. */
    method OnEnded()
      modifies this`endedCalls
      ensures endedCalls == old(endedCalls) + onEndedCallbacks
    {
      var i := 0;
      while i < |onEndedCallbacks|
        invariant 0 <= i <= |onEndedCallbacks|
        invariant endedCalls == old(endedCalls) + onEndedCallbacks[..i]
      {
        endedCalls := endedCalls + [onEndedCallbacks[i]];
        i := i + 1;
      }
    }

    /** readRTP: iterations until one returns or the events run out; when
        the loop returns, onEnded runs (deferred). */
    method ReadRtp(w: World, events: seq<ReadEvent>) returns (w': World, delivered: seq<Delivery>, ended: bool)
      requires Closed(w) && forall e | e in events :: EventFits(e)
      modifies this`endedCalls
      ensures (w', delivered, ended) == Run(w, events)
      ensures ended ==> endedCalls == old(endedCalls) + onEndedCallbacks
      ensures !ended ==> endedCalls == old(endedCalls)
    {
      w' := w;
      delivered := [];
      ended := false;
      var i := 0;
      assert events[0..] == events;
      assert [] + Run(w, events).1 == Run(w, events).1;
      while i < |events| && !ended
        invariant 0 <= i <= |events| && Closed(w')
        invariant forall e | e in events[i..] :: e in events
        invariant ended ==> Run(w, events) == (w', delivered, true)
        invariant !ended ==> Run(w, events) == Join(delivered, Run(w', events[i..]))
        invariant endedCalls == old(endedCalls)
      {
        var (w1, more, d) := Iteration(w', events[i], Corrected);
        RunStep(w', events, i, delivered);
        w', ended := w1, !more;
        delivered := delivered + Delivered(d);
        i := i + 1;
      }
      if !ended {
        assert events[i..] == [] && delivered + [] == delivered;
      }
      if ended {
        OnEnded();
      }
    }
  }
}
