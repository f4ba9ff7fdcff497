/** pkg/rtppool/packetmanager.go: reference-counted packets whose header,
    payload buffer and attribute map are drawn from pools and handed back
    when the last reference is released.

    The Go heap objects involved (payload buffers, headers, attribute maps,
    packets and the RTP pool's rtp.Packets) live in a `World`, one Store
    per Go type. A field that holds a Go pointer holds the object's Ref, so
    two fields that alias hold the same Ref, and writing through one is
    seen through the other. */
module PacketManagement {
  import opened Common
  import opened SyncPool

  /** maxPayloadLen: the size of every pooled payload buffer. */
  const MaxPayloadLen: nat := 1460

  /** blankPayload: the zero buffer copied over a payload to clear it. */
  const BlankPayload: seq<uint8> := Zeros(MaxPayloadLen)

  const ErrPacketReleased := Error("packet has been released")

  /** A Go byte slice: nil, or the window [lo, hi) of payload buffer `buf`. */
  datatype Slice = NilSlice | Window(buf: Ref, lo: nat, hi: nat)

  /** A RetainablePacket. Its onRelease is always its manager's
      releasePacket, so the field is not kept. */
  datatype Packet = Packet(
    count: int,
    header: Option<Ref>,
    buffer: Option<Ref>,
    payload: Slice,
    attr: Option<Ref>)

  /** What the packet pool's New function returns: `&RetainablePacket{}`. */
  const ZeroPacket := Packet(0, None, None, NilSlice, None)

  /** An rtp.Packet as RTPPool hands it out: header, padding size and payload slice. */
  datatype RtpPacket = RtpPacket(header: Header, paddingSize: uint8, payload: Slice)

  /** What RTPPool's New function returns: `&rtp.Packet{}`. */
  const ZeroRtpPacket := RtpPacket(ZeroHeader, 0, NilSlice)

  /** The objects reachable from an RTPPool: its PacketManager's packet,
      header, payload and attribute pools, and its own pool of rtp.Packets. */
  datatype World = World(
    buffers: Store<seq<uint8>>,
    headers: Store<Header>,
    attrMaps: Store<Attrs>,
    packets: Store<Packet>,
    rtpPackets: Store<RtpPacket>)

  /** rtppool.New() / NewPacketManager(): nothing allocated, every pool empty. */
  const EmptyWorld := World(Store([], []), Store([], []), Store([], []), Store([], []), Store([], []))

  /** How each pool's Get chooses among its pooled objects. */
  datatype Picks = Picks(packet: nat, header: nat, payload: nat, attr: nat)

  // ---------------------------------------------------------------- bytes

  /** copy(dst, src): the first min(len(dst), len(src)) bytes of dst become src's. */
  function Copy(dst: seq<uint8>, src: seq<uint8>): (r: seq<uint8>)
    ensures |r| == |dst|
    ensures forall i | 0 <= i < |dst| :: r[i] == (if i < |src| then src[i] else dst[i])
  {
    var k := Min(|dst|, |src|);
    src[..k] + dst[k..]
  }

  // ------------------------------------------------------- well-formedness

  /** A slice that is nil or lies inside an allocated buffer. */
  ghost predicate SliceOk(w: World, s: Slice)
  {
    s.Window? ==> s.buf < |w.buffers.objs| && s.lo <= s.hi <= MaxPayloadLen
  }

  /** Every pointer a packet holds refers to an allocated object. */
  ghost predicate RefsOk(w: World, pk: Packet)
  {
    && (pk.header.Some? ==> pk.header.value < |w.headers.objs|)
    && (pk.buffer.Some? ==> pk.buffer.value < |w.buffers.objs|)
    && (pk.attr.Some? ==> pk.attr.value < |w.attrMaps.objs|)
    && SliceOk(w, pk.payload)
  }

  /** The heap is closed: pools hold allocated objects, every buffer has
      the size New gives it, and every pointer is to an allocated object.
      This holds however the packets are used. */
  ghost predicate Closed(w: World)
  {
    && StoreOk(w.buffers) && StoreOk(w.headers) && StoreOk(w.attrMaps)
    && StoreOk(w.packets) && StoreOk(w.rtpPackets)
    && (forall b | 0 <= b < |w.buffers.objs| :: |w.buffers.objs[b]| == MaxPayloadLen)
    && (forall p | 0 <= p < |w.packets.objs| :: RefsOk(w, w.packets.objs[p]))
    && (forall q | 0 <= q < |w.rtpPackets.objs| :: SliceOk(w, w.rtpPackets.objs[q].payload))
  }

  // -------------------------------------------------------------- getters

  /** A packet handed out by NewPacket and not yet back in the packet pool. */
  ghost predicate Live(w: World, p: Ref)
  {
    p < |w.packets.objs| && p !in w.packets.pool
  }

  /** Header(): the header the packet points to. */
  function HeaderOf(w: World, p: Ref): (r: Option<Header>)
    requires Closed(w) && p < |w.packets.objs|
    ensures r.Some? <==> w.packets.objs[p].header.Some?
  {
    var h := w.packets.objs[p].header;
    if h.Some? then Some(w.headers.objs[h.value]) else None
  }

  /** Payload(): the bytes the packet's payload slice shows; None for nil. */
  function PayloadOf(w: World, p: Ref): (r: Option<seq<uint8>>)
    requires Closed(w) && p < |w.packets.objs|
    ensures r.Some? <==> w.packets.objs[p].payload.Window?
    ensures r.Some? ==> |r.value| == w.packets.objs[p].payload.hi - w.packets.objs[p].payload.lo
  {
    var s := w.packets.objs[p].payload;
    if s.Window? then Some(w.buffers.objs[s.buf][s.lo..s.hi]) else None
  }

  /** Attributes(): the attribute map the packet points to; None for nil. */
  function AttributesOf(w: World, p: Ref): (r: Option<Attrs>)
    requires Closed(w) && p < |w.packets.objs|
    ensures r.Some? <==> w.packets.objs[p].attr.Some?
  {
    var a := w.packets.objs[p].attr;
    if a.Some? then Some(w.attrMaps.objs[a.value]) else None
  }

  // -------------------------------------------------------- the invariant

  /** A pooled packet holds no buffer, payload slice or attribute map. */
  ghost predicate PooledShape(pk: Packet)
  {
    pk.count <= 0 && pk.buffer.None? && pk.payload == NilSlice && pk.attr.None?
  }

  /** A live packet has a positive count, a header outside the header
      pool, a buffer outside the payload pool with the payload window at
      its start (or no buffer and a nil payload), and an attribute map
      outside its pool. */
  ghost predicate LiveShape(w: World, pk: Packet)
  {
    && pk.count >= 1
    && pk.header.Some? && pk.header.value !in w.headers.pool
    && (pk.buffer.None? ==> pk.payload == NilSlice)
    && (pk.buffer.Some? ==>
          && pk.buffer.value !in w.buffers.pool
          && pk.payload.Window? && pk.payload.buf == pk.buffer.value && pk.payload.lo == 0)
    && (pk.attr.Some? ==> pk.attr.value !in w.attrMaps.pool)
  }

  /** Two packets share no header, buffer or attribute map. */
  ghost predicate Disjoint(a: Packet, b: Packet)
  {
    && a.header != b.header
    && (a.buffer.Some? && b.buffer.Some? ==> a.buffer != b.buffer)
    && (a.attr.Some? && b.attr.Some? ==> a.attr != b.attr)
  }

  /** The pools' part of the invariant: every object is pooled at most
      once, pooled buffers are blank, pooled maps are empty, pooled
      rtp.Packets hold no payload slice and pooled packets hold nothing. */
  ghost predicate PoolsOk(w: World)
  {
    && Closed(w)
    && NoDup(w.buffers.pool) && NoDup(w.headers.pool) && NoDup(w.attrMaps.pool)
    && NoDup(w.packets.pool) && NoDup(w.rtpPackets.pool)
    && (forall b | b in w.buffers.pool :: w.buffers.objs[b] == BlankPayload)
    && (forall a | a in w.attrMaps.pool :: w.attrMaps.objs[a] == map[])
    && (forall q | q in w.rtpPackets.pool :: w.rtpPackets.objs[q].payload == NilSlice)
    && (forall p | p in w.packets.pool :: PooledShape(w.packets.objs[p]))
  }

  /** No two live packets share an object. */
  ghost predicate Exclusive(w: World)
  {
    forall p: Ref, q: Ref | Live(w, p) && Live(w, q) && p != q :: Disjoint(w.packets.objs[p], w.packets.objs[q])
  }

  /** The ownership invariant: the pools are sound, and an object a live
      packet holds is neither pooled nor held by another live packet. */
  ghost predicate Valid(w: World)
  {
    && PoolsOk(w)
    && (forall p: Ref | Live(w, p) :: LiveShape(w, w.packets.objs[p]))
    && Exclusive(w)
  }

  /** Every packet live in w other than `except` is still live in w', with
      the same fields, header, payload bytes and attributes. */
  ghost predicate Undisturbed(w: World, w': World, except: Option<Ref>)
    requires Closed(w) && Closed(w')
  {
    forall q: Ref | Live(w, q) && Some(q) != except ::
      && Live(w', q) && w'.packets.objs[q] == w.packets.objs[q]
      && HeaderOf(w', q) == HeaderOf(w, q)
      && PayloadOf(w', q) == PayloadOf(w, q)
      && AttributesOf(w', q) == AttributesOf(w, q)
  }

  /** The invariant while NewPacket is filling in packet p: p is out of
      the pool, and every other live packet is as Valid demands. */
  ghost predicate ValidExcept(w: World, p: Ref)
  {
    && PoolsOk(w)
    && Live(w, p)
    && (forall q: Ref | Live(w, q) && q != p :: LiveShape(w, w.packets.objs[q]))
    && (forall q: Ref, q': Ref | Live(w, q) && Live(w, q') && q != q' && q != p && q' != p ::
          Disjoint(w.packets.objs[q], w.packets.objs[q']))
  }

  /** Packet p is complete: it has a live packet's shape and shares no
      object with another live packet. */
  ghost predicate Ready(w: World, p: Ref)
    requires Live(w, p)
  {
    && LiveShape(w, w.packets.objs[p])
    && (forall q: Ref | Live(w, q) && q != p :: Disjoint(w.packets.objs[p], w.packets.objs[q]))
  }

  // ----------------------------------------------------------- NewPacket

  /** The first steps of NewPacket: a packet from the pool with its count set to 1. */
  function AcquirePacket(w: World, pick: nat): (r: (World, Ref))
    requires Closed(w)
    ensures Closed(r.0) && r.1 < |r.0.packets.objs|
  {
    var (ps, p) := Get(w.packets, ZeroPacket, pick);
    (w.(packets := ps.(objs := ps.objs[p := ps.objs[p].(count := 1)])), p)
  }

  /** The header step of NewPacket: a header from the pool, overwritten
      with a copy of `header`. */
  function AttachHeader(w: World, p: Ref, header: Header, pick: nat): (r: World)
    requires Closed(w) && p < |w.packets.objs|
    ensures Closed(r) && p < |r.packets.objs|
  {
    var (hs, h) := Get(w.headers, ZeroHeader, pick);
    w.(headers := hs.(objs := hs.objs[h := header]),
       packets := w.packets.(objs := w.packets.objs[p := w.packets.objs[p].(header := Some(h))]))
  }

  /** The payload step of NewPacket: a buffer from the pool, the payload
      copied into it and the packet's payload slice set to the copied
      prefix, `(*payloadBuf)[:size]`. */
  function AttachPayload(w: World, p: Ref, data: seq<uint8>, pick: nat): (r: World)
    requires Closed(w) && p < |w.packets.objs|
    ensures Closed(r) && p < |r.packets.objs|
  {
    var (bs, b) := Get(w.buffers, BlankPayload, pick);
    var size := Min(|bs.objs[b]|, |data|);
    w.(buffers := bs.(objs := bs.objs[b := Copy(bs.objs[b], data)]),
       packets := w.packets.(objs := w.packets.objs[p := w.packets.objs[p].(buffer := Some(b), payload := Window(b, 0, size))]))
  }

  /** The attribute step of NewPacket: a map from the pool with every
      entry of `attrs` written into it. */
  function AttachAttrs(w: World, p: Ref, attrs: Attrs, pick: nat): (r: World)
    requires Closed(w) && p < |w.packets.objs|
    ensures Closed(r) && p < |r.packets.objs|
  {
    var (ms, a) := Get(w.attrMaps, map[], pick);
    w.(attrMaps := ms.(objs := ms.objs[a := ms.objs[a] + attrs]),
       packets := w.packets.(objs := w.packets.objs[p := w.packets.objs[p].(attr := Some(a))]))
  }

  /** NewPacket: refuses a payload longer than maxPayloadLen with
      io.ErrShortBuffer and allocates nothing; otherwise draws a packet,
      sets its count to 1, gives it a pooled header holding a copy of
      `header`, for a non-nil payload a pooled buffer holding its bytes,
      and for non-nil attributes a pooled map holding its entries. A nil
      payload or nil attributes leave a recycled packet's fields as they
      were. */
  function NewPacket(w: World, header: Header, payload: Option<seq<uint8>>, attr: Option<Attrs>, picks: Picks)
    : (r: (World, Result<Ref>))
    requires Closed(w)
    ensures r.1.Err? <==> payload.Some? && |payload.value| > MaxPayloadLen
    ensures r.1.Err? ==> r.1.error == ErrShortBuffer && r.0 == w
    ensures Closed(r.0) && (r.1.Ok? ==> r.1.value < |r.0.packets.objs|)
  {
    if payload.Some? && |payload.value| > MaxPayloadLen then
      (w, Err(ErrShortBuffer))
    else
      var (w1, p) := AcquirePacket(w, picks.packet);
      var w2 := AttachHeader(w1, p, header, picks.header);
      var w3 := if payload.Some? then AttachPayload(w2, p, payload.value, picks.payload) else w2;
      var w4 := if attr.Some? then AttachAttrs(w3, p, attr.value, picks.attr) else w3;
      (w4, Ok(p))
  }

  // ------------------------------------------------------ Retain / Release

  /** Retain: fails on a released packet (count 0), otherwise takes one
      more reference. */
  function Retain(w: World, p: Ref): (r: (World, Option<Error>))
    requires p < |w.packets.objs|
  {
    var pk := w.packets.objs[p];
    if pk.count == 0 then (w, Some(ErrPacketReleased))
    else (SetCount(w, p, pk.count + 1), None)
  }

  /** The world with packet p's reference count set to n. */
  function SetCount(w: World, p: Ref, n: int): (r: World)
    requires p < |w.packets.objs|
    ensures |r.packets.objs| == |w.packets.objs| && r.packets.objs[p] == w.packets.objs[p].(count := n)
  {
    w.(packets := w.packets.(objs := w.packets.objs[p := w.packets.objs[p].(count := n)]))
  }

  /** releasePacket exactly as the source writes it: the header, the
      zeroed buffer, the emptied attribute map and the packet go back to
      their pools (Put ignores a nil pointer), and the packet keeps
      pointing at all three. */
  function ReleasePacketAsWritten(w: World, p: Ref): (r: World)
    requires Closed(w) && p < |w.packets.objs|
    ensures Closed(r)
  {
    var pk := w.packets.objs[p];
    var w1 := if pk.header.Some? then w.(headers := Put(w.headers, pk.header.value)) else w;
    var w2 :=
      if pk.buffer.Some? then
        var b := pk.buffer.value;
        w1.(buffers := Put(w1.buffers.(objs := w1.buffers.objs[b := Copy(w1.buffers.objs[b], BlankPayload)]), b))
      else w1;
    var w3 :=
      if pk.attr.Some? then
        var a := pk.attr.value;
        w2.(attrMaps := Put(w2.attrMaps.(objs := w2.attrMaps.objs[a := map[]]), a))
      else w2;
    w3.(packets := Put(w3.packets, p))
  }

  /** releasePacket as evidently intended: what the source does, and the
      packet's buffer, payload and attribute-map pointers cleared, so a
      recycled packet cannot reach objects that are back in the pools. */
  function ReleasePacket(w: World, p: Ref): (r: World)
    requires Closed(w) && p < |w.packets.objs|
    ensures Closed(r)
  {
    var w1 := ReleasePacketAsWritten(w, p);
    var pk := w1.packets.objs[p];
    w1.(packets := w1.packets.(objs := w1.packets.objs[p := pk.(buffer := None, payload := NilSlice, attr := None)]))
  }

  /** Release with releasePacket as the source writes it: drops one
      reference; the drop that reaches 0 hands the packet back. Nothing
      stops the count from going below zero. */
  function ReleaseAsWritten(w: World, p: Ref): (r: World)
    requires Closed(w) && p < |w.packets.objs|
    ensures Closed(r)
  {
    var pk := w.packets.objs[p];
    var w1 := SetCount(w, p, pk.count - 1);
    if pk.count - 1 == 0 then ReleasePacketAsWritten(w1, p) else w1
  }

  /** Release with the corrected releasePacket. */
  function Release(w: World, p: Ref): (r: World)
    requires Closed(w) && p < |w.packets.objs|
    ensures Closed(r)
  {
    var pk := w.packets.objs[p];
    var w1 := SetCount(w, p, pk.count - 1);
    if pk.count - 1 == 0 then ReleasePacket(w1, p) else w1
  }

  // ------------------------------------------------------------- proofs

  /** A packet that is complete restores the whole invariant. */
  lemma ValidOfReady(w: World, p: Ref)
    requires ValidExcept(w, p) && Ready(w, p)
    ensures Valid(w)
  {
  }

  /** AcquirePacket hands out a packet that was not live, with count 1
      and no buffer, payload or attribute map, and disturbs no live packet. */
  lemma AcquireValid(w: World, pick: nat)
    requires Valid(w)
    ensures var (w1, p) := AcquirePacket(w, pick);
      && !Live(w, p) && ValidExcept(w1, p)
      && w1.packets.objs[p].count == 1
      && w1.packets.objs[p].buffer.None? && w1.packets.objs[p].payload == NilSlice
      && w1.packets.objs[p].attr.None?
      && Undisturbed(w, w1, None)
  {
    var (ps, p) := Get(w.packets, ZeroPacket, pick);
    var w1 := AcquirePacket(w, pick).0;
    assert w1 == w.(packets := ps.(objs := ps.objs[p := ps.objs[p].(count := 1)]));
    assert !Live(w, p);
    assert w1.packets.objs[p].buffer.None? && w1.packets.objs[p].payload == NilSlice by {
      if w.packets.pool != [] {
        assert PooledShape(w.packets.objs[p]);
      }
    }
    forall q: Ref | Live(w1, q) && q != p
      ensures Live(w, q) && w1.packets.objs[q] == w.packets.objs[q]
    {
    }
    forall q: Ref | Live(w, q)
      ensures Live(w1, q) && q != p
    {
    }
    assert PoolsOk(w1);
  }

  /** AttachHeader gives packet p a header no live packet holds, set to
      `header`, and disturbs no other live packet. */
  lemma AttachHeaderValid(w: World, p: Ref, header: Header, pick: nat)
    requires ValidExcept(w, p)
    requires var pk := w.packets.objs[p];
      pk.count >= 1 && pk.buffer.None? && pk.payload == NilSlice && pk.attr.None?
    ensures var w' := AttachHeader(w, p, header, pick);
      && ValidExcept(w', p) && Ready(w', p)
      && HeaderOf(w', p) == Some(header)
      && w'.packets.objs[p] == w.packets.objs[p].(header := w'.packets.objs[p].header)
      && Undisturbed(w, w', Some(p))
  {
    var (hs, h) := Get(w.headers, ZeroHeader, pick);
    var w' := AttachHeader(w, p, header, pick);
    assert w' == w.(headers := hs.(objs := hs.objs[h := header]),
                    packets := w.packets.(objs := w.packets.objs[p := w.packets.objs[p].(header := Some(h))]));
    forall q: Ref | Live(w, q) && q != p
      ensures w.packets.objs[q].header != Some(h)
    {
      assert LiveShape(w, w.packets.objs[q]);
      assert RefsOk(w, w.packets.objs[q]);
    }
    assert PoolsOk(w');
  }

  /** AttachPayload gives packet p a buffer no live packet holds, holding
      `data`, so that p's payload reads back as `data`, and disturbs no
      other live packet. */
  lemma AttachPayloadValid(w: World, p: Ref, data: seq<uint8>, pick: nat)
    requires ValidExcept(w, p) && Ready(w, p)
    requires w.packets.objs[p].buffer.None? && |data| <= MaxPayloadLen
    ensures var w' := AttachPayload(w, p, data, pick);
      && ValidExcept(w', p) && Ready(w', p)
      && PayloadOf(w', p) == Some(data)
      && HeaderOf(w', p) == HeaderOf(w, p)
      && w'.packets.objs[p].count == w.packets.objs[p].count
      && w'.packets.objs[p].attr == w.packets.objs[p].attr
      && Undisturbed(w, w', Some(p))
  {
    var (bs, b) := Get(w.buffers, BlankPayload, pick);
    var w' := AttachPayload(w, p, data, pick);
    var bytes := Copy(bs.objs[b], data);
    assert w' == w.(buffers := bs.(objs := bs.objs[b := bytes]),
                    packets := w.packets.(objs := w.packets.objs[p := w.packets.objs[p].(buffer := Some(b), payload := Window(b, 0, |data|))]));
    forall q: Ref | Live(w, q) && q != p && w.packets.objs[q].buffer.Some?
      ensures w.packets.objs[q].buffer != Some(b)
    {
      assert LiveShape(w, w.packets.objs[q]);
      assert RefsOk(w, w.packets.objs[q]);
    }
    assert bytes[..|data|] == data;
    AttachPayloadPools(w, p, data, pick);
  }

  lemma AttachPayloadPools(w: World, p: Ref, data: seq<uint8>, pick: nat)
    requires PoolsOk(w) && Live(w, p)
    ensures var w' := AttachPayload(w, p, data, pick);
      PoolsOk(w') && Live(w', p) && w'.buffers.pool == Get(w.buffers, BlankPayload, pick).0.pool
  {
    var (bs, b) := Get(w.buffers, BlankPayload, pick);
    var w' := AttachPayload(w, p, data, pick);
    assert w' == w.(buffers := bs.(objs := bs.objs[b := Copy(bs.objs[b], data)]),
                    packets := w.packets.(objs := w.packets.objs[p := w.packets.objs[p].(buffer := Some(b), payload := Window(b, 0, Min(|bs.objs[b]|, |data|)))]));
  }

  /** AttachAttrs gives packet p an attribute map no live packet holds,
      holding exactly the entries of `attrs`, and disturbs no other live
      packet. */
  lemma AttachAttrsValid(w: World, p: Ref, attrs: Attrs, pick: nat)
    requires ValidExcept(w, p) && Ready(w, p)
    requires w.packets.objs[p].attr.None?
    ensures var w' := AttachAttrs(w, p, attrs, pick);
      && ValidExcept(w', p) && Ready(w', p)
      && AttributesOf(w', p) == Some(attrs)
      && HeaderOf(w', p) == HeaderOf(w, p)
      && PayloadOf(w', p) == PayloadOf(w, p)
      && w'.packets.objs[p].count == w.packets.objs[p].count
      && Undisturbed(w, w', Some(p))
  {
    var (ms, a) := Get(w.attrMaps, map[], pick);
    var w' := AttachAttrs(w, p, attrs, pick);
    assert w' == w.(attrMaps := ms.(objs := ms.objs[a := ms.objs[a] + attrs]),
                    packets := w.packets.(objs := w.packets.objs[p := w.packets.objs[p].(attr := Some(a))]));
    forall q: Ref | Live(w, q) && q != p && w.packets.objs[q].attr.Some?
      ensures w.packets.objs[q].attr != Some(a)
    {
      assert LiveShape(w, w.packets.objs[q]);
      assert RefsOk(w, w.packets.objs[q]);
    }
    assert ms.objs[a] == map[];
    assert ms.objs[a] + attrs == attrs;
    AttachAttrsPools(w, p, attrs, pick);
  }

  lemma AttachAttrsPools(w: World, p: Ref, attrs: Attrs, pick: nat)
    requires PoolsOk(w) && Live(w, p)
    ensures var w' := AttachAttrs(w, p, attrs, pick);
      PoolsOk(w') && Live(w', p) && w'.attrMaps.pool == Get(w.attrMaps, map[], pick).0.pool
  {
    var (ms, a) := Get(w.attrMaps, map[], pick);
    var w' := AttachAttrs(w, p, attrs, pick);
    assert w' == w.(attrMaps := ms.(objs := ms.objs[a := ms.objs[a] + attrs]),
                    packets := w.packets.(objs := w.packets.objs[p := w.packets.objs[p].(attr := Some(a))]));
  }

  /** Leaving a packet undisturbed composes. */
  lemma UndisturbedTrans(a: World, b: World, c: World, except: Option<Ref>)
    requires Closed(a) && Closed(b) && Closed(c)
    requires Undisturbed(a, b, except) && Undisturbed(b, c, except)
    ensures Undisturbed(a, c, except)
  {
  }

  /** NewPacket keeps the invariant. On success the packet it returns
      was not live, now is, has count 1, a header equal to (but not
      shared with) the caller's, exactly the caller's payload bytes (nil
      for nil) and exactly the caller's attributes (nil for nil); every
      packet live before is left as it was. */
  lemma NewPacketValid(w: World, header: Header, payload: Option<seq<uint8>>, attr: Option<Attrs>, picks: Picks)
    requires Valid(w)
    ensures var (w', r) := NewPacket(w, header, payload, attr, picks);
      && Valid(w')
      && Undisturbed(w, w', None)
      && (r.Ok? ==>
            && !Live(w, r.value) && Live(w', r.value)
            && w'.packets.objs[r.value].count == 1
            && HeaderOf(w', r.value) == Some(header)
            && PayloadOf(w', r.value) == payload
            && AttributesOf(w', r.value) == attr)
  {
    if payload.Some? && |payload.value| > MaxPayloadLen {
      return;
    }
    var (w1, p) := AcquirePacket(w, picks.packet);
    AcquireValid(w, picks.packet);
    var w2 := AttachHeader(w1, p, header, picks.header);
    AttachHeaderValid(w1, p, header, picks.header);
    UndisturbedTrans(w, w1, w2, Some(p));
    var w3 := w2;
    if payload.Some? {
      w3 := AttachPayload(w2, p, payload.value, picks.payload);
      AttachPayloadValid(w2, p, payload.value, picks.payload);
      UndisturbedTrans(w, w2, w3, Some(p));
    }
    var w4 := w3;
    if attr.Some? {
      w4 := AttachAttrs(w3, p, attr.value, picks.attr);
      AttachAttrsValid(w3, p, attr.value, picks.attr);
      UndisturbedTrans(w, w3, w4, Some(p));
    }
    assert NewPacket(w, header, payload, attr, picks) == (w4, Ok(p));
    ValidOfReady(w4, p);
  }

  /** Blanking a full-size buffer gives the blank buffer. */
  lemma BlankedIsBlank(buf: seq<uint8>)
    requires |buf| == MaxPayloadLen
    ensures Copy(buf, BlankPayload) == BlankPayload
  {
    var r := Copy(buf, BlankPayload);
    assert forall i | 0 <= i < |r| :: r[i] == BlankPayload[i];
  }

  /** What the corrected releasePacket changes: the packet's own pointers
      are cleared, its buffer is blanked and its map emptied, and the
      packet and the objects it held join their pools. */
  lemma ReleasePacketFrame(w: World, p: Ref)
    requires Closed(w) && p < |w.packets.objs|
    ensures var w' := ReleasePacket(w, p); var pk := w.packets.objs[p];
      && |w'.packets.objs| == |w.packets.objs|
      && w'.packets.objs == w.packets.objs[p := pk.(buffer := None, payload := NilSlice, attr := None)]
      && w'.headers.objs == w.headers.objs
      && w'.buffers.objs == (if pk.buffer.Some? then w.buffers.objs[pk.buffer.value := Copy(w.buffers.objs[pk.buffer.value], BlankPayload)] else w.buffers.objs)
      && w'.attrMaps.objs == (if pk.attr.Some? then w.attrMaps.objs[pk.attr.value := map[]] else w.attrMaps.objs)
      && w'.rtpPackets == w.rtpPackets
      && (forall x :: x in w'.packets.pool <==> x in w.packets.pool || x == p)
      && (forall x :: x in w'.headers.pool <==> x in w.headers.pool || Some(x) == pk.header)
      && (forall x :: x in w'.buffers.pool <==> x in w.buffers.pool || Some(x) == pk.buffer)
      && (forall x :: x in w'.attrMaps.pool <==> x in w.attrMaps.pool || Some(x) == pk.attr)
      && (NoDup(w.packets.pool) && p !in w.packets.pool ==> NoDup(w'.packets.pool))
      && (NoDup(w.headers.pool) && (pk.header.Some? ==> pk.header.value !in w.headers.pool) ==> NoDup(w'.headers.pool))
      && (NoDup(w.buffers.pool) && (pk.buffer.Some? ==> pk.buffer.value !in w.buffers.pool) ==> NoDup(w'.buffers.pool))
      && (NoDup(w.attrMaps.pool) && (pk.attr.Some? ==> pk.attr.value !in w.attrMaps.pool) ==> NoDup(w'.attrMaps.pool))
  {
  }

  /** The pools stay sound when the corrected releasePacket hands back a
      packet whose count has dropped to 0 and whose objects it alone holds. */
  lemma ReleasePacketPools(w: World, p: Ref)
    requires PoolsOk(w) && Live(w, p) && w.packets.objs[p].count == 0
    requires LiveShape(w, w.packets.objs[p].(count := 1))
    ensures var w' := ReleasePacket(w, p);
      && PoolsOk(w') && !Live(w', p)
      && w.packets.objs[p].header.value in w'.headers.pool
      && (w.packets.objs[p].buffer.Some? ==>
            && w.packets.objs[p].buffer.value in w'.buffers.pool
            && w'.buffers.objs[w.packets.objs[p].buffer.value] == BlankPayload)
      && (w.packets.objs[p].attr.Some? ==>
            && w.packets.objs[p].attr.value in w'.attrMaps.pool
            && w'.attrMaps.objs[w.packets.objs[p].attr.value] == map[])
  {
    var pk := w.packets.objs[p];
    ReleasePacketFrame(w, p);
    if pk.buffer.Some? {
      BlankedIsBlank(w.buffers.objs[pk.buffer.value]);
    }
  }

  /** Release keeps the invariant and leaves every other live packet as
      it was; it always lowers the count by one. The release that takes
      a live packet from 1 to 0 puts it back in the packet pool and its
      header, blanked buffer and emptied attribute map back in theirs;
      any other release changes the count and nothing else. */
  lemma ReleaseValid(w: World, p: Ref)
    requires Valid(w) && p < |w.packets.objs|
    ensures var w' := Release(w, p); var pk := w.packets.objs[p];
      && Valid(w')
      && Undisturbed(w, w', Some(p))
      && w'.packets.objs[p].count == pk.count - 1
      && (Live(w, p) && pk.count == 1 ==>
            && !Live(w', p)
            && pk.header.value in w'.headers.pool
            && (pk.buffer.Some? ==>
                  pk.buffer.value in w'.buffers.pool && w'.buffers.objs[pk.buffer.value] == BlankPayload)
            && (pk.attr.Some? ==>
                  pk.attr.value in w'.attrMaps.pool && w'.attrMaps.objs[pk.attr.value] == map[]))
      && (!(Live(w, p) && pk.count == 1) ==>
            && Live(w', p) == Live(w, p)
            && w'.packets.objs[p] == pk.(count := pk.count - 1)
            && w'.packets.pool == w.packets.pool
            && w'.headers == w.headers && w'.buffers == w.buffers && w'.attrMaps == w.attrMaps)
  {
    if Live(w, p) && w.packets.objs[p].count == 1 {
      LastReleaseValid(w, p);
    } else {
      OtherReleaseValid(w, p);
    }
  }

  /** A release that does not drop a live packet's last reference only
      lowers the count. */
  lemma OtherReleaseValid(w: World, p: Ref)
    requires Valid(w) && p < |w.packets.objs|
    requires !(Live(w, p) && w.packets.objs[p].count == 1)
    ensures var w' := Release(w, p); var pk := w.packets.objs[p];
      && w' == SetCount(w, p, pk.count - 1)
      && Valid(w')
      && Undisturbed(w, w', Some(p))
      && Live(w', p) == Live(w, p)
  {
    var pk := w.packets.objs[p];
    if p in w.packets.pool {
      assert PooledShape(pk);
    } else {
      assert LiveShape(w, pk);
    }
    SetCountValid(w, p, pk.count - 1);
  }

  /** The corrected releasePacket on a packet whose count has dropped
      to 0 restores the invariant and leaves the other live packets alone. */
  lemma ReleasePacketValid(w: World, p: Ref)
    requires ValidExcept(w, p) && w.packets.objs[p].count == 0
    requires LiveShape(w, w.packets.objs[p].(count := 1))
    requires forall q: Ref | Live(w, q) && q != p :: Disjoint(w.packets.objs[p], w.packets.objs[q])
    ensures var w' := ReleasePacket(w, p);
      && Valid(w')
      && Undisturbed(w, w', Some(p))
  {
    ReleasePacketPools(w, p);
    ReleasePacketFrame(w, p);
    var w' := ReleasePacket(w, p);
    forall q: Ref | Live(w', q)
      ensures Live(w, q) && q != p && w'.packets.objs[q] == w.packets.objs[q]
    {
    }
    ReleasePacketOthers(w, p);
  }

  /** The corrected releasePacket leaves every other live packet as it was. */
  lemma ReleasePacketOthers(w: World, p: Ref)
    requires Closed(w) && Live(w, p)
    requires forall q: Ref | Live(w, q) && q != p :: LiveShape(w, w.packets.objs[q])
    requires LiveShape(w, w.packets.objs[p].(count := 1))
    requires forall q: Ref | Live(w, q) && q != p :: Disjoint(w.packets.objs[p], w.packets.objs[q])
    ensures Undisturbed(w, ReleasePacket(w, p), Some(p))
  {
    ReleasePacketFrame(w, p);
  }

  /** The release of a live packet's last reference. */
  lemma LastReleaseValid(w: World, p: Ref)
    requires Valid(w) && Live(w, p) && w.packets.objs[p].count == 1
    ensures var w' := Release(w, p); var pk := w.packets.objs[p];
      && Valid(w')
      && Undisturbed(w, w', Some(p))
      && !Live(w', p)
      && pk.header.value in w'.headers.pool
      && (pk.buffer.Some? ==>
            pk.buffer.value in w'.buffers.pool && w'.buffers.objs[pk.buffer.value] == BlankPayload)
      && (pk.attr.Some? ==>
            pk.attr.value in w'.attrMaps.pool && w'.attrMaps.objs[pk.attr.value] == map[])
  {
    var w1 := SetCount(w, p, 0);
    LastDropValidExcept(w, p);
    ReleasePacketPools(w1, p);
    ReleasePacketValid(w1, p);
    UndisturbedTrans(w, w1, ReleasePacket(w1, p), Some(p));
  }

  /** Dropping a live packet's last reference, before releasePacket runs:
      the packet is still live with count 0 and owns its objects alone,
      and every other live packet is as it was. */
  lemma LastDropValidExcept(w: World, p: Ref)
    requires Valid(w) && Live(w, p) && w.packets.objs[p].count == 1
    ensures var pk := w.packets.objs[p];
      var w1 := SetCount(w, p, 0);
      && ValidExcept(w1, p)
      && w1.packets.objs[p] == pk.(count := 0)
      && LiveShape(w1, w1.packets.objs[p].(count := 1))
      && (forall q: Ref | Live(w1, q) && q != p :: Disjoint(w1.packets.objs[p], w1.packets.objs[q]))
      && Undisturbed(w, w1, Some(p))
  {
    var pk := w.packets.objs[p];
    assert LiveShape(w, pk);
  }

  /** Retain keeps the invariant. It fails with errPacketReleased, changing
      nothing, exactly when the count is 0; otherwise it raises the count
      by one and changes nothing else. */
  lemma RetainValid(w: World, p: Ref)
    requires Valid(w) && p < |w.packets.objs|
    ensures var (w', e) := Retain(w, p); var pk := w.packets.objs[p];
      && Valid(w')
      && (e.Some? <==> pk.count == 0)
      && (e.Some? ==> e.value == ErrPacketReleased && w' == w)
      && (e.None? ==>
            && w'.packets.objs[p] == pk.(count := pk.count + 1)
            && Live(w', p) == Live(w, p)
            && Undisturbed(w, w', Some(p)))
  {
    var pk := w.packets.objs[p];
    if pk.count == 0 {
      assert Retain(w, p) == (w, Some(ErrPacketReleased));
    } else {
      if p in w.packets.pool {
        assert PooledShape(pk);
      } else {
        assert LiveShape(w, pk);
      }
      SetCountValid(w, p, pk.count + 1);
      assert Retain(w, p) == (SetCount(w, p, pk.count + 1), None);
    }
  }

  /** Changing only a packet's count, within what its state allows, keeps
      the invariant and every other live packet. */
  lemma SetCountValid(w: World, p: Ref, n: int)
    requires Valid(w) && p < |w.packets.objs|
    requires Live(w, p) ==> n >= 1
    requires p in w.packets.pool ==> n <= 0
    ensures Closed(SetCount(w, p, n))
    ensures var w' := SetCount(w, p, n);
      && Valid(w') && Live(w', p) == Live(w, p) && Undisturbed(w, w', Some(p))
  {
    var pk := w.packets.objs[p];
    if p in w.packets.pool {
      assert PooledShape(pk);
    } else {
      assert LiveShape(w, pk);
    }
  }

  /** Retain then Release restores the packet exactly, unless the packet
      had been released (count 0). */
  lemma {:induction false} RetainThenRelease(w: World, p: Ref)
    requires Closed(w) && p < |w.packets.objs| && w.packets.objs[p].count != 0
    ensures Retain(w, p).1.None?
    ensures Release(Retain(w, p).0, p) == w
  {
    var pk := w.packets.objs[p];
    var w1 := Retain(w, p).0;
    assert w1.packets.objs[p].count - 1 == pk.count;
    assert w1.packets.objs[p := w1.packets.objs[p].(count := pk.count)] == w.packets.objs;
  }

  /** Once the last reference is released the packet cannot be retained again. */
  lemma ReleasedCannotBeRetained(w: World, p: Ref)
    requires Valid(w) && Live(w, p) && w.packets.objs[p].count == 1
    ensures var w' := Release(w, p);
      && !Live(w', p)
      && Retain(w', p) == (w', Some(ErrPacketReleased))
  {
    LastReleaseValid(w, p);
  }

  /** Nothing is allocated and every pool is empty at the start. */
  lemma EmptyWorldValid()
    ensures Valid(EmptyWorld)
  {
  }

  // The states of the scenario below, written out.
  const FirstPicks := Picks(0, 0, 0, 0)
  const Buffer1 := Copy(BlankPayload, [1])
  const Buffer7 := Copy(BlankPayload, [7])
  const ScenarioW1 := World(Store([Buffer1], []), Store([ZeroHeader], []), Store([], []),
                            Store([Packet(1, Some(0), Some(0), Window(0, 0, 1), None)], []), Store([], []))
  const ScenarioW2 := World(Store([BlankPayload], [0]), Store([ZeroHeader], [0]), Store([], []),
                            Store([Packet(0, Some(0), Some(0), Window(0, 0, 1), None)], [0]), Store([], []))
  const ScenarioW3 := World(Store([BlankPayload], [0]), Store([ZeroHeader], []), Store([], []),
                            Store([Packet(1, Some(0), Some(0), Window(0, 0, 1), None)], []), Store([], []))
  const ScenarioW3Header := World(Store([BlankPayload], [0]), Store([ZeroHeader, ZeroHeader], []), Store([], []),
                                  Store([Packet(1, Some(0), Some(0), Window(0, 0, 1), None),
                                         Packet(1, Some(1), None, NilSlice, None)], []), Store([], []))
  const ScenarioW4 := World(Store([Buffer7], []), Store([ZeroHeader, ZeroHeader], []), Store([], []),
                            Store([Packet(1, Some(0), Some(0), Window(0, 0, 1), None),
                                   Packet(1, Some(1), Some(0), Window(0, 0, 1), None)], []), Store([], []))
  const ScenarioW5 := World(Store([BlankPayload], [0]), Store([ZeroHeader, ZeroHeader], [0]), Store([], []),
                            Store([Packet(0, Some(0), Some(0), Window(0, 0, 1), None),
                                   Packet(1, Some(1), Some(0), Window(0, 0, 1), None)], [0]), Store([], []))

  lemma ScenarioStep1()
    ensures NewPacket(EmptyWorld, ZeroHeader, Some([1]), None, FirstPicks) == (ScenarioW1, Ok(0))
  {
    var w1 := EmptyWorld.(packets := Store([Packet(1, None, None, NilSlice, None)], []));
    assert EmptyWorld.packets.objs + [ZeroPacket] == [ZeroPacket];
    assert Get(EmptyWorld.packets, ZeroPacket, 0) == (Store([ZeroPacket], []), 0);
    assert [ZeroPacket][0 := ZeroPacket.(count := 1)] == [Packet(1, None, None, NilSlice, None)];
    assert AcquirePacket(EmptyWorld, 0) == (w1, 0);
    var w2 := w1.(headers := Store([ZeroHeader], []),
                  packets := Store([Packet(1, Some(0), None, NilSlice, None)], []));
    assert AttachHeader(w1, 0, ZeroHeader, 0) == w2;
    assert AttachPayload(w2, 0, [1], 0) == ScenarioW1;
  }

  lemma ScenarioStep2()
    ensures Closed(ScenarioW1) && ReleaseAsWritten(ScenarioW1, 0) == ScenarioW2
  {
    BlankedIsBlank(Buffer1);
  }

  lemma ScenarioStep3()
    ensures Closed(ScenarioW2) && NewPacket(ScenarioW2, ZeroHeader, None, None, FirstPicks) == (ScenarioW3, Ok(0))
  {
    var w1 := ScenarioW2.(packets := Store([Packet(1, Some(0), Some(0), Window(0, 0, 1), None)], []));
    assert Take([0], 0) == (0, []);
    assert Get(ScenarioW2.packets, ZeroPacket, 0) == (Store([Packet(0, Some(0), Some(0), Window(0, 0, 1), None)], []), 0);
    assert [Packet(0, Some(0), Some(0), Window(0, 0, 1), None)][0 := Packet(1, Some(0), Some(0), Window(0, 0, 1), None)]
        == [Packet(1, Some(0), Some(0), Window(0, 0, 1), None)];
    assert AcquirePacket(ScenarioW2, 0) == (w1, 0);
    assert AttachHeader(w1, 0, ZeroHeader, 0) == ScenarioW3;
  }

  lemma ScenarioStep4()
    ensures Closed(ScenarioW3) && NewPacket(ScenarioW3, ZeroHeader, Some([7]), None, FirstPicks) == (ScenarioW4, Ok(1))
  {
    ScenarioStep4Header();
    ScenarioStep4Payload();
  }

  /** The fourth step up to its header: a second packet and header are allocated. */
  lemma ScenarioStep4Header()
    ensures Closed(ScenarioW3)
    ensures AcquirePacket(ScenarioW3, 0).1 == 1
    ensures AttachHeader(AcquirePacket(ScenarioW3, 0).0, 1, ZeroHeader, 0) == ScenarioW3Header
  {
    var p0 := Packet(1, Some(0), Some(0), Window(0, 0, 1), None);
    var w1 := ScenarioW3.(packets := Store([p0, Packet(1, None, None, NilSlice, None)], []));
    assert ScenarioW3.packets.objs + [ZeroPacket] == [p0, ZeroPacket];
    assert Get(ScenarioW3.packets, ZeroPacket, 0) == (Store([p0, ZeroPacket], []), 1);
    assert [p0, ZeroPacket][1 := ZeroPacket.(count := 1)] == [p0, Packet(1, None, None, NilSlice, None)];
    assert AcquirePacket(ScenarioW3, 0) == (w1, 1);
  }

  /** The fourth step's payload: the pooled buffer is taken and [7] written into it. */
  lemma ScenarioStep4Payload()
    ensures Closed(ScenarioW3Header) && AttachPayload(ScenarioW3Header, 1, [7], 0) == ScenarioW4
  {
    var w := ScenarioW3Header;
    assert Take([0], 0) == (0, []);
    assert Get(w.buffers, BlankPayload, 0) == (Store([BlankPayload], []), 0);
    assert |BlankPayload| == MaxPayloadLen;
    assert w.packets.objs[1 := w.packets.objs[1].(buffer := Some(0), payload := Window(0, 0, 1))]
        == ScenarioW4.packets.objs;
  }

  lemma ScenarioStep5()
    ensures Closed(ScenarioW4) && ReleaseAsWritten(ScenarioW4, 0) == ScenarioW5
  {
    BlankedIsBlank(Buffer7);
  }

  /** The source's releasePacket lets a recycled packet reach another
      packet's buffer. Packet 0 is made with payload [1] and released; it
      is recycled for a packet with a nil payload, which still shows the
      released buffer's (blanked) first byte; a third packet takes that
      buffer from the pool and stores [7], which the recycled packet now
      shows too; releasing the recycled packet blanks the buffer under the
      live third packet, whose payload reads back as [0]. */
  lemma ReleaseAsWrittenCorrupts()
    ensures var (w1, r1) := NewPacket(EmptyWorld, ZeroHeader, Some([1]), None, FirstPicks);
      && r1 == Ok(0)
      && var w2 := ReleaseAsWritten(w1, 0);
      var (w3, r3) := NewPacket(w2, ZeroHeader, None, None, FirstPicks);
      && r3 == Ok(0) && PayloadOf(w3, 0) == Some([0])
      && var (w4, r4) := NewPacket(w3, ZeroHeader, Some([7]), None, FirstPicks);
      && r4 == Ok(1) && PayloadOf(w4, 0) == Some([7]) && PayloadOf(w4, 1) == Some([7])
      && var w5 := ReleaseAsWritten(w4, 0);
      && Live(w5, 1) && w5.packets.objs[1].count == 1
      && PayloadOf(w5, 1) == Some([0])
  {
    ScenarioStep1();
    ScenarioStep2();
    ScenarioStep3();
    ScenarioStep4();
    ScenarioStep5();
    assert BlankPayload[0..1] == [0];
    assert Buffer7[0..1] == [7];
  }
}
