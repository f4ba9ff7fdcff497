/** pkg/rtppool/rtppool.go: the pool of rtp.Packets a remote track reads
    into, and access to its PacketManager's payload pool. GetPayload and
    PutPayload work on the very Store that PacketManager.NewPacket takes
    its buffers from. */
module RtpPool {
  import opened Common
  import opened SyncPool
  import opened PacketManagement

  /** GetPacket: an rtp.Packet from the pool, or `&rtp.Packet{}`. */
  function GetPacket(w: World, pick: nat): (r: (World, Ref))
    requires Closed(w)
    ensures Closed(r.0) && r.1 < |r.0.rtpPackets.objs|
  {
    var (s, q) := Get(w.rtpPackets, ZeroRtpPacket, pick);
    (w.(rtpPackets := s), q)
  }

  /** copy(s, blankPayload) on a slice: zeroes its first
      min(len(s), maxPayloadLen) bytes, which for a slice of a pooled
      buffer is all of them. */
  function BlankSlice(w: World, s: Slice): (r: World)
    requires Closed(w) && SliceOk(w, s)
    ensures Closed(r)
  {
    if s.NilSlice? then w
    else
      var buf := w.buffers.objs[s.buf];
      var cleared := buf[..s.lo] + Copy(buf[s.lo..s.hi], BlankPayload) + buf[s.hi..];
      w.(buffers := w.buffers.(objs := w.buffers.objs[s.buf := cleared]))
  }

  /** PutPacket exactly as the source writes it: the header is reset to
      its zero value, the bytes under the payload slice are zeroed and the
      packet is pooled, still holding its payload slice. */
  function PutPacketAsWritten(w: World, q: Ref): (r: World)
    requires Closed(w) && q < |w.rtpPackets.objs|
    ensures Closed(r)
  {
    var pk := w.rtpPackets.objs[q];
    var w1 := BlankSlice(w, pk.payload);
    w1.(rtpPackets := Put(w1.rtpPackets.(objs := w1.rtpPackets.objs[q := pk.(header := ZeroHeader)]), q))
  }

  /** PutPacket as evidently intended: what the source does, and the
      payload slice dropped, so a pooled packet cannot reach a buffer that
      has gone back to the payload pool. */
  function PutPacket(w: World, q: Ref): (r: World)
    requires Closed(w) && q < |w.rtpPackets.objs|
    ensures Closed(r)
  {
    var pk := w.rtpPackets.objs[q];
    var w1 := BlankSlice(w, pk.payload);
    w1.(rtpPackets := Put(w1.rtpPackets.(objs := w1.rtpPackets.objs[q := pk.(header := ZeroHeader, payload := NilSlice)]), q))
  }

  /** GetPayload: a buffer from the PacketManager's payload pool. */
  function GetPayload(w: World, pick: nat): (r: (World, Ref))
    requires Closed(w)
    ensures Closed(r.0) && r.1 < |r.0.buffers.objs|
  {
    var (s, b) := Get(w.buffers, BlankPayload, pick);
    (w.(buffers := s), b)
  }

  /** PutPayload: the whole buffer is zeroed and goes back to the payload pool. */
  function PutPayload(w: World, b: Ref): (r: World)
    requires Closed(w) && b < |w.buffers.objs|
    ensures Closed(r)
  {
    w.(buffers := Put(w.buffers.(objs := w.buffers.objs[b := Copy(w.buffers.objs[b], BlankPayload)]), b))
  }

  /** RTPPool.NewPacket: PacketManager.NewPacket with the error dropped. */
  function NewPacket(w: World, header: Header, payload: Option<seq<uint8>>, attr: Option<Attrs>, picks: Picks)
    : (r: (World, Option<Ref>))
    requires Closed(w)
  {
    var (w', res) := PacketManagement.NewPacket(w, header, payload, attr, picks);
    (w', if res.Ok? then Some(res.value) else None)
  }

  // ------------------------------------------------------------- proofs

  /** A buffer that no live packet holds and that is not pooled: one a
      caller got from GetPayload and still owns. */
  ghost predicate Owned(w: World, b: Ref)
  {
    && b < |w.buffers.objs| && b !in w.buffers.pool
    && forall q: Ref | Live(w, q) :: w.packets.objs[q].buffer != Some(b)
  }

  /** RTPPool.NewPacket yields nil exactly when the payload is longer than
      maxPayloadLen, and otherwise the packet PacketManager.NewPacket makes. */
  lemma NewPacketNil(w: World, header: Header, payload: Option<seq<uint8>>, attr: Option<Attrs>, picks: Picks)
    requires Closed(w)
    ensures var (w', r) := NewPacket(w, header, payload, attr, picks);
      var (w'', res) := PacketManagement.NewPacket(w, header, payload, attr, picks);
      && (r.None? <==> payload.Some? && |payload.value| > MaxPayloadLen)
      && (r.None? ==> w' == w)
      && (r.Some? ==> w' == w'' && res == Ok(r.value))
  {
  }

  /** GetPayload hands out a buffer the caller then owns, holding only
      zeros, and disturbs no packet. */
  lemma GetPayloadValid(w: World, pick: nat)
    requires Valid(w)
    ensures var (w', b) := GetPayload(w, pick);
      && Valid(w') && Owned(w', b) && w'.buffers.objs[b] == BlankPayload
      && Undisturbed(w, w', None)
      && (forall x | x in w'.buffers.pool :: x in w.buffers.pool)
      && (b in w.buffers.pool || b == |w.buffers.objs|)
  {
    var (s, b) := Get(w.buffers, BlankPayload, pick);
    var w' := w.(buffers := s);
    forall q: Ref | Live(w', q)
      ensures w'.packets.objs[q].buffer != Some(b)
    {
      assert LiveShape(w, w.packets.objs[q]) && RefsOk(w, w.packets.objs[q]);
    }
  }

  /** PutPayload on an owned buffer keeps the invariant, blanks the whole
      buffer and pools it, and disturbs no packet. */
  lemma PutPayloadValid(w: World, b: Ref)
    requires Valid(w) && Owned(w, b)
    ensures var w' := PutPayload(w, b);
      && Valid(w') && w'.buffers.objs[b] == BlankPayload
      && (forall x :: x in w'.buffers.pool <==> x in w.buffers.pool || x == b)
      && Undisturbed(w, w', None)
  {
    BlankedIsBlank(w.buffers.objs[b]);
    var w' := PutPayload(w, b);
    forall q: Ref | Live(w, q)
      ensures LiveShape(w', w.packets.objs[q])
    {
      assert LiveShape(w, w.packets.objs[q]);
    }
  }

  /** PutPayload then NewPacket: with no other buffer pooled, the buffer
      just put back is the one the new packet's payload is copied into. */
  lemma PayloadPoolShared(w: World, b: Ref, header: Header, data: seq<uint8>, picks: Picks)
    requires Valid(w) && Owned(w, b) && w.buffers.pool == [] && |data| <= MaxPayloadLen
    ensures var w1 := PutPayload(w, b);
      var (w2, r) := PacketManagement.NewPacket(w1, header, Some(data), None, picks);
      r.Ok? && w2.packets.objs[r.value].buffer == Some(b)
  {
    var w1 := PutPayload(w, b);
    assert w1.buffers.pool == [b];
    PutPayloadValid(w, b);
    var (wa, p) := AcquirePacket(w1, picks.packet);
    AcquireValid(w1, picks.packet);
    var wh := AttachHeader(wa, p, header, picks.header);
    assert wh.buffers == w1.buffers;
    assert Take([b], picks.payload).0 == b;
  }

  /** GetPacket hands out an rtp.Packet that is out of the pool and holds
      no payload slice; only the rtp.Packet pool changes. */
  lemma GetPacketValid(w: World, pick: nat)
    requires Valid(w)
    ensures var (w', q) := GetPacket(w, pick);
      && Valid(w') && w' == w.(rtpPackets := w'.rtpPackets)
      && q !in w'.rtpPackets.pool && w'.rtpPackets.objs[q].payload == NilSlice
      && (q in w.rtpPackets.pool || q == |w.rtpPackets.objs|)
      && |w'.rtpPackets.objs| <= |w.rtpPackets.objs| + 1
      && (forall x :: x in w'.rtpPackets.pool <==> x in w.rtpPackets.pool && x != q)
      && Undisturbed(w, w', None)
  {
  }

  /** Zeroing a slice of a buffer that already holds only zeros changes nothing. */
  lemma BlankSliceOfBlank(w: World, s: Slice)
    requires Closed(w) && SliceOk(w, s)
    requires s.Window? ==> w.buffers.objs[s.buf] == BlankPayload
    ensures BlankSlice(w, s) == w
  {
    if s.Window? {
      var buf := w.buffers.objs[s.buf];
      var cleared := buf[..s.lo] + Copy(buf[s.lo..s.hi], BlankPayload) + buf[s.hi..];
      assert forall i | 0 <= i < |cleared| :: cleared[i] == buf[i];
      assert cleared == buf;
      assert w.buffers.objs[s.buf := cleared] == w.buffers.objs;
    }
  }

  /** The corrected PutPacket on an rtp.Packet out of the pool whose
      payload (if any) lies in a pooled buffer keeps the invariant: the
      packet is pooled with a zero header and no payload, and no buffer
      and no live packet changes. */
  lemma PutPacketValid(w: World, q: Ref)
    requires Valid(w) && q < |w.rtpPackets.objs| && q !in w.rtpPackets.pool
    requires w.rtpPackets.objs[q].payload.Window? ==> w.rtpPackets.objs[q].payload.buf in w.buffers.pool
    ensures var w' := PutPacket(w, q);
      && Valid(w') && w' == w.(rtpPackets := w'.rtpPackets)
      && |w'.rtpPackets.objs| == |w.rtpPackets.objs|
      && w'.rtpPackets.objs[q].header == ZeroHeader && w'.rtpPackets.objs[q].payload == NilSlice
      && (forall x :: x in w'.rtpPackets.pool <==> x in w.rtpPackets.pool || x == q)
      && Undisturbed(w, w', None)
  {
    BlankSliceOfBlank(w, w.rtpPackets.objs[q].payload);
  }
}
