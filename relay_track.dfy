/** relaytrack.go: a remote track relayed from elsewhere. Its constructor
    keeps none of its arguments, its accessors read the stored fields,
    its codec is looked up by MIME type, and reading through the byte
    interface is not implemented. */
module RelayTracks {
  import opened Common
  import Codecs

  /** webrtc.RTPCodecType: 0 (unset), audio, video. */
  datatype CodecType = CodecTypeUnknown | CodecTypeAudio | CodecTypeVideo

  /** RelayTrack's fields, without the mutex and the packet channel. */
  datatype RelayTrack = RelayTrack(
    id: string,
    streamId: string,
    payloadType: uint8,
    kind: CodecType,
    ssrc: uint32,
    mimeType: string,
    rid: string)

  /** The zero-valued RelayTrack. */
  const ZeroTrack := RelayTrack("", "", 0, CodecTypeUnknown, 0, "", "")

  /** NewTrackRelay: returns &RelayTrack{}, whatever it is given. */
  function NewTrackRelay(id: string, streamId: string, rid: string, kind: CodecType, ssrc: uint32,
                         mimeType: string): RelayTrack
  {
    ZeroTrack
  }

  function ID(t: RelayTrack): string { t.id }
  function RID(t: RelayTrack): string { t.rid }
  function PayloadType(t: RelayTrack): uint8 { t.payloadType }
  function Kind(t: RelayTrack): CodecType { t.kind }
  function StreamID(t: RelayTrack): string { t.streamId }
  function SSRC(t: RelayTrack): uint32 { t.ssrc }

  /** Every accessor of a new relay track yields the empty or zero value,
      and no argument of NewTrackRelay makes a difference. */
  lemma NewTrackRelayIsZero(id: string, streamId: string, rid: string, kind: CodecType, ssrc: uint32,
                            mimeType: string)
    ensures var t := NewTrackRelay(id, streamId, rid, kind, ssrc, mimeType);
      && ID(t) == "" && RID(t) == "" && StreamID(t) == ""
      && PayloadType(t) == 0 && Kind(t) == CodecTypeUnknown && SSRC(t) == 0
      && t == NewTrackRelay("", "", "", CodecTypeUnknown, 0, "")
  {
  }

  /** Msid: the stream ID, one space, then the track ID. */
  function Msid(t: RelayTrack): (s: string)
    ensures |s| == |StreamID(t)| + 1 + |ID(t)|
  {
    StreamID(t) + " " + ID(t)
  }

  /** The index of the first space in s, if any. */
  function FirstSpace(s: string): Option<nat>
  {
    if s == [] then None
    else if s[0] == ' ' then Some(0)
    else match FirstSpace(s[1..])
      case None => None
      case Some(i) => Some(i + 1)
  }

  /** When a has no space, the first space of a + rest is rest's first. */
  lemma {:induction false} FirstSpaceAfter(a: string, rest: string)
    requires forall i :: 0 <= i < |a| ==> a[i] != ' '
    requires rest != [] && rest[0] == ' '
    ensures FirstSpace(a + rest) == Some(|a|)
    decreases |a|
  {
    if a != [] {
      assert (a + rest)[1..] == a[1..] + rest;
      FirstSpaceAfter(a[1..], rest);
    } else {
      assert a + rest == rest;
    }
  }

  /** An msid splits back at its first space into the stream ID and the
      track ID, as long as the stream ID holds no space. */
  lemma MsidSplit(t: RelayTrack)
    requires forall i :: 0 <= i < |t.streamId| ==> t.streamId[i] != ' '
    ensures var s := Msid(t);
      && FirstSpace(s) == Some(|StreamID(t)|)
      && s[..|StreamID(t)|] == StreamID(t)
      && s[|StreamID(t)| + 1..] == ID(t)
  {
    assert Msid(t) == t.streamId + (" " + t.id);
    FirstSpaceAfter(t.streamId, " " + t.id);
  }

  /** Two tracks whose stream IDs hold no space have the same msid only
      when they have the same stream ID and track ID. */
  lemma MsidInjective(t: RelayTrack, u: RelayTrack)
    requires forall i :: 0 <= i < |t.streamId| ==> t.streamId[i] != ' '
    requires forall i :: 0 <= i < |u.streamId| ==> u.streamId[i] != ' '
    ensures Msid(t) == Msid(u) <==> StreamID(t) == StreamID(u) && ID(t) == ID(u)
  {
    MsidSplit(t);
    MsidSplit(u);
  }

  /** Codec: getRTPParameters of the stored MIME type. */
  function Codec(t: RelayTrack): Codecs.CodecParameters
  {
    Codecs.GetRtpParameters(t.mimeType)
  }

  /** The codec a relay track reports carries its MIME type, or is the
      zero value when no table entry does. */
  lemma CodecOfTrack(t: RelayTrack)
    ensures Codec(t).mimeType == t.mimeType || Codec(t) == Codecs.ZeroCodec
  {
    Codecs.FirstWithMimeCarries(Codecs.AudioCodecs, t.mimeType);
    Codecs.FirstWithMimeCarries(Codecs.VideoCodecs, t.mimeType);
  }

  /** A new relay track, whose MIME type is empty, reports the zero codec. */
  lemma CodecOfNewTrack(id: string, streamId: string, rid: string, kind: CodecType, ssrc: uint32,
                        mimeType: string)
    ensures Codec(NewTrackRelay(id, streamId, rid, kind, ssrc, mimeType)) == Codecs.ZeroCodec
  {
    forall i | 0 <= i < |Codecs.AudioCodecs|
      ensures Codecs.AudioCodecs[i].mimeType != ""
    {
      assert |Codecs.AudioCodecs[i].mimeType| > 0;
    }
    forall i | 0 <= i < |Codecs.VideoCodecs|
      ensures Codecs.VideoCodecs[i].mimeType != ""
    {
      var m := Codecs.VideoCodecs[i].mimeType;
      assert m == MimeTypeVP8 || m == MimeTypeRtx || m == MimeTypeH264 || m == MimeTypeVP9;
    }
    Codecs.FirstWithMimeNone(Codecs.AudioCodecs, "");
    Codecs.FirstWithMimeNone(Codecs.VideoCodecs, "");
  }

  /** What Read returns: a byte count, attributes and an error. */
  datatype ReadResult = ReadResult(n: int, attributes: Option<Attrs>, err: Option<Error>)

  const ErrReadNotImplemented := Error("relaytrack: not implemented, use ReadRTP instead")
  const ErrNotImplemented := Error("relaytrack: not implemented")

  /** Read: no bytes, nil attributes and an error pointing to ReadRTP,
      whatever the buffer. */
  function Read(t: RelayTrack, b: seq<uint8>): (r: ReadResult)
    ensures r.n == 0 && r.attributes.None? && r.err == Some(ErrReadNotImplemented)
  {
    ReadResult(0, None, Some(ErrReadNotImplemented))
  }

  /** SetReadDeadline: always fails. */
  function SetReadDeadline(t: RelayTrack, deadline: Time): (err: Option<Error>)
    ensures err.Some? && err.value == ErrNotImplemented
  {
    Some(ErrNotImplemented)
  }

  /** IsRelay: always true. */
  function IsRelay(t: RelayTrack): (relay: bool)
    ensures relay
  {
    true
  }
}
