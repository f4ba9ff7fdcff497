/** codec.go: the SFU's constant codec tables, the registration of the
    requested codecs with a media engine (each requested video codec
    bringing its retransmission entry, RFC 4588 section 8, along), and
    the lookup of a codec's parameters by MIME type. */
module Codecs {
  import opened Common
  import opened Utils

  /** webrtc.RTCPFeedback */
  datatype Feedback = Feedback(kind: string, parameter: string)

  /** webrtc.RTPCodecParameters: the codec capability and its payload type. */
  datatype CodecParameters = CodecParameters(
    mimeType: string,
    clockRate: uint32,
    channels: uint16,
    fmtpLine: string,
    feedback: seq<Feedback>,
    payloadType: uint8)

  /** The zero value of webrtc.RTPCodecParameters. */
  const ZeroCodec := CodecParameters("", 0, 0, "", [], 0)

  /** videoRTCPFeedback */
  const VideoFeedback := [Feedback("goog-remb", ""), Feedback("ccm", "fir"),
                          Feedback("nack", ""), Feedback("nack", "pli")]

  /** A primary video entry of videoCodecs: 90 kHz, no channels, the
      video feedback set. */
  function VideoCodec(mimeType: string, fmtpLine: string, payloadType: uint8): CodecParameters
  {
    CodecParameters(mimeType, 90000, 0, fmtpLine, VideoFeedback, payloadType)
  }

  /** A retransmission entry of videoCodecs: 90 kHz, no feedback. */
  function RtxCodec(fmtpLine: string, payloadType: uint8): CodecParameters
  {
    CodecParameters(MimeTypeRtx, 90000, 0, fmtpLine, [], payloadType)
  }

  /** videoCodecs, one primary entry and its retransmission entry per row. */
  const VideoCodecs: seq<CodecParameters> :=
    [VideoCodec(MimeTypeVP8, "", 96), RtxCodec("apt=96", 97)]
    + [VideoCodec(MimeTypeH264, "level-asymmetry-allowed=1;packetization-mode=1;profile-level-id=42001f", 102), RtxCodec("apt=102", 103)]
    + [VideoCodec(MimeTypeH264, "level-asymmetry-allowed=1;packetization-mode=0;profile-level-id=42001f", 104), RtxCodec("apt=104", 105)]
    + [VideoCodec(MimeTypeH264, "level-asymmetry-allowed=1;packetization-mode=1;profile-level-id=42e01f", 106), RtxCodec("apt=106", 107)]
    + [VideoCodec(MimeTypeH264, "level-asymmetry-allowed=1;packetization-mode=0;profile-level-id=42e01f", 108), RtxCodec("apt=108", 109)]
    + [VideoCodec(MimeTypeH264, "level-asymmetry-allowed=1;packetization-mode=1;profile-level-id=4d001f", 127), RtxCodec("apt=127", 125)]
    + [VideoCodec(MimeTypeH264, "level-asymmetry-allowed=1;packetization-mode=0;profile-level-id=4d001f", 39), RtxCodec("apt=39", 40)]
    + [VideoCodec(MimeTypeVP9, "profile-id=0", 98), RtxCodec("apt=98", 99)]
    + [VideoCodec(MimeTypeVP9, "profile-id=2", 100), RtxCodec("apt=100", 101)]
    + [VideoCodec(MimeTypeH264, "level-asymmetry-allowed=1;packetization-mode=1;profile-level-id=64001f", 112), RtxCodec("apt=112", 113)]

  /** audioCodecs: RED over Opus (payload type 111), then Opus. */
  const AudioCodecs: seq<CodecParameters> := [
    CodecParameters(MimeTypeRed, 48000, 2, "111/111", [], 63),
    CodecParameters(MimeTypeOpus, 48000, 2, "minptime=10;useinbandfec=1", [], 111)]

  /** The decimal digits of a uint8, as fmt's %d writes them. */
  function Decimal(n: uint8): (s: string)
    ensures 1 <= |s| <= 3
    ensures forall i :: 0 <= i < |s| ==> '0' <= s[i] <= '9'
  {
    if n < 10 then [Digit(n)]
    else if n < 100 then [Digit(n / 10), Digit(n % 10)]
    else [Digit(n / 100), Digit(n / 10 % 10), Digit(n % 10)]
  }

  function Digit(d: nat): (c: char)
    requires d < 10
    ensures '0' <= c <= '9'
  {
    ('0' as int + d) as char
  }

  /** Reads decimal digits back. */
  function ParseDecimal(s: string): nat
    requires forall i :: 0 <= i < |s| ==> '0' <= s[i] <= '9'
  {
    if s == [] then 0
    else ParseDecimal(s[..|s| - 1]) * 10 + (s[|s| - 1] as int - '0' as int)
  }

  /** Decimal loses nothing: parsing its digits gives the number back. */
  lemma DecimalRoundTrip(n: uint8)
    ensures ParseDecimal(Decimal(n)) == n
  {
    var s := Decimal(n);
    if n >= 100 {
      var hi := s[..2];
      assert hi == [Digit(n / 100), Digit(n / 10 % 10)];
      assert hi[..1] == [Digit(n / 100)];
      assert ParseDecimal(hi[..1]) == n / 100;
      assert ParseDecimal(hi) == n / 100 * 10 + n / 10 % 10;
      assert ParseDecimal(hi) == n / 10;
    } else if n >= 10 {
      assert s[..1] == [Digit(n / 10)];
      assert ParseDecimal(s[..1]) == n / 10;
    }
  }

  /** fmt.Sprintf("apt=%d", payloadType): the format parameter naming the
      payload type a retransmission stream repairs (RFC 4588 section 8). */
  function AptLine(payloadType: uint8): string
  {
    "apt=" + Decimal(payloadType)
  }

  /** Distinct payload types have distinct apt lines. */
  lemma AptLineInjective(a: uint8, b: uint8)
    ensures AptLine(a) == AptLine(b) <==> a == b
  {
    assert AptLine(a)[4..] == Decimal(a);
    assert AptLine(b)[4..] == Decimal(b);
    DecimalRoundTrip(a);
    DecimalRoundTrip(b);
  }

  /** A retransmission entry (RFC 4588): its MIME type is video/rtx. */
  predicate IsRetransmission(c: CodecParameters)
  {
    c.mimeType == MimeTypeRtx
  }

  /** All codecs the SFU can offer, audio first. */
  function AllCodecs(): seq<CodecParameters>
  {
    AudioCodecs + VideoCodecs
  }

  /** The position of each payload type in the audio-then-video table, -1
      for any other; a left inverse of the table, so no type repeats. */
  function PayloadTypeIndex(pt: int): int
  {
    if pt == 63 then 0 else if pt == 111 then 1
    else if pt == 96 then 2 else if pt == 97 then 3
    else if pt == 102 then 4 else if pt == 103 then 5
    else if pt == 104 then 6 else if pt == 105 then 7
    else if pt == 106 then 8 else if pt == 107 then 9
    else if pt == 108 then 10 else if pt == 109 then 11
    else if pt == 127 then 12 else if pt == 125 then 13
    else if pt == 39 then 14 else if pt == 40 then 15
    else if pt == 98 then 16 else if pt == 99 then 17
    else if pt == 100 then 18 else if pt == 101 then 19
    else if pt == 112 then 20 else if pt == 113 then 21
    else -1
  }

  /** Each video entry sits at its payload type's position, after the two
      audio entries. */
  lemma VideoPosition(i: nat)
    requires i < 20
    ensures |VideoCodecs| == 20 && PayloadTypeIndex(VideoCodecs[i].payloadType) == i + 2
  {
    if i < 10 {
      VideoPositionFirst(i);
    } else {
      VideoPositionLast(i);
    }
  }

  lemma VideoPositionFirst(i: nat)
    requires i < 10
    ensures |VideoCodecs| == 20 && PayloadTypeIndex(VideoCodecs[i].payloadType) == i + 2
  {
    assert forall k :: 0 <= k < 10 ==> PayloadTypeIndex(VideoCodecs[k].payloadType) == k + 2;
  }

  lemma VideoPositionLast(i: nat)
    requires 10 <= i < 20
    ensures |VideoCodecs| == 20 && PayloadTypeIndex(VideoCodecs[i].payloadType) == i + 2
  {
    assert forall k :: 10 <= k < 20 ==> PayloadTypeIndex(VideoCodecs[k].payloadType) == k + 2;
  }

  /** No two entries of the two tables share a payload type. */
  lemma PayloadTypesDistinct()
    ensures |AllCodecs()| == 22
    ensures forall i, j :: 0 <= i < j < |AllCodecs()| ==> AllCodecs()[i].payloadType != AllCodecs()[j].payloadType
  {
    var all := AllCodecs();
    forall i | 0 <= i < 22
      ensures PayloadTypeIndex(all[i].payloadType) == i
    {
      if i < 2 {
        assert all[i] == AudioCodecs[i];
      } else {
        assert all[i] == VideoCodecs[i - 2];
        VideoPosition(i - 2);
      }
    }
  }

  /** The entries of t that retransmit payload type pt, in table order:
      what the inner loop of RegisterCodecs' third phase selects. */
  function RtxFor(t: seq<CodecParameters>, pt: uint8): seq<CodecParameters>
  {
    if t == [] then []
    else RtxFor(t[..|t| - 1], pt)
         + (if IsRetransmission(t[|t| - 1]) && t[|t| - 1].fmtpLine == AptLine(pt) then [t[|t| - 1]] else [])
  }

  lemma RtxForSnoc(t: seq<CodecParameters>, j: nat, pt: uint8)
    requires j < |t|
    ensures RtxFor(t[..j + 1], pt)
         == RtxFor(t[..j], pt)
            + if IsRetransmission(t[j]) && t[j].fmtpLine == AptLine(pt) then [t[j]] else []
  {
    assert t[..j + 1][..j] == t[..j];
  }

  /** An entry belongs to RtxFor(t, pt) exactly when it is a
      retransmission entry of t whose apt line names pt. */
  lemma {:induction false} RtxForMembership(t: seq<CodecParameters>, pt: uint8, c: CodecParameters)
    ensures c in RtxFor(t, pt) <==> c in t && IsRetransmission(c) && c.fmtpLine == AptLine(pt)
    decreases |t|
  {
    if t != [] {
      RtxForMembership(t[..|t| - 1], pt, c);
      assert t == t[..|t| - 1] + [t[|t| - 1]];
    }
  }

  /** When exactly the entry at k matches, RtxFor selects just that entry. */
  lemma {:induction false} RtxForSingle(t: seq<CodecParameters>, pt: uint8, k: int)
    requires forall j :: 0 <= j < |t| ==>
               (IsRetransmission(t[j]) && t[j].fmtpLine == AptLine(pt) <==> j == k)
    ensures RtxFor(t, pt) == if 0 <= k < |t| then [t[k]] else []
    decreases |t|
  {
    if t != [] {
      var init := t[..|t| - 1];
      forall j | 0 <= j < |init|
        ensures IsRetransmission(init[j]) && init[j].fmtpLine == AptLine(pt) <==> j == k
      {
        assert init[j] == t[j];
      }
      RtxForSingle(init, pt, k);
      if 0 <= k < |init| {
        assert init[k] == t[k];
      }
    }
  }

  /** Row r of a table laid out in pairs: its primary entry and the entry
      after it. */
  function Primary(t: seq<CodecParameters>, r: nat): CodecParameters
    requires 2 * r + 1 < |t|
  {
    t[2 * r]
  }

  function Repair(t: seq<CodecParameters>, r: nat): CodecParameters
    requires 2 * r + 1 < |t|
  {
    t[2 * r + 1]
  }

  /** Row r of t: a primary entry, then the retransmission entry whose apt
      line names the primary's payload type. */
  ghost predicate RowShaped(t: seq<CodecParameters>, r: nat)
    requires 2 * r + 1 < |t|
  {
    && !IsRetransmission(Primary(t, r))
    && IsRetransmission(Repair(t, r))
    && Repair(t, r).fmtpLine == AptLine(Primary(t, r).payloadType)
  }

  /** A table laid out as videoCodecs is: rows of a primary entry and the
      retransmission entry whose apt line names it, and no payload type
      twice. */
  ghost predicate PairedTable(t: seq<CodecParameters>, rows: nat)
  {
    && |t| == 2 * rows
    && (forall r: nat :: r < rows ==> RowShaped(t, r))
    && (forall i, j :: 0 <= i < j < |t| ==> t[i].payloadType != t[j].payloadType)
  }

  /** Rows 0 to 3 of videoCodecs are shaped so. */
  lemma VideoRowsFirst(r: nat)
    requires r < 4
    ensures |VideoCodecs| == 20 && RowShaped(VideoCodecs, r)
  {
    assert MimeTypeVP8[6] != MimeTypeRtx[6];
    assert |MimeTypeH264| != |MimeTypeRtx|;
    if r == 0 { assert RowShaped(VideoCodecs, 0); }
    else if r == 1 { assert RowShaped(VideoCodecs, 1); }
    else if r == 2 { assert RowShaped(VideoCodecs, 2); }
    else { assert RowShaped(VideoCodecs, 3); }
  }

  /** Rows 4 to 6 of videoCodecs are shaped so. */
  lemma VideoRowsMiddle(r: nat)
    requires 4 <= r < 7
    ensures |VideoCodecs| == 20 && RowShaped(VideoCodecs, r)
  {
    assert |MimeTypeH264| != |MimeTypeRtx|;
    if r == 4 { assert RowShaped(VideoCodecs, 4); }
    else if r == 5 { assert RowShaped(VideoCodecs, 5); }
    else { assert RowShaped(VideoCodecs, 6); }
  }

  /** Rows 7 to 9 of videoCodecs are shaped so. */
  lemma VideoRowsLast(r: nat)
    requires 7 <= r < 10
    ensures |VideoCodecs| == 20 && RowShaped(VideoCodecs, r)
  {
    assert MimeTypeVP9[6] != MimeTypeRtx[6];
    assert |MimeTypeH264| != |MimeTypeRtx|;
    if r == 7 { assert RowShaped(VideoCodecs, 7); }
    else if r == 8 { assert RowShaped(VideoCodecs, 8); }
    else { assert RowShaped(VideoCodecs, 9); }
  }

  /** videoCodecs is laid out in ten such rows. */
  lemma VideoTableShape()
    ensures |VideoCodecs| == 20
    ensures forall r: nat :: r < 10 ==> RowShaped(VideoCodecs, r)
  {
    VideoRowsFirst(0);
    forall r: nat | r < 10
      ensures RowShaped(VideoCodecs, r)
    {
      if r < 4 { VideoRowsFirst(r); }
      else if r < 7 { VideoRowsMiddle(r); }
      else { VideoRowsLast(r); }
    }
  }

  /** In such a table a retransmission entry whose apt line names payload
      type pt is the repair entry of the row whose primary entry carries pt. */
  lemma PairedTableMatch(t: seq<CodecParameters>, rows: nat, r: nat, j: nat)
    requires PairedTable(t, rows) && r < rows && j < |t|
    requires IsRetransmission(t[j]) && t[j].fmtpLine == AptLine(Primary(t, r).payloadType)
    ensures j == 2 * r + 1
  {
    var q := j / 2;
    assert j == 2 * q || j == 2 * q + 1;
    assert RowShaped(t, q);
    assert !IsRetransmission(Primary(t, q));
    assert j == 2 * q + 1;
    assert Repair(t, q).fmtpLine == AptLine(Primary(t, q).payloadType);
    AptLineInjective(Primary(t, q).payloadType, Primary(t, r).payloadType);
  }

  /** Row by row: a primary entry is repaired by its row's repair entry
      alone. */
  lemma PairedTablePrimaryRtx(t: seq<CodecParameters>, rows: nat, r: nat)
    requires PairedTable(t, rows) && r < rows
    ensures RtxFor(t, Primary(t, r).payloadType) == [Repair(t, r)]
  {
    var pt := Primary(t, r).payloadType;
    assert RowShaped(t, r);
    forall j | 0 <= j < |t| && IsRetransmission(t[j]) && t[j].fmtpLine == AptLine(pt)
      ensures j == 2 * r + 1
    {
      PairedTableMatch(t, rows, r, j);
    }
    RtxForSingle(t, pt, 2 * r + 1);
  }

  /** A repair entry is repaired by no entry. */
  lemma PairedTableRepairRtx(t: seq<CodecParameters>, rows: nat, r: nat)
    requires PairedTable(t, rows) && r < rows
    ensures RtxFor(t, Repair(t, r).payloadType) == []
  {
    var pt := Repair(t, r).payloadType;
    forall j | 0 <= j < |t|
      ensures !(IsRetransmission(t[j]) && t[j].fmtpLine == AptLine(pt))
    {
      PairedTableNoRepair(t, rows, r, j);
    }
    RtxForSingle(t, pt, -1);
  }

  /** No retransmission entry's apt line names a repair entry's payload
      type. */
  lemma PairedTableNoRepair(t: seq<CodecParameters>, rows: nat, r: nat, j: nat)
    requires PairedTable(t, rows) && r < rows && j < |t|
    ensures !(IsRetransmission(t[j]) && t[j].fmtpLine == AptLine(Repair(t, r).payloadType))
  {
    var pt := Repair(t, r).payloadType;
    var q := j / 2;
    assert j == 2 * q || j == 2 * q + 1;
    assert RowShaped(t, q);
    assert !IsRetransmission(Primary(t, q));
    assert Repair(t, q).fmtpLine == AptLine(Primary(t, q).payloadType);
    AptLineInjective(Primary(t, q).payloadType, pt);
    assert 2 * q != 2 * r + 1;
  }

  /** No two video entries share a payload type. */
  lemma VideoPayloadTypesDistinct()
    ensures forall i, j :: 0 <= i < j < |VideoCodecs| ==> VideoCodecs[i].payloadType != VideoCodecs[j].payloadType
  {
    PayloadTypesDistinct();
    assert forall i :: 0 <= i < |VideoCodecs| ==> VideoCodecs[i] == AllCodecs()[i + 2];
  }

  /** Every primary video entry is paired with exactly one retransmission
      entry, the one after it; a retransmission entry has none. */
  lemma RtxPairing(r: nat)
    requires r < 10
    ensures RtxFor(VideoCodecs, Primary(VideoCodecs, r).payloadType) == [Repair(VideoCodecs, r)]
    ensures RtxFor(VideoCodecs, Repair(VideoCodecs, r).payloadType) == []
  {
    VideoTableShape();
    VideoPayloadTypesDistinct();
    PairedTablePrimaryRtx(VideoCodecs, 10, r);
    PairedTableRepairRtx(VideoCodecs, 10, r);
  }

  /** The entries of t whose MIME type is requested, in table order. */
  function Requested(t: seq<CodecParameters>, codecs: seq<string>): seq<CodecParameters>
  {
    if t == [] then []
    else Requested(t[..|t| - 1], codecs)
         + (if t[|t| - 1].mimeType in codecs then [t[|t| - 1]] else [])
  }

  lemma {:induction false} RequestedMembership(t: seq<CodecParameters>, codecs: seq<string>, c: CodecParameters)
    ensures c in Requested(t, codecs) <==> c in t && c.mimeType in codecs
    decreases |t|
  {
    if t != [] {
      RequestedMembership(t[..|t| - 1], codecs, c);
      assert t == t[..|t| - 1] + [t[|t| - 1]];
    }
  }

  /** The retransmission entries registered for the recorded video codecs:
      for each, in order, every entry of videoCodecs whose apt line names it. */
  function RtxPhase(table: seq<CodecParameters>, registered: seq<CodecParameters>): seq<CodecParameters>
  {
    if registered == [] then []
    else RtxPhase(table, registered[..|registered| - 1])
         + RtxFor(table, registered[|registered| - 1].payloadType)
  }

  lemma {:induction false} RtxPhaseMembership(table: seq<CodecParameters>, registered: seq<CodecParameters>, c: CodecParameters)
    ensures c in RtxPhase(table, registered)
        <==> exists p :: p in registered && c in RtxFor(table, p.payloadType)
    decreases |registered|
  {
    if registered != [] {
      var init := registered[..|registered| - 1];
      RtxPhaseMembership(table, init, c);
      assert registered == init + [registered[|registered| - 1]];
    }
  }

  datatype CodecKind = Audio | Video

  /** One call of MediaEngine.RegisterCodec. */
  datatype Registration = Registration(codec: CodecParameters, kind: CodecKind)

  /** The RegisterCodec calls for a list of codecs, all of one kind. */
  function Tagged(cs: seq<CodecParameters>, kind: CodecKind): seq<Registration>
  {
    if cs == [] then []
    else Tagged(cs[..|cs| - 1], kind) + [Registration(cs[|cs| - 1], kind)]
  }

  /** One call per codec, in the codecs' order. */
  lemma {:induction false} TaggedIndex(cs: seq<CodecParameters>, kind: CodecKind)
    ensures |Tagged(cs, kind)| == |cs|
    ensures forall i :: 0 <= i < |cs| ==> Tagged(cs, kind)[i] == Registration(cs[i], kind)
    decreases |cs|
  {
    if cs != [] {
      TaggedIndex(cs[..|cs| - 1], kind);
    }
  }

  /** A call is among those for a list of codecs of one kind exactly when
      it is of that kind and its codec is in the list. */
  lemma {:induction false} TaggedMembership(cs: seq<CodecParameters>, kind: CodecKind, reg: Registration)
    ensures reg in Tagged(cs, kind) <==> reg.kind == kind && reg.codec in cs
    decreases |cs|
  {
    if cs != [] {
      TaggedMembership(cs[..|cs| - 1], kind, reg);
      assert cs == cs[..|cs| - 1] + [cs[|cs| - 1]];
    }
  }

  lemma {:induction false} TaggedAppend(a: seq<CodecParameters>, b: seq<CodecParameters>, kind: CodecKind)
    ensures Tagged(a + b, kind) == Tagged(a, kind) + Tagged(b, kind)
    decreases |b|
  {
    if b == [] {
      assert a + b == a;
    } else {
      assert (a + b)[..|a + b| - 1] == a + b[..|b| - 1];
      TaggedAppend(a, b[..|b| - 1], kind);
    }
  }

  /** The registrations RegisterCodecs makes, in order: the requested
      audio codecs, the requested video codecs, then the retransmission
      entries of the video codecs requested. */
  function Registrations(codecs: seq<string>): seq<Registration>
  {
    RegistrationsFrom(AudioCodecs, VideoCodecs, codecs)
  }

  /** Registrations over given audio and video tables. */
  function RegistrationsFrom(audio: seq<CodecParameters>, video: seq<CodecParameters>, codecs: seq<string>): seq<Registration>
  {
    var recorded := Requested(video, codecs);
    Tagged(Requested(audio, codecs), Audio) + Tagged(recorded, Video) + Tagged(RtxPhase(video, recorded), Video)
  }

  /** An audio codec is registered iff it is an entry of the audio table
      whose MIME type is requested. */
  lemma AudioRegisteredIff(audio: seq<CodecParameters>, video: seq<CodecParameters>,
                           codecs: seq<string>, c: CodecParameters)
    ensures Registration(c, Audio) in RegistrationsFrom(audio, video, codecs)
        <==> c in audio && c.mimeType in codecs
  {
    var reg := Registration(c, Audio);
    var requested := Requested(audio, codecs);
    var recorded := Requested(video, codecs);
    var repairs := RtxPhase(video, recorded);
    RequestedMembership(audio, codecs, c);
    TaggedMembership(requested, Audio, reg);
    TaggedMembership(recorded, Video, reg);
    TaggedMembership(repairs, Video, reg);
    assert RegistrationsFrom(audio, video, codecs)
        == Tagged(requested, Audio) + Tagged(recorded, Video) + Tagged(repairs, Video);
  }

  /** Registration order: every audio registration precedes every video one. */
  lemma AudioBeforeVideo(audio: seq<CodecParameters>, video: seq<CodecParameters>, codecs: seq<string>)
    ensures var r := RegistrationsFrom(audio, video, codecs);
      forall i, j :: 0 <= i < j < |r| && r[j].kind == Audio ==> r[i].kind == Audio
  {
    var recorded := Requested(video, codecs);
    TaggedIndex(Requested(audio, codecs), Audio);
    TaggedIndex(recorded, Video);
    TaggedIndex(RtxPhase(video, recorded), Video);
  }

  /** The video phases: a video entry is recorded iff its MIME type is
      requested, and the retransmission phase brings exactly the
      retransmission entries whose apt line names a recorded entry. */
  lemma VideoPhases(video: seq<CodecParameters>, codecs: seq<string>, c: CodecParameters)
    ensures c in Requested(video, codecs) <==> c in video && c.mimeType in codecs
    ensures c in RtxPhase(video, Requested(video, codecs))
        <==> c in video && IsRetransmission(c)
             && exists p :: p in video && p.mimeType in codecs && c.fmtpLine == AptLine(p.payloadType)
  {
    var recorded := Requested(video, codecs);
    RequestedMembership(video, codecs, c);
    RtxPhaseMembership(video, recorded, c);
    if c in RtxPhase(video, recorded) {
      var p :| p in recorded && c in RtxFor(video, p.payloadType);
      RequestedMembership(video, codecs, p);
      RtxForMembership(video, p.payloadType, c);
    }
    if c in video && IsRetransmission(c)
       && exists p :: p in video && p.mimeType in codecs && c.fmtpLine == AptLine(p.payloadType) {
      var p :| p in video && p.mimeType in codecs && c.fmtpLine == AptLine(p.payloadType);
      RequestedMembership(video, codecs, p);
      RtxForMembership(video, p.payloadType, c);
    }
  }

  /** In a paired table, an entry repaired by c is the primary entry of
      c's row. */
  lemma PairedRowOf(t: seq<CodecParameters>, rows: nat, i: nat, c: CodecParameters)
    requires PairedTable(t, rows) && i < |t|
    requires c in RtxFor(t, t[i].payloadType)
    ensures i / 2 < rows && t[i] == Primary(t, i / 2) && c == Repair(t, i / 2)
  {
    var r := i / 2;
    assert i == 2 * r || i == 2 * r + 1;
    RtxForMembership(t, t[i].payloadType, c);
    var j :| 0 <= j < |t| && t[j] == c;
    if i == 2 * r + 1 {
      PairedTableNoRepair(t, rows, r, j);
      assert false;
    }
    PairedTableMatch(t, rows, r, j);
  }

  /** In a paired table, each retransmission entry registered repairs a
      row whose primary codec is requested. */
  lemma PairedRepairSound(t: seq<CodecParameters>, rows: nat, codecs: seq<string>, c: CodecParameters)
    requires PairedTable(t, rows)
    requires c in RtxPhase(t, Requested(t, codecs))
    ensures exists r: nat :: r < rows && c == Repair(t, r) && Primary(t, r).mimeType in codecs
  {
    var recorded := Requested(t, codecs);
    RtxPhaseMembership(t, recorded, c);
    var p :| p in recorded && c in RtxFor(t, p.payloadType);
    RequestedMembership(t, codecs, p);
    var i :| 0 <= i < |t| && t[i] == p;
    PairedRowOf(t, rows, i, c);
  }

  /** In a paired table, the repair entry of a row whose primary codec is
      requested is registered. */
  lemma PairedRepairComplete(t: seq<CodecParameters>, rows: nat, codecs: seq<string>, r: nat)
    requires PairedTable(t, rows) && r < rows
    requires Primary(t, r).mimeType in codecs
    ensures Repair(t, r) in RtxPhase(t, Requested(t, codecs))
  {
    var p := Primary(t, r);
    var recorded := Requested(t, codecs);
    RequestedMembership(t, codecs, p);
    PairedTablePrimaryRtx(t, rows, r);
    assert p in recorded && Repair(t, r) in RtxFor(t, p.payloadType);
    RtxPhaseMembership(t, recorded, Repair(t, r));
  }

  /** With the SFU's video table: the retransmission entries registered
      are those of the ten rows whose primary codec is requested. */
  lemma RepairsRegistered(codecs: seq<string>, c: CodecParameters)
    ensures c in RtxPhase(VideoCodecs, Requested(VideoCodecs, codecs))
        <==> exists r: nat :: r < 10 && c == Repair(VideoCodecs, r)
                              && Primary(VideoCodecs, r).mimeType in codecs
  {
    VideoTableShape();
    VideoPayloadTypesDistinct();
    if c in RtxPhase(VideoCodecs, Requested(VideoCodecs, codecs)) {
      PairedRepairSound(VideoCodecs, 10, codecs, c);
    }
    forall r: nat | r < 10 && c == Repair(VideoCodecs, r) && Primary(VideoCodecs, r).mimeType in codecs
      ensures c in RtxPhase(VideoCodecs, Requested(VideoCodecs, codecs))
    {
      PairedRepairComplete(VideoCodecs, 10, codecs, r);
    }
  }

  /** The errors the engine reports for regs, made after history. */
  function Failures(verdict: (seq<Registration>, Registration) -> Option<Error>,
                    history: seq<Registration>, regs: seq<Registration>): seq<Error>
  {
    if regs == [] then []
    else
      var before := regs[..|regs| - 1];
      Failures(verdict, history, before)
      + match verdict(history + before, regs[|regs| - 1]) {
          case Some(e) => [e]
          case None => []
        }
  }

  /** webrtc.MediaEngine as RegisterCodecs uses it: it logs every
      registration and answers with whatever error the engine's rules give
      for that registration after the ones before it. */
  class MediaEngine {
    var calls: seq<Registration>
    const verdict: (seq<Registration>, Registration) -> Option<Error>

    constructor (verdict: (seq<Registration>, Registration) -> Option<Error>)
      ensures calls == [] && this.verdict == verdict
    {
      calls := [];
      this.verdict := verdict;
    }

    method RegisterCodec(codec: CodecParameters, kind: CodecKind) returns (err: Option<Error>)
      modifies this`calls
      ensures calls == old(calls) + [Registration(codec, kind)]
      ensures err == verdict(old(calls), Registration(codec, kind))
    {
      err := verdict(calls, Registration(codec, kind));
      calls := calls + [Registration(codec, kind)];
    }
  }

  /** One registration made by RegisterCodecs: the engine logs it and its
      error, if any, joins the list. */
  lemma FailuresStep(verdict: (seq<Registration>, Registration) -> Option<Error>,
                     history: seq<Registration>, done: seq<Registration>, r: Registration)
    ensures Failures(verdict, history, done + [r])
         == Failures(verdict, history, done)
            + match verdict(history + done, r) { case Some(e) => [e] case None => [] }
  {
    assert (done + [r])[..|done + [r]| - 1] == done;
  }

  /** The errors of consecutive runs of registrations add up. */
  lemma {:induction false} FailuresAppend(verdict: (seq<Registration>, Registration) -> Option<Error>,
                                          history: seq<Registration>, a: seq<Registration>, b: seq<Registration>)
    ensures Failures(verdict, history, a + b)
         == Failures(verdict, history, a) + Failures(verdict, history + a, b)
    decreases |b|
  {
    if b == [] {
      assert a + b == a;
    } else {
      var b' := b[..|b| - 1];
      assert (a + b)[..|a + b| - 1] == a + b';
      assert (history + a) + b' == history + (a + b');
      FailuresAppend(verdict, history, a, b');
    }
  }

  /** The first two loops of RegisterCodecs: registers, in table order,
      every entry of the table whose MIME type is requested, collecting
      the engine's errors and recording each entry whatever the engine
      answers. */
  method RegisterRequested(m: MediaEngine, table: seq<CodecParameters>, kind: CodecKind, codecs: seq<string>)
    returns (errors: seq<Error>, registered: seq<CodecParameters>)
    modifies m
    ensures registered == Requested(table, codecs)
    ensures m.calls == old(m.calls) + Tagged(registered, kind)
    ensures errors == Failures(m.verdict, old(m.calls), Tagged(registered, kind))
  {
    errors, registered := [], [];
    ghost var done: seq<Registration> := [];
    for i := 0 to |table|
      invariant registered == Requested(table[..i], codecs)
      invariant done == Tagged(registered, kind)
      invariant m.calls == old(m.calls) + done
      invariant errors == Failures(m.verdict, old(m.calls), done)
    {
      RequestedStep(table, i, codecs, kind);
      var codec := table[i];
      if codec.mimeType in codecs {
        var e := m.RegisterCodec(codec, kind);
        FailuresStep(m.verdict, old(m.calls), done, Registration(codec, kind));
        if e.Some? {
          errors := errors + [e.value];
        }
        AppendTwice(old(m.calls), done, [Registration(codec, kind)]);
        registered := registered + [codec];
        done := done + [Registration(codec, kind)];
      }
    }
    assert table[..|table|] == table;
  }

  /** One more table entry: the requested entries, and their
      registrations, grow by that entry exactly when its MIME type is
      requested. */
  lemma RequestedStep(table: seq<CodecParameters>, i: nat, codecs: seq<string>, kind: CodecKind)
    requires i < |table|
    ensures Requested(table[..i + 1], codecs)
         == Requested(table[..i], codecs) + (if table[i].mimeType in codecs then [table[i]] else [])
    ensures Tagged(Requested(table[..i + 1], codecs), kind)
         == Tagged(Requested(table[..i], codecs), kind)
            + (if table[i].mimeType in codecs then [Registration(table[i], kind)] else [])
  {
    assert table[..i + 1][..i] == table[..i];
    TaggedAppend(Requested(table[..i], codecs), if table[i].mimeType in codecs then [table[i]] else [], kind);
  }

  /** The inner loop of RegisterCodecs' third phase: registers every
      retransmission entry of the video table whose apt line names pt. */
  method RegisterRepairsOf(m: MediaEngine, table: seq<CodecParameters>, pt: uint8) returns (errors: seq<Error>)
    modifies m
    ensures m.calls == old(m.calls) + Tagged(RtxFor(table, pt), Video)
    ensures errors == Failures(m.verdict, old(m.calls), Tagged(RtxFor(table, pt), Video))
  {
    errors := [];
    ghost var done: seq<Registration> := [];
    for j := 0 to |table|
      invariant done == Tagged(RtxFor(table[..j], pt), Video)
      invariant m.calls == old(m.calls) + done
      invariant errors == Failures(m.verdict, old(m.calls), done)
    {
      RtxForStep(table, j, pt);
      var codec := table[j];
      if codec.mimeType == MimeTypeRtx && codec.fmtpLine == AptLine(pt) {
        var e := m.RegisterCodec(codec, Video);
        FailuresStep(m.verdict, old(m.calls), done, Registration(codec, Video));
        if e.Some? {
          errors := errors + [e.value];
        }
        AppendTwice(old(m.calls), done, [Registration(codec, Video)]);
        done := done + [Registration(codec, Video)];
      }
    }
    assert table[..|table|] == table;
  }

  /** One more table entry: the registrations of pt's retransmission
      entries grow by that entry exactly when it is one. */
  lemma RtxForStep(table: seq<CodecParameters>, j: nat, pt: uint8)
    requires j < |table|
    ensures Tagged(RtxFor(table[..j + 1], pt), Video)
         == Tagged(RtxFor(table[..j], pt), Video)
            + (if IsRetransmission(table[j]) && table[j].fmtpLine == AptLine(pt)
               then [Registration(table[j], Video)] else [])
  {
    RtxForSnoc(table, j, pt);
    TaggedAppend(RtxFor(table[..j], pt),
                 if IsRetransmission(table[j]) && table[j].fmtpLine == AptLine(pt) then [table[j]] else [],
                 Video);
  }

  /** The third phase of RegisterCodecs: for each recorded video codec in
      turn, its retransmission entries. */
  method RegisterRepairs(m: MediaEngine, table: seq<CodecParameters>, registered: seq<CodecParameters>)
    returns (errors: seq<Error>)
    modifies m
    ensures m.calls == old(m.calls) + Tagged(RtxPhase(table, registered), Video)
    ensures errors == Failures(m.verdict, old(m.calls), Tagged(RtxPhase(table, registered), Video))
  {
    errors := [];
    ghost var done: seq<Registration> := [];
    for i := 0 to |registered|
      invariant done == Tagged(RtxPhase(table, registered[..i]), Video)
      invariant m.calls == old(m.calls) + done
      invariant errors == Failures(m.verdict, old(m.calls), done)
    {
      RtxPhaseStep(table, registered, i);
      ghost var more := Tagged(RtxFor(table, registered[i].payloadType), Video);
      var e := RegisterRepairsOf(m, table, registered[i].payloadType);
      FailuresAppend(m.verdict, old(m.calls), done, more);
      AppendTwice(old(m.calls), done, more);
      errors := errors + e;
      done := done + more;
    }
    assert registered[..|registered|] == registered;
  }

  /** One more recorded codec: the retransmission registrations grow by
      that codec's retransmission entries. */
  lemma RtxPhaseStep(table: seq<CodecParameters>, registered: seq<CodecParameters>, i: nat)
    requires i < |registered|
    ensures Tagged(RtxPhase(table, registered[..i + 1]), Video)
         == Tagged(RtxPhase(table, registered[..i]), Video)
            + Tagged(RtxFor(table, registered[i].payloadType), Video)
  {
    assert registered[..i + 1][..i] == registered[..i];
    TaggedAppend(RtxPhase(table, registered[..i]), RtxFor(table, registered[i].payloadType), Video);
  }

  /** RegisterCodecs: registers the requested audio codecs, then the
      requested video codecs, recording each of those even when the engine
      refuses it, then every retransmission entry whose apt line names a
      recorded video codec; returns the engine's errors flattened. */
  method RegisterCodecs(m: MediaEngine, codecs: seq<string>) returns (err: Option<Error>)
    modifies m
    ensures m.calls == old(m.calls) + Registrations(codecs)
    ensures err == Flattened(Failures(m.verdict, old(m.calls), Registrations(codecs)))
  {
    err := RegisterTables(m, AudioCodecs, VideoCodecs, codecs);
  }

  /** The body of RegisterCodecs, over the two tables. */
  method RegisterTables(m: MediaEngine, audio: seq<CodecParameters>, video: seq<CodecParameters>, codecs: seq<string>)
    returns (err: Option<Error>)
    modifies m
    ensures m.calls == old(m.calls) + RegistrationsFrom(audio, video, codecs)
    ensures err == Flattened(Failures(m.verdict, old(m.calls), RegistrationsFrom(audio, video, codecs)))
  {
    ghost var history := m.calls;
    var audioErrors, _ := RegisterRequested(m, audio, Audio, codecs);
    ghost var a := m.calls[|history|..];
    var videoErrors, registered := RegisterRequested(m, video, Video, codecs);
    ghost var v := m.calls[|history + a|..];
    var repairErrors := RegisterRepairs(m, video, registered);
    ghost var r := m.calls[|history + a + v|..];
    PhasesMakeRegistrations(audio, video, codecs, a, v, r);
    AppendThree(history, a, v, r);
    FailuresOfThree(m.verdict, history, a, v, r);
    err := FlattenErrors(audioErrors + videoErrors + repairErrors);
  }

  /** The three phases of RegisterTables register RegistrationsFrom. */
  lemma PhasesMakeRegistrations(audio: seq<CodecParameters>, video: seq<CodecParameters>, codecs: seq<string>,
                                a: seq<Registration>, v: seq<Registration>, r: seq<Registration>)
    requires a == Tagged(Requested(audio, codecs), Audio)
    requires v == Tagged(Requested(video, codecs), Video)
    requires r == Tagged(RtxPhase(video, Requested(video, codecs)), Video)
    ensures RegistrationsFrom(audio, video, codecs) == a + v + r
  {
  }

  /** Appending three phases one after another appends their concatenation. */
  lemma AppendThree(history: seq<Registration>, a: seq<Registration>, v: seq<Registration>, r: seq<Registration>)
    ensures history + a + v + r == history + (a + v + r)
  {
  }

  /** Appending twice appends the concatenation. */
  lemma AppendTwice(history: seq<Registration>, a: seq<Registration>, b: seq<Registration>)
    ensures history + a + b == history + (a + b)
  {
  }

  /** The errors of three consecutive runs of registrations add up. */
  lemma FailuresOfThree(verdict: (seq<Registration>, Registration) -> Option<Error>,
                        history: seq<Registration>, a: seq<Registration>, v: seq<Registration>,
                        r: seq<Registration>)
    ensures Failures(verdict, history, a + v + r)
         == Failures(verdict, history, a) + Failures(verdict, history + a, v)
            + Failures(verdict, history + a + v, r)
  {
    FailuresAppend(verdict, history, a, v);
    FailuresAppend(verdict, history, a + v, r);
    assert history + (a + v) == history + a + v;
  }

  /** The first entry of t with the MIME type, if any. */
  function FirstWithMime(t: seq<CodecParameters>, mimeType: string): Option<CodecParameters>
  {
    if t == [] then None
    else if t[0].mimeType == mimeType then Some(t[0])
    else FirstWithMime(t[1..], mimeType)
  }

  /** Entry k is the first of t with the MIME type. */
  ghost predicate FirstAt(t: seq<CodecParameters>, k: nat, mimeType: string)
  {
    k < |t| && t[k].mimeType == mimeType && forall i :: 0 <= i < k ==> t[i].mimeType != mimeType
  }

  /** FirstWithMime finds nothing iff no entry has the MIME type. */
  lemma {:induction false} FirstWithMimeNone(t: seq<CodecParameters>, mimeType: string)
    ensures FirstWithMime(t, mimeType).None? <==> forall i :: 0 <= i < |t| ==> t[i].mimeType != mimeType
    decreases |t|
  {
    if t != [] && t[0].mimeType != mimeType {
      FirstWithMimeNone(t[1..], mimeType);
      assert forall i :: 1 <= i < |t| ==> t[i] == t[1..][i - 1];
    }
  }

  /** FirstWithMime finds the first entry with the MIME type. */
  lemma {:induction false} FirstWithMimeAt(t: seq<CodecParameters>, k: nat, mimeType: string)
    requires FirstAt(t, k, mimeType)
    ensures FirstWithMime(t, mimeType) == Some(t[k])
    decreases |t|
  {
    if k > 0 {
      assert t[0].mimeType != mimeType;
      assert forall i :: 0 <= i < k - 1 ==> t[1..][i] == t[i + 1];
      FirstWithMimeAt(t[1..], k - 1, mimeType);
    }
  }

  /** Whatever FirstWithMime finds carries the MIME type asked for. */
  lemma {:induction false} FirstWithMimeCarries(t: seq<CodecParameters>, mimeType: string)
    ensures FirstWithMime(t, mimeType).Some? ==>
      FirstWithMime(t, mimeType).value.mimeType == mimeType && FirstWithMime(t, mimeType).value in t
    decreases |t|
  {
    if t != [] && t[0].mimeType != mimeType {
      FirstWithMimeCarries(t[1..], mimeType);
    }
  }

  /** getRTPParameters over an audio and a video table: the first audio
      entry with the MIME type, else the first video entry with it, else
      the zero value. */
  function Lookup(audio: seq<CodecParameters>, video: seq<CodecParameters>, mimeType: string): CodecParameters
  {
    match FirstWithMime(audio, mimeType)
    case Some(c) => c
    case None =>
      match FirstWithMime(video, mimeType)
      case Some(c) => c
      case None => ZeroCodec
  }

  /** getRTPParameters with the SFU's tables. */
  function GetRtpParameters(mimeType: string): CodecParameters
  {
    Lookup(AudioCodecs, VideoCodecs, mimeType)
  }

  /** What the lookup yields: the first entry of audio + video carrying
      the MIME type, or the zero value when no entry carries it. */
  lemma LookupIsFirst(audio: seq<CodecParameters>, video: seq<CodecParameters>, mimeType: string)
    ensures var all := audio + video;
      && ((forall i :: 0 <= i < |all| ==> all[i].mimeType != mimeType) ==> Lookup(audio, video, mimeType) == ZeroCodec)
      && (forall k: nat :: FirstAt(all, k, mimeType) ==> Lookup(audio, video, mimeType) == all[k])
  {
    var all := audio + video;
    FirstWithMimeNone(audio, mimeType);
    FirstWithMimeNone(video, mimeType);
    forall k: nat | FirstAt(all, k, mimeType)
      ensures Lookup(audio, video, mimeType) == all[k]
    {
      if k < |audio| {
        assert forall i :: 0 <= i < k ==> audio[i] == all[i];
        FirstWithMimeAt(audio, k, mimeType);
      } else {
        assert forall i :: 0 <= i < |audio| ==> audio[i] == all[i];
        assert forall i :: 0 <= i < k - |audio| ==> video[i] == all[i + |audio|];
        FirstWithMimeAt(video, k - |audio|, mimeType);
      }
    }
    if forall i :: 0 <= i < |all| ==> all[i].mimeType != mimeType {
      assert forall i :: 0 <= i < |audio| ==> audio[i] == all[i];
      assert forall i :: 0 <= i < |video| ==> video[i] == all[i + |audio|];
    }
  }

  /** Lookups the SFU's tracks perform: Opus resolves to payload type 111
      and RED to 63, the first entries carrying them. */
  lemma AudioLookups()
    ensures GetRtpParameters(MimeTypeOpus).payloadType == 111
    ensures GetRtpParameters(MimeTypeRed).payloadType == 63
  {
    assert MimeTypeRed != MimeTypeOpus by { assert MimeTypeRed[6] != MimeTypeOpus[6]; }
    FirstWithMimeAt(AudioCodecs, 1, MimeTypeOpus);
    FirstWithMimeAt(AudioCodecs, 0, MimeTypeRed);
  }

  /** H.264 resolves to the first H.264 entry, payload type 102, and a
      retransmission lookup to the VP8 repair entry, payload type 97. */
  lemma VideoLookups()
    ensures GetRtpParameters(MimeTypeH264).payloadType == 102
    ensures GetRtpParameters(MimeTypeRtx).payloadType == 97
  {
    var audio := AudioCodecs;
    var video := VideoCodecs;
    assert audio[0].mimeType[0] == 'a' && audio[1].mimeType[0] == 'a';
    assert MimeTypeH264[0] == 'v' && MimeTypeRtx[0] == 'v';
    FirstWithMimeNone(audio, MimeTypeH264);
    FirstWithMimeNone(audio, MimeTypeRtx);
    assert |MimeTypeH264| != |MimeTypeVP8| && |MimeTypeH264| != |MimeTypeRtx|;
    assert MimeTypeVP8[6] != MimeTypeRtx[6];
    FirstWithMimeAt(video, 2, MimeTypeH264);
    FirstWithMimeAt(video, 1, MimeTypeRtx);
  }

  /** A MIME type no table carries, such as AV1, yields the zero value. */
  lemma UnknownLookup()
    ensures GetRtpParameters("video/AV1") == ZeroCodec
  {
    var av1 := "video/AV1";
    forall i | 0 <= i < |AudioCodecs|
      ensures AudioCodecs[i].mimeType != av1
    {
      assert AudioCodecs[i].mimeType[0] != av1[0];
    }
    forall i | 0 <= i < |VideoCodecs|
      ensures VideoCodecs[i].mimeType != av1
    {
      var m := VideoCodecs[i].mimeType;
      assert m == MimeTypeVP8 || m == MimeTypeRtx || m == MimeTypeH264 || m == MimeTypeVP9;
      assert m[6] != av1[6] || |m| != |av1|;
    }
    FirstWithMimeNone(AudioCodecs, av1);
    FirstWithMimeNone(VideoCodecs, av1);
  }
}
