/** pkg/interceptors/voiceactivedetector/interceptor.go: the interceptor
    that keeps one voice detector per audio SSRC, reads the audio level
    header extension (RFC 6464) of each packet a bound stream delivers,
    feeds the voiced ones to the stream's detector and annotates the
    packet's attributes with the level and the voice flag. */
module VadInterceptor {
  import opened Common
  import opened VoiceActivity

  /** The attribute keys the bound reader sets. */
  const AttributeKey: AttrKey := "audioLevel"
  const IsVoiceKey: AttrKey := "isVoice"

  /** The URI of the client-to-mixer audio level extension (RFC 6464). */
  const AudioLevelUri := "urn:ietf:params:rtp-hdrext:ssrc-audio-level"

  /** rtp.AudioLevelExtension: a level (0 to 127, in -dBov) and the voice flag. */
  datatype AudioLevelExtension = AudioLevelExtension(level: uint8, voice: bool)

  const ZeroAudioLevel := AudioLevelExtension(0, false)

  /** AudioLevelExtension.Unmarshal (section 3 of RFC 6464): the first
      byte's top bit is the voice flag and its other seven bits the
      level. An empty extension is an error the caller ignores, which
      leaves the zero value. */
  function DecodeAudioLevel(raw: seq<uint8>): (r: AudioLevelExtension)
    ensures r.level < 0x80
    ensures raw == [] ==> r == ZeroAudioLevel
  {
    if |raw| < 1 then ZeroAudioLevel
    else AudioLevelExtension(raw[0] % 0x80, raw[0] >= 0x80)
  }

  /** The one-byte extension a sender writes (section 3 of RFC 6464). */
  function EncodeAudioLevel(a: AudioLevelExtension): (raw: seq<uint8>)
    requires a.level < 0x80
    ensures |raw| == 1
  {
    [a.level + if a.voice then 0x80 else 0]
  }

  /** Decoding what a sender encoded gives back its level and flag. */
  lemma AudioLevelRoundTrip(a: AudioLevelExtension)
    requires a.level < 0x80
    ensures DecodeAudioLevel(EncodeAudioLevel(a)) == a
  {
  }

  /** The ID of the first negotiated extension with the audio level URI,
      converted to uint8 as Go does (keeping the low eight bits), or 0. */
  function AudioLevelIdIn(exts: seq<HeaderExtension>): (id: uint8)
  {
    if exts == [] then 0
    else if exts[0].uri == AudioLevelUri then exts[0].id % 0x100
    else AudioLevelIdIn(exts[1..])
  }

  /** AudioLevelIdIn is a first-match search: it is the ID of the earliest
      extension with the URI, or 0 when no extension has it. */
  lemma {:induction false} AudioLevelIdFirst(exts: seq<HeaderExtension>)
    ensures (forall k | 0 <= k < |exts| :: exts[k].uri != AudioLevelUri) ==> AudioLevelIdIn(exts) == 0
    ensures forall k | 0 <= k < |exts| && exts[k].uri == AudioLevelUri && (forall j | 0 <= j < k :: exts[j].uri != AudioLevelUri)
              :: AudioLevelIdIn(exts) == exts[k].id % 0x100
    decreases |exts|
  {
    if exts != [] && exts[0].uri != AudioLevelUri {
      AudioLevelIdFirst(exts[1..]);
      assert forall k | 1 <= k < |exts| :: exts[1..][k - 1] == exts[k];
    }
  }

  /** What getAudioLevel yields for a header when the stream negotiated
      `exts`: the zero value when no ID is known or the header lacks the
      extension, otherwise the decoded extension. */
  function AudioLevelOf(exts: Option<seq<HeaderExtension>>, header: Header): (r: AudioLevelExtension)
  {
    var id := if exts.Some? then AudioLevelIdIn(exts.value) else 0;
    if id == 0 || id !in header.extensions then ZeroAudioLevel
    else DecodeAudioLevel(header.extensions[id])
  }

  /** What the reader returned by BindRemoteStream gets from the stream below. */
  datatype Inbound =
    | InboundError(err: Error)
    | InboundPacket(n: nat, attrs: Option<Attrs>, header: Result<Header>)

  /** The reader's attributes after a packet: the level and the voice flag set. */
  function Annotate(attrs: Attrs, a: AudioLevelExtension): (r: Attrs)
    ensures AttributeKey in r && r[AttributeKey] == Level(a.level)
    ensures IsVoiceKey in r && r[IsVoiceKey] == Flag(a.voice)
    ensures forall k | k in attrs && k != AttributeKey && k != IsVoiceKey :: k in r && r[k] == attrs[k]
    ensures forall k | k in r :: k in attrs || k == AttributeKey || k == IsVoiceKey
  {
    attrs[AttributeKey := Level(a.level)][IsVoiceKey := Flag(a.voice)]
  }

  /** Interceptor: the detectors by SSRC, the configuration new ones get
      and the onNew callback; `newVadCalls` records each onNew call. */
  class Interceptor {
    var vads: map<uint32, VoiceDetector>
    var config: Config
    var onNew: Option<CallbackId>
    var newVadCalls: seq<(CallbackId, VoiceDetector)>

    /** new: no detectors, the default configuration, no callback. */
    constructor ()
      ensures vads == map[] && config == DefaultConfig && onNew.None? && newVadCalls == []
    {
      vads := map[];
      config := DefaultConfig;
      onNew := None;
      newVadCalls := [];
    }

    /** The extensions the detector for ssrc knows, if there is one. */
    function KnownExtensions(ssrc: uint32): (r: Option<seq<HeaderExtension>>)
      reads this, vads.Values
      requires ssrc in vads ==> vads[ssrc].streamInfo.Some?
      ensures r.Some? <==> ssrc in vads
    {
      if ssrc in vads then Some(vads[ssrc].streamInfo.value.extensions) else None
    }

    /** getVadBySSRC: the detector for ssrc, or nil. */
    method GetVadBySsrc(ssrc: uint32) returns (vad: VoiceDetector?)
      ensures vad != null <==> ssrc in vads
      ensures vad != null ==> vad == vads[ssrc]
    {
      if ssrc in vads {
        return vads[ssrc];
      }
      return null;
    }

    /** getAudioLevelExtensionID: scans the detector's negotiated
        extensions for the audio level URI; 0 without a detector. */
    method GetAudioLevelExtensionId(ssrc: uint32) returns (id: uint8)
      requires ssrc in vads ==> vads[ssrc].streamInfo.Some?
      ensures ssrc !in vads ==> id == 0
      ensures ssrc in vads ==> id == AudioLevelIdIn(vads[ssrc].streamInfo.value.extensions)
    {
      var vad := GetVadBySsrc(ssrc);
      if vad != null {
        var exts := vad.streamInfo.value.extensions;
        var i := 0;
        while i < |exts|
          invariant 0 <= i <= |exts|
          invariant AudioLevelIdIn(exts) == AudioLevelIdIn(exts[i..])
        {
          assert exts[i..][1..] == exts[i + 1..];
          if exts[i].uri == AudioLevelUri {
            return exts[i].id % 0x100;
          }
          i := i + 1;
        }
      }
      return 0;
    }

    /** getAudioLevel: the decoded audio level extension of the header, or
        the zero value when the ID is 0 or the header lacks it. */
    method GetAudioLevel(ssrc: uint32, header: Header) returns (a: AudioLevelExtension)
      requires ssrc in vads ==> vads[ssrc].streamInfo.Some?
      ensures a == AudioLevelOf(KnownExtensions(ssrc), header)
      ensures ssrc !in vads ==> a == ZeroAudioLevel
    {
      a := ZeroAudioLevel;
      var headerID := GetAudioLevelExtensionId(ssrc);
      if headerID == 0 {
        return a;
      }
      if headerID !in header.extensions {
        return a;
      }
      a := DecodeAudioLevel(header.extensions[headerID]);
    }

    /** processPacket: a level of 0 (absent or silent) or an unknown SSRC
        gives the zero value and feeds nothing; otherwise the decoded
        extension is returned, and the detector is fed the packet only
        when the voice flag is set. */
    method ProcessPacket(ssrc: uint32, header: Header) returns (a: AudioLevelExtension)
      requires ssrc in vads ==> vads[ssrc].streamInfo.Some?
      modifies (if ssrc in vads then {vads[ssrc]} else {})`channel
      ensures vads == old(vads)
      ensures ssrc in vads ==> vads[ssrc].streamInfo == old(vads[ssrc].streamInfo)
      ensures var d := AudioLevelOf(old(KnownExtensions(ssrc)), header);
        a == (if d.level == 0 || ssrc !in vads then ZeroAudioLevel else d)
      ensures ssrc in vads ==>
        var d := AudioLevelOf(old(KnownExtensions(ssrc)), header);
        vads[ssrc].channel == old(vads[ssrc].channel)
          + (if d.level != 0 && d.voice then [MakeVoicePacket(header, d.level, d.voice)] else [])
    {
      var audioData := GetAudioLevel(ssrc, header);
      if audioData.level == 0 {
        return ZeroAudioLevel;
      }
      var vad := GetVadBySsrc(ssrc);
      if vad == null {
        return ZeroAudioLevel;
      }
      if audioData.voice {
        vad.AddPacket(header, audioData.level, audioData.voice);
      }
      return audioData;
    }

    /** BindRemoteStream: a stream that is neither Opus nor RED is left
        alone. Otherwise the SSRC's detector learns the stream (or one is
        made for it), onNew is told of it, and the stream's reader is
        wrapped (`wrapped`). */
    method BindRemoteStream(info: StreamInfo, now: Time) returns (wrapped: bool)
      modifies this, (if info.ssrc in vads then {vads[info.ssrc]} else {})`streamInfo
      ensures !wrapped <==> info.mimeType != MimeTypeOpus && info.mimeType != MimeTypeRed
      ensures !wrapped ==> vads == old(vads) && newVadCalls == old(newVadCalls)
      ensures wrapped ==>
        && info.ssrc in vads && vads[info.ssrc].streamInfo == Some(info)
        && (info.ssrc in old(vads) ==> vads[info.ssrc] == old(vads[info.ssrc]))
        && (info.ssrc !in old(vads) ==> fresh(vads[info.ssrc]) && vads[info.ssrc].config == config)
        && vads == old(vads)[info.ssrc := vads[info.ssrc]]
        && newVadCalls == old(newVadCalls) + (if onNew.Some? then [(onNew.value, vads[info.ssrc])] else [])
      ensures config == old(config) && onNew == old(onNew)
    {
      if info.mimeType != MimeTypeOpus && info.mimeType != MimeTypeRed {
        return false;
      }
      var vad := GetVadBySsrc(info.ssrc);
      if vad != null {
        vad.UpdateStreamInfo(info);
      }
      if vad == null {
        vad := new VoiceDetector(config, Some(info), now);
        vads := vads[info.ssrc := vad];
      }
      if onNew.Some? {
        newVadCalls := newVadCalls + [(onNew.value, vad)];
      }
      return true;
    }

    /** The reader BindRemoteStream returns: errors from below pass
        through; otherwise the packet is processed and its attributes
        (a new map when there were none) get the level and voice flag. */
    method WrappedRead(ssrc: uint32, input: Inbound) returns (r: Result<(nat, Attrs)>)
      requires ssrc in vads ==> vads[ssrc].streamInfo.Some?
      modifies (if ssrc in vads then {vads[ssrc]} else {})`channel
      ensures input.InboundError? ==> r == Err(input.err)
      ensures !(input.InboundPacket? && input.header.Ok?) && ssrc in vads ==>
        vads[ssrc].channel == old(vads[ssrc].channel)
      ensures input.InboundPacket? && input.header.Ok? && ssrc in vads ==>
        var d := AudioLevelOf(old(KnownExtensions(ssrc)), input.header.value);
        vads[ssrc].channel == old(vads[ssrc].channel)
          + (if d.level != 0 && d.voice then [MakeVoicePacket(input.header.value, d.level, d.voice)] else [])
      ensures input.InboundPacket? && input.header.Err? ==> r == Err(input.header.error)
      ensures input.InboundPacket? && input.header.Ok? ==>
        var d := AudioLevelOf(old(KnownExtensions(ssrc)), input.header.value);
        var a := if d.level == 0 || ssrc !in old(vads) then ZeroAudioLevel else d;
        r == Ok((input.n, Annotate(if input.attrs.Some? then input.attrs.value else map[], a)))
    {
      if input.InboundError? {
        return Err(input.err);
      }
      var attr := if input.attrs.Some? then input.attrs.value else map[];
      if input.header.Err? {
        return Err(input.header.error);
      }
      var audioAttribute := ProcessPacket(ssrc, input.header.value);
      attr := attr[AttributeKey := Level(audioAttribute.level)];
      attr := attr[IsVoiceKey := Flag(audioAttribute.voice)];
      return Ok((input.n, attr));
    }

    /** UnbindRemoteStream: the SSRC's detector, if any, is stopped and
        forgotten. */
    method UnbindRemoteStream(ssrc: uint32)
      modifies this, (if ssrc in vads then {vads[ssrc]} else {})`cancelled
      ensures vads == old(vads) - {ssrc}
      ensures ssrc in old(vads) ==> old(vads[ssrc]).cancelled
      ensures config == old(config) && onNew == old(onNew) && newVadCalls == old(newVadCalls)
    {
      var vad := GetVadBySsrc(ssrc);
      if vad != null {
        vad.Stop();
      }
      vads := vads - {ssrc};
    }

    /** MapAudioTrack: nil for a track that is not audio; otherwise the
        SSRC's detector (made, without stream information, if there was
        none) records the track and stream IDs and is returned. */
    method MapAudioTrack(ssrc: uint32, isAudio: bool, trackID: string, streamID: string, now: Time)
      returns (vad: VoiceDetector?)
      modifies this, (if ssrc in vads then {vads[ssrc]} else {})`trackID,
               (if ssrc in vads then {vads[ssrc]} else {})`streamID
      ensures !isAudio ==> vad == null && vads == old(vads)
      ensures isAudio ==>
        && vad != null && ssrc in vads && vads[ssrc] == vad
        && vads == old(vads)[ssrc := vad]
        && vad.trackID == trackID && vad.streamID == streamID
        && (ssrc in old(vads) ==> vad == old(vads[ssrc]))
        && (ssrc !in old(vads) ==> fresh(vad) && vad.streamInfo.None? && vad.config == config)
      ensures config == old(config) && onNew == old(onNew) && newVadCalls == old(newVadCalls)
    {
      if !isAudio {
        return null;
      }
      vad := GetVadBySsrc(ssrc);
      if vad == null {
        vad := new VoiceDetector(config, None, now);
        vads := vads[ssrc := vad];
      }
      vad.UpdateTrack(trackID, streamID);
    }
  }

  /** The state in which getAudioLevelExtensionID dereferences a nil
      stream description: an Opus stream with SSRC ssrc is bound (its
      reader wrapped), then unbound, and ssrc is then mapped to an audio
      track, which makes a detector without stream information for it.
      The next read through the reader bound first looks that detector
      up and reads its stream's extensions. The methods above require a
      stream description there, so the model stops short of that read. */
  method NilStreamInfoReachable(ssrc: uint32, now: Time) returns (v: Interceptor, wrapped: bool)
    ensures wrapped && ssrc in v.vads && v.vads[ssrc].streamInfo.None?
  {
    v := new Interceptor();
    wrapped := v.BindRemoteStream(StreamInfo(ssrc, MimeTypeOpus, 48000, []), now);
    v.UnbindRemoteStream(ssrc);
    var vad := v.MapAudioTrack(ssrc, true, "track", "stream", now);
  }
}
