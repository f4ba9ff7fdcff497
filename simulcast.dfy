/** pkg/interceptors/simulcast/interceptor.go: the interceptor that stamps
    every outgoing packet of a simulcast sender with its RTP stream ID
    (RFC 8852 section 3) and a MID of "0" (RFC 8843 section 15), using
    the header extension IDs and encodings of the sender's parameters. */
module Simulcast {
  import opened Common

  /** sdp.SDESMidURI and sdp.SDESRTPStreamIDURI. */
  const MidUri := "urn:ietf:params:rtp-hdrext:sdes:mid"
  const RidUri := "urn:ietf:params:rtp-hdrext:sdes:rtp-stream-id"

  /** The MID value written into every rewritten packet: the one byte "0". */
  const MidValue: seq<uint8> := [0x30]

  /** A negotiated header extension: its URI and its (int) ID. */
  datatype ExtensionParameter = ExtensionParameter(uri: string, id: int)

  /** One simulcast encoding: its RID, kept as the bytes of the Go string,
      and its SSRC. */
  datatype Encoding = Encoding(rid: seq<uint8>, ssrc: uint32)

  /** The parts of webrtc.RTPSendParameters the interceptor reads. */
  datatype SendParameters = SendParameters(
    headerExtensions: seq<ExtensionParameter>,
    encodings: seq<Encoding>)

  const ZeroParameters := SendParameters([], [])

  /** What the wrapped writer hands to the downstream writer. */
  datatype Outgoing = Outgoing(header: Header, payload: seq<uint8>, attrs: Attrs)

  /** The ID, converted to uint8 as Go does, of the last extension with
      the given URI, or 0 when there is none. */
  function LastExtensionId(exts: seq<ExtensionParameter>, uri: string): uint8
  {
    if exts == [] then 0
    else if exts[|exts| - 1].uri == uri then exts[|exts| - 1].id % 0x100
    else LastExtensionId(exts[..|exts| - 1], uri)
  }

  /** The RID of the last encoding with the given SSRC, or "". */
  function LastRid(encs: seq<Encoding>, ssrc: uint32): seq<uint8>
  {
    if encs == [] then []
    else if encs[|encs| - 1].ssrc == ssrc then encs[|encs| - 1].rid
    else LastRid(encs[..|encs| - 1], ssrc)
  }

  /** The last-match reading of LastExtensionId: without any extension
      with the URI the ID is 0. */
  lemma {:induction false} LastExtensionIdNone(exts: seq<ExtensionParameter>, uri: string)
    requires forall i :: 0 <= i < |exts| ==> exts[i].uri != uri
    ensures LastExtensionId(exts, uri) == 0
    decreases |exts|
  {
    if exts != [] {
      LastExtensionIdNone(exts[..|exts| - 1], uri);
    }
  }

  /** A match at index k with no later match decides the ID. */
  lemma {:induction false} LastExtensionIdAt(exts: seq<ExtensionParameter>, uri: string, k: nat)
    requires k < |exts| && exts[k].uri == uri
    requires forall j :: k < j < |exts| ==> exts[j].uri != uri
    ensures LastExtensionId(exts, uri) == exts[k].id % 0x100
    decreases |exts|
  {
    if k < |exts| - 1 {
      var init := exts[..|exts| - 1];
      assert init[k] == exts[k];
      LastExtensionIdAt(init, uri, k);
    }
  }

  /** The last-match reading of LastRid: no encoding with the SSRC gives "". */
  lemma {:induction false} LastRidNone(encs: seq<Encoding>, ssrc: uint32)
    requires forall i :: 0 <= i < |encs| ==> encs[i].ssrc != ssrc
    ensures LastRid(encs, ssrc) == []
    decreases |encs|
  {
    if encs != [] {
      LastRidNone(encs[..|encs| - 1], ssrc);
    }
  }

  /** An encoding with the SSRC at index k and none later decides the RID. */
  lemma {:induction false} LastRidAt(encs: seq<Encoding>, ssrc: uint32, k: nat)
    requires k < |encs| && encs[k].ssrc == ssrc
    requires forall j :: k < j < |encs| ==> encs[j].ssrc != ssrc
    ensures LastRid(encs, ssrc) == encs[k].rid
    decreases |encs|
  {
    if k < |encs| - 1 {
      var init := encs[..|encs| - 1];
      assert init[k] == encs[k];
      LastRidAt(init, ssrc, k);
    }
  }

  /** A later extension with the URI overrides every earlier one. */
  lemma LastExtensionIdAppend(exts: seq<ExtensionParameter>, e: ExtensionParameter, uri: string)
    ensures LastExtensionId(exts + [e], uri)
         == if e.uri == uri then e.id % 0x100 else LastExtensionId(exts, uri)
  {
    assert (exts + [e])[..|exts + [e]| - 1] == exts;
  }

  lemma LastRidAppend(encs: seq<Encoding>, e: Encoding, ssrc: uint32)
    ensures LastRid(encs + [e], ssrc) == if e.ssrc == ssrc then e.rid else LastRid(encs, ssrc)
  {
    assert (encs + [e])[..|encs + [e]| - 1] == encs;
  }

  /** The writer's test: all three values must be set for a rewrite. */
  predicate RewriteEnabled(midId: uint8, ridId: uint8, rid: seq<uint8>)
  {
    midId != 0 && ridId != 0 && rid != []
  }

  /** The header the writer passes on, after SetExtension(ridID, rid)
      and then SetExtension(midID, "0") when the rewrite is enabled. */
  function Rewrite(h: Header, midId: uint8, ridId: uint8, rid: seq<uint8>): Header
  {
    if RewriteEnabled(midId, ridId, rid)
    then h.(extensions := h.extensions[ridId := rid][midId := MidValue])
    else h
  }

  /** What a rewrite does to the header: with the rewrite enabled the MID
      extension reads "0", the RID extension reads the RID unless both
      share one ID (the MID write then wins), and every other extension
      and every fixed header field is as before; otherwise the header is
      untouched. */
  lemma RewriteEffect(h: Header, midId: uint8, ridId: uint8, rid: seq<uint8>)
    ensures var r := Rewrite(h, midId, ridId, rid);
      && r.(extensions := h.extensions) == h
      && (RewriteEnabled(midId, ridId, rid) ==>
            && r.extensions.Keys == h.extensions.Keys + {midId, ridId}
            && r.extensions[midId] == MidValue
            && (midId != ridId ==> r.extensions[ridId] == rid)
            && (forall id :: id in h.extensions && id != midId && id != ridId ==>
                  r.extensions[id] == h.extensions[id]))
      && (!RewriteEnabled(midId, ridId, rid) ==> r == h)
  {
  }

  /** Rewriting an already rewritten header changes nothing more. */
  lemma RewriteIdempotent(h: Header, midId: uint8, ridId: uint8, rid: seq<uint8>)
    ensures Rewrite(Rewrite(h, midId, ridId, rid), midId, ridId, rid) == Rewrite(h, midId, ridId, rid)
  {
    if RewriteEnabled(midId, ridId, rid) {
      var e := h.extensions[ridId := rid][midId := MidValue];
      assert e[ridId := rid][midId := MidValue] == e;
    }
  }

  /** The header the writer for a stream with this SSRC sends, given the
      stored sender parameters. */
  function SentHeader(p: SendParameters, ssrc: uint32, h: Header): Header
  {
    Rewrite(h, LastExtensionId(p.headerExtensions, MidUri),
            LastExtensionId(p.headerExtensions, RidUri), LastRid(p.encodings, ssrc))
  }

  class Interceptor {
    var parameters: SendParameters

    /** new: zero-valued parameters. */
    constructor ()
      ensures parameters == ZeroParameters
    {
      parameters := ZeroParameters;
    }

    /** SetSenderParameters: replaces the stored parameters wholesale. */
    method SetSenderParameters(p: SendParameters)
      modifies this`parameters
      ensures parameters == p
    {
      parameters := p;
    }

    /** getHeaderExtension: one pass over the negotiated extensions that
        keeps the last MID and the last RTP stream ID extension IDs, and
        one pass over the encodings that keeps the last RID for ssrc. */
    method GetHeaderExtension(ssrc: uint32) returns (midId: uint8, ridId: uint8, rid: seq<uint8>)
      ensures midId == LastExtensionId(parameters.headerExtensions, MidUri)
      ensures ridId == LastExtensionId(parameters.headerExtensions, RidUri)
      ensures rid == LastRid(parameters.encodings, ssrc)
    {
      midId, ridId, rid := 0, 0, [];
      var exts := parameters.headerExtensions;
      for i := 0 to |exts|
        invariant midId == LastExtensionId(exts[..i], MidUri)
        invariant ridId == LastExtensionId(exts[..i], RidUri)
      {
        LastExtensionIdAppend(exts[..i], exts[i], MidUri);
        LastExtensionIdAppend(exts[..i], exts[i], RidUri);
        assert exts[..i + 1] == exts[..i] + [exts[i]];
        if exts[i].uri == MidUri {
          midId := exts[i].id % 0x100;
        } else if exts[i].uri == RidUri {
          ridId := exts[i].id % 0x100;
        }
      }
      assert exts[..|exts|] == exts;
      var encs := parameters.encodings;
      for i := 0 to |encs|
        invariant rid == LastRid(encs[..i], ssrc)
      {
        LastRidAppend(encs[..i], encs[i], ssrc);
        assert encs[..i + 1] == encs[..i] + [encs[i]];
        if encs[i].ssrc == ssrc {
          rid := encs[i].rid;
        }
      }
      assert encs[..|encs|] == encs;
    }

    /** The writer BindLocalStream returns for a stream with this SSRC:
        it rewrites the header when all three values are set and passes
        header, payload and attributes to the downstream writer. */
    method Write(ssrc: uint32, h: Header, payload: seq<uint8>, attrs: Attrs) returns (out: Outgoing)
      ensures out.payload == payload && out.attrs == attrs
      ensures out.header == SentHeader(parameters, ssrc, h)
    {
      var midId, ridId, rid := GetHeaderExtension(ssrc);
      var header := h;
      if midId != 0 && ridId != 0 && rid != [] {
        header := header.(extensions := header.extensions[ridId := rid]);
        header := header.(extensions := header.extensions[midId := MidValue]);
      }
      out := Outgoing(header, payload, attrs);
    }
  }
}
