# A verified model of the meetup SFU core

This project models, in Dafny, the self-contained sequential parts of the
meetup selective forwarding unit (a Go WebRTC server) and proves what
they promise:

- the reference-counted RTP packet pool (`pkg/rtppool`): `NewPacket`,
  `Retain`, `Release`, `releasePacket`, and `RTPPool`'s packet and payload
  pools, over a model of the Go heap in which each `sync.Pool` is a bag of
  object identities;
- a remote track's ingress path (`remotetrack.go`): `unmarshal` with RTP
  padding stripping (section 5.1 of RFC 3550), the buffer discipline of
  the `readRTP` loop, the 250 ms debounce of `SendPLI`, the interval PLI
  ticker, and `onEnded`;
- the voice activity detector (`vad.go`): its run loop as a state machine
  over `active`, `lastSent`, `buffer` and `bufferLength`, driven by timed
  events; and its interceptor (`interceptor.go`), with the per-SSRC
  detector registry, audio level decoding (section 3 of RFC 6464),
  classification of each packet, and the wrapped reader;
- the simulcast interceptor: the last-match lookup of the MID
  (section 15 of RFC 8843) and RTP stream ID (section 3 of RFC 8852)
  extension IDs and of the encoding's RID, and the conditional header
  rewrite;
- the codec tables and `RegisterCodecs` (`codec.go`): the pairing of each
  video codec with its retransmission entry through `apt=`
  (section 8 of RFC 4588), registration in three phases with errors
  gathered, and the first-match `getRTPParameters`;
- the client registry and callbacks of `sfu.go`, `DefaultBitrates`, the
  send-bitrate total of `bitratecontroller.go` in uint32 arithmetic,
  `FlattenErrors` and `customChars` of `utils.go`, the relay track of
  `relaytrack.go`, and the constants of `client.go`.

Files, one module each:

- `common.dfy` (Common): Go integer widths, errors, the RTP header and
  attributes.
- `sync_pool.dfy` (SyncPool): `sync.Pool` as a bag.
- `packet_manager.dfy` (PacketManagement) and `rtp_pool.dfy` (RtpPool).
- `remote_track.dfy` (RemoteTracks).
- `vad.dfy` (VoiceActivity) and `vad_interceptor.dfy` (VadInterceptor).
- `simulcast.dfy` (Simulcast).
- `codec.dfy` (Codecs).
- `sfu.dfy` (Sfu), `bitrate_controller.dfy` (BitrateControl),
  `utils.dfy` (Utils), `relay_track.dfy` (RelayTracks) and
  `client.dfy` (Clients).

**The Go heap of the packet pool.** Each Go type whose objects the pools
recycle has a `Store`: the sequence of every object allocated so far,
indexed by a `Ref`, and the bag of those currently pooled. A field
holding a Go pointer holds a `Ref`. Two fields that alias therefore hold
the same `Ref`, and a write through one is seen through the other.

`sync.Pool.Get` takes the object an explicit `pick` selects, or
allocates through the pool's `New`. `Put` adds the object to the bag.

`Valid` is the ownership invariant:

- every object is pooled at most once;
- pooled buffers are zero and pooled attribute maps empty;
- no object a live packet holds is pooled or held by a second live packet.

## Model

| member | source | states |
|---|---|---|
| SyncPool.Get | pkg/rtppool/packetmanager.go:29-60 | `sync.Pool.Get`: a pooled object (chosen by the pick) leaves the bag and nothing else changes; with an empty bag a new object made by `New` is allocated |
| SyncPool.Put | pkg/rtppool/packetmanager.go:100-111 | `sync.Pool.Put`: the object joins the bag, the objects are untouched |
| PacketManagement.NewPacket | pkg/rtppool/packetmanager.go:55-58 | fails with `io.ErrShortBuffer` exactly when the payload is non-nil and longer than 1460 bytes, and then changes nothing; otherwise yields an allocated packet |
| PacketManagement.PayloadOf | pkg/rtppool/packetmanager.go:132-137 | `Payload()` is nil exactly when the packet's slice is nil, and otherwise as long as the slice |
| PacketManagement.HeaderOf | pkg/rtppool/packetmanager.go:125-130 | `Header()` is nil exactly when the packet holds no header |
| PacketManagement.AttributesOf | pkg/rtppool/packetmanager.go:139-144 | `Attributes()` is nil exactly when the packet holds no map |
| PacketManagement.AcquireValid | pkg/rtppool/packetmanager.go:60-65 | the packet taken from the pool was not live, gets count 1 and no buffer, payload or map, and no live packet is disturbed |
| PacketManagement.AttachHeaderValid | pkg/rtppool/packetmanager.go:70-75 | the packet gets a header from the pool that no live packet holds, equal to the caller's (a clone, not the caller's object) |
| PacketManagement.AttachPayloadValid | pkg/rtppool/packetmanager.go:77-84 | the packet gets a pooled 1460-byte buffer no live packet holds, and its payload reads back as exactly the caller's bytes |
| PacketManagement.AttachAttrsValid | pkg/rtppool/packetmanager.go:86-95 | the packet gets a pooled map no live packet holds, holding exactly the caller's entries |
| PacketManagement.NewPacketValid | pkg/rtppool/packetmanager.go:55-97 | with the corrected releasePacket (whose `Valid` leaves pooled packets holding nothing, so a nil payload or nil attributes read back nil), a successful NewPacket keeps `Valid`; the packet was not live and now is, with count 1, an unshared header equal to the caller's, exactly the caller's payload bytes (nil for nil) and attributes (nil for nil); every other live packet is left as it was |
| PacketManagement.RetainValid | pkg/rtppool/packetmanager.go:146-155 | Retain fails with errPacketReleased and changes nothing exactly when the count is 0; otherwise the count rises by one and nothing else changes; `Valid` is kept |
| PacketManagement.ReleaseValid | pkg/rtppool/packetmanager.go:157-166 | Release always lowers the count by one and keeps `Valid`. When the count reaches 0 on a live packet, the packet returns to its pool, and so do its header, its zeroed buffer and its emptied map. Any other release changes only the count. |
| PacketManagement.ReleasePacketFrame | pkg/rtppool/packetmanager.go:99-112 | releasePacket puts the header, the zeroed buffer, the emptied attribute map and the packet back in their pools (with the corrected pointer clearing) |
| PacketManagement.OtherReleaseValid | pkg/rtppool/packetmanager.go:157-166 | a release that does not drop a live packet's last reference changes only its count |
| PacketManagement.LastReleaseValid | pkg/rtppool/packetmanager.go:157-166 | the release of a live packet's last reference pools it and keeps `Valid` |
| PacketManagement.BlankedIsBlank | pkg/rtppool/packetmanager.go:101-102 | copying blankPayload over a pooled 1460-byte buffer zeroes all of it |
| PacketManagement.RetainThenRelease | pkg/rtppool/packetmanager.go:146-166 | Retain then Release on an unreleased packet restores the world exactly |
| PacketManagement.ReleasedCannotBeRetained | pkg/rtppool/packetmanager.go:150-154 | after the last reference is released the packet is no longer live, and Retain fails with errPacketReleased |
| PacketManagement.EmptyWorldValid | pkg/rtppool/packetmanager.go:29-53 | a new PacketManager, every pool empty, satisfies `Valid` |
| PacketManagement.ReleaseAsWrittenCorrupts | pkg/rtppool/packetmanager.go:99-112 | with releasePacket as written, a recycled packet with a nil payload still shows its old buffer, and releasing it zeroes the payload of another live packet |
| RtpPool.GetPacketValid | pkg/rtppool/rtppool.go:29-31 | with the corrected PutPacket (whose `Valid` leaves pooled rtp.Packets without a payload slice), GetPacket hands out an rtp.Packet out of the pool, with no payload slice; only the rtp.Packet pool changes |
| RtpPool.PutPacketValid | pkg/rtppool/rtppool.go:33-38 | the corrected PutPacket pools the packet with a zero header and no payload, keeps `Valid` and changes no buffer and no live packet |
| RtpPool.GetPayloadValid | pkg/rtppool/rtppool.go:40-42 | GetPayload hands out a zeroed buffer that the caller then owns, and disturbs no packet |
| RtpPool.PutPayloadValid | pkg/rtppool/rtppool.go:44-47 | PutPayload zeroes the whole buffer and pools it, keeping `Valid` |
| RtpPool.PayloadPoolShared | pkg/rtppool/rtppool.go:40-47 | the buffer PutPayload returns is the one the PacketManager's NewPacket takes next: one pool serves both |
| RtpPool.NewPacketNil | pkg/rtppool/rtppool.go:49-55 | RTPPool.NewPacket is nil exactly when the payload exceeds 1460 bytes, and otherwise is PacketManager.NewPacket's packet |
| RtpPool.BlankSliceOfBlank | pkg/rtppool/rtppool.go:15 | blankPayload is 1460 zero bytes, so zeroing a slice of a blank buffer changes nothing |
| RemoteTracks.Unmarshal | remotetrack.go:158-177 | on a header parse error the packet is unchanged and that error is returned; on success the payload is the window between the header and the stripped end |
| RemoteTracks.UnmarshalRoundTrip | remotetrack.go:158-177 | unmarshal of header bytes, a payload and `pad` bytes of padding laid out as section 5.1 of RFC 3550 gives back the header, the padding size and exactly the payload |
| RemoteTracks.UnmarshalPlain | remotetrack.go:164-174 | without the padding bit the payload is every byte after the header |
| RemoteTracks.UnmarshalTooShort | remotetrack.go:164-172 | unmarshal fails, with "remote track buffer too short", exactly when the padding size in the last byte reaches into the header |
| RemoteTracks.ReadInto | remotetrack.go:123 | the bytes read land at the start of the buffer |
| RemoteTracks.IterationValid | remotetrack.go:112-154 | with the corrected PutPacket, every loop iteration keeps `Valid` and leaves every live packet untouched. On the EOF, read-error, empty-read, unmarshal-failure and success paths it returns the payload buffer it took, and on the last two the packet too. |
| RemoteTracks.IterationDelivers | remotetrack.go:136-150 | onRead runs exactly when a non-empty read unmarshals. It is given the read's attributes, the parsed header and exactly the bytes between the header and the padding. |
| RemoteTracks.IterationRoundTrip | remotetrack.go:143-150 | a packet laid out as in section 5.1 of RFC 3550 reaches onRead with exactly its payload |
| RemoteTracks.RunValid | remotetrack.go:103-156 | with the corrected PutPacket, over any number of iterations `Valid` holds, live packets are untouched and no pooled object is lost |
| RemoteTracks.RunEnds | remotetrack.go:112-134 | the loop returns, and onEnded runs, exactly when the context is cancelled, setting the deadline fails or the read reports EOF |
| RemoteTracks.ReadLoopAsWrittenCorrupts | pkg/rtppool/rtppool.go:33-38 | with PutPacket as written, a read whose header fails to parse zeroes a buffer that a live RetainablePacket owns |
| RemoteTracks.PliSpacing | remotetrack.go:179-193 | any two PLIs passed on are at least 250 ms apart, and the first is at least 250 ms after the last one accepted before |
| RemoteTracks.PliDebounce | remotetrack.go:183-192 | two SendPLI calls 100 ms apart give one PLI; 260 ms apart, two |
| RemoteTracks.RemoteTrack.constructor | remotetrack.go:38-78 | a new track has no PLI recorded and no ended callbacks |
| RemoteTracks.RemoteTrack.SendPLI | remotetrack.go:179-193 | within 250 ms of the last accepted request nothing changes; otherwise now is recorded and onPLI is called once |
| RemoteTracks.RemoteTrack.IntervalPLI | remotetrack.go:80-97 | the ticker loop passes on exactly the requests PliSeries selects, and records PliLast |
| RemoteTracks.RemoteTrack.OnEnded | remotetrack.go:195-202 | every ended callback runs exactly once, in registration order |
| RemoteTracks.RemoteTrack.ReadRtp | remotetrack.go:103-156 | the read loop, with the corrected PutPacket: its pools, the onRead deliveries in order, and whether it ended are those of `Run`; onEnded runs exactly when the loop returned |
| VoiceActivity.PacketStep | pkg/interceptors/voiceactivedetector/vad.go:94-100 | a packet at or over the threshold changes nothing; one under it is appended and counted, and marks the stream active as of now |
| VoiceActivity.StepBufferOk | pkg/interceptors/voiceactivedetector/vad.go:87-93 | an interval tick emits exactly bufferLength entries and empties the buffer, and every event keeps the buffer consistent with bufferLength |
| VoiceActivity.ArrivalsBuffer | pkg/interceptors/voiceactivedetector/vad.go:94-100 | over a run of packets the buffer gains exactly the accepted ones, in arrival order, and nothing is emitted |
| VoiceActivity.BatchAfterReset | pkg/interceptors/voiceactivedetector/vad.go:88-96 | after a reset, the next batch is exactly the accepted packets in arrival order (empty, not nil, when there were none) |
| VoiceActivity.FirstBatchIsZeros | pkg/interceptors/voiceactivedetector/vad.go:80-89 | because the buffer starts with 1024 zero entries, the first batch holds only zero-valued entries, one per accepted packet |
| VoiceActivity.StepsAppend | pkg/interceptors/voiceactivedetector/vad.go:83-107 | running two stretches of events in turn is running their concatenation |
| VoiceActivity.TailStep | pkg/interceptors/voiceactivedetector/vad.go:101-105 | a tail tick emits nil exactly when the stream is active and the last kept packet is older than the tail margin, and then leaves it inactive |
| VoiceActivity.NoSilenceWhileInactive | pkg/interceptors/voiceactivedetector/vad.go:101-105 | from an inactive state, events that bring no kept packet emit no nil: at most one nil per run of kept packets |
| VoiceActivity.DefaultConfigBehaviour | pkg/interceptors/voiceactivedetector/interceptor.go:31-38 | with the default configuration level 39 is kept and 40 is not, and silence is reported 301 ms, not 300 ms, after the last kept packet |
| VoiceActivity.MakeVoicePacket | pkg/interceptors/voiceactivedetector/vad.go:130-137 | addPacket records the header's sequence number and timestamp with the given level and voice flag |
| VoiceActivity.VoiceDetector.constructor | pkg/interceptors/voiceactivedetector/vad.go:42-56 | the given configuration and stream, nothing queued or emitted, and the run loop in its start state |
| VoiceActivity.VoiceDetector.Notify | pkg/interceptors/voiceactivedetector/vad.go:111-118 | the callback, if one is set, is called once with the packets; without one nothing happens |
| VoiceActivity.VoiceDetector.Handle | pkg/interceptors/voiceactivedetector/vad.go:86-106 | one pass of the select moves the loop's variables as `Step` does and notifies what it emits |
| VoiceActivity.VoiceDetector.Run | pkg/interceptors/voiceactivedetector/vad.go:62-109 | the loop ends in the state `Steps` computes for the events before Done, and the callback receives exactly what `Steps` emits |
| VoiceActivity.VoiceDetector.AddPacket | pkg/interceptors/voiceactivedetector/vad.go:130-139 | the packet's record joins the channel |
| VoiceActivity.VoiceDetector.UpdateTrack | pkg/interceptors/voiceactivedetector/vad.go:141-147 | records the track and stream IDs |
| VoiceActivity.VoiceDetector.Stop | pkg/interceptors/voiceactivedetector/vad.go:149-151 | cancels the run loop |
| VoiceActivity.VoiceDetector.UpdateStreamInfo | pkg/interceptors/voiceactivedetector/vad.go:153-158 | replaces the stream description |
| VoiceActivity.OnVoiceDetected | pkg/interceptors/voiceactivedetector/vad.go:120-128 | sets the callback and nothing else; on a nil detector does nothing |
| VadInterceptor.AudioLevelRoundTrip | pkg/interceptors/voiceactivedetector/interceptor.go:195-202 | decoding the one-byte audio level extension a sender writes (section 3 of RFC 6464) gives back its level and voice flag |
| VadInterceptor.AudioLevelIdFirst | pkg/interceptors/voiceactivedetector/interceptor.go:216-226 | the ID found is that of the first extension with the audio level URI, or 0 when none has it |
| VadInterceptor.Annotate | pkg/interceptors/voiceactivedetector/interceptor.go:137-138 | the attributes get the `audioLevel` and `isVoice` keys with the extension's values; every other key is unchanged |
| VadInterceptor.Interceptor.constructor | pkg/interceptors/voiceactivedetector/interceptor.go:70-78 | no detectors, the default configuration and no callback |
| VadInterceptor.Interceptor.GetVadBySsrc | pkg/interceptors/voiceactivedetector/interceptor.go:205-214 | the detector stored for the SSRC, or nil when there is none |
| VadInterceptor.Interceptor.GetAudioLevelExtensionId | pkg/interceptors/voiceactivedetector/interceptor.go:216-226 | the scan returns the first audio level extension's ID of the SSRC's detector, or 0 without a detector or a match |
| VadInterceptor.Interceptor.GetAudioLevel | pkg/interceptors/voiceactivedetector/interceptor.go:187-203 | the zero extension when the ID is 0 or the header lacks the extension, otherwise the decoded one |
| VadInterceptor.Interceptor.ProcessPacket | pkg/interceptors/voiceactivedetector/interceptor.go:167-185 | level 0 or an unknown SSRC gives the zero extension and feeds nothing; otherwise the decoded extension is returned, and the detector's channel gains the packet only when the voice flag is set; nothing else of any detector changes |
| VadInterceptor.Interceptor.BindRemoteStream | pkg/interceptors/voiceactivedetector/interceptor.go:101-142 | a stream neither Opus nor RED is not wrapped and the registry is unchanged. Otherwise an existing detector gets the new stream info and nothing else changes in it, or a new one is stored under the SSRC, onNew is told, and the reader is wrapped. |
| VadInterceptor.Interceptor.WrappedRead | pkg/interceptors/voiceactivedetector/interceptor.go:120-141 | read and header errors pass through as errors and feed nothing; otherwise the count is returned with attributes (a new map when nil) annotated with processPacket's result, and the detector's channel gains the packet exactly when processPacket feeds it; no other detector field changes |
| VadInterceptor.Interceptor.UnbindRemoteStream | pkg/interceptors/voiceactivedetector/interceptor.go:144-153 | the SSRC's detector, if any, is stopped (only its cancelled flag changes), and only that SSRC is removed from the registry |
| VadInterceptor.Interceptor.MapAudioTrack | pkg/interceptors/voiceactivedetector/interceptor.go:228-244 | nil and no change for a non-audio track. Otherwise the SSRC's detector is returned, made without stream info if there was none, and it records the track and stream IDs; an existing detector changes in nothing else. |
| VadInterceptor.NilStreamInfoReachable | pkg/interceptors/voiceactivedetector/interceptor.go:216-236 | binding an Opus stream, unbinding it and mapping its SSRC to an audio track leaves a wrapped reader and a detector for that SSRC with nil stream info: the state in which getAudioLevelExtensionID dereferences nil |
| Simulcast.LastExtensionIdNone | pkg/interceptors/simulcast/interceptor.go:64-74 | without an extension with the URI the ID is 0 |
| Simulcast.LastExtensionIdAt | pkg/interceptors/simulcast/interceptor.go:67-74 | the last extension with the URI decides the ID (last match wins) |
| Simulcast.LastRidNone | pkg/interceptors/simulcast/interceptor.go:64-80 | without an encoding with the SSRC the RID is "" |
| Simulcast.LastRidAt | pkg/interceptors/simulcast/interceptor.go:76-80 | the last encoding with the SSRC decides the RID |
| Simulcast.RewriteEffect | pkg/interceptors/simulcast/interceptor.go:50-58 | the header is rewritten only when the MID ID, the RID ID and the RID are all set. The RID extension then carries the RID and the MID extension "0", with the MID write winning when the two share an ID. Every other extension and header field is unchanged. |
| Simulcast.RewriteIdempotent | pkg/interceptors/simulcast/interceptor.go:50-58 | rewriting an already rewritten header changes nothing |
| Simulcast.Interceptor.constructor | pkg/interceptors/simulcast/interceptor.go:40-45 | zero-valued sender parameters |
| Simulcast.Interceptor.SetSenderParameters | pkg/interceptors/simulcast/interceptor.go:107-112 | the stored parameters are replaced wholesale |
| Simulcast.Interceptor.GetHeaderExtension | pkg/interceptors/simulcast/interceptor.go:63-82 | the loops return the last MID extension ID, the last RTP stream ID extension ID and the last RID for the SSRC |
| Simulcast.Interceptor.Write | pkg/interceptors/simulcast/interceptor.go:47-61 | the downstream writer gets the rewritten header (unchanged unless all three values are set), and the payload and attributes as given |
| Codecs.DecimalRoundTrip | codec.go:142 | the decimal digits `%d` writes for a payload type parse back to it |
| Codecs.AptLineInjective | codec.go:142 | distinct payload types have distinct `apt=` lines |
| Codecs.PayloadTypesDistinct | codec.go:13-113 | no two entries of the audio and video tables share a payload type |
| Codecs.VideoTableShape | codec.go:13-102 | the video table is ten rows of a primary entry followed by the retransmission entry whose `apt=` names it |
| Codecs.RtxPairing | codec.go:13-102 | every primary video entry is repaired by exactly one entry, the one after it; a retransmission entry by none |
| Codecs.RtxForMembership | codec.go:139-147 | the third phase's inner loop selects exactly the retransmission entries whose `apt=` names the payload type |
| Codecs.AudioRegisteredIff | codec.go:119-125 | an audio codec is registered iff it is an audio table entry whose MIME type is requested |
| Codecs.VideoPhases | codec.go:127-147 | a video entry is recorded iff requested, and the third phase brings exactly the retransmission entries naming a recorded entry |
| Codecs.AudioBeforeVideo | codec.go:119-147 | every audio registration precedes every video one |
| Codecs.RepairsRegistered | codec.go:139-147 | with the SFU's table, the retransmission entries registered are exactly those of the rows whose primary codec is requested |
| Codecs.MediaEngine.RegisterCodec | codec.go:121 | the engine logs the registration and reports its verdict on it |
| Codecs.RegisterRequested | codec.go:119-137 | a loop phase registers exactly the requested entries of a table, in order, records each whatever the engine answers, and collects the engine's errors |
| Codecs.RegisterRepairsOf | codec.go:140-146 | registers exactly the retransmission entries naming the payload type, collecting errors |
| Codecs.RegisterRepairs | codec.go:139-147 | registers the retransmission entries of each recorded video codec in turn, collecting errors |
| Codecs.RegisterCodecs | codec.go:116-150 | the engine receives exactly `Registrations(codecs)`, audio, then video, then retransmission, and the result is nil iff no registration errored, otherwise all errors flattened |
| Codecs.FirstWithMimeCarries | codec.go:152-166 | whatever the search finds carries the MIME type asked for |
| Codecs.LookupIsFirst | codec.go:152-166 | getRTPParameters gives the first entry of the audio then video tables with the MIME type, or the zero value when none has it |
| Codecs.AudioLookups | codec.go:152-166 | Opus resolves to payload type 111, RED to 63 |
| Codecs.VideoLookups | codec.go:152-166 | H.264 resolves to payload type 102 and a retransmission lookup to 97 |
| Codecs.UnknownLookup | codec.go:152-166 | a MIME type no table carries yields the zero value |
| Sfu.DefaultBitrates | sfu.go:25-38 | VideoLow < VideoMid < VideoHigh and plain video at the high rate; each tier has a quarter of the pixels of the one above; Audio < AudioRed < VideoLow; the initial bandwidth, 1M, exceeds VideoHigh |
| Sfu.InsertEffect | sfu.go:75-86 | Add fails iff the ID is taken; otherwise the client is found under its ID, every other ID finds what it found before, and the registry grows by one |
| Sfu.DeleteEffect | sfu.go:88-99 | Remove fails iff the ID is absent; otherwise only that ID is gone and the registry shrinks by one |
| Sfu.InsertThenDelete | sfu.go:75-99 | removing a client just added restores the registry |
| Sfu.DeleteThenInsert | sfu.go:75-99 | adding back a client just removed restores the registry |
| Sfu.SFUClients.constructor | sfu.go:136-157 | a new registry has no clients |
| Sfu.SFUClients.GetClients | sfu.go:45-55 | a fresh map with exactly the current entries; the registry is unchanged |
| Sfu.SFUClients.GetClient | sfu.go:57-66 | the stored client, or ErrClientNotFound |
| Sfu.SFUClients.Length | sfu.go:68-73 | the number of registered clients |
| Sfu.SFUClients.Add | sfu.go:75-86 | ErrClientExists and no change when the ID is taken; otherwise the registry is `Insert`'s |
| Sfu.SFUClients.Remove | sfu.go:88-99 | ErrClientNotFound and no change when the ID is absent; otherwise the registry is `Delete`'s |
| Sfu.Invocations | sfu.go:168-178 | one invocation per callback, in registration order, each given the client |
| Sfu.SFU.constructor | sfu.go:136-157 | a fresh, empty client registry, the options' bitrates, codecs and PLI interval, and no callbacks |
| Sfu.SFU.OnClientAdded | sfu.go:168-172 | every client-added callback runs once, in order |
| Sfu.SFU.OnClientRemoved | sfu.go:174-178 | every client-removed callback runs once, in order |
| Sfu.SFU.AddClient | sfu.go:159-166 | the client-added callbacks run only when Add succeeded; a duplicate changes nothing |
| Utils.ErrorTextAppend | utils.go:37-40 | the message of a concatenation is the concatenation of the messages: errors appear in list order |
| Utils.ErrorTextLength | utils.go:38-40 | the message length is the sum of every message length plus one |
| Utils.FlattenErrors | utils.go:32-43 | nil for no errors; otherwise an error, even when every message is empty, whose text is each message followed by a newline |
| Utils.CustomCharsInOrder | utils.go:16-30 | customChars is A-Z, then a-z, then 0-9 |
| Utils.CustomCharsAlphabet | utils.go:16-30 | customChars holds 62 characters, every ASCII letter and digit exactly once and nothing else |
| BitrateControl.SumAnyOrder | bitratecontroller.go:61-63 | summing the claims in any order that lists each once gives the same total |
| BitrateControl.BitrateController.constructor | bitratecontroller.go:25-36 | the given client and quality levels, and no claims |
| BitrateControl.BitrateController.Claims | bitratecontroller.go:68-76 | a fresh map with exactly the stored key/claim pairs; the store is unchanged |
| BitrateControl.BitrateController.TotalSentBitrates | bitratecontroller.go:58-66 | the exact sum of the claimed tracks' send bitrates, wrapped modulo 2^32, whatever order the claims are visited in; 0 without claims |
| RelayTracks.NewTrackRelayIsZero | relaytrack.go:40-83 | whatever NewTrackRelay is given, every accessor yields the empty or zero value |
| RelayTracks.MsidSplit | relaytrack.go:85-90 | the msid splits at its first space into the stream ID and the track ID |
| RelayTracks.MsidInjective | relaytrack.go:85-90 | tracks whose stream IDs hold no space share an msid only when they share stream ID and track ID |
| RelayTracks.CodecOfTrack | relaytrack.go:92-97 | the codec carries the track's MIME type, or is the zero value when no table entry does |
| RelayTracks.CodecOfNewTrack | relaytrack.go:92-97 | a new relay track reports the zero codec |
| RelayTracks.Read | relaytrack.go:99-101 | no bytes, nil attributes and an error, whatever the buffer |
| RelayTracks.SetReadDeadline | relaytrack.go:108-110 | always an error |
| RelayTracks.IsRelay | relaytrack.go:112-114 | always true |
| Clients.StateCodeRoundTrip | client.go:19-40 | the state constants 0..3 name the four states one to one |
| Clients.TypeNameRoundTrip | client.go:19-40 | the three client type names are distinct |
| Clients.QualityLevels | client.go:19-40 | the quality levels 0..11 name the twelve qualities one to one, audio above video and High > Mid > Low within a tier |

## Left out

- The packet pool is a value model, not classes. `RetainablePacket`, the
  headers, buffers and attribute maps are entries of per-type stores that
  the operations return updated. Aliasing and update in place are captured
  through shared `Ref`s.
- The errFailedToCast* paths of NewPacket cannot arise: each store holds
  objects of one type only.
- `sync.Pool` reuse order is a caller-given pick; the garbage collector
  emptying a pool is not modelled.
- Mutexes, goroutines, contexts, tickers and channels are replaced by
  sequential calls and explicit timed events. Three consequences follow:
  - `go t.onPLI()` and the callbacks run synchronously and are recorded
    in a log;
  - addPacket blocking on the 1024-deep channel is not modelled;
  - the mutation of `count` under a read lock is not modelled.
- Foreign calls are inputs to the model:
  - pion's `Header.Unmarshal`, `attr.GetRTPHeader` and the track's `Read`
    and `SetReadDeadline`;
  - the header extension lookup of `GetExtension`;
  - `MediaEngine.RegisterCodec`'s verdict.
  `SetExtension` is modelled on a map from extension ID to bytes, without
  the RFC 8285 framing.
- All logging is left out.
- No source method registers onEnded, client-added or client-removed
  callbacks; those lists are fields the model leaves as constructed.
- Sfu.SFUClients.Remove: like the source, it deletes whatever client is
  stored under the given client's ID.
- SFU.New's ICE servers, relay tracks and setting engine are left out, as
  are the bitrate controller's loopMonitor (its result is discarded),
  `GenerateID` (nanoid), `RegisterSimulcastHeaderExtensions` and
  `RegisterAudioLevelHeaderExtension` (media engine calls), and the VAD
  interceptor's factory, `SetConfig`, `OnNewVAD` and the no-op bind
  methods.
- The `sync.Map` of claims is a Dafny `map`, and a track's `SendBitrate`
  is a caller-given function.
- RelayTrack's mutex, `rtpChan` and `ReadRTP` are left out, and so is
  NewTrackRelay's channel argument.
- `uint16SizeHalf` is a constant with no behaviour.
- The VAD `HeadMargin` is carried in the configuration but, as in the
  source, never read.
- RemoteTracks.RemoteTrack.ReadRtp: the loop runs over a finite sequence
  of events; an infinite read loop is not modelled.
- GetAudioLevelExtensionId, GetAudioLevel, ProcessPacket, WrappedRead: the source dereferences the detector's stream info at interceptor.go:219 without a nil check, and MapAudioTrack makes a detector with nil stream info (interceptor.go:236), so a read through a reader wrapped before an unbind and a later MapAudioTrack panics. These members require the stream info to be present and do not model the panic; NilStreamInfoReachable shows the state is reachable.
- onRead is modelled as a callback that only receives the delivery and does not touch the pools; IterationValid's "live packets untouched" relies on that.
- RemoteTracks.RemoteTrack.IntervalPLI: runs over a finite sequence of
  ticks.

## Findings

| source | as written | input that shows it | evidently intended | confidence | as-written member | corrected member |
|---|---|---|---|---|---|---|
| pkg/rtppool/packetmanager.go:99-112 | releasePacket pools the buffer and attribute map but leaves `rp.buffer`, `rp.payload` and `rp.attr` pointing at them, and NewPacket overwrites them only for a non-nil payload or attributes | NewPacket with payload [1], Release; NewPacket with a nil payload recycles the packet, which still shows the old buffer; NewPacket with payload [7] takes that buffer; releasing the recycled packet zeroes the live packet's payload to [0] | a released packet no longer references pooled objects | not executed | PacketManagement.ReleaseAsWrittenCorrupts | PacketManagement.ReleaseValid |
| pkg/rtppool/rtppool.go:33-38 | PutPacket zeroes the bytes under the packet's payload slice and pools the packet still holding that slice; the read loop's unmarshal-failure path skips the payload assignment | a read of [0 x 12, 5] lands in buffer 0 and delivers [5]; NewPacket then takes buffer 0 for the payload [0 x 12, 9]; a second read whose header fails to parse recycles the rtp.Packet, whose stale slice zeroes byte 12 of buffer 0, so the live packet reads back thirteen zeros | PutPacket clears the payload slice so a pooled packet cannot reach a buffer it no longer owns | not executed | RemoteTracks.ReadLoopAsWrittenCorrupts | RemoteTracks.IterationValid |
