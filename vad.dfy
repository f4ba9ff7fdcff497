/** pkg/interceptors/voiceactivedetector/vad.go: a voice detector for one
    audio stream. Its run loop gathers the packets whose audio level is
    under the threshold, hands them to the callback in a batch at every
    interval tick, and reports the end of speech (a nil batch) once no
    such packet has come for longer than the tail margin.

    The loop's select over the cancelled context, two tickers and the
    packet channel becomes a sequence of events, each carrying the time
    at which it happens. */
module VoiceActivity {
  import opened Common

  /** Config of the detector: the batch interval, the unused head margin,
      the tail margin and the audio level threshold. */
  datatype Config = Config(interval: Duration, headMargin: Duration, tailMargin: Duration, threshold: uint8)

  /** DefaultConfig: 100 ms batches, a 200 ms head margin, a 300 ms tail
      margin and a threshold of 40. */
  const DefaultConfig := Config(100 * Millisecond, 200 * Millisecond, 300 * Millisecond, 40)

  /** One packet as the detector records it. */
  datatype VoicePacketData = VoicePacketData(sequenceNo: uint16, timestamp: uint32, audioLevel: uint8, isVoice: bool)

  const ZeroVoicePacket := VoicePacketData(0, 0, 0, false)

  /** An RTP header extension the stream negotiated: its URI and ID. */
  datatype HeaderExtension = HeaderExtension(uri: string, id: int)

  /** interceptor.StreamInfo: the fields the detector and its interceptor read. */
  datatype StreamInfo = StreamInfo(ssrc: uint32, mimeType: string, clockRate: uint32, extensions: seq<HeaderExtension>)

  /** What the callback is given: a batch (possibly empty, never nil) at
      an interval tick, or nil when speech has ended. */
  datatype Emission = Batch(packets: seq<VoicePacketData>) | Silence

  /** The run loop's local variables. */
  datatype RunState = RunState(active: bool, lastSent: Time, buffer: seq<VoicePacketData>, bufferLength: nat)

  /** What the run loop's select receives. */
  datatype VadEvent =
    | Done
    | IntervalTick
    | PacketReceived(packet: VoicePacketData, now: Time)
    | TailTick(now: Time)

  /** The size `buffer` is made with. */
  const InitialBufferLen: nat := 1024

  /** The run loop as it starts: inactive, lastSent the start time, and a
      buffer of 1024 zero-valued entries. */
  function StartState(now: Time): RunState
  {
    RunState(false, now, seq(InitialBufferLen, _ => ZeroVoicePacket), 0)
  }

  /** make([]VoicePacketData, n) followed by copy(_, buffer). */
  function CopyOut(buffer: seq<VoicePacketData>, n: nat): (r: seq<VoicePacketData>)
    ensures |r| == n
    ensures forall i | 0 <= i < n :: r[i] == (if i < |buffer| then buffer[i] else ZeroVoicePacket)
  {
    seq(n, i requires 0 <= i < n => if i < |buffer| then buffer[i] else ZeroVoicePacket)
  }

  /** Whether the detector keeps a packet: its level is under the threshold. */
  predicate Accepts(cfg: Config, p: VoicePacketData)
  {
    p.audioLevel < cfg.threshold
  }

  /** One pass of the run loop's select, other than Done. */
  function Step(cfg: Config, s: RunState, ev: VadEvent): (r: (RunState, Option<Emission>))
    requires !ev.Done?
  {
    match ev
    case IntervalTick =>
      (s.(buffer := [], bufferLength := 0), Some(Batch(CopyOut(s.buffer, s.bufferLength))))
    case PacketReceived(p, now) =>
      if Accepts(cfg, p) then (RunState(true, now, s.buffer + [p], s.bufferLength + 1), None)
      else (s, None)
    case TailTick(now) =>
      if s.active && now - s.lastSent > cfg.tailMargin then (s.(active := false), Some(Silence))
      else (s, None)
  }

  /** The run loop over a finite run of events, up to Done: the final
      state and everything it emitted, in order. */
  function Steps(cfg: Config, s: RunState, events: seq<VadEvent>): (r: (RunState, seq<Emission>))
    decreases |events|
  {
    if events == [] || events[0].Done? then (s, [])
    else
      var (s1, e) := Step(cfg, s, events[0]);
      var (s2, es) := Steps(cfg, s1, events[1..]);
      (s2, (if e.Some? then [e.value] else []) + es)
  }

  /** The packets among ps the detector keeps, in order. */
  function Accepted(cfg: Config, ps: seq<VoicePacketData>): (r: seq<VoicePacketData>)
    ensures |r| <= |ps|
    ensures forall p | p in r :: p in ps && Accepts(cfg, p)
  {
    if ps == [] then []
    else (if Accepts(cfg, ps[0]) then [ps[0]] else []) + Accepted(cfg, ps[1..])
  }

  /** The packet events for ps, received at the given times. */
  function Arrivals(ps: seq<VoicePacketData>, times: seq<Time>): (r: seq<VadEvent>)
    requires |ps| == |times|
    ensures |r| == |ps| && forall i | 0 <= i < |r| :: r[i] == PacketReceived(ps[i], times[i])
  {
    seq(|ps|, i requires 0 <= i < |ps| => PacketReceived(ps[i], times[i]))
  }

  // ------------------------------------------------------------ proofs

  /** The buffer holds what bufferLength counts: after the first reset
      exactly the counted packets, before it 1024 zero entries first. */
  ghost predicate BufferOk(s: RunState)
  {
    |s.buffer| == s.bufferLength || |s.buffer| == InitialBufferLen + s.bufferLength
  }

  /** A packet at or over the threshold changes nothing; one under it is
      appended, counted, and marks the stream active as of now. */
  lemma PacketStep(cfg: Config, s: RunState, p: VoicePacketData, now: Time)
    ensures var (s', e) := Step(cfg, s, PacketReceived(p, now));
      && e.None?
      && (p.audioLevel >= cfg.threshold ==> s' == s)
      && (p.audioLevel < cfg.threshold ==>
            s'.buffer == s.buffer + [p] && s'.bufferLength == s.bufferLength + 1
            && s'.lastSent == now && s'.active)
  {
  }

  /** Every event keeps BufferOk; an interval tick emits exactly
      bufferLength entries, the last of which are the buffered packets,
      and empties the buffer. */
  lemma StepBufferOk(cfg: Config, s: RunState, ev: VadEvent)
    requires BufferOk(s) && !ev.Done?
    ensures var (s', e) := Step(cfg, s, ev); BufferOk(s')
    ensures ev.IntervalTick? ==>
      var (s', e) := Step(cfg, s, ev);
      && e.Some? && e.value.Batch? && |e.value.packets| == s.bufferLength
      && e.value.packets == s.buffer[..s.bufferLength]
      && s'.buffer == [] && s'.bufferLength == 0 && s'.active == s.active && s'.lastSent == s.lastSent
  {
    if ev.IntervalTick? {
      assert CopyOut(s.buffer, s.bufferLength) == s.buffer[..s.bufferLength];
    }
  }

  /** Over a run of packet events, the buffer gains exactly the accepted
      packets, in arrival order, and nothing is emitted. */
  lemma {:induction false} ArrivalsBuffer(cfg: Config, s: RunState, ps: seq<VoicePacketData>, times: seq<Time>)
    requires |ps| == |times|
    ensures var (s', es) := Steps(cfg, s, Arrivals(ps, times));
      && es == []
      && s'.buffer == s.buffer + Accepted(cfg, ps)
      && s'.bufferLength == s.bufferLength + |Accepted(cfg, ps)|
      && (Accepted(cfg, ps) != [] ==> s'.active)
      && (Accepted(cfg, ps) == [] ==> s' == s)
    decreases |ps|
  {
    if ps != [] {
      var evs := Arrivals(ps, times);
      assert evs[0] == PacketReceived(ps[0], times[0]);
      assert evs[1..] == Arrivals(ps[1..], times[1..]);
      PacketStep(cfg, s, ps[0], times[0]);
      var s1 := Step(cfg, s, evs[0]).0;
      ArrivalsBuffer(cfg, s1, ps[1..], times[1..]);
      var rest := Steps(cfg, s1, evs[1..]);
      assert Steps(cfg, s, evs) == (rest.0, [] + rest.1);
      if Accepts(cfg, ps[0]) {
        assert Accepted(cfg, ps) == [ps[0]] + Accepted(cfg, ps[1..]);
        assert s.buffer + [ps[0]] + Accepted(cfg, ps[1..]) == s.buffer + Accepted(cfg, ps);
      } else {
        assert Accepted(cfg, ps) == Accepted(cfg, ps[1..]);
      }
    }
  }

  /** After a reset, the next batch is exactly the accepted packets in
      arrival order (empty, not nil, when there were none). */
  lemma BatchAfterReset(cfg: Config, s: RunState, ps: seq<VoicePacketData>, times: seq<Time>)
    requires |ps| == |times| && s.buffer == [] && s.bufferLength == 0
    ensures var (s', es) := Steps(cfg, s, Arrivals(ps, times) + [IntervalTick]);
      es == [Batch(Accepted(cfg, ps))] && s'.buffer == [] && s'.bufferLength == 0
  {
    var evs := Arrivals(ps, times);
    ArrivalsBuffer(cfg, s, ps, times);
    StepsAppend(cfg, s, evs, [IntervalTick]);
    var s1 := Steps(cfg, s, evs).0;
    assert [IntervalTick][1..] == [];
    assert CopyOut(s1.buffer, s1.bufferLength) == Accepted(cfg, ps);
  }

  /** The first batch: the buffer still starts with its 1024 zero
      entries, so a first batch of up to 1024 packets holds only
      zero-valued entries, as many as packets were accepted. */
  lemma FirstBatchIsZeros(cfg: Config, start: Time, ps: seq<VoicePacketData>, times: seq<Time>)
    requires |ps| == |times| && |Accepted(cfg, ps)| <= InitialBufferLen
    ensures var (s', es) := Steps(cfg, StartState(start), Arrivals(ps, times) + [IntervalTick]);
      es == [Batch(seq(|Accepted(cfg, ps)|, _ => ZeroVoicePacket))]
  {
    var s := StartState(start);
    var evs := Arrivals(ps, times);
    ArrivalsBuffer(cfg, s, ps, times);
    StepsAppend(cfg, s, evs, [IntervalTick]);
    var s1 := Steps(cfg, s, evs).0;
    assert [IntervalTick][1..] == [];
    assert CopyOut(s1.buffer, s1.bufferLength) == seq(|Accepted(cfg, ps)|, _ => ZeroVoicePacket);
  }

  /** Running two stretches of events one after the other. */
  lemma {:induction false} StepsAppend(cfg: Config, s: RunState, a: seq<VadEvent>, b: seq<VadEvent>)
    requires forall e | e in a :: !e.Done?
    ensures var (s1, es1) := Steps(cfg, s, a);
      var (s2, es2) := Steps(cfg, s1, b);
      Steps(cfg, s, a + b) == (s2, es1 + es2)
    decreases |a|
  {
    if a != [] {
      assert (a + b)[0] == a[0] && (a + b)[1..] == a[1..] + b;
      var (s1, e) := Step(cfg, s, a[0]);
      StepsAppend(cfg, s1, a[1..], b);
      var out := if e.Some? then [e.value] else [];
      var r1 := Steps(cfg, s1, a[1..]);
      var r2 := Steps(cfg, r1.0, b);
      assert out + (r1.1 + r2.1) == (out + r1.1) + r2.1;
    } else {
      assert a + b == b;
      assert [] + Steps(cfg, s, b).1 == Steps(cfg, s, b).1;
    }
  }

  /** End of speech is reported at most once per run of kept packets:
      from an inactive state, events that bring no kept packet emit no nil. */
  lemma {:induction false} NoSilenceWhileInactive(cfg: Config, s: RunState, events: seq<VadEvent>)
    requires !s.active
    requires forall e | e in events && e.PacketReceived? :: !Accepts(cfg, e.packet)
    ensures var (s', es) := Steps(cfg, s, events); Silence !in es && !s'.active
    decreases |events|
  {
    if events != [] && !events[0].Done? {
      var (s1, e) := Step(cfg, s, events[0]);
      assert forall x | x in events[1..] :: x in events;
      NoSilenceWhileInactive(cfg, s1, events[1..]);
    }
  }

  /** A tail tick reports the end of speech exactly when the stream is
      active and the last kept packet is more than the tail margin old,
      and leaves the stream inactive. */
  lemma TailStep(cfg: Config, s: RunState, now: Time)
    ensures var (s', e) := Step(cfg, s, TailTick(now));
      && (e == Some(Silence) <==> s.active && now - s.lastSent > cfg.tailMargin)
      && (e.None? ==> s' == s)
      && (e.Some? ==> !s'.active && s'.buffer == s.buffer && s'.bufferLength == s.bufferLength)
  {
  }

  /** With the default configuration a packet of level 39 is kept and
      one of level 40 is not; a tail tick 300 ms after the last kept
      packet does not yet report silence, one 301 ms after does. */
  lemma DefaultConfigBehaviour(p: VoicePacketData, t: Time)
    ensures p.audioLevel == 39 ==> Accepts(DefaultConfig, p)
    ensures p.audioLevel == 40 ==> !Accepts(DefaultConfig, p)
    ensures Step(DefaultConfig, RunState(true, t, [], 0), TailTick(t + 300 * Millisecond)).1 == None
    ensures Step(DefaultConfig, RunState(true, t, [], 0), TailTick(t + 301 * Millisecond)).1 == Some(Silence)
  {
  }

  /** addPacket's record of a header, a level and a voice flag. */
  function MakeVoicePacket(header: Header, audioLevel: uint8, isVoice: bool): (r: VoicePacketData)
    ensures r.sequenceNo == header.sequenceNumber && r.timestamp == header.timestamp
    ensures r.audioLevel == audioLevel && r.isVoice == isVoice
  {
    VoicePacketData(header.sequenceNumber, header.timestamp, audioLevel, isVoice)
  }

  /** The callbacks' log for a run of emissions with callback `cb` set
      throughout: one entry per emission, or none without a callback. */
  function Notified(cb: Option<CallbackId>, es: seq<Emission>): (r: seq<(CallbackId, Emission)>)
    ensures cb.None? ==> r == []
    ensures cb.Some? ==> |r| == |es| && forall i | 0 <= i < |es| :: r[i] == (cb.value, es[i])
  {
    if cb.None? then [] else seq(|es|, i requires 0 <= i < |es| => (cb.value, es[i]))
  }

  /** VoiceDetector. The run loop's locals are kept as fields; `channel`
      holds every packet addPacket sent, in order (Run is handed the
      packet events it receives, with their times, as its argument), and
      `notified` each call of the callback with what it was given. */
  class VoiceDetector {
    var streamInfo: Option<StreamInfo>
    var config: Config
    var streamID: string
    var trackID: string
    var callback: Option<CallbackId>
    var cancelled: bool
    var channel: seq<VoicePacketData>
    var notified: seq<(CallbackId, Emission)>
    var active: bool
    var lastSent: Time
    var buffer: seq<VoicePacketData>
    var bufferLength: nat

    function State(): RunState
      reads this
    {
      RunState(active, lastSent, buffer, bufferLength)
    }

    /** newVAD: the given configuration and stream, nothing queued or
        sent, and the run loop started at `now`. */
    constructor (config: Config, streamInfo: Option<StreamInfo>, now: Time)
      ensures this.config == config && this.streamInfo == streamInfo
      ensures streamID == [] && trackID == [] && callback.None? && !cancelled
      ensures channel == [] && notified == []
      ensures State() == StartState(now)
    {
      this.config := config;
      this.streamInfo := streamInfo;
      streamID := [];
      trackID := [];
      callback := None;
      cancelled := false;
      channel := [];
      notified := [];
      active := false;
      lastSent := now;
      buffer := seq(InitialBufferLen, _ => ZeroVoicePacket);
      bufferLength := 0;
    }

    /** onVoiceDetected: the callback, if one is set, is given the packets. */
    method Notify(e: Emission)
      modifies this`notified
      ensures notified == old(notified) + Notified(callback, [e])
    {
      if callback.Some? {
        notified := notified + [(callback.value, e)];
      }
    }

    /** One pass of the select for an event other than Done. */
    method Handle(ev: VadEvent)
      requires !ev.Done?
      modifies this`active, this`lastSent, this`buffer, this`bufferLength, this`notified
      ensures State() == Step(config, old(State()), ev).0
      ensures var e := Step(config, old(State()), ev).1;
        notified == old(notified) + Notified(callback, if e.Some? then [e.value] else [])
    {
      match ev {
        case IntervalTick =>
          var voicePackets := CopyOut(buffer, bufferLength);
          Notify(Batch(voicePackets));
          buffer := [];
          bufferLength := 0;
        case PacketReceived(p, now) =>
          if p.audioLevel < config.threshold {
            buffer := buffer + [p];
            bufferLength := bufferLength + 1;
            lastSent := now;
            active := true;
          }
        case TailTick(now) =>
          if active && now - lastSent > config.tailMargin {
            Notify(Silence);
            active := false;
          }
      }
    }

    /** run: the loop handles events until the context is done (a Done
        event, or Stop called before). */
    method Run(events: seq<VadEvent>)
      modifies this`active, this`lastSent, this`buffer, this`bufferLength, this`notified
      ensures cancelled ==> State() == old(State()) && notified == old(notified)
      ensures !cancelled ==> State() == Steps(config, old(State()), events).0
      ensures !cancelled ==> notified == old(notified) + Notified(callback, Steps(config, old(State()), events).1)
    {
      if cancelled {
        return;
      }
      var i := 0;
      ghost var emitted: seq<Emission> := [];
      assert events[0..] == events;
      assert [] + Steps(config, State(), events).1 == Steps(config, State(), events).1;
      while i < |events| && !events[i].Done?
        invariant 0 <= i <= |events|
        invariant Steps(config, old(State()), events) == Resume(emitted, Steps(config, State(), events[i..]))
        invariant notified == old(notified) + Notified(callback, emitted)
      {
        var e := Step(config, State(), events[i]).1;
        StepsCons(config, State(), events, i, emitted);
        Handle(events[i]);
        NotifiedAppend(callback, emitted, if e.Some? then [e.value] else []);
        emitted := emitted + if e.Some? then [e.value] else [];
        i := i + 1;
      }
      assert Steps(config, State(), events[i..]) == (State(), []);
      assert emitted + [] == emitted;
    }

    /** addPacket: the record goes into the channel. */
    method AddPacket(header: Header, audioLevel: uint8, isVoice: bool)
      modifies this`channel
      ensures channel == old(channel) + [MakeVoicePacket(header, audioLevel, isVoice)]
    {
      var vp := VoicePacketData(header.sequenceNumber, header.timestamp, audioLevel, isVoice);
      channel := channel + [vp];
    }

    /** UpdateTrack: records the track and stream IDs. */
    method UpdateTrack(trackID: string, streamID: string)
      modifies this`trackID, this`streamID
      ensures this.trackID == trackID && this.streamID == streamID
    {
      this.trackID := trackID;
      this.streamID := streamID;
    }

    /** Stop: cancels the run loop's context. */
    method Stop()
      modifies this`cancelled
      ensures cancelled
    {
      cancelled := true;
    }

    /** updateStreamInfo: replaces the stream description. */
    method UpdateStreamInfo(streamInfo: StreamInfo)
      modifies this`streamInfo
      ensures this.streamInfo == Some(streamInfo)
    {
      this.streamInfo := Some(streamInfo);
    }
  }

  /** OnVoiceDetected: sets the callback; on a nil detector it does nothing. */
  method OnVoiceDetected(v: VoiceDetector?, callback: Option<CallbackId>)
    modifies (if v == null then {} else {v})`callback
    ensures v != null ==> v.callback == callback
  {
    if v == null {
      return;
    }
    v.callback := callback;
  }

  /** The outcome of a run that emitted `es` before. */
  function Resume(es: seq<Emission>, r: (RunState, seq<Emission>)): (RunState, seq<Emission>)
  {
    (r.0, es + r.1)
  }

  /** One more pass of the loop, seen from the outcome of the whole run. */
  lemma StepsCons(cfg: Config, s: RunState, events: seq<VadEvent>, i: nat, es: seq<Emission>)
    requires i < |events| && !events[i].Done?
    ensures var (s1, e) := Step(cfg, s, events[i]);
      Resume(es, Steps(cfg, s, events[i..])) == Resume(es + (if e.Some? then [e.value] else []), Steps(cfg, s1, events[i + 1..]))
  {
    assert events[i..][1..] == events[i + 1..];
    var (s1, e) := Step(cfg, s, events[i]);
    var out := if e.Some? then [e.value] else [];
    var r := Steps(cfg, s1, events[i + 1..]);
    assert es + (out + r.1) == (es + out) + r.1;
  }

  lemma NotifiedAppend(cb: Option<CallbackId>, a: seq<Emission>, b: seq<Emission>)
    ensures Notified(cb, a + b) == Notified(cb, a) + Notified(cb, b)
  {
    if cb.Some? {
      var l := Notified(cb, a + b);
      var r := Notified(cb, a) + Notified(cb, b);
      assert |l| == |r|;
      forall i | 0 <= i < |l|
        ensures l[i] == r[i]
      {
        if i < |a| {
          assert r[i] == Notified(cb, a)[i];
        } else {
          assert r[i] == Notified(cb, b)[i - |a|];
        }
      }
    }
  }
}
