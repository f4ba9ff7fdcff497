/** The constants of client.go: a client's life-cycle state, its type and
    the quality levels a track can be sent at. */
module Clients {
  import opened Common

  /** ClientStateNew .. ClientStateEnded. */
  datatype ClientState = StateNew | StateActive | StateRestart | StateEnded

  /** The integer constant each state is known by. */
  function StateCode(s: ClientState): (code: int)
    ensures 0 <= code <= 3
  {
    match s
    case StateNew => 0
    case StateActive => 1
    case StateRestart => 2
    case StateEnded => 3
  }

  /** The state an integer constant names, if any. */
  function StateOfCode(code: int): Option<ClientState>
  {
    if code == 0 then Some(StateNew)
    else if code == 1 then Some(StateActive)
    else if code == 2 then Some(StateRestart)
    else if code == 3 then Some(StateEnded)
    else None
  }

  /** The codes 0..3 name the four states one to one. */
  lemma StateCodeRoundTrip(s: ClientState, code: int)
    ensures StateOfCode(StateCode(s)) == Some(s)
    ensures StateOfCode(code).Some? <==> 0 <= code <= 3
    ensures StateOfCode(code) == Some(s) ==> StateCode(s) == code
  {
  }

  /** ClientTypePeer, ClientTypeUpBridge and ClientTypeDownBridge. */
  datatype ClientType = Peer | UpBridge | DownBridge

  function TypeName(t: ClientType): string
  {
    match t
    case Peer => "peer"
    case UpBridge => "upbridge"
    case DownBridge => "downbridge"
  }

  function TypeOfName(name: string): Option<ClientType>
  {
    if name == "peer" then Some(Peer)
    else if name == "upbridge" then Some(UpBridge)
    else if name == "downbridge" then Some(DownBridge)
    else None
  }

  /** The three type names are distinct, so a name reads back as its type. */
  lemma TypeNameRoundTrip(t: ClientType, name: string)
    ensures TypeOfName(TypeName(t)) == Some(t)
    ensures TypeOfName(name) == Some(t) ==> TypeName(t) == name
  {
    assert "peer" != "upbridge" by { assert "peer"[0] != "upbridge"[0]; }
    assert "peer" != "downbridge" by { assert "peer"[0] != "downbridge"[0]; }
    assert "upbridge" != "downbridge" by { assert "upbridge"[0] != "downbridge"[0]; }
  }

  /** QualityLevel: a uint32; the named levels follow. */
  type QualityLevel = uint32

  /** The named quality levels, from QualityNone up to QualityAudioRed. */
  datatype Quality =
    | QualityNone | QualityLowLow | QualityLowMid | QualityLow
    | QualityMidLow | QualityMidMid | QualityMid
    | QualityHighLow | QualityHighMid | QualityHigh
    | QualityAudio | QualityAudioRed

  function Level(q: Quality): (level: QualityLevel)
    ensures level <= 11
  {
    match q
    case QualityNone => 0
    case QualityLowLow => 1
    case QualityLowMid => 2
    case QualityLow => 3
    case QualityMidLow => 4
    case QualityMidMid => 5
    case QualityMid => 6
    case QualityHighLow => 7
    case QualityHighMid => 8
    case QualityHigh => 9
    case QualityAudio => 10
    case QualityAudioRed => 11
  }

  /** The named level a value stands for, if any. */
  function QualityOfLevel(level: QualityLevel): Option<Quality>
  {
    if level == 0 then Some(QualityNone)
    else if level == 1 then Some(QualityLowLow)
    else if level == 2 then Some(QualityLowMid)
    else if level == 3 then Some(QualityLow)
    else if level == 4 then Some(QualityMidLow)
    else if level == 5 then Some(QualityMidMid)
    else if level == 6 then Some(QualityMid)
    else if level == 7 then Some(QualityHighLow)
    else if level == 8 then Some(QualityHighMid)
    else if level == 9 then Some(QualityHigh)
    else if level == 10 then Some(QualityAudio)
    else if level == 11 then Some(QualityAudioRed)
    else None
  }

  /** The levels 0..11 name the twelve qualities one to one; the audio
      levels sit above every video level, and within a tier High > Mid >
      Low. */
  lemma QualityLevels(q: Quality, level: QualityLevel)
    ensures QualityOfLevel(Level(q)) == Some(q)
    ensures QualityOfLevel(level).Some? <==> level <= 11
    ensures QualityOfLevel(level) == Some(q) ==> Level(q) == level
    ensures Level(QualityLowLow) < Level(QualityLowMid) < Level(QualityLow)
            < Level(QualityMidLow) < Level(QualityMidMid) < Level(QualityMid)
            < Level(QualityHighLow) < Level(QualityHighMid) < Level(QualityHigh)
            < Level(QualityAudio) < Level(QualityAudioRed)
  {
  }
}
