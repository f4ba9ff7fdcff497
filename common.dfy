/** Types shared by every part of the SFU model: Go's fixed-width integers,
    optional values, error values, the RTP header (RFC 3550 section 5.1) and
    interceptor attributes. */
module Common {

  type uint8 = x: int | 0 <= x < 0x100
  type uint16 = x: int | 0 <= x < 0x1_0000
  type uint32 = x: int | 0 <= x < 0x1_0000_0000

  const Uint32Modulus: int := 0x1_0000_0000

  /** Go's time.Duration and monotonic clock readings, in nanoseconds. */
  type Duration = int
  type Time = int
  const Millisecond: Duration := 1_000_000

  datatype Option<T> = None | Some(value: T)

  /** A Go (value, error) pair where exactly one side is meaningful. */
  datatype Result<T> = Ok(value: T) | Err(error: Error)

  /** A Go `error` value, known by the text its Error() method returns. */
  datatype Error = Error(message: string)

  /** io.ErrShortBuffer */
  const ErrShortBuffer := Error("short buffer")

  /** The MIME types the SFU names: webrtc.MimeTypeOpus, VP8, H264, VP9
      and RTX, and the RED audio type (RFC 2198), which the source spells
      out as a literal. */
  const MimeTypeOpus := "audio/opus"
  const MimeTypeRed := "audio/red"
  const MimeTypeVP8 := "video/VP8"
  const MimeTypeH264 := "video/H264"
  const MimeTypeVP9 := "video/VP9"
  const MimeTypeRtx := "video/rtx"

  /** Identifies a callback registered by a caller; running it is recorded in a log. */
  type CallbackId = nat

  /** An RTP fixed header with its header extensions keyed by extension ID.
      Only the fields the core reads or writes are kept. */
  datatype Header = Header(
    padding: bool,
    marker: bool,
    payloadType: uint8,
    sequenceNumber: uint16,
    timestamp: uint32,
    ssrc: uint32,
    extensions: map<uint8, seq<uint8>>)

  /** The zero value of rtp.Header. */
  const ZeroHeader := Header(false, false, 0, 0, 0, 0, map[])

  /** Keys and values of interceptor.Attributes. */
  type AttrKey = string
  datatype AttrValue = Level(level: uint8) | Flag(flag: bool) | Opaque(text: string)
  type Attrs = map<AttrKey, AttrValue>

  /** A zero-filled byte sequence. */
  function Zeros(n: nat): (z: seq<uint8>)
    ensures |z| == n && forall i :: 0 <= i < n ==> z[i] == 0
  {
    seq(n, _ => 0)
  }

  function Min(a: int, b: int): int
  {
    if a <= b then a else b
  }
}
