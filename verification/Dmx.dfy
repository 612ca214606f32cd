/** DMX frames and the timed, prioritised sources that supply them. */
module Dmx {

  newtype byte = x: int | 0 <= x < 256

  const DMX_UNIVERSE_SIZE := 512
  const SOURCE_PRIORITY_MIN: byte := 0
  const SOURCE_PRIORITY_DEFAULT: byte := 100
  const SOURCE_PRIORITY_MAX: byte := 200
  const TIMEOUT_INTERVAL := 2500000  // microseconds

  type DmxBuffer = b: seq<byte> | |b| <= DMX_UNIVERSE_SIZE

  function Max(a: byte, b: byte): byte {
    if a < b then b else a
  }

  /** Channel `i` of a frame; channels past its end read as zero. */
  function Channel(b: DmxBuffer, i: nat): byte {
    if i < |b| then b[i] else 0
  }

  /** Highest takes precedence: the longer length, and in each channel the larger value. */
  function HtpMerge(a: DmxBuffer, b: DmxBuffer): (r: DmxBuffer)
    ensures |r| == if |a| < |b| then |b| else |a|
    ensures forall i: nat :: Channel(r, i) == Max(Channel(a, i), Channel(b, i))
  {
    seq(if |a| < |b| then |b| else |a|, i requires 0 <= i => Max(Channel(a, i), Channel(b, i)))
  }

  /** A frame, when it arrived in microseconds (0: never), and its priority. */
  datatype DmxSource = DmxSource(data: DmxBuffer, timestamp: nat, priority: byte) {
    predicate IsSet() {
      timestamp != 0
    }

    predicate IsActive(now: nat) {
      now < timestamp + TIMEOUT_INTERVAL
    }

    /** The three tests a source must pass to take part in a merge. */
    predicate IsLive(now: nat) {
      IsSet() && IsActive(now) && |data| != 0
    }
  }

  const NoSource := DmxSource([], 0, SOURCE_PRIORITY_MIN)

  /** What a port or a client is told: a frame and the priority it won with. */
  datatype Frame = Frame(data: DmxBuffer, priority: byte)
}
