/** Timestamps and packets as every stream of the runtime carries them. */
module Packets {

  /** The two reserved 64-bit microsecond values; everything strictly between them is a range value. */
  const UNSET: int := -0x8000_0000_0000_0000
  const DONE: int := 0x7fff_ffff_ffff_ffff

  type Timestamp = t: int | UNSET <= t <= DONE witness 0

  predicate IsRange(t: Timestamp) {
    UNSET < t < DONE
  }

  datatype Event =
    | NoEvent
    | EndOfStream
    | TimestampBound
    | Flush
    | Pause
    | Resume
    | Reconfigure
    | ForceKeyFrame

  datatype Packet = Packet(event: Event, ts: Timestamp, payload: int) {

    /** Bounds and end-of-stream travel as control; every other event is routed and checked like data. */
    predicate IsControl() {
      event == EndOfStream || event == TimestampBound
    }
  }

  const EOS_PACKET := Packet(EndOfStream, DONE, 0)
}
