/** Fixed-width integers and timestamps shared by the stores and the client. */
module Values {
  /** Go's uint64. */
  type Uint64 = x: int | 0 <= x < 0x1_0000_0000_0000_0000

  /** Go's byte. */
  type Byte = x: int | 0 <= x < 0x100

  /** Go's uint16. */
  type Uint16 = x: int | 0 <= x < 0x1_0000

  /** Go's int64. */
  type Int64 = x: int | -0x8000_0000_0000_0000 <= x < 0x8000_0000_0000_0000

  /** A point in time, as a count of ticks since the epoch; 0 is Go's zero
      `time.Time`. The clock itself is not modelled: callers pass the time. */
  type Timestamp = nat

  const ZeroTime: Timestamp := 0
}
