/** Shared vocabulary: nullable values, fixed-width integer ranges with explicit
    wrap-around, and the per-port device-change masks reported by the console's
    input layer. */
module Common {

  /** A value that may be absent; `None` plays the part of a NULL pointer or handle. */
  datatype Option<+T> = None | Some(value: T)

  const TwoTo8: int := 0x100
  const TwoTo16: int := 0x1_0000
  const TwoTo32: int := 0x1_0000_0000

  type u8 = x: int | 0 <= x < TwoTo8
  type u16 = x: int | 0 <= x < TwoTo16
  type u32 = x: int | 0 <= x < TwoTo32
  type i8 = x: int | -0x80 <= x < 0x80
  type i16 = x: int | -0x8000 <= x < 0x8000
  type i32 = x: int | -0x8000_0000 <= x < 0x8000_0000

  /** Conversion of any integer to a 32-bit unsigned value (C's modular conversion). */
  function U32(x: int): (r: u32)
    ensures 0 <= x < TwoTo32 ==> r == x
    ensures (r - x) % TwoTo32 == 0
  {
    x % TwoTo32
  }

  /** Conversion of any integer to a 16-bit unsigned value (C's modular conversion). */
  function U16(x: int): (r: u16)
    ensures 0 <= x < TwoTo16 ==> r == x
    ensures (r - x) % TwoTo16 == 0
  {
    x % TwoTo16
  }

  /** An opaque device or object handle returned by the platform; only its
      identity matters to the model. */
  type Handle = nat

  /** Number of controller ports the console has; handle arrays are this long. */
  const MaxPorts: nat := 4

  /** The insertion and removal masks of one device-change query: bit i stands for port i. */
  datatype DeviceChanges = DeviceChanges(insertions: bv32, removals: bv32)

  /** Whether bit `port` of `mask` is set (the test `mask & (1 << port)`). */
  predicate PortBit(mask: bv32, port: nat)
    requires port < 32
  {
    mask & (1 as bv32 << port) != 0
  }
}
