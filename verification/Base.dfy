/** Machine words, statuses and the option type shared by every component. */
module Base {

  const TWO32: int := 0x1_0000_0000
  const TWO64: int := 0x1_0000_0000_0000_0000

  type U16 = x: int | 0 <= x < 0x1_0000
  type U32 = x: int | 0 <= x < 0x1_0000_0000
  type U64 = x: int | 0 <= x < 0x1_0000_0000_0000_0000

  /** A 16-byte application identifier, read as one number: comparing all 16 bytes is equality. */
  type AppId = x: int | 0 <= x < 0x1_0000_0000_0000_0000_0000_0000_0000_0000

  datatype Option<+T> = None | Some(value: T)

  /** The NTSTATUS values the driver returns itself, and `Foreign` for one a kernel call returned. */
  datatype NtStatus =
    | Success
    | InvalidParameter
    | InsufficientResources
    | NotFound
    | BufferTooSmall
    | InvalidBufferSize
    | InvalidDeviceRequest
    | DeviceNotReady
    | Foreign(code: int)
  {
    /** NT_SUCCESS: severity success or informational. */
    predicate Ok() {
      Success? || (Foreign? && 0 <= code)
    }
  }

  /** The sum of two 64-bit words as the hardware adds them. */
  function Add64(a: U64, b: U64): U64 {
    if a + b < 0x1_0000_0000_0000_0000 then a + b else a + b - 0x1_0000_0000_0000_0000
  }

  /** The sum of two 32-bit words as the hardware adds them. */
  function Add32(a: U32, b: U32): U32 {
    if a + b < 0x1_0000_0000 then a + b else a + b - 0x1_0000_0000
  }

  /** The 64-bit word an unbounded count leaves. */
  function Low64(n: nat): (w: U64)
    ensures n < TWO64 ==> w == n
    ensures w <= n
  {
    if n < TWO64 then n else Low64(n - TWO64)
  }

  lemma {:induction false} Low64IsModulo(n: nat)
    ensures Low64(n) == n % TWO64
  {
    if TWO64 <= n { Low64IsModulo(n - TWO64); }
  }

  /** Counting in words and reducing an unbounded count give the same word. */
  lemma {:induction false} Low64Add(n: nat, x: U64)
    ensures Low64(n + x) == Add64(Low64(n), x)
  {
    if TWO64 <= n { Low64Add(n - TWO64, x); }
  }

  /** Reducing a sum of counts is adding the words. */
  lemma {:induction false} Low64Sum(a: nat, b: nat)
    ensures Low64(a + b) == Add64(Low64(a), Low64(b))
  {
    if TWO64 <= b {
      Low64Sum(a, b - TWO64);
      Low64Add(a + b - TWO64, 0);
    } else {
      Low64Add(a, b);
    }
  }

  /** What the hardware adds is the sum modulo the word size. */
  lemma AddIsModulo(a: U64, b: U64, c: U32, d: U32)
    ensures Add64(a, b) == (a + b) % TWO64
    ensures Add32(c, d) == (c + d) % TWO32
  {
  }

  /** The NTSTATUS value of a status as a signed 32-bit number. */
  function Signed(status: NtStatus): int {
    match status
    case Success => 0
    case InvalidParameter => 0xC000_000D - TWO32
    case InsufficientResources => 0xC000_009A - TWO32
    case NotFound => 0xC000_0225 - TWO32
    case BufferTooSmall => 0xC000_0023 - TWO32
    case InvalidBufferSize => 0xC000_0206 - TWO32
    case InvalidDeviceRequest => 0xC000_0010 - TWO32
    case DeviceNotReady => 0xC000_00A3 - TWO32
    case Foreign(code) => code
  }

  /** NT_SUCCESS is the sign of the value. */
  lemma OkIsSign(status: NtStatus)
    ensures status.Ok() <==> 0 <= Signed(status)
  {
  }
}
