/** Machine integers, powers of two, the decoder's error kinds and the
    failure-compatible Option/Result wrappers shared by the other modules. */
module Base {

  type u8 = x: int | 0 <= x < 0x100
  type u16 = x: int | 0 <= x < 0x1_0000
  type u32 = x: int | 0 <= x < 0x1_0000_0000
  type u64 = x: int | 0 <= x < 0x1_0000_0000_0000_0000

  /** An adaptive probability: a `u16` holding P(bit = 0) scaled to 0x800.
      The decoder never lets one exceed 0x800; past that value the source's
      `0x800 - prob` would underflow and `(range >> 11) * prob` could overflow. */
  type Prob = p: int | 0 <= p <= 0x800

  function Pow2(n: nat): (r: nat)
    ensures r >= 1
  {
    if n == 0 then 1 else 2 * Pow2(n - 1)
  }

  lemma {:induction false} Pow2Add(a: nat, b: nat)
    ensures Pow2(a + b) == Pow2(a) * Pow2(b)
  {
    if b > 0 {
      Pow2Add(a, b - 1);
      calc {
        Pow2(a + b);
        2 * Pow2(a + b - 1);
        2 * (Pow2(a) * Pow2(b - 1));
        Pow2(a) * (2 * Pow2(b - 1));
      }
    }
  }

  lemma {:induction false} Pow2Mono(a: nat, b: nat)
    requires a <= b
    ensures Pow2(a) <= Pow2(b)
  {
    if a < b {
      Pow2Mono(a, b - 1);
    }
  }

  /** The powers of two that bound 32-bit words. */
  lemma Pow2Word()
    ensures Pow2(31) == 0x8000_0000 && Pow2(32) == 0x1_0000_0000
  {
    assert Pow2(8) == 0x100;
    Pow2Add(8, 8);
    Pow2Add(16, 8);
    Pow2Add(24, 7);
    Pow2Add(24, 8);
  }

  /** Up to 32 bits fit a `u32`. */
  lemma Pow2Fits(n: nat)
    requires n <= 32
    ensures Pow2(n) <= 0x1_0000_0000
  {
    Pow2Mono(n, 32);
    Pow2Word();
  }

  /** The error kinds the decoding core reports. */
  datatype Error =
    | UnexpectedEof                        // the byte source ran dry (an `io::Error` in the source)
    | HeaderTooShort
    | InvalidHeader(invalidProperties: nat)
    | ProbabilitiesBufferTooSmall(needed: nat, available: nat)
    | EosFoundButMoreBytesAvailable
    | ProcessedDataDoesNotMatchUnpackedSize(unpackedSize: nat, decompressedData: nat)
    | DistanceBeyondDictionary(dist: nat, dictSize: nat)
    | DistanceBeyondOutput(dist: nat, len: nat)

  datatype Option<+T> = None | Some(value: T)

  datatype Result<+T> = Ok(value: T) | Err(error: Error) {
    predicate IsFailure() {
      Err?
    }

    function PropagateFailure<U>(): Result<U>
      requires Err?
    {
      Err(error)
    }

    function Extract(): T
      requires Ok?
    {
      value
    }
  }

  function Min(a: int, b: int): int {
    if a <= b then a else b
  }

  function Max(a: int, b: int): int {
    if a >= b then a else b
  }
}
