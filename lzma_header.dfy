/** The raw LZMA header read by `LzmaParams::read_header`
    (src/decode/lzma.rs): one properties byte packing `lc`, `lp` and `pb`,
    a little-endian 32-bit dictionary size, and -- depending on the
    unpacked-size mode -- a little-endian 64-bit unpacked size in which
    all ones means "unknown, the stream ends with a marker". */
module LzmaHeader {
  import opened Base

  /** `LzmaParams`. */
  datatype Params = Params(lc: nat, lp: nat, pb: nat, dictSize: u32, unpackedSize: Option<u64>)

  /** The ranges the fields of `LzmaParams` are documented to take:
      `lc` 0..8, `lp` 0..4, `pb` 0..4. */
  predicate ParamsOk(p: Params) {
    p.lc <= 8 && p.lp <= 4 && p.pb <= 4
  }

  /** Where the unpacked size comes from (`UnpackedSize`). */
  datatype UnpackedSizeMode =
    | ReadFromHeader
    | ReadHeaderButUseProvided(provided: Option<u64>)
    | UseProvided(provided: Option<u64>)

  datatype Props = Props(lc: nat, lp: nat, pb: nat)

  /** The properties byte of a valid header packs `(pb * 5 + lp) * 9 + lc`. */
  function PropsByte(lc: nat, lp: nat, pb: nat): nat {
    (pb * 5 + lp) * 9 + lc
  }

  /** Lines 65-76: `lc = p % 9`, then `lp = (p / 9) % 5`, then `pb = p / 9 / 5`.
      The three fields are in range and pack back into `p`. */
  function SplitProps(p: u8): (r: Props)
    requires p < 225
    ensures r.lc <= 8 && r.lp <= 4 && r.pb <= 4
    ensures PropsByte(r.lc, r.lp, r.pb) == p
  {
    Props(p % 9, (p / 9) % 5, p / 9 / 5)
  }

  /** Every in-range triple packs into a byte below 225 that splits back
      into it, so the properties byte is a bijection onto 0..224. */
  lemma SplitPropsInverse(lc: nat, lp: nat, pb: nat)
    requires lc <= 8 && lp <= 4 && pb <= 4
    ensures PropsByte(lc, lp, pb) < 225
    ensures SplitProps(PropsByte(lc, lp, pb)) == Props(lc, lp, pb)
  {
    var p := PropsByte(lc, lp, pb);
    assert p / 9 == pb * 5 + lp && p % 9 == lc;
    assert (pb * 5 + lp) / 5 == pb && (pb * 5 + lp) % 5 == lp;
  }

  /** The bytes of `s` read little-endian. */
  function LittleEndian(s: seq<u8>): nat {
    if s == [] then 0 else s[0] + 0x100 * LittleEndian(s[1..])
  }

  /** The `n` little-endian bytes of `x` (modulo 2^(8n)). */
  function LeBytes(x: nat, n: nat): (s: seq<u8>)
    ensures |s| == n
  {
    if n == 0 then [] else [x % 0x100] + LeBytes(x / 0x100, n - 1)
  }

  lemma {:induction false} LittleEndianBound(s: seq<u8>)
    ensures LittleEndian(s) < Pow2(8 * |s|)
  {
    if s != [] {
      LittleEndianBound(s[1..]);
      Pow2Add(8, 8 * (|s| - 1));
      assert Pow2(8) == 0x100;
    }
  }

  /** Writing `n` bytes and reading them back gives `x` when it fits. */
  lemma {:induction false} LittleEndianLeBytes(x: nat, n: nat)
    requires x < Pow2(8 * n)
    ensures LittleEndian(LeBytes(x, n)) == x
  {
    if n > 0 {
      var q, rest := x / 0x100, Pow2(8 * (n - 1));
      Pow2Add(8, 8 * (n - 1));
      assert Pow2(8) == 0x100;
      assert x < 0x100 * rest;
      assert q < rest;
      LittleEndianLeBytes(q, n - 1);
      var s := LeBytes(x, n);
      assert s[1..] == LeBytes(q, n - 1);
      assert LittleEndian(s) == x % 0x100 + 0x100 * q;
    }
  }

  /** A little-endian number is all ones exactly when every byte is 0xFF. */
  lemma {:induction false} LittleEndianAllOnes(s: seq<u8>)
    ensures LittleEndian(s) == Pow2(8 * |s|) - 1 <==> forall i :: 0 <= i < |s| ==> s[i] == 0xFF
  {
    if s != [] {
      LittleEndianAllOnes(s[1..]);
      LittleEndianBound(s[1..]);
      Pow2Add(8, 8 * (|s| - 1));
      assert Pow2(8) == 0x100;
      if LittleEndian(s) == Pow2(8 * |s|) - 1 {
        assert s[0] == 0xFF;
        forall i | 0 <= i < |s| ensures s[i] == 0xFF {
          if i > 0 {
            assert s[i] == s[1..][i - 1];
          }
        }
      }
      if forall i :: 0 <= i < |s| ==> s[i] == 0xFF {
        assert forall i :: 0 <= i < |s| - 1 ==> s[1..][i] == 0xFF;
      }
    }
  }

  lemma Pow2Long()
    ensures Pow2(32) == 0x1_0000_0000 && Pow2(64) == 0x1_0000_0000_0000_0000
  {
    Pow2Word();
    Pow2Add(32, 32);
  }

  /** A little-endian 32-bit word. */
  function Le32(s: seq<u8>): (r: u32)
    requires |s| == 4
  {
    LittleEndianBound(s);
    Pow2Long();
    LittleEndian(s)
  }

  /** A little-endian 64-bit word. */
  function Le64(s: seq<u8>): (r: u64)
    requires |s| == 8
  {
    LittleEndianBound(s);
    Pow2Long();
    LittleEndian(s)
  }

  /** The 64-bit unpacked size that means "unknown". */
  const UnknownSize: u64 := 0xFFFF_FFFF_FFFF_FFFF

  /** The parameters and the number of header bytes consumed. */
  datatype Header = Header(params: Params, consumed: nat)

  /** The number of header bytes a mode reads. */
  function HeaderLength(mode: UnpackedSizeMode): nat {
    if mode.UseProvided? then 5 else 13
  }

  /** `read_header(input, options)`: the properties byte is checked before
      any further byte is read, so a bad byte is reported even in a header
      that is also too short. */
  function ReadHeader(input: seq<u8>, mode: UnpackedSizeMode): (r: Result<Header>)
    ensures r.Err? <==> |input| < 1 || input[0] >= 225 || |input| < HeaderLength(mode)
    ensures r.Err? && |input| >= 1 && input[0] >= 225 ==> r.error == InvalidHeader(input[0])
    ensures r.Err? && (|input| < 1 || input[0] < 225) ==> r.error == HeaderTooShort
    ensures r.Ok? ==>
      && r.value.consumed == HeaderLength(mode)
      && ParamsOk(r.value.params)
      && PropsByte(r.value.params.lc, r.value.params.lp, r.value.params.pb) == input[0]
      && r.value.params.dictSize == Max(LittleEndian(input[1..5]), 0x1000)
    ensures r.Ok? && !mode.ReadFromHeader? ==> r.value.params.unpackedSize == mode.provided
  {
    if |input| < 1 then Err(HeaderTooShort)
    else if input[0] >= 225 then Err(InvalidHeader(input[0]))
    else if |input| < 5 then Err(HeaderTooShort)
    else
      var props := SplitProps(input[0]);
      var d := Le32(input[1..5]);
      var dictSize := if d < 0x1000 then 0x1000 else d;  // lines 84-88: at least 4 KiB
      var unpackedSize :-
        match mode
        case ReadFromHeader =>
          if |input| < 13 then Err(HeaderTooShort)
          else
            var size := Le64(input[5..13]);
            Ok(if size == UnknownSize then None else Some(size))
        case ReadHeaderButUseProvided(provided) =>
          if |input| < 13 then Err(HeaderTooShort) else Ok(provided)
        case UseProvided(provided) =>
          Ok(provided);
      Ok(Header(Params(props.lc, props.lp, props.pb, dictSize, unpackedSize), HeaderLength(mode)))
  }

  /** With the size read from the header, the size is unknown exactly when
      its eight bytes are all 0xFF, and otherwise it is their value. */
  lemma ReadHeaderUnknownSize(input: seq<u8>)
    requires ReadHeader(input, ReadFromHeader).Ok?
    ensures var size := ReadHeader(input, ReadFromHeader).value.params.unpackedSize;
      && (size.None? <==> forall i :: 5 <= i < 13 ==> input[i] == 0xFF)
      && (size.Some? ==> size.value == LittleEndian(input[5..13]))
  {
    var s := input[5..13];
    LittleEndianAllOnes(s);
    Pow2Long();
    assert (forall i :: 0 <= i < 8 ==> s[i] == 0xFF) <==> (forall i :: 5 <= i < 13 ==> input[i] == 0xFF) by {
      assert forall i :: 0 <= i < 8 ==> s[i] == input[i + 5];
    }
  }

  /** The 13-byte header an encoder writes for `p`, the unknown size as
      all ones. */
  function EncodeHeader(p: Params): (bytes: seq<u8>)
    requires ParamsOk(p)
    ensures |bytes| == 13
  {
    SplitPropsInverse(p.lc, p.lp, p.pb);
    [PropsByte(p.lc, p.lp, p.pb)] + LeBytes(p.dictSize, 4)
      + LeBytes(if p.unpackedSize.Some? then p.unpackedSize.value else UnknownSize, 8)
  }

  /** Reading back an encoded header, whatever follows it, gives the same
      parameters, provided the dictionary size is one the decoder keeps and
      a known size is not the all-ones value. */
  lemma ReadEncodedHeader(p: Params, rest: seq<u8>)
    requires ParamsOk(p) && p.dictSize >= 0x1000 && p.unpackedSize != Some(UnknownSize)
    ensures ReadHeader(EncodeHeader(p) + rest, ReadFromHeader) == Ok(Header(p, 13))
  {
    var input := EncodeHeader(p) + rest;
    SplitPropsInverse(p.lc, p.lp, p.pb);
    Pow2Long();
    var size := if p.unpackedSize.Some? then p.unpackedSize.value else UnknownSize;
    assert input[1..5] == LeBytes(p.dictSize, 4);
    assert input[5..13] == LeBytes(size, 8);
    LittleEndianLeBytes(p.dictSize, 4);
    LittleEndianLeBytes(size, 8);
  }
}
