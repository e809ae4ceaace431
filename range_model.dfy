/** The range decoder of rangecoder.rs, stated on values: a coder state, the
    input bytes it reads, and one function per decoding primitive (normalise,
    one adaptive bit, one direct bit, a run of direct bits, a bit tree, a
    reverse bit tree, the length decoder).  The classes of module RangeCoder
    are proved to compute exactly these functions. */
module RangeModel {
  import opened Base

  /** `range` is kept at or above 2^24 after every normalisation. */
  const TopValue: nat := 0x100_0000
  /** Every probability starts at one half, 0x400 out of 0x800. */
  const InitProb: Prob := 0x400

  /** A table of `n` probabilities, all at one half. */
  function Fresh(n: nat): seq<Prob> {
    seq(n, _ => InitProb)
  }

  /** `count` such tables. */
  function FreshRows(count: nat, n: nat): seq<seq<Prob>> {
    seq(count, _ => Fresh(n))
  }

  /** The range decoder's registers and its cursor into the input bytes. */
  datatype Coder = Coder(range: u32, code: u32, pos: nat)

  /** What a decoding primitive returns on success: a value and the new coder. */
  datatype Decoded<T> = Decoded(value: T, coder: Coder)

  /** What a bit-tree walk returns: the value, the bits in the order they were
      decoded, the new coder and the new probabilities of the tree. */
  datatype TreeOut = TreeOut(value: nat, bits: seq<bool>, coder: Coder, probs: seq<Prob>)

  predicate OnInput(input: seq<u8>, c: Coder) {
    c.pos <= |input|
  }

  /** The invariant the LZMA format keeps between two decoded bits. */
  predicate Normalized(c: Coder) {
    c.range >= TopValue
  }

  /** The band adaptation never leaves once a probability starts in it
      (0x400 does); within it every decoded bit strictly narrows `range`. */
  predicate ProbOk(p: Prob) {
    31 <= p <= 0x800 - 31
  }

  predicate AllOk(s: seq<Prob>) {
    forall i :: 0 <= i < |s| ==> ProbOk(s[i])
  }

  /** Unread input weighs more than any value of `range`: this drops with
      every decoded bit, so decoding cannot run forever. */
  function Measure(input: seq<u8>, c: Coder): nat
    requires OnInput(input, c)
  {
    (|input| - c.pos) * 0x1_0000_0000 + c.range
  }

  function B(b: bool): nat {
    if b then 1 else 0
  }

  /** The bits of `s` read most significant first. */
  function MsbValue(s: seq<bool>): nat {
    if s == [] then 0 else 2 * MsbValue(s[..|s| - 1]) + B(s[|s| - 1])
  }

  /** The bits of `s` read least significant first: `s[i]` is worth 2^i. */
  function LsbValue(s: seq<bool>): nat {
    if s == [] then 0 else LsbValue(s[..|s| - 1]) + (if s[|s| - 1] then Pow2(|s| - 1) else 0)
  }

  lemma {:induction false} MsbValueBound(s: seq<bool>)
    ensures MsbValue(s) < Pow2(|s|)
  {
    if s != [] {
      MsbValueBound(s[..|s| - 1]);
    }
  }

  lemma {:induction false} LsbValueBound(s: seq<bool>)
    ensures LsbValue(s) < Pow2(|s|)
  {
    if s != [] {
      LsbValueBound(s[..|s| - 1]);
    }
  }

  /** The bytes of `s` read as a big-endian number. */
  function BigEndian(s: seq<u8>): nat {
    if s == [] then 0 else BigEndian(s[..|s| - 1]) * 0x100 + s[|s| - 1]
  }

  /** `is_finished_ok`: `code` has come down to 0 with no input left. */
  predicate FinishedOk(input: seq<u8>, c: Coder) {
    c.code == 0 && c.pos == |input|
  }

  // ---------------------------------------------------------------------
  // Normalisation and single bits

  /** `normalize`: when `range` has fallen below 2^24, shift one input byte
      into `code`.  `code << 8` keeps only 32 bits, so the top byte of `code`
      falls off. */
  function Normalize(input: seq<u8>, c: Coder): (r: Result<Coder>)
    requires OnInput(input, c)
    ensures r.Err? <==> c.range < TopValue && c.pos == |input|
    ensures r.Ok? ==> OnInput(input, r.value)
    ensures r.Ok? ==> r.value.pos == if c.range < TopValue then c.pos + 1 else c.pos
    ensures r.Ok? && c.range >= 0x1_0000 ==> Normalized(r.value)
    ensures r.Ok? && c.code < c.range ==> r.value.code < r.value.range
  {
    if c.range < TopValue then
      if c.pos < |input| then
        Ok(Coder(c.range * 0x100, Low24(c.code) * 0x100 + input[c.pos], c.pos + 1))
      else
        Err(UnexpectedEof)
    else
      Ok(c)
  }

  /** The low 24 bits of `x`: what is left of `code` once `code << 8`
      on a `u32` has dropped its top byte. */
  function Low24(x: u32): (r: nat)
    ensures r < TopValue
    ensures x < TopValue ==> r == x
    decreases x
  {
    if x < TopValue then x else Low24(x - TopValue)
  }

  lemma {:induction false} Low24Mod(x: u32)
    ensures Low24(x) == x % TopValue
    decreases x
  {
    if x >= TopValue {
      Low24Mod(x - TopValue);
    }
  }

  lemma MulMono(q: nat, a: nat, b: nat)
    requires a <= b
    ensures q * a <= q * b
  {
  }

  /** `bound = (range >> 11) * prob`: the share of `range` that stands for a 0 bit. */
  function Bound(range: u32, prob: Prob): (b: u32)
    ensures b <= range
    ensures range >= 0x800 && 0 < prob < 0x800 ==> 0 < b < range
  {
    var q := range / 0x800;
    MulMono(q, prob, 0x800);
    MulMono(q, Min(prob, 0x7FF), 0x7FF);
    q * prob
  }

  /** The bit `decode_bit` returns: false exactly when `code < bound`. */
  function BitOf(c: Coder, prob: Prob): bool {
    c.code >= Bound(c.range, prob)
  }

  /** The coder after `decode_bit` has narrowed it, before normalisation:
      a 0 keeps the lower `bound`, a 1 keeps the rest and moves `code` down. */
  function Narrow(c: Coder, prob: Prob): (n: Coder)
    ensures n.pos == c.pos
    ensures c.code < c.range ==> n.code < n.range
  {
    var bound := Bound(c.range, prob);
    if c.code < bound then c.(range := bound) else Coder(c.range - bound, c.code - bound, c.pos)
  }

  /** The probability after a decoded bit: it moves 1/32 of the way toward
      0x800 on a 0 and toward 0 on a 1, and stays put when `update` is false. */
  function Adapt(prob: Prob, bit: bool, update: bool): (p: Prob)
    ensures !update ==> p == prob
    ensures update && !bit ==> prob <= p
    ensures update && bit ==> p <= prob
    ensures 0 < prob < 0x800 ==> 0 < p < 0x800
    ensures ProbOk(prob) ==> ProbOk(p)
  {
    if !update then prob
    else if !bit then prob + (0x800 - prob) / 32
    else prob - prob / 32
  }

  /** With a probability in band, narrowing a normalised coder leaves at
      least 2^16 of `range` and strictly less than before, so one
      normalisation restores 2^24 while the measure still drops. */
  lemma NarrowProgress(c: Coder, prob: Prob)
    requires Normalized(c) && ProbOk(prob)
    ensures 0x1_0000 <= Narrow(c, prob).range < c.range
  {
    var q := c.range / 0x800;
    var bound := Bound(c.range, prob);
    assert q >= 0x2000;
    MulMono(q, 31, prob);
    MulMono(q, prob, 0x800 - 31);
    assert bound >= 0x1_0000;
    assert c.range - bound >= q * 31;
  }

  /** `decode_bit`: narrow, then normalise; the bit is `BitOf(c, prob)`. */
  function DecodeBit(input: seq<u8>, c: Coder, prob: Prob): (r: Result<Decoded<bool>>)
    requires OnInput(input, c)
    ensures r.Ok? ==> OnInput(input, r.value.coder) && r.value.coder.pos <= c.pos + 1
    ensures r.Ok? ==> r.value.value == BitOf(c, prob)
    ensures r.Ok? && c.code < c.range ==> r.value.coder.code < r.value.coder.range
    ensures r.Ok? && Normalized(c) && ProbOk(prob) ==>
      Normalized(r.value.coder) && Measure(input, r.value.coder) < Measure(input, c)
  {
    if Normalized(c) && ProbOk(prob) then NarrowProgress(c, prob); DecodeBitOf(input, c, prob)
    else DecodeBitOf(input, c, prob)
  }

  function DecodeBitOf(input: seq<u8>, c: Coder, prob: Prob): Result<Decoded<bool>>
    requires OnInput(input, c)
  {
    match Normalize(input, Narrow(c, prob))
    case Ok(n) => Ok(Decoded(BitOf(c, prob), n))
    case Err(e) => Err(e)
  }

  /** `get_bit`: halve `range`; the bit is 1 exactly when `code` lies in the
      upper half, and then that half is subtracted from `code`. */
  function DirectBit(input: seq<u8>, c: Coder): (r: Result<Decoded<bool>>)
    requires OnInput(input, c)
    ensures r.Ok? ==> OnInput(input, r.value.coder)
    ensures r.Ok? && Normalized(c) ==>
      Normalized(r.value.coder) && Measure(input, r.value.coder) < Measure(input, c)
  {
    var half := c.range / 2;
    var bit := c.code >= half;
    var n := if bit then Coder(half, c.code - half, c.pos) else c.(range := half);
    match Normalize(input, n)
    case Ok(m) => Ok(Decoded(bit, m))
    case Err(e) => Err(e)
  }

  // ---------------------------------------------------------------------
  // Runs of direct bits: `get`

  /** Shifting a bit into a `u32` accumulator of at most 31 bits loses nothing. */
  lemma ShiftInBit(acc: u32, bits: seq<bool>, b: bool)
    requires |bits| <= 31 && acc == MsbValue(bits)
    ensures (acc % 0x8000_0000) * 2 + B(b) == MsbValue(bits + [b])
  {
    MsbValueBound(bits);
    Pow2Mono(|bits|, 31);
    Pow2Word();
    assert acc % 0x8000_0000 == acc;
    assert (bits + [b])[..|bits|] == bits;
  }

  /** `k` more rounds of `get`'s loop on accumulator `acc`, with `bits`
      decoded so far; `result << 1` on a `u32` drops the top bit, which is
      never set while at most 32 bits are read. */
  function DirectWalk(input: seq<u8>, c: Coder, k: nat, acc: u32, bits: seq<bool>): (r: Result<TreeOut>)
    requires OnInput(input, c)
    ensures r.Ok? ==> OnInput(input, r.value.coder) && |r.value.bits| == |bits| + k && r.value.value < 0x1_0000_0000
    ensures r.Ok? && |bits| + k <= 32 && acc == MsbValue(bits) ==> r.value.value == MsbValue(r.value.bits)
    ensures r.Ok? && Normalized(c) ==>
      Normalized(r.value.coder) && Measure(input, r.value.coder) + k <= Measure(input, c)
    decreases k
  {
    if k == 0 then
      Ok(TreeOut(acc, bits, c, []))
    else
      match DirectBit(input, c)
      case Err(e) => Err(e)
      case Ok(d) =>
        var acc': u32 := (acc % 0x8000_0000) * 2 + B(d.value);
        if |bits| + k <= 32 && acc == MsbValue(bits) then
          ShiftInBit(acc, bits, d.value);
          DirectWalk(input, d.coder, k - 1, acc', bits + [d.value])
        else
          DirectWalk(input, d.coder, k - 1, acc', bits + [d.value])
  }

  /** `get(count)`: `count` direct bits, most significant first. */
  function DirectBits(input: seq<u8>, c: Coder, count: nat): (r: Result<TreeOut>)
    requires OnInput(input, c)
    ensures r.Ok? ==> OnInput(input, r.value.coder) && |r.value.bits| == count && r.value.value < 0x1_0000_0000
    ensures r.Ok? && count <= 32 ==> r.value.value == MsbValue(r.value.bits) < Pow2(count)
    ensures r.Ok? && Normalized(c) ==>
      Normalized(r.value.coder) && Measure(input, r.value.coder) + count <= Measure(input, c)
  {
    var r := DirectWalk(input, c, count, 0, []);
    MsbValueBound(if r.Ok? then r.value.bits else []);
    r
  }

  // ---------------------------------------------------------------------
  // Bit trees: `parse_bit_tree` and `parse_reverse_bit_tree`

  /** Adapting one entry keeps a table in band. */
  lemma AllOkUpdate(s: seq<Prob>, i: nat, p: Prob)
    requires i < |s|
    ensures AllOk(s) && ProbOk(p) ==> AllOk(s[i := p])
  {
  }

  /** The tree node reached after decoding `bits` from the root (node 1):
      each bit descends from `t` to `2 * t + bit`, so the node is a 1
      followed by the bits.  This is the loops' `tmp`. */
  function Node(bits: seq<bool>): nat {
    Pow2(|bits|) + MsbValue(bits)
  }

  lemma NodeNext(bits: seq<bool>, b: bool)
    ensures Node(bits + [b]) == 2 * Node(bits) + B(b)
  {
    assert (bits + [b])[..|bits|] == bits;
  }

  /** Below level `n` every node indexes a tree of 2^n entries. */
  lemma NodeBound(bits: seq<bool>, n: nat)
    requires |bits| < n
    ensures Pow2(|bits|) <= Node(bits) < Pow2(|bits| + 1) <= Pow2(n)
  {
    MsbValueBound(bits);
    Pow2Mono(|bits| + 1, n);
  }

  /** The rest of a walk down an `n`-level tree after `bits`: each level
      decodes one bit with the probability of the current node, adapts it,
      and descends.  The walk yields the bits in the order decoded; the
      forward and the reverse tree differ only in how they read them and in
      the `offset` of the reverse tree's table. */
  function TreeWalk(input: seq<u8>, c: Coder, probs: seq<Prob>, offset: nat, n: nat, bits: seq<bool>,
                    update: bool): (r: Result<TreeOut>)
    requires OnInput(input, c) && |bits| <= n && offset + Pow2(n) <= |probs|
    ensures r.Ok? ==> OnInput(input, r.value.coder)
    ensures r.Ok? ==> |r.value.bits| == n && r.value.bits[..|bits|] == bits && |r.value.probs| == |probs|
    ensures r.Ok? && !update ==> r.value.probs == probs
    ensures r.Ok? && Normalized(c) && AllOk(probs) ==>
      && Normalized(r.value.coder) && AllOk(r.value.probs)
      && Measure(input, r.value.coder) + (n - |bits|) <= Measure(input, c)
    decreases n - |bits|
  {
    if |bits| == n then
      Ok(TreeOut(0, bits, c, probs))
    else
      NodeBound(bits, n);
      var i := offset + Node(bits);
      match DecodeBit(input, c, probs[i])
      case Err(e) => Err(e)
      case Ok(d) =>
        var p := Adapt(probs[i], d.value, update);
        AllOkUpdate(probs, i, p);
        var r := TreeWalk(input, d.coder, probs[i := p], offset, n, bits + [d.value], update);
        if r.Ok? then
          assert r.value.bits[..|bits|] == (r.value.bits[..|bits| + 1])[..|bits|];
          r
        else r
  }

  /** One level of a walk whose bit fails: the walk fails with it. */
  lemma TreeWalkFails(input: seq<u8>, c: Coder, probs: seq<Prob>, offset: nat, n: nat, bits: seq<bool>,
                      update: bool)
    requires OnInput(input, c) && |bits| < n && offset + Pow2(n) <= |probs|
    requires offset + Node(bits) < |probs|
    requires DecodeBit(input, c, probs[offset + Node(bits)]).Err?
    ensures TreeWalk(input, c, probs, offset, n, bits, update) == Err(DecodeBit(input, c, probs[offset + Node(bits)]).error)
  {
  }

  /** One level of a walk whose bit `b` decodes, leaving coder `c1` and
      the adapted probability `p`: the walk goes on from there. */
  lemma TreeWalkNext(input: seq<u8>, c: Coder, probs: seq<Prob>, offset: nat, n: nat, bits: seq<bool>,
                     update: bool, c1: Coder, b: bool, p: Prob)
    requires OnInput(input, c) && |bits| < n && offset + Pow2(n) <= |probs|
    requires offset + Node(bits) < |probs|
    requires DecodeBit(input, c, probs[offset + Node(bits)]) == Ok(Decoded(b, c1))
    requires p == Adapt(probs[offset + Node(bits)], b, update)
    ensures OnInput(input, c1)
    ensures TreeWalk(input, c, probs, offset, n, bits, update)
         == TreeWalk(input, c1, probs[offset + Node(bits) := p], offset, n, bits + [b], update)
  {
  }

  /** `parse_bit_tree(n, probs)`: `n` bits decoded from the root down, read
      most significant first; the loop's final `tmp` is `2^n` plus this value. */
  function BitTreeDecode(input: seq<u8>, c: Coder, probs: seq<Prob>, n: nat, update: bool): (r: Result<TreeOut>)
    requires OnInput(input, c) && Pow2(n) <= |probs|
    ensures r.Ok? ==> OnInput(input, r.value.coder) && |r.value.probs| == |probs|
    ensures r.Ok? ==> |r.value.bits| == n && r.value.value == MsbValue(r.value.bits) < Pow2(n)
    ensures r.Ok? && !update ==> r.value.probs == probs
    ensures r.Ok? && Normalized(c) && AllOk(probs) ==>
      && Normalized(r.value.coder) && AllOk(r.value.probs)
      && Measure(input, r.value.coder) + n <= Measure(input, c)
  {
    var t :- TreeWalk(input, c, probs, 0, n, [], update);
    MsbValueBound(t.bits);
    Ok(t.(value := MsbValue(t.bits)))
  }

  /** `BitTreeDecode` in terms of the outcome of its walk. */
  lemma BitTreeDecodeWalk(input: seq<u8>, c: Coder, probs: seq<Prob>, n: nat, update: bool)
    requires OnInput(input, c) && Pow2(n) <= |probs|
    ensures var w := TreeWalk(input, c, probs, 0, n, [], update);
      BitTreeDecode(input, c, probs, n, update)
      == if w.Err? then Err(w.error) else Ok(w.value.(value := MsbValue(w.value.bits)))
  {
  }

  /** `parse_reverse_bit_tree(n, probs, offset)`: the same walk through
      `probs[offset + node]`, but the i-th decoded bit is worth 2^i. */
  function ReverseBitTreeDecode(input: seq<u8>, c: Coder, probs: seq<Prob>, offset: nat, n: nat, update: bool)
    : (r: Result<TreeOut>)
    requires OnInput(input, c) && offset + Pow2(n) <= |probs|
    ensures r.Ok? ==> OnInput(input, r.value.coder) && |r.value.probs| == |probs|
    ensures r.Ok? ==> |r.value.bits| == n && r.value.value == LsbValue(r.value.bits) < Pow2(n)
    ensures r.Ok? && !update ==> r.value.probs == probs
    ensures r.Ok? && Normalized(c) && AllOk(probs) ==>
      && Normalized(r.value.coder) && AllOk(r.value.probs)
      && Measure(input, r.value.coder) + n <= Measure(input, c)
  {
    var t :- TreeWalk(input, c, probs, offset, n, [], update);
    LsbValueBound(t.bits);
    Ok(t.(value := LsbValue(t.bits)))
  }

  /** `ReverseBitTreeDecode` in terms of the outcome of its walk. */
  lemma ReverseBitTreeDecodeWalk(input: seq<u8>, c: Coder, probs: seq<Prob>, offset: nat, n: nat, update: bool)
    requires OnInput(input, c) && offset + Pow2(n) <= |probs|
    ensures var w := TreeWalk(input, c, probs, offset, n, [], update);
      ReverseBitTreeDecode(input, c, probs, offset, n, update)
      == if w.Err? then Err(w.error) else Ok(w.value.(value := LsbValue(w.value.bits)))
  {
  }

  /** A walk on from `bits` adapts only nodes of the levels below them:
      entry `j` of the table comes back unchanged unless it lies between
      `offset + 2^|bits|` and `offset + 2^n`. */
  lemma {:induction false} TreeWalkFrame(input: seq<u8>, c: Coder, probs: seq<Prob>, offset: nat, n: nat,
                                         bits: seq<bool>, update: bool, j: nat)
    requires OnInput(input, c) && |bits| <= n && offset + Pow2(n) <= |probs|
    requires j < |probs| && !(offset + Pow2(|bits|) <= j < offset + Pow2(n))
    ensures var r := TreeWalk(input, c, probs, offset, n, bits, update);
      r.Ok? ==> r.value.probs[j] == probs[j]
    decreases n - |bits|
  {
    if |bits| < n {
      NodeBound(bits, n);
      var i := offset + Node(bits);
      var d := DecodeBit(input, c, probs[i]);
      if d.Ok? {
        var p := Adapt(probs[i], d.value.value, update);
        TreeWalkNext(input, c, probs, offset, n, bits, update, d.value.coder, d.value.value, p);
        TreeWalkFrame(input, d.value.coder, probs[i := p], offset, n, bits + [d.value.value], update, j);
      } else {
        TreeWalkFails(input, c, probs, offset, n, bits, update);
      }
    }
  }

  /** `parse_bit_tree` adapts only the nodes 1 to 2^n - 1 of its table. */
  lemma BitTreeDecodeFrame(input: seq<u8>, c: Coder, probs: seq<Prob>, n: nat, update: bool)
    requires OnInput(input, c) && Pow2(n) <= |probs|
    ensures var r := BitTreeDecode(input, c, probs, n, update);
      r.Ok? ==> forall j :: 0 <= j < |probs| && !(1 <= j < Pow2(n)) ==> r.value.probs[j] == probs[j]
  {
    BitTreeDecodeWalk(input, c, probs, n, update);
    forall j | 0 <= j < |probs| && !(1 <= j < Pow2(n))
      ensures var w := TreeWalk(input, c, probs, 0, n, [], update); w.Ok? ==> w.value.probs[j] == probs[j]
    {
      TreeWalkFrame(input, c, probs, 0, n, [], update, j);
    }
  }

  /** `parse_reverse_bit_tree` adapts only the entries `offset + 1` to
      `offset + 2^n - 1`: everything else in the shared table is left as
      it was. */
  lemma ReverseBitTreeDecodeFrame(input: seq<u8>, c: Coder, probs: seq<Prob>, offset: nat, n: nat, update: bool)
    requires OnInput(input, c) && offset + Pow2(n) <= |probs|
    ensures var r := ReverseBitTreeDecode(input, c, probs, offset, n, update);
      r.Ok? ==> forall j :: 0 <= j < |probs| && !(offset + 1 <= j < offset + Pow2(n)) ==> r.value.probs[j] == probs[j]
  {
    ReverseBitTreeDecodeWalk(input, c, probs, offset, n, update);
    forall j | 0 <= j < |probs| && !(offset + 1 <= j < offset + Pow2(n))
      ensures var w := TreeWalk(input, c, probs, offset, n, [], update); w.Ok? ==> w.value.probs[j] == probs[j]
    {
      TreeWalkFrame(input, c, probs, offset, n, [], update, j);
    }
  }

  // ---------------------------------------------------------------------
  // The length decoder: `AbstractLenDecoder::decode`

  /** The probabilities of one length decoder: `choice`, `choice2`, the 16
      low and 16 mid trees and the high tree. */
  datatype LenTables = LenTables(choice: Prob, choice2: Prob, low: seq<seq<Prob>>, mid: seq<seq<Prob>>, high: seq<Prob>)

  /** The shape `LenDecoder::new` allocates: 16 low and 16 mid trees of 3
      bits each and one high tree of 8 bits. */
  predicate LenShaped(t: LenTables) {
    && |t.low| == 16 && |t.mid| == 16 && |t.high| == 256
    && (forall i :: 0 <= i < 16 ==> |t.low[i]| == 8 && |t.mid[i]| == 8)
  }

  predicate LenOk(t: LenTables) {
    && ProbOk(t.choice) && ProbOk(t.choice2) && AllOk(t.high)
    && (forall i :: 0 <= i < |t.low| ==> AllOk(t.low[i]))
    && (forall i :: 0 <= i < |t.mid| ==> AllOk(t.mid[i]))
  }

  /** The probabilities of a fresh or reset length decoder. */
  function InitLenTables(): (t: LenTables)
    ensures LenShaped(t) && LenOk(t)
  {
    LenTables(InitProb, InitProb, FreshRows(16, 8), FreshRows(16, 8), Fresh(256))
  }

  datatype LenOut = LenOut(len: nat, coder: Coder, tables: LenTables)

  /** `decode(pos_state)`: a 0 `choice` bit selects the low tree of
      `pos_state` (lengths 0-7), a 0 `choice2` bit the mid tree (8-15), and
      otherwise the high tree gives lengths 16-271. */
  function LenDecode(input: seq<u8>, c: Coder, t: LenTables, posState: nat, update: bool): (r: Result<LenOut>)
    requires OnInput(input, c) && LenShaped(t) && posState < 16
    ensures r.Ok? ==> OnInput(input, r.value.coder) && LenShaped(r.value.tables) && r.value.len < 272
    ensures r.Ok? && !update ==> r.value.tables == t
    ensures r.Ok? && Normalized(c) && LenOk(t) ==>
      && Normalized(r.value.coder) && LenOk(r.value.tables)
      && Measure(input, r.value.coder) < Measure(input, c)
  {
    var ch :- DecodeBit(input, c, t.choice);
    var t1 := t.(choice := Adapt(t.choice, ch.value, update));
    if !ch.value then LenDecodeLow(input, ch.coder, t1, posState, update)
    else LenDecodeUpper(input, ch.coder, t1, posState, update)
  }

  /** A 0 `choice` bit: the low tree of `pos_state` gives lengths 0-7. */
  function LenDecodeLow(input: seq<u8>, c: Coder, t: LenTables, posState: nat, update: bool): (r: Result<LenOut>)
    requires OnInput(input, c) && LenShaped(t) && posState < 16
    ensures r.Ok? ==> OnInput(input, r.value.coder) && LenShaped(r.value.tables) && r.value.len < 8
    ensures r.Ok? && !update ==> r.value.tables == t
    ensures r.Ok? && Normalized(c) && LenOk(t) ==>
      && Normalized(r.value.coder) && LenOk(r.value.tables)
      && Measure(input, r.value.coder) < Measure(input, c)
  {
    var lo :- BitTreeDecode(input, c, t.low[posState], 3, update);
    LenOkUpdate(t, posState, lo.probs, true);
    Ok(LenOut(lo.value, lo.coder, t.(low := t.low[posState := lo.probs])))
  }

  lemma LenOkUpdate(t: LenTables, posState: nat, row: seq<Prob>, low: bool)
    requires LenShaped(t) && posState < 16 && |row| == 8
    ensures low ==> LenShaped(t.(low := t.low[posState := row]))
    ensures !low ==> LenShaped(t.(mid := t.mid[posState := row]))
    ensures LenOk(t) && AllOk(row) && low ==> LenOk(t.(low := t.low[posState := row]))
    ensures LenOk(t) && AllOk(row) && !low ==> LenOk(t.(mid := t.mid[posState := row]))
  {
  }

  /** The rest of `decode` after a 1 `choice` bit: lengths 8-271. */
  function LenDecodeUpper(input: seq<u8>, c: Coder, t: LenTables, posState: nat, update: bool): (r: Result<LenOut>)
    requires OnInput(input, c) && LenShaped(t) && posState < 16
    ensures r.Ok? ==> OnInput(input, r.value.coder) && LenShaped(r.value.tables) && 8 <= r.value.len < 272
    ensures r.Ok? && !update ==> r.value.tables == t
    ensures r.Ok? && Normalized(c) && LenOk(t) ==>
      && Normalized(r.value.coder) && LenOk(r.value.tables)
      && Measure(input, r.value.coder) < Measure(input, c)
  {
    var ch2 :- DecodeBit(input, c, t.choice2);
    var t2 := t.(choice2 := Adapt(t.choice2, ch2.value, update));
    if !ch2.value then LenDecodeMid(input, ch2.coder, t2, posState, update)
    else LenDecodeHigh(input, ch2.coder, t2, update)
  }

  function LenDecodeMid(input: seq<u8>, c: Coder, t: LenTables, posState: nat, update: bool): (r: Result<LenOut>)
    requires OnInput(input, c) && LenShaped(t) && posState < 16
    ensures r.Ok? ==> OnInput(input, r.value.coder) && LenShaped(r.value.tables) && 8 <= r.value.len < 16
    ensures r.Ok? && !update ==> r.value.tables == t
    ensures r.Ok? && Normalized(c) && LenOk(t) ==>
      && Normalized(r.value.coder) && LenOk(r.value.tables)
      && Measure(input, r.value.coder) < Measure(input, c)
  {
    var mi :- BitTreeDecode(input, c, t.mid[posState], 3, update);
    LenOkUpdate(t, posState, mi.probs, false);
    Ok(LenOut(mi.value + 8, mi.coder, t.(mid := t.mid[posState := mi.probs])))
  }

  function LenDecodeHigh(input: seq<u8>, c: Coder, t: LenTables, update: bool): (r: Result<LenOut>)
    requires OnInput(input, c) && LenShaped(t)
    ensures r.Ok? ==> OnInput(input, r.value.coder) && LenShaped(r.value.tables) && 16 <= r.value.len < 272
    ensures r.Ok? && !update ==> r.value.tables == t
    ensures r.Ok? && Normalized(c) && LenOk(t) ==>
      && Normalized(r.value.coder) && LenOk(r.value.tables)
      && Measure(input, r.value.coder) < Measure(input, c)
  {
    var hi :- BitTreeDecode(input, c, t.high, 8, update);
    Ok(LenOut(hi.value + 16, hi.coder, t.(high := hi.probs)))
  }

  /** The three length bands and the tree each one comes from: the first
      bit decides between 0-7 and the rest, the second between 8-15 and
      16-271, and only the tree of the band (with the choice bits read on
      the way) is adapted. */
  lemma LenDecodeBands(input: seq<u8>, c: Coder, t: LenTables, posState: nat, update: bool)
    requires OnInput(input, c) && LenShaped(t) && posState < 16
    ensures var r := LenDecode(input, c, t, posState, update);
      r.Ok? ==>
        var first := DecodeBit(input, c, t.choice).value;
        var o := r.value.tables;
        && (r.value.len < 8 <==> !first.value)
        && (r.value.len < 8 ==>
              o.choice2 == t.choice2 && o.mid == t.mid && o.high == t.high
              && forall j :: 0 <= j < 16 && j != posState ==> o.low[j] == t.low[j])
  {
  }

  lemma LenDecodeUpperBands(input: seq<u8>, c: Coder, t: LenTables, posState: nat, update: bool)
    requires OnInput(input, c) && LenShaped(t) && posState < 16
    ensures var r := LenDecodeUpper(input, c, t, posState, update);
      r.Ok? ==>
        var second := DecodeBit(input, c, t.choice2).value;
        var o := r.value.tables;
        && o.choice == t.choice && o.low == t.low
        && (r.value.len < 16 <==> !second.value)
        && (r.value.len < 16 ==>
              o.high == t.high && forall j :: 0 <= j < 16 && j != posState ==> o.mid[j] == t.mid[j])
        && (16 <= r.value.len ==> o.mid == t.mid)
  {
  }
}
