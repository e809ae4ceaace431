/** The range decoder, the bit trees and the length decoder of
    src/decode/rangecoder.rs as classes whose fields are updated in place.
    Every method is proved to compute the corresponding function of module
    RangeModel, so the properties proved there carry over. */
module RangeCoder {
  import opened Base
  import opened RangeModel

  /** `RangeDecoder`: the `range`/`code` registers and a cursor `pos` into
      the bytes of the stream. */
  class RangeDecoder {
    const input: seq<u8>
    var pos: nat
    var range: u32
    var code: u32

    predicate Valid()
      reads this
    {
      OnInput(input, State())
    }

    function State(): Coder
      reads this
    {
      Coder(range, code, pos)
    }

    /** `from_parts`: a decoder over `input` with the given registers, at the
        start of the input. */
    constructor FromParts(input: seq<u8>, range: u32, code: u32)
      ensures Valid() && this.input == input && State() == Coder(range, code, 0)
    {
      this.input := input;
      this.range := range;
      this.code := code;
      this.pos := 0;
    }

    /** `new`: skip one byte, then read `code` as a big-endian 32-bit word. */
    static method New(input: seq<u8>) returns (r: Result<RangeDecoder>)
      ensures r.Err? <==> |input| < 5
      ensures r.Err? ==> r.error == UnexpectedEof
      ensures r.Ok? ==>
        && fresh(r.value) && r.value.Valid() && r.value.input == input
        && r.value.range == 0xFFFF_FFFF && r.value.code == BigEndian(input[1..5]) && r.value.pos == 5
    {
      if |input| < 5 {
        return Err(UnexpectedEof);
      }
      var code := input[1] as int * 0x100_0000 + input[2] as int * 0x1_0000 + input[3] as int * 0x100 + input[4] as int;
      ghost var w := input[1..5];
      assert BigEndian(w[..1]) == input[1] by { assert w[..1][..0] == []; }
      assert BigEndian(w[..2]) == input[1] as int * 0x100 + input[2] by { assert w[..2][..1] == w[..1]; }
      assert BigEndian(w[..3]) == (input[1] as int * 0x100 + input[2]) * 0x100 + input[3] by {
        assert w[..3][..2] == w[..2];
      }
      assert code == BigEndian(w) by { assert w[..3] == w[..|w| - 1]; }
      var d := new RangeDecoder.FromParts(input, 0xFFFF_FFFF, code);
      d.pos := 5;
      return Ok(d);
    }

    /** `is_finished_ok`: `code` is 0 and the stream is exhausted. */
    method IsFinishedOk() returns (b: bool)
      requires Valid()
      ensures b == FinishedOk(input, State())
    {
      return code == 0 && pos == |input|;
    }

    /** `normalize`. */
    method Normalize() returns (r: Result<()>)
      requires Valid()
      modifies this
      ensures Valid()
      ensures var s := RangeModel.Normalize(input, old(State()));
        && (s.Ok? ==> r.Ok? && State() == s.value)
        && (s.Err? ==> r == Err(s.error))
    {
      if range < TopValue {
        if pos == |input| {
          return Err(UnexpectedEof);
        }
        Low24Mod(code);
        range := range * 0x100;
        code := (code % TopValue) * 0x100 + input[pos];
        pos := pos + 1;
      }
      return Ok(());
    }

    /** `get_bit`. */
    method GetBit() returns (r: Result<bool>)
      requires Valid()
      modifies this
      ensures Valid()
      ensures var s := DirectBit(input, old(State()));
        && (s.Ok? ==> r == Ok(s.value.value) && State() == s.value.coder)
        && (s.Err? ==> r == Err(s.error))
    {
      range := range / 2;
      var bit := code >= range;
      if bit {
        code := code - range;
      }
      var n := Normalize();
      if n.Err? {
        return Err(n.error);
      }
      return Ok(bit);
    }

    /** `get(count)`: shifts `count` direct bits into a 32-bit result. */
    method Get(count: nat) returns (r: Result<u32>)
      requires Valid()
      modifies this
      ensures Valid()
      ensures var s := DirectBits(input, old(State()), count);
        && (s.Ok? ==> r == Ok(s.value.value) && State() == s.value.coder)
        && (s.Err? ==> r == Err(s.error))
    {
      var result: u32 := 0;
      ghost var bits: seq<bool> := [];
      var i := 0;
      while i < count
        invariant Valid() && i <= count
        invariant DirectWalk(input, old(State()), count, 0, []) == DirectWalk(input, State(), count - i, result, bits)
      {
        var b := GetBit();
        if b.Err? {
          return Err(b.error);
        }
        result := (result % 0x8000_0000) * 2 + B(b.value);
        bits := bits + [b.value];
        i := i + 1;
      }
      return Ok(result);
    }

    /** `decode_bit(prob, update)`: the new value of `*prob` comes back in
        `newProb`; as in the source it is adapted before normalisation, so
        also when normalisation then fails. */
    method DecodeBit(prob: Prob, update: bool) returns (r: Result<bool>, newProb: Prob)
      requires Valid()
      modifies this
      ensures Valid()
      ensures newProb == Adapt(prob, BitOf(old(State()), prob), update)
      ensures var s := RangeModel.DecodeBit(input, old(State()), prob);
        && (s.Ok? ==> r == Ok(s.value.value) && State() == s.value.coder)
        && (s.Err? ==> r == Err(s.error))
    {
      var bound := Bound(range, prob);
      var bit: bool;
      if code < bound {
        newProb := if update then prob + (0x800 - prob) / 32 else prob;
        range := bound;
        bit := false;
      } else {
        newProb := if update then prob - prob / 32 else prob;
        code := code - bound;
        range := range - bound;
        bit := true;
      }
      var n := Normalize();
      if n.Err? {
        return Err(n.error), newProb;
      }
      return Ok(bit), newProb;
    }

    /** One round of the bit-tree loops: decode the bit of node `tmp` with
        `probs[offset + tmp]` and store the adapted probability back. */
    method TreeLevel(probs: array<Prob>, offset: nat, tmp: nat, numBits: nat, ghost bits: seq<bool>, update: bool)
      returns (bit: Result<bool>)
      requires Valid() && |bits| < numBits && offset + Pow2(numBits) <= probs.Length && tmp == Node(bits)
      modifies this, probs
      ensures Valid()
      ensures var w := TreeWalk(input, old(State()), old(probs[..]), offset, numBits, bits, update);
        && (bit.Err? ==> w == Err(bit.error))
        && (bit.Ok? ==> w == TreeWalk(input, State(), probs[..], offset, numBits, bits + [bit.value], update))
      ensures !update ==> probs[..] == old(probs[..])
    {
      NodeBound(bits, numBits);
      ghost var c0, p0 := State(), probs[..];
      var p;
      bit, p := DecodeBit(probs[offset + tmp], update);
      probs[offset + tmp] := p;
      if bit.Err? {
        TreeWalkFails(input, c0, p0, offset, numBits, bits, update);
        return;
      }
      assert probs[..] == p0[offset + Node(bits) := p];
      TreeWalkNext(input, c0, p0, offset, numBits, bits, update, State(), bit.value, p);
    }

    /** `parse_bit_tree(num_bits, probs, update)`. */
    method ParseBitTree(numBits: nat, probs: array<Prob>, update: bool) returns (r: Result<u32>)
      requires Valid() && numBits < 32 && Pow2(numBits) <= probs.Length
      modifies this, probs
      ensures Valid()
      ensures var s := BitTreeDecode(input, old(State()), old(probs[..]), numBits, update);
        && (s.Ok? ==> r == Ok(s.value.value) && State() == s.value.coder && probs[..] == s.value.probs)
        && (s.Err? ==> r == Err(s.error))
      ensures !update ==> probs[..] == old(probs[..])
    {
      var tmp: nat := 1;
      ghost var bits: seq<bool> := [];
      ghost var walk := TreeWalk(input, State(), probs[..], 0, numBits, [], update);
      BitTreeDecodeWalk(input, State(), probs[..], numBits, update);
      var i := 0;
      while i < numBits
        invariant Valid() && i <= numBits && |bits| == i && tmp == Node(bits)
        invariant walk == TreeWalk(input, State(), probs[..], 0, numBits, bits, update)
        invariant !update ==> probs[..] == old(probs[..])
      {
        var bit := TreeLevel(probs, 0, tmp, numBits, bits, update);
        if bit.Err? {
          return Err(bit.error);
        }
        NodeNext(bits, bit.value);
        tmp := 2 * tmp + B(bit.value);
        bits := bits + [bit.value];
        i := i + 1;
      }
      assert walk == Ok(TreeOut(0, bits, State(), probs[..]));
      MsbValueBound(bits);
      Pow2Fits(numBits);
      return Ok(tmp - Pow2(numBits));
    }

    /** `parse_reverse_bit_tree(num_bits, probs, offset, update)`; the bit
        decoded in round `i` is worth 2^i. */
    method ParseReverseBitTree(numBits: nat, probs: array<Prob>, offset: nat, update: bool) returns (r: Result<u32>)
      requires Valid() && numBits <= 32 && offset + Pow2(numBits) <= probs.Length
      modifies this, probs
      ensures Valid()
      ensures var s := ReverseBitTreeDecode(input, old(State()), old(probs[..]), offset, numBits, update);
        && (s.Ok? ==> r == Ok(s.value.value) && State() == s.value.coder && probs[..] == s.value.probs)
        && (s.Err? ==> r == Err(s.error))
      ensures !update ==> probs[..] == old(probs[..])
    {
      var result: nat := 0;
      var tmp: nat := 1;
      ghost var bits: seq<bool> := [];
      ghost var walk := TreeWalk(input, State(), probs[..], offset, numBits, [], update);
      ReverseBitTreeDecodeWalk(input, State(), probs[..], offset, numBits, update);
      var i := 0;
      while i < numBits
        invariant Valid() && i <= numBits && |bits| == i && tmp == Node(bits) && result == LsbValue(bits)
        invariant walk == TreeWalk(input, State(), probs[..], offset, numBits, bits, update)
        invariant !update ==> probs[..] == old(probs[..])
      {
        var bit := TreeLevel(probs, offset, tmp, numBits, bits, update);
        if bit.Err? {
          return Err(bit.error);
        }
        NodeNext(bits, bit.value);
        assert (bits + [bit.value])[..i] == bits;
        tmp := 2 * tmp + B(bit.value);
        result := result + (if bit.value then Pow2(i) else 0);
        bits := bits + [bit.value];
        i := i + 1;
      }
      assert walk == Ok(TreeOut(0, bits, State(), probs[..]));
      LsbValueBound(bits);
      Pow2Fits(numBits);
      return Ok(result);
    }
  }

  /** Sets every entry of `a` back to 0x400 (the `iter_mut().for_each`
      loops of `reset`). */
  method ResetProbs(a: array<Prob>)
    modifies a
    ensures a[..] == Fresh(a.Length)
  {
    var i := 0;
    while i < a.Length
      invariant i <= a.Length
      invariant forall k :: 0 <= k < i ==> a[k] == InitProb
    {
      a[i] := InitProb;
      i := i + 1;
    }
  }

  /** A bit tree: `num_bits` and its 2^num_bits probabilities. */
  class BitTree {
    const numBits: nat
    const probs: array<Prob>

    predicate Valid() {
      probs.Length == Pow2(numBits)
    }

    /** `BitTree::new` / `StdBitTree::new`. */
    constructor(numBits: nat)
      ensures Valid() && this.numBits == numBits && fresh(probs)
      ensures probs[..] == Fresh(Pow2(numBits))
    {
      this.numBits := numBits;
      probs := new Prob[Pow2(numBits)](_ => InitProb);
    }

    /** `AbstractBitTree::parse`. */
    method Parse(rc: RangeDecoder, update: bool) returns (r: Result<u32>)
      requires Valid() && rc.Valid() && numBits < 32
      modifies rc, probs
      ensures rc.Valid()
      ensures var s := BitTreeDecode(rc.input, old(rc.State()), old(probs[..]), numBits, update);
        && (s.Ok? ==> r == Ok(s.value.value) && rc.State() == s.value.coder && probs[..] == s.value.probs)
        && (s.Err? ==> r == Err(s.error))
      ensures !update ==> probs[..] == old(probs[..])
    {
      r := rc.ParseBitTree(numBits, probs, update);
    }

    /** `AbstractBitTree::parse_reverse`: a reverse walk at offset 0. */
    method ParseReverse(rc: RangeDecoder, update: bool) returns (r: Result<u32>)
      requires Valid() && rc.Valid() && numBits <= 32
      modifies rc, probs
      ensures rc.Valid()
      ensures var s := ReverseBitTreeDecode(rc.input, old(rc.State()), old(probs[..]), 0, numBits, update);
        && (s.Ok? ==> r == Ok(s.value.value) && rc.State() == s.value.coder && probs[..] == s.value.probs)
        && (s.Err? ==> r == Err(s.error))
      ensures !update ==> probs[..] == old(probs[..])
    {
      r := rc.ParseReverseBitTree(numBits, probs, 0, update);
    }

    /** Every probability back to 0x400. */
    method Reset()
      modifies probs
      ensures probs[..] == Fresh(probs.Length)
    {
      ResetProbs(probs);
    }
  }

  /** The probability arrays of a sequence of bit trees. */
  function Arrays(trees: seq<BitTree>): set<array<Prob>> {
    set t | t in trees :: t.probs
  }

  /** The arrays of four trees, listed. */
  lemma ArraysOfFour(trees: seq<BitTree>)
    requires |trees| == 4
    ensures Arrays(trees) == {trees[0].probs, trees[1].probs, trees[2].probs, trees[3].probs}
  {
    assert forall t :: t in trees ==> t == trees[0] || t == trees[1] || t == trees[2] || t == trees[3];
  }

  /** No two of `trees` share a probability array. */
  predicate Disjoint(trees: seq<BitTree>) {
    forall i, j :: 0 <= i < j < |trees| ==> trees[i].probs != trees[j].probs
  }

  /** The current probabilities of each of `trees`. */
  function Rows(trees: seq<BitTree>): (rows: seq<seq<Prob>>)
    reads Arrays(trees)
    ensures |rows| == |trees|
    ensures forall i :: 0 <= i < |trees| ==> rows[i] == trees[i].probs[..]
  {
    seq(|trees|, i requires 0 <= i < |trees| reads Arrays(trees) => trees[i].probs[..])
  }

  /** `count` fresh trees of `numBits` bits, no two sharing an array. */
  method NewTrees(count: nat, numBits: nat) returns (trees: seq<BitTree>)
    ensures |trees| == count && Disjoint(trees)
    ensures forall i :: 0 <= i < count ==> trees[i].Valid() && trees[i].numBits == numBits
    ensures fresh(Arrays(trees))
    ensures Rows(trees) == FreshRows(count, Pow2(numBits))
  {
    trees := [];
    while |trees| < count
      invariant |trees| <= count && Disjoint(trees)
      invariant forall i :: 0 <= i < |trees| ==>
        trees[i].Valid() && trees[i].numBits == numBits && fresh(trees[i].probs)
        && trees[i].probs[..] == Fresh(Pow2(numBits))
    {
      var t := new BitTree(numBits);
      trees := trees + [t];
    }
  }

  /** `LenDecoder` / `StdLenDecoder`: `choice`, `choice2`, 16 low and 16 mid
      trees of 3 bits and one high tree of 8 bits. */
  class LenDecoder {
    var choice: Prob
    var choice2: Prob
    const lowCoder: seq<BitTree>
    const midCoder: seq<BitTree>
    const highCoder: BitTree
    ghost const Repr: set<object>

    ghost predicate Valid() {
      && Coders(lowCoder, midCoder, highCoder)
      && Repr == Arrays(lowCoder) + Arrays(midCoder) + {highCoder.probs}
    }

    /** The shape `new` allocates: 16 low and 16 mid trees of 3 bits and a
        high tree of 8 bits, no two sharing an array. */
    static ghost predicate Coders(low: seq<BitTree>, mid: seq<BitTree>, high: BitTree) {
      && |low| == 16 && |mid| == 16
      && (forall i :: 0 <= i < 16 ==> low[i].numBits == 3 && low[i].Valid())
      && (forall i :: 0 <= i < 16 ==> mid[i].numBits == 3 && mid[i].Valid())
      && high.numBits == 8 && high.Valid()
      && Disjoint(low) && Disjoint(mid) && Arrays(low) !! Arrays(mid)
      && high.probs !in Arrays(low) && high.probs !in Arrays(mid)
    }

    /** The decoder's probabilities as a value of the model. */
    ghost function Tables(): (t: LenTables)
      reads this, Repr
      requires Valid()
    {
      LenTables(choice, choice2, Rows(lowCoder), Rows(midCoder), highCoder.probs[..])
    }

    /** The tables have the sizes `new` allocates. */
    lemma TablesShaped()
      requires Valid()
      ensures LenShaped(Tables())
    {
      assert Pow2(3) == 8 && Pow2(8) == 256;
    }

    /** `LenDecoder::new` / `StdLenDecoder::new`. */
    constructor()
      ensures Valid() && fresh(Repr)
      ensures Tables() == InitLenTables()
    {
      choice := InitProb;
      choice2 := InitProb;
      var low, mid, high := NewCoders();
      lowCoder := low;
      midCoder := mid;
      highCoder := high;
      Repr := Arrays(low) + Arrays(mid) + {high.probs};
    }

    /** The trees of a new length decoder, all at 0x400. */
    static method NewCoders() returns (low: seq<BitTree>, mid: seq<BitTree>, high: BitTree)
      ensures Coders(low, mid, high) && fresh(Arrays(low)) && fresh(Arrays(mid)) && fresh(high.probs)
      ensures Rows(low) == FreshRows(16, 8) && Rows(mid) == FreshRows(16, 8) && high.probs[..] == Fresh(256)
    {
      assert Pow2(3) == 8 && Pow2(8) == 256;
      low := NewTrees(16, 3);
      mid := NewTrees(16, 3);
      high := new BitTree(8);
    }

    /** `AbstractLenDecoder::decode(rangecoder, pos_state, update)`. */
    method Decode(rc: RangeDecoder, posState: nat, update: bool) returns (r: Result<nat>)
      requires Valid() && rc.Valid() && posState < 16
      modifies this, Repr, rc
      ensures Valid() && rc.Valid()
      ensures var s := LenDecode(rc.input, old(rc.State()), old(Tables()), posState, update);
        && (s.Ok? ==> r == Ok(s.value.len) && rc.State() == s.value.coder && Tables() == s.value.tables)
        && (s.Err? ==> r == Err(s.error))
      ensures !update ==> Tables() == old(Tables())
    {
      ghost var t := Tables();
      var bit, p := rc.DecodeBit(choice, update);
      choice := p;
      assert Tables() == t.(choice := p);
      if bit.Err? {
        return Err(bit.error);
      }
      if !bit.value {
        r := DecodeLow(rc, posState, update, rc.State(), Tables());
      } else {
        r := DecodeUpper(rc, posState, update);
      }
    }

    /** After a 0 `choice` bit: the low tree of `pos_state`. */
    method DecodeLow(rc: RangeDecoder, posState: nat, update: bool, ghost c: Coder, ghost t: LenTables)
      returns (r: Result<nat>)
      requires Valid() && rc.Valid() && posState < 16 && rc.State() == c && Tables() == t
      modifies rc, lowCoder[posState].probs
      ensures rc.Valid()
      ensures var s := LenDecodeLow(rc.input, c, t, posState, update);
        && (s.Ok? ==> r == Ok(s.value.len) && rc.State() == s.value.coder && Tables() == s.value.tables)
        && (s.Err? ==> r == Err(s.error))
      ensures !update ==> Tables() == t
    {
      var v := lowCoder[posState].Parse(rc, update);
      assert Rows(lowCoder) == t.low[posState := lowCoder[posState].probs[..]];
      assert Tables() == t.(low := t.low[posState := lowCoder[posState].probs[..]]);
      if v.Err? {
        return Err(v.error);
      }
      return Ok(v.value);
    }

    /** After a 1 `choice` bit: `choice2` picks the mid tree of `pos_state`
        or the high tree. */
    method DecodeUpper(rc: RangeDecoder, posState: nat, update: bool) returns (r: Result<nat>)
      requires Valid() && rc.Valid() && posState < 16
      modifies this, Repr, rc
      ensures rc.Valid()
      ensures var s := LenDecodeUpper(rc.input, old(rc.State()), old(Tables()), posState, update);
        && (s.Ok? ==> r == Ok(s.value.len) && rc.State() == s.value.coder && Tables() == s.value.tables)
        && (s.Err? ==> r == Err(s.error))
      ensures !update ==> Tables() == old(Tables())
    {
      ghost var t := Tables();
      var bit, p := rc.DecodeBit(choice2, update);
      choice2 := p;
      assert Tables() == t.(choice2 := p);
      if bit.Err? {
        return Err(bit.error);
      }
      if !bit.value {
        r := DecodeMid(rc, posState, update, rc.State(), Tables());
      } else {
        r := DecodeHigh(rc, update, rc.State(), Tables());
      }
    }

    /** After a 0 `choice2` bit: the mid tree of `pos_state`. */
    method DecodeMid(rc: RangeDecoder, posState: nat, update: bool, ghost c: Coder, ghost t: LenTables)
      returns (r: Result<nat>)
      requires Valid() && rc.Valid() && posState < 16 && rc.State() == c && Tables() == t
      modifies rc, midCoder[posState].probs
      ensures rc.Valid()
      ensures var s := LenDecodeMid(rc.input, c, t, posState, update);
        && (s.Ok? ==> r == Ok(s.value.len) && rc.State() == s.value.coder && Tables() == s.value.tables)
        && (s.Err? ==> r == Err(s.error))
      ensures !update ==> Tables() == t
    {
      var v := midCoder[posState].Parse(rc, update);
      assert Rows(midCoder) == t.mid[posState := midCoder[posState].probs[..]];
      assert Tables() == t.(mid := t.mid[posState := midCoder[posState].probs[..]]);
      if v.Err? {
        return Err(v.error);
      }
      return Ok(v.value + 8);
    }

    /** After a 1 `choice2` bit: the high tree. */
    method DecodeHigh(rc: RangeDecoder, update: bool, ghost c: Coder, ghost t: LenTables) returns (r: Result<nat>)
      requires Valid() && rc.Valid() && rc.State() == c && Tables() == t
      modifies rc, highCoder.probs
      ensures rc.Valid()
      ensures var s := LenDecodeHigh(rc.input, c, t, update);
        && (s.Ok? ==> r == Ok(s.value.len) && rc.State() == s.value.coder && Tables() == s.value.tables)
        && (s.Err? ==> r == Err(s.error))
      ensures !update ==> Tables() == t
    {
      var v := highCoder.Parse(rc, update);
      assert Tables() == t.(high := highCoder.probs[..]);
      if v.Err? {
        return Err(v.error);
      }
      return Ok(v.value + 16);
    }

    /** Back to the probabilities of a fresh decoder. */
    method Reset()
      requires Valid()
      modifies this, Repr
      ensures Valid() && Tables() == InitLenTables()
    {
      ResetCoders();
      choice := InitProb;
      choice2 := InitProb;
    }

    /** The trees' part of `Reset`. */
    method ResetCoders()
      requires Valid()
      modifies Repr
      ensures Rows(lowCoder) == FreshRows(16, 8) && Rows(midCoder) == FreshRows(16, 8)
      ensures highCoder.probs[..] == Fresh(256)
    {
      assert Pow2(3) == 8 && Pow2(8) == 256;
      ResetTrees(lowCoder, 8);
      ResetTrees(midCoder, 8);
      assert Rows(lowCoder) == FreshRows(16, 8);
      highCoder.Reset();
    }
  }

  /** Every tree of `trees` back to 0x400 throughout. */
  method ResetTrees(trees: seq<BitTree>, n: nat)
    requires Disjoint(trees) && forall i :: 0 <= i < |trees| ==> trees[i].probs.Length == n
    modifies Arrays(trees)
    ensures Rows(trees) == FreshRows(|trees|, n)
  {
    var i := 0;
    while i < |trees|
      invariant i <= |trees|
      invariant forall k :: 0 <= k < i ==> trees[k].probs[..] == Fresh(n)
    {
      trees[i].Reset();
      i := i + 1;
    }
  }
}
