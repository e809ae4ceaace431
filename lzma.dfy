/** `DecoderState` of src/decode/lzma.rs as a class whose probability
    tables are arrays updated in place.  Every method is proved to compute
    the corresponding function of module LzmaModel on the decoder's state
    seen as a value (`Model()`), so the properties proved there -- the
    shape and band of the tables, the progress of a step, what a packet
    does to the output -- carry over to the class. */
module Lzma {
  import opened Base
  import opened RangeModel
  import opened RangeCoder
  import opened LzBuffer
  import opened LzmaHeader
  import opened LzmaModel
  import opened LzmaTables

  /** `decode_bit(&mut probs[i], update)`: the bit, with entry `i` adapted. */
  method DecodeFlagAt(rc: RangeDecoder, probs: array<Prob>, i: nat, update: bool) returns (r: Result<bool>)
    requires rc.Valid() && i < probs.Length
    modifies rc, probs
    ensures rc.Valid()
    ensures var s := DecodeFlag(rc.input, old(rc.State()), old(probs[..]), i, update);
      && (s.Ok? ==> r == Ok(s.value.bit) && rc.State() == s.value.coder && probs[..] == s.value.probs)
      && (s.Err? ==> r == Err(s.error))
    ensures !update ==> probs[..] == old(probs[..])
  {
    var bit, p := rc.DecodeBit(probs[i], update);
    probs[i] := p;
    r := bit;
  }

  /** One round of the matched-literal loop (lines 541-550): the bit read
      with the probability the match byte's top bit selects. */
  method MatchedLevel(rc: RangeDecoder, probs: array<Prob>, offset: nat, matchByte: nat, tmp: nat,
                      ghost bits: seq<bool>, update: bool) returns (r: Result<bool>)
    requires rc.Valid() && |bits| < 8 && offset + 0x300 <= probs.Length && tmp == Node(bits)
    modifies rc, probs
    ensures rc.Valid()
    ensures var w := MatchedWalk(rc.input, old(rc.State()), old(probs[..]), offset, matchByte, bits, update);
      && (r.Err? ==> w == Err(r.error))
      && (r.Ok? && B(r.value) != MatchBit(matchByte) ==>
            w == TreeWalk(rc.input, rc.State(), probs[..], offset, 8, bits + [r.value], update))
      && (r.Ok? && B(r.value) == MatchBit(matchByte) ==>
            w == MatchedWalk(rc.input, rc.State(), probs[..], offset, matchByte * 2, bits + [r.value], update))
    ensures !update ==> probs[..] == old(probs[..])
  {
    ghost var c0, p0 := rc.State(), probs[..];
    var matchBit := (matchByte / 0x80) % 2;
    MatchedIndexBound(matchBit, bits);
    var i := offset + (1 + matchBit) * 0x100 + tmp;
    assert i == MatchedIndex(offset, matchByte, bits);
    var bit, p := rc.DecodeBit(probs[i], update);
    probs[i] := p;
    if bit.Err? {
      MatchedWalkFails(rc.input, c0, p0, offset, matchByte, bits, update);
      return Err(bit.error);
    }
    MatchedWalkNext(rc.input, c0, p0, offset, matchByte, bits, update, rc.State(), bit.value, p);
    r := bit;
  }

  /** The two loops of `decode_literal` (lines 538-556) over the row at
      `offset`: with a match byte, the matched loop until a bit differs
      from the match byte's; then the plain loop until eight bits are in. */
  method LiteralLoops(rc: RangeDecoder, probs: array<Prob>, offset: nat, matchByte: Option<u8>, update: bool)
    returns (r: Result<nat>)
    requires rc.Valid() && offset + 0x300 <= probs.Length
    modifies rc, probs
    ensures rc.Valid()
    ensures var s := LiteralDecode(rc.input, old(rc.State()), old(probs[..]), offset, matchByte, update);
      && (s.Ok? ==> r == Ok(s.value.value) && rc.State() == s.value.coder && probs[..] == s.value.probs)
      && (s.Err? ==> r == Err(s.error))
    ensures !update ==> probs[..] == old(probs[..])
  {
    assert Pow2(8) == 0x100;
    if matchByte.Some? {
      var result, bits := MatchedLoop(rc, probs, offset, matchByte.value, update);
      if result.Err? {
        return Err(result.error);
      }
      r := PlainLoop(rc, probs, offset, result.value, bits, update);
    } else {
      r := PlainLoop(rc, probs, offset, 1, [], update);
    }
  }

  /** The matched loop of `decode_literal` (lines 538-551): each bit is
      read with the probability the match byte's next bit selects, until
      one differs from it or eight are in.  `result` is the node reached. */
  method MatchedLoop(rc: RangeDecoder, probs: array<Prob>, offset: nat, matchByte: nat, update: bool)
    returns (result: Result<nat>, ghost bits: seq<bool>)
    requires rc.Valid() && offset + 0x300 <= probs.Length
    modifies rc, probs
    ensures rc.Valid()
    ensures var w := MatchedWalk(rc.input, old(rc.State()), old(probs[..]), offset, matchByte, [], update);
      && (result.Err? ==> w == Err(result.error))
      && (result.Ok? ==> |bits| <= 8 && result.value == Node(bits)
                         && w == TreeWalk(rc.input, rc.State(), probs[..], offset, 8, bits, update))
    ensures !update ==> probs[..] == old(probs[..])
  {
    assert Pow2(8) == 0x100;
    ghost var walk := MatchedWalk(rc.input, rc.State(), probs[..], offset, matchByte, [], update);
    var tmp: nat := 1;
    var byte := matchByte;
    bits := [];
    while tmp < 0x100
      invariant rc.Valid() && |bits| <= 8 && tmp == Node(bits)
      invariant walk == MatchedWalk(rc.input, rc.State(), probs[..], offset, byte, bits, update)
      invariant !update ==> probs[..] == old(probs[..])
      decreases 8 - |bits|
    {
      NodeBelowByte(bits);
      var matchBit := (byte / 0x80) % 2;
      var bit := MatchedLevel(rc, probs, offset, byte, tmp, bits, update);
      if bit.Err? {
        return Err(bit.error), bits;
      }
      NodeNext(bits, bit.value);
      tmp := 2 * tmp + B(bit.value);
      bits := bits + [bit.value];
      if matchBit != B(bit.value) {
        return Ok(tmp), bits;
      }
      byte := byte * 2;
    }
    NodeBelowByte(bits);
    result := Ok(tmp);
  }

  /** The plain loop of `decode_literal` (lines 554-556) from node
      `result`, then the byte `result - 0x100`. */
  method PlainLoop(rc: RangeDecoder, probs: array<Prob>, offset: nat, result: nat, ghost bits: seq<bool>,
                   update: bool) returns (r: Result<nat>)
    requires rc.Valid() && offset + 0x300 <= probs.Length && |bits| <= 8 && result == Node(bits)
    modifies rc, probs
    ensures rc.Valid()
    ensures var w := TreeWalk(rc.input, old(rc.State()), old(probs[..]), offset, 8, bits, update);
      && (w.Ok? ==> r == Ok(MsbValue(w.value.bits)) && rc.State() == w.value.coder && probs[..] == w.value.probs)
      && (w.Err? ==> r == Err(w.error))
    ensures !update ==> probs[..] == old(probs[..])
  {
    assert Pow2(8) == 0x100;
    ghost var walk := TreeWalk(rc.input, rc.State(), probs[..], offset, 8, bits, update);
    var tmp := result;
    ghost var done := bits;
    while tmp < 0x100
      invariant rc.Valid() && |done| <= 8 && tmp == Node(done)
      invariant walk == TreeWalk(rc.input, rc.State(), probs[..], offset, 8, done, update)
      invariant !update ==> probs[..] == old(probs[..])
      decreases 8 - |done|
    {
      NodeBelowByte(done);
      var bit := rc.TreeLevel(probs, offset, tmp, 8, done, update);
      if bit.Err? {
        return Err(bit.error);
      }
      NodeNext(done, bit.value);
      tmp := 2 * tmp + B(bit.value);
      done := done + [bit.value];
    }
    NodeBelowByte(done);
    assert walk == Ok(TreeOut(0, done, rc.State(), probs[..]));
    r := Ok(tmp - 0x100);
  }

  /** The slot, align and `pos_decoders` tables of a decoder. */
  ghost predicate DistanceTables(trees: seq<BitTree>, posDecoders: array<Prob>, align: BitTree) {
    && |trees| == 4 && Disjoint(trees)
    && (forall i :: 0 <= i < 4 ==> trees[i].numBits == 6 && trees[i].Valid())
    && posDecoders.Length == 115 && align.Valid() && align.numBits == 4 && posDecoders != align.probs
    && posDecoders !in RangeCoder.Arrays(trees) && align.probs !in RangeCoder.Arrays(trees)
    && (forall i :: 0 <= i < 4 ==> trees[i].probs != posDecoders && trees[i].probs != align.probs)
  }

  /** `decode_distance(length, update)` (lines 561-590) over the slot
      trees `trees`, `pos_decoders` and the align tree. */
  method DistanceFrom(rc: RangeDecoder, trees: seq<BitTree>, posDecoders: array<Prob>, align: BitTree, len: nat,
                      update: bool, ghost c: Coder, ghost rows: seq<seq<Prob>>, ghost pos: seq<Prob>,
                      ghost probs: seq<Prob>) returns (r: Result<nat>)
    requires rc.Valid() && DistanceTables(trees, posDecoders, align)
    requires rc.State() == c && Rows(trees) == rows && posDecoders[..] == pos && align.probs[..] == probs
    modifies rc, RangeCoder.Arrays(trees), posDecoders, align.probs
    ensures rc.Valid()
    ensures var s := DistanceDecode(rc.input, c, rows, pos, probs, len, update);
      && (s.Ok? ==> r == Ok(s.value.dist) && rc.State() == s.value.coder && Rows(trees) == s.value.posSlot
                    && posDecoders[..] == s.value.posDecoders && align.probs[..] == s.value.align)
      && (s.Err? ==> r == Err(s.error))
    ensures !update ==> Rows(trees) == rows && posDecoders[..] == pos && align.probs[..] == probs
  {
    var lenState := if len > 3 then 3 else len;
    var slot := DecodeSlot(rc, trees, lenState, update);
    if slot.Err? {
      return Err(slot.error);
    }
    ghost var rows := Rows(trees);
    r := DecodeSlotDistance(rc, posDecoders, align, slot.value, update);
    assert Rows(trees) == rows;
  }

  /** Line 569: the 6-bit slot from tree `lenState`; only that tree changes. */
  method DecodeSlot(rc: RangeDecoder, trees: seq<BitTree>, lenState: nat, update: bool) returns (r: Result<nat>)
    requires rc.Valid() && |trees| == 4 && Disjoint(trees) && lenState < 4
    requires forall i :: 0 <= i < 4 ==> trees[i].numBits == 6 && trees[i].Valid()
    modifies rc, trees[lenState].probs
    ensures rc.Valid() && trees[lenState].Valid() && trees[lenState].probs.Length == Pow2(6)
    ensures var s := BitTreeDecode(rc.input, old(rc.State()), old(trees[lenState].probs[..]), trees[lenState].numBits, update);
      && (s.Ok? ==> r == Ok(s.value.value) && rc.State() == s.value.coder
                    && Rows(trees) == old(Rows(trees))[lenState := s.value.probs])
      && (s.Err? ==> r == Err(s.error))
    ensures !update ==> Rows(trees) == old(Rows(trees))
  {
    ghost var rows := Rows(trees);
    var v := trees[lenState].Parse(rc, update);
    assert Rows(trees) == rows[lenState := trees[lenState].probs[..]];
    if v.Err? {
      return Err(v.error);
    }
    r := Ok(v.value as nat);
  }

  /** Lines 571-590: the distance of slot `posSlot`, from
      `pos_decoders` or as direct bits and the align tree from slot 4 on. */
  method DecodeSlotDistance(rc: RangeDecoder, posDecoders: array<Prob>, align: BitTree, posSlot: nat, update: bool)
    returns (r: Result<nat>)
    requires rc.Valid() && posSlot < 64
    requires posDecoders.Length == 115 && align.Valid() && align.numBits == 4 && posDecoders != align.probs
    modifies rc, posDecoders, align.probs
    ensures rc.Valid()
    ensures var s := SlotDistance(rc.input, old(rc.State()), posSlot, old(posDecoders[..]), old(align.probs[..]), update);
      && (s.Ok? ==> r == Ok(s.value.value) && rc.State() == s.value.coder
                    && posDecoders[..] == s.value.posDecoders && align.probs[..] == s.value.align)
      && (s.Err? ==> r == Err(s.error))
    ensures !update ==> posDecoders[..] == old(posDecoders[..]) && align.probs[..] == old(align.probs[..])
  {
    if posSlot < 4 {
      return Ok(posSlot);
    }
    var low := DecodeSlotLow(rc, posDecoders, align, posSlot, update);
    if low.Err? {
      return Err(low.error);
    }
    r := Ok(SlotBase(posSlot) + low.value);
  }

  /** Lines 574-590: the bits of the distance below the base of slot
      `posSlot`, for slots 4 and above. */
  method DecodeSlotLow(rc: RangeDecoder, posDecoders: array<Prob>, align: BitTree, posSlot: nat, update: bool)
    returns (r: Result<nat>)
    requires rc.Valid() && 4 <= posSlot < 64
    requires posDecoders.Length == 115 && align.Valid() && align.numBits == 4 && posDecoders != align.probs
    modifies rc, posDecoders, align.probs
    ensures rc.Valid()
    ensures var s := SlotLowBits(rc.input, old(rc.State()), posSlot, old(posDecoders[..]), old(align.probs[..]), update);
      && (s.Ok? ==> r == Ok(s.value.value) && rc.State() == s.value.coder
                    && posDecoders[..] == s.value.posDecoders && align.probs[..] == s.value.align)
      && (s.Err? ==> r == Err(s.error))
    ensures !update ==> posDecoders[..] == old(posDecoders[..]) && align.probs[..] == old(align.probs[..])
  {
    ghost var c0, pos0, align0 := rc.State(), posDecoders[..], align.probs[..];
    if posSlot < 14 {
      r := ReverseLowBits(rc, posDecoders, posSlot, update);
      assert align.probs[..] == align0;
    } else {
      r := DirectLowOf(rc, align, posSlot, update);
      assert posDecoders[..] == pos0;
    }
  }

  /** Lines 576-582: slots 4-13 read their low bits from a reverse tree
      in `pos_decoders` at `base - slot`. */
  method ReverseLowBits(rc: RangeDecoder, posDecoders: array<Prob>, posSlot: nat, update: bool) returns (r: Result<nat>)
    requires rc.Valid() && 4 <= posSlot < 14 && posDecoders.Length == 115
    modifies rc, posDecoders
    ensures rc.Valid()
    ensures var s := ReverseBitTreeDecode(rc.input, old(rc.State()), old(posDecoders[..]), PosOffset(posSlot),
                                          DirectBitCount(posSlot), update);
      && (s.Ok? ==> r == Ok(s.value.value) && rc.State() == s.value.coder && posDecoders[..] == s.value.probs)
      && (s.Err? ==> r == Err(s.error))
    ensures !update ==> posDecoders[..] == old(posDecoders[..])
  {
    var numDirectBits := posSlot / 2 - 1;
    var base := (2 + posSlot % 2) * Pow2(numDirectBits);
    assert base - posSlot == PosOffset(posSlot);
    var v := rc.ParseReverseBitTree(numDirectBits, posDecoders, base - posSlot, update);
    if v.Err? {
      return Err(v.error);
    }
    r := Ok(v.value as nat);
  }

  /** `DirectLowBits` against the model's `DirectLow`. */
  method DirectLowOf(rc: RangeDecoder, align: BitTree, posSlot: nat, update: bool) returns (r: Result<nat>)
    requires rc.Valid() && 14 <= posSlot < 64 && align.Valid() && align.numBits == 4
    modifies rc, align.probs
    ensures rc.Valid()
    ensures var s := DirectLow(rc.input, old(rc.State()), posSlot, old(align.probs[..]), update);
      && (s.Ok? ==> r == Ok(s.value.value) && rc.State() == s.value.coder && align.probs[..] == s.value.probs)
      && (s.Err? ==> r == Err(s.error))
    ensures !update ==> align.probs[..] == old(align.probs[..])
  {
    DirectLowSteps(rc.input, rc.State(), posSlot, align.probs[..], update);
    r := DirectLowBits(rc, align, posSlot, update);
  }

  /** Lines 583-586: later slots read all but the low four bits directly
      and those four from the reverse align tree. */
  method DirectLowBits(rc: RangeDecoder, align: BitTree, posSlot: nat, update: bool) returns (r: Result<nat>)
    requires rc.Valid() && 14 <= posSlot < 64 && align.Valid() && align.numBits == 4
    modifies rc, align.probs
    ensures rc.Valid()
    ensures var d := DirectBits(rc.input, old(rc.State()), DirectBitCount(posSlot) - 4);
      && (d.Err? ==> r == Err(d.error))
      && (d.Ok? ==>
            var a := ReverseBitTreeDecode(rc.input, d.value.coder, old(align.probs[..]), 0, 4, update);
            && (a.Err? ==> r == Err(a.error))
            && (a.Ok? ==> r == Ok(d.value.value * 16 + a.value.value) && rc.State() == a.value.coder
                          && align.probs[..] == a.value.probs))
    ensures !update ==> align.probs[..] == old(align.probs[..])
  {
    ghost var probs := align.probs[..];
    ghost var d := DirectBits(rc.input, rc.State(), DirectBitCount(posSlot) - 4);
    var numDirectBits := posSlot / 2 - 1;
    var direct := rc.Get(numDirectBits - 4);
    if direct.Err? {
      return Err(direct.error);
    }
    assert d == Ok(d.value) && d.value.coder == rc.State() && d.value.value == direct.value as nat;
    r := AlignLowBits(rc, align, direct.value as nat, update, rc.State(), probs);
  }

  /** Line 586: the four low bits from the reverse align tree, below the
      direct bits `high` already read. */
  method AlignLowBits(rc: RangeDecoder, align: BitTree, high: nat, update: bool, ghost c: Coder, ghost probs: seq<Prob>)
    returns (r: Result<nat>)
    requires rc.Valid() && align.Valid() && align.numBits == 4 && rc.State() == c && align.probs[..] == probs
    modifies rc, align.probs
    ensures rc.Valid()
    ensures var a := ReverseBitTreeDecode(rc.input, c, probs, 0, 4, update);
      && (a.Err? ==> r == Err(a.error))
      && (a.Ok? ==> r == Ok(high * 16 + a.value.value) && rc.State() == a.value.coder
                    && align.probs[..] == a.value.probs)
    ensures !update ==> align.probs[..] == old(align.probs[..])
  {
    var low := align.ParseReverse(rc, update);
    if low.Err? {
      return Err(low.error);
    }
    r := Ok(high * 16 + low.value as nat);
  }

  /** The body of `decode_literal` on the literal table `probs` of
      `limit` rows: the row of the literal state, the match byte after a
      match, then the two loops. */
  method LiteralFrom(rc: RangeDecoder, probs: array<Prob>, out: Window, state: nat, rep0: nat, p: Params,
                     limit: nat, update: bool) returns (r: Result<u8>)
    requires rc.Valid() && probs.Length == limit * 0x300 && ParamsFit(p, limit)
    modifies rc, probs
    ensures rc.Valid()
    ensures var s := LiteralOf(rc.input, old(rc.State()), old(probs[..]), out, state, rep0, p, limit, update);
      && (s.Ok? ==> r == Ok(s.value.value as u8) && rc.State() == s.value.coder && probs[..] == s.value.probs)
      && (s.Err? ==> r == Err(s.error))
    ensures !update ==> probs[..] == old(probs[..])
  {
    var prevByte := LastOr(out, 0);
    var litState := (Len(out) % Pow2(p.lp)) * Pow2(p.lc) + prevByte / Pow2(8 - p.lc);
    assert litState == LitState(Len(out), prevByte, p);
    LitStateBound(Len(out), prevByte, p);
    RowFits(litState, limit);
    var matchByte: Option<u8> := None;
    if state >= 7 {
      var byte := LastN(out, rep0 + 1);
      if byte.Err? {
        return Err(byte.error);
      }
      matchByte := Some(byte.value);
    }
    assert MatchByte(out, state, rep0) == Ok(matchByte);
    var v := LiteralLoops(rc, probs, litState * 0x300, matchByte, update);
    if v.Err? {
      return Err(v.error);
    }
    r := Ok(v.value as u8);
  }

  /** Lines 321-325: `rep[idx]` moves to the front; the entries before it
      move back one place, the last first. */
  method MoveToFrontInPlace(rep: array<nat>, idx: nat)
    requires idx < rep.Length
    modifies rep
    ensures rep[..] == MoveToFront(old(rep[..]), idx)
  {
    ghost var before := rep[..];
    var dist := rep[idx];
    var i := idx;
    while i > 0
      invariant 0 <= i <= idx
      invariant forall j :: 0 <= j <= i ==> rep[j] == before[j]
      invariant forall j :: i < j <= idx ==> rep[j] == before[j - 1]
      invariant forall j :: idx < j < rep.Length ==> rep[j] == before[j]
    {
      i := i - 1;
      rep[i + 1] := rep[i];
    }
    rep[0] := dist;
    assert rep[..] == MoveToFront(before, idx);
  }


  /** `DecoderState`, with `limit` literal rows (`PROBS_MEM_LIMIT`).
      `literalProbs` holds the rows one after the other, 0x300 entries
      each.  The processing status, the parameters and the dictionary are
      the fields `set_params` and `reset` assign. */
  class DecoderState {
    const limit: nat
    var status: Status
    var params: Option<Params>
    var output: Window
    const literalProbs: array<Prob>
    const posSlotDecoder: seq<BitTree>
    const alignDecoder: BitTree
    const posDecoders: array<Prob>
    const isMatch: array<Prob>
    const isRep: array<Prob>
    const isRepG0: array<Prob>
    const isRepG1: array<Prob>
    const isRepG2: array<Prob>
    const isRep0Long: array<Prob>
    var state: nat
    const rep: array<nat>
    const lenDecoder: LenDecoder
    const repLenDecoder: LenDecoder
    ghost const Repr: set<object>

    /** The layout of this decoder's tables. */
    ghost predicate Shaped() {
      && Layout(limit, literalProbs, posSlotDecoder, alignDecoder, posDecoders, isMatch, isRep,
                isRepG0, isRepG1, isRepG2, isRep0Long, rep, lenDecoder, repLenDecoder, Repr)
      && this !in Repr
    }

    ghost predicate Valid()
      reads this
    {
      Shaped() && state < 12
    }

    /** Valid, with parameters `set_params` accepted. */
    ghost predicate Ready()
      reads this
    {
      Valid() && params.Some? && ParamsFit(params.value, limit)
    }

    /** The probabilities as a value of the model. */
    ghost function Tables(): (t: ProbTables)
      requires Shaped()
      reads Repr
    {
      TablesOf(limit, literalProbs, posSlotDecoder, alignDecoder, posDecoders, isMatch, isRep, isRepG0, isRepG1,
               isRepG2, isRep0Long, rep, lenDecoder, repLenDecoder, Repr)
    }

    /** The part of the decoder one step reads and writes, as a value. */
    ghost function Model(): (m: Machine)
      requires Shaped()
      reads this, Repr
      ensures LzmaModel.Shaped(m.t, limit) && |m.rep| == 4
    {
      TablesShaped();
      Machine(Tables(), state, rep[..], output)
    }

    /** The tables have the sizes `new` allocates. */
    lemma TablesShaped()
      requires Shaped()
      ensures LzmaModel.Shaped(Tables(), limit)
    {
      assert Pow2(6) == 64 && Pow2(4) == 16;
      lenDecoder.TablesShaped();
      repLenDecoder.TablesShaped();
    }

    /** The outcome `r` and the new state are those of the model step `s`. */
    ghost predicate Computes(rc: RangeDecoder, r: Result<Status>, s: Result<StepOut>)
      requires Shaped()
      reads this, Repr, rc
    {
      && (s.Ok? ==> r == Ok(s.value.status) && rc.State() == s.value.coder && Model() == s.value.m)
      && (s.Err? ==> r == Err(s.error))
    }

    /** The decoder over the tables `parts` already allocated: no
        parameters, an empty dictionary, state 0. */
    constructor FromParts(limit: nat, lit: array<Prob>, trees: seq<BitTree>, align: BitTree, pos: array<Prob>,
                          m: array<Prob>, r: array<Prob>, g0: array<Prob>, g1: array<Prob>, g2: array<Prob>,
                          l0: array<Prob>, reps: array<nat>, len: LenDecoder, repLen: LenDecoder,
                          ghost repr: set<object>)
      ensures this.limit == limit && literalProbs == lit && posSlotDecoder == trees && alignDecoder == align
      ensures posDecoders == pos && isMatch == m && isRep == r && isRepG0 == g0 && isRepG1 == g1
      ensures isRepG2 == g2 && isRep0Long == l0 && rep == reps && lenDecoder == len && repLenDecoder == repLen
      ensures Repr == repr && state == 0
      ensures status == Uninitialized && params == None && output == Window([], 0)
    {
      this.limit := limit;
      status := Uninitialized;
      params := None;
      output := Window([], 0);
      state := 0;
      literalProbs := lit;
      posSlotDecoder := trees;
      alignDecoder := align;
      posDecoders := pos;
      isMatch := m;
      isRep := r;
      isRepG0 := g0;
      isRepG1 := g1;
      isRepG2 := g2;
      isRep0Long := l0;
      rep := reps;
      lenDecoder := len;
      repLenDecoder := repLen;
      Repr := repr;
    }

    /** `DecoderState::new`: the plain tables at 0, the trees and the
        length decoders at 0x400, no parameters, an empty dictionary. */
    static method New(limit: nat) returns (d: DecoderState)
      ensures fresh(d) && fresh(d.Repr) && d.Valid() && d.limit == limit
      ensures d.status == Uninitialized && d.params == None && d.output == Window([], 0)
      ensures d.Model() == Machine(NewTables(limit), 0, [0, 0, 0, 0], Window([], 0))
    {
      var lit, trees, align, pos, m, r, g0, g1, g2, l0, reps, len, repLen, repr := Allocate(limit);
      NewTablesOf(limit, lit, trees, align, pos, m, r, g0, g1, g2, l0, reps, len, repLen, repr);
      d := new DecoderState.FromParts(limit, lit, trees, align, pos, m, r, g0, g1, g2, l0, reps, len, repLen, repr);
    }

    /** Nothing the tables occupy changed, only fields of the decoder. */
    twostate lemma FieldsChanged()
      requires old(Ready()) && unchanged(Repr) && params == old(params) && state < 12
      ensures Ready() && Tables() == old(Tables()) && rep[..] == old(rep[..])
    {}

    /** Nothing the tables occupy changed, at most the distances. */
    twostate lemma SameTables()
      requires Shaped() && unchanged(Repr - {rep})
      ensures Tables() == old(Tables())
    {}

    /** Only the six flag tables changed. */
    twostate lemma FlagsChanged()
      requires Shaped() && unchanged(Repr - {isMatch, isRep, isRepG0, isRepG1, isRepG2, isRep0Long})
      ensures Tables() == old(Tables()).(isMatch := isMatch[..], isRep := isRep[..], isRepG0 := isRepG0[..],
                                         isRepG1 := isRepG1[..], isRepG2 := isRepG2[..], isRep0Long := isRep0Long[..])
      ensures rep[..] == old(rep[..])
    {
      FlagsApartArrays();
      FlagsApartTrees();
      FlagsApartCoders();
    }

    /** The steps of `FlagsChanged`: the plain arrays, the trees and the
        length decoders are not flag tables. */
    twostate lemma FlagsApartArrays()
      requires Shaped() && unchanged(Repr - {isMatch, isRep, isRepG0, isRepG1, isRepG2, isRep0Long})
      ensures literalProbs[..] == old(literalProbs[..]) && posDecoders[..] == old(posDecoders[..])
      ensures rep[..] == old(rep[..])
    {}

    twostate lemma FlagsApartTrees()
      requires Shaped() && unchanged(Repr - {isMatch, isRep, isRepG0, isRepG1, isRepG2, isRep0Long})
      ensures Rows(posSlotDecoder) == old(Rows(posSlotDecoder)) && alignDecoder.probs[..] == old(alignDecoder.probs[..])
    {}

    twostate lemma FlagsApartCoders()
      requires Shaped() && unchanged(Repr - {isMatch, isRep, isRepG0, isRepG1, isRepG2, isRep0Long})
      ensures lenDecoder.Tables() == old(lenDecoder.Tables()) && repLenDecoder.Tables() == old(repLenDecoder.Tables())
    {}

    /** Only the `is_match` table changed. */
    twostate lemma IsMatchChanged()
      requires Shaped() && unchanged(Repr - {isMatch})
      ensures Tables() == old(Tables()).(isMatch := isMatch[..]) && rep[..] == old(rep[..])
    {
      assert isRep[..] == old(isRep[..]) && isRepG0[..] == old(isRepG0[..]);
      assert isRepG1[..] == old(isRepG1[..]) && isRepG2[..] == old(isRepG2[..]);
      assert isRep0Long[..] == old(isRep0Long[..]) && literalProbs[..] == old(literalProbs[..]);
      assert posDecoders[..] == old(posDecoders[..]) && Rows(posSlotDecoder) == old(Rows(posSlotDecoder));
      assert alignDecoder.probs[..] == old(alignDecoder.probs[..]) && lenDecoder.Tables() == old(lenDecoder.Tables());
      assert repLenDecoder.Tables() == old(repLenDecoder.Tables());
    }

    /** Only the `is_rep` table changed. */
    twostate lemma IsRepChanged()
      requires Shaped() && unchanged(Repr - {isRep})
      ensures Tables() == old(Tables()).(isRep := isRep[..]) && rep[..] == old(rep[..])
    {
      assert isMatch[..] == old(isMatch[..]) && isRepG0[..] == old(isRepG0[..]);
      assert isRepG1[..] == old(isRepG1[..]) && isRepG2[..] == old(isRepG2[..]);
      assert isRep0Long[..] == old(isRep0Long[..]) && literalProbs[..] == old(literalProbs[..]);
      assert posDecoders[..] == old(posDecoders[..]) && Rows(posSlotDecoder) == old(Rows(posSlotDecoder));
      assert alignDecoder.probs[..] == old(alignDecoder.probs[..]) && lenDecoder.Tables() == old(lenDecoder.Tables());
      assert repLenDecoder.Tables() == old(repLenDecoder.Tables());
    }

    /** Only the `is_rep_g0` table changed. */
    twostate lemma IsRepG0Changed()
      requires Shaped() && unchanged(Repr - {isRepG0})
      ensures Tables() == old(Tables()).(isRepG0 := isRepG0[..]) && rep[..] == old(rep[..])
    {
      assert isMatch[..] == old(isMatch[..]) && isRep[..] == old(isRep[..]);
      assert isRepG1[..] == old(isRepG1[..]) && isRepG2[..] == old(isRepG2[..]);
      assert isRep0Long[..] == old(isRep0Long[..]) && literalProbs[..] == old(literalProbs[..]);
      assert posDecoders[..] == old(posDecoders[..]) && Rows(posSlotDecoder) == old(Rows(posSlotDecoder));
      assert alignDecoder.probs[..] == old(alignDecoder.probs[..]) && lenDecoder.Tables() == old(lenDecoder.Tables());
      assert repLenDecoder.Tables() == old(repLenDecoder.Tables());
    }

    /** Only the `is_rep_g1` table changed. */
    twostate lemma IsRepG1Changed()
      requires Shaped() && unchanged(Repr - {isRepG1})
      ensures Tables() == old(Tables()).(isRepG1 := isRepG1[..]) && rep[..] == old(rep[..])
    {
      assert isMatch[..] == old(isMatch[..]) && isRep[..] == old(isRep[..]);
      assert isRepG0[..] == old(isRepG0[..]) && isRepG2[..] == old(isRepG2[..]);
      assert isRep0Long[..] == old(isRep0Long[..]) && literalProbs[..] == old(literalProbs[..]);
      assert posDecoders[..] == old(posDecoders[..]) && Rows(posSlotDecoder) == old(Rows(posSlotDecoder));
      assert alignDecoder.probs[..] == old(alignDecoder.probs[..]) && lenDecoder.Tables() == old(lenDecoder.Tables());
      assert repLenDecoder.Tables() == old(repLenDecoder.Tables());
    }

    /** Only the `is_rep_g2` table changed. */
    twostate lemma IsRepG2Changed()
      requires Shaped() && unchanged(Repr - {isRepG2})
      ensures Tables() == old(Tables()).(isRepG2 := isRepG2[..]) && rep[..] == old(rep[..])
    {
      assert isMatch[..] == old(isMatch[..]) && isRep[..] == old(isRep[..]);
      assert isRepG0[..] == old(isRepG0[..]) && isRepG1[..] == old(isRepG1[..]);
      assert isRep0Long[..] == old(isRep0Long[..]) && literalProbs[..] == old(literalProbs[..]);
      assert posDecoders[..] == old(posDecoders[..]) && Rows(posSlotDecoder) == old(Rows(posSlotDecoder));
      assert alignDecoder.probs[..] == old(alignDecoder.probs[..]) && lenDecoder.Tables() == old(lenDecoder.Tables());
      assert repLenDecoder.Tables() == old(repLenDecoder.Tables());
    }

    /** Only the `is_rep_0long` table changed. */
    twostate lemma IsRep0LongChanged()
      requires Shaped() && unchanged(Repr - {isRep0Long})
      ensures Tables() == old(Tables()).(isRep0Long := isRep0Long[..]) && rep[..] == old(rep[..])
    {
      assert isMatch[..] == old(isMatch[..]) && isRep[..] == old(isRep[..]);
      assert isRepG0[..] == old(isRepG0[..]) && isRepG1[..] == old(isRepG1[..]);
      assert isRepG2[..] == old(isRepG2[..]) && literalProbs[..] == old(literalProbs[..]);
      assert posDecoders[..] == old(posDecoders[..]) && Rows(posSlotDecoder) == old(Rows(posSlotDecoder));
      assert alignDecoder.probs[..] == old(alignDecoder.probs[..]) && lenDecoder.Tables() == old(lenDecoder.Tables());
      assert repLenDecoder.Tables() == old(repLenDecoder.Tables());
    }

    /** Only the literal table changed. */
    twostate lemma LiteralChanged()
      requires Shaped() && unchanged(Repr - {literalProbs})
      ensures Tables() == old(Tables()).(literal := literalProbs[..]) && rep[..] == old(rep[..])
    {
      assert isMatch[..] == old(isMatch[..]) && isRep[..] == old(isRep[..]);
      assert isRepG0[..] == old(isRepG0[..]) && isRepG1[..] == old(isRepG1[..]);
      assert isRepG2[..] == old(isRepG2[..]) && isRep0Long[..] == old(isRep0Long[..]);
      assert posDecoders[..] == old(posDecoders[..]) && Rows(posSlotDecoder) == old(Rows(posSlotDecoder));
      assert alignDecoder.probs[..] == old(alignDecoder.probs[..]) && lenDecoder.Tables() == old(lenDecoder.Tables());
      assert repLenDecoder.Tables() == old(repLenDecoder.Tables());
    }

    /** Only the slot trees, `pos_decoders`, the align tree and the
        distances changed. */
    twostate lemma DistanceChanged()
      requires Shaped()
      requires unchanged(Repr - RangeCoder.Arrays(posSlotDecoder) - {posDecoders, alignDecoder.probs} - {rep})
      ensures Tables() == old(Tables()).(posSlot := Rows(posSlotDecoder), posDecoders := posDecoders[..],
                                         align := alignDecoder.probs[..])
    {
      assert isMatch[..] == old(isMatch[..]) && isRep[..] == old(isRep[..]);
      assert isRepG0[..] == old(isRepG0[..]) && isRepG1[..] == old(isRepG1[..]);
      assert isRepG2[..] == old(isRepG2[..]) && isRep0Long[..] == old(isRep0Long[..]);
      assert literalProbs[..] == old(literalProbs[..]) && lenDecoder.Tables() == old(lenDecoder.Tables());
      assert repLenDecoder.Tables() == old(repLenDecoder.Tables());
    }

    /** The slot trees, `pos_decoders` and the align tree are apart. */
    lemma DistanceTablesApart()
      requires Shaped()
      ensures DistanceTables(posSlotDecoder, posDecoders, alignDecoder)
    {}

    /** Only the distance tables changed, seen on the whole machine. */
    twostate lemma DistanceModelChanged()
      requires old(Ready()) && unchanged(this)
      requires unchanged(Repr - RangeCoder.Arrays(posSlotDecoder) - {posDecoders, alignDecoder.probs})
      ensures Ready() && Kept()
      ensures old(Model()).t.posSlot == old(Rows(posSlotDecoder)) && old(Model()).t.posDecoders == old(posDecoders[..])
      ensures old(Model()).t.align == old(alignDecoder.probs[..])
      ensures Model() == old(Model()).(t := old(Model()).t.(posSlot := Rows(posSlotDecoder),
                                                         posDecoders := posDecoders[..], align := alignDecoder.probs[..]))
    {
      DistanceChanged();
    }

    /** Only the match length decoder and the distances changed. */
    twostate lemma LenChanged()
      requires Shaped() && unchanged(Repr - {lenDecoder} - lenDecoder.Repr - {rep})
      ensures Tables() == old(Tables()).(len := lenDecoder.Tables())
    {
      LenApartFlags();
      LenApartRest();
    }

    /** The steps of `LenChanged`: the flag tables and the other arrays
        are not the match length decoder's. */
    twostate lemma LenApartFlags()
      requires Shaped() && unchanged(Repr - {lenDecoder} - lenDecoder.Repr - {rep})
      ensures isMatch[..] == old(isMatch[..]) && isRep[..] == old(isRep[..])
      ensures isRepG0[..] == old(isRepG0[..]) && isRepG1[..] == old(isRepG1[..])
      ensures isRepG2[..] == old(isRepG2[..]) && isRep0Long[..] == old(isRep0Long[..])
    {}

    twostate lemma LenApartRest()
      requires Shaped() && unchanged(Repr - {lenDecoder} - lenDecoder.Repr - {rep})
      ensures literalProbs[..] == old(literalProbs[..]) && posDecoders[..] == old(posDecoders[..])
      ensures Rows(posSlotDecoder) == old(Rows(posSlotDecoder)) && alignDecoder.probs[..] == old(alignDecoder.probs[..])
      ensures repLenDecoder.Tables() == old(repLenDecoder.Tables())
    {}

    /** Only the repeat length decoder and the distances changed. */
    twostate lemma RepLenChanged()
      requires Shaped() && unchanged(Repr - {repLenDecoder} - repLenDecoder.Repr - {rep})
      ensures Tables() == old(Tables()).(repLen := repLenDecoder.Tables())
    {
      RepLenApartFlags();
      RepLenApartRest();
    }

    /** The steps of `RepLenChanged`, as for `LenChanged`. */
    twostate lemma RepLenApartFlags()
      requires Shaped() && unchanged(Repr - {repLenDecoder} - repLenDecoder.Repr - {rep})
      ensures isMatch[..] == old(isMatch[..]) && isRep[..] == old(isRep[..])
      ensures isRepG0[..] == old(isRepG0[..]) && isRepG1[..] == old(isRepG1[..])
      ensures isRepG2[..] == old(isRepG2[..]) && isRep0Long[..] == old(isRep0Long[..])
    {}

    twostate lemma RepLenApartRest()
      requires Shaped() && unchanged(Repr - {repLenDecoder} - repLenDecoder.Repr - {rep})
      ensures literalProbs[..] == old(literalProbs[..]) && posDecoders[..] == old(posDecoders[..])
      ensures Rows(posSlotDecoder) == old(Rows(posSlotDecoder)) && alignDecoder.probs[..] == old(alignDecoder.probs[..])
      ensures lenDecoder.Tables() == old(lenDecoder.Tables())
    {}

    /** `reset`: every probability back to 0x400, state and distances to
        0, no parameters, the dictionary emptied. */
    method Reset()
      requires Valid()
      modifies this, Repr
      ensures Valid() && status == Continue && params == None
      ensures Model() == Machine(InitTables(limit), 0, [0, 0, 0, 0], LzBuffer.Reset(old(output)))
    {
      status := Continue;
      output := LzBuffer.Reset(output);
      params := None;
      state := 0;
      ResetTables();
    }

    /** The tables' part of `reset`. */
    method ResetTables()
      requires Shaped()
      modifies Repr
      ensures Tables() == InitTables(limit) && rep[..] == [0, 0, 0, 0]
    {
      ResetArrays();
      ResetCoders();
    }

    /** The probability arrays' part of `reset`. */
    method ResetArrays()
      requires Shaped()
      modifies literalProbs, RangeCoder.Arrays(posSlotDecoder), alignDecoder.probs, posDecoders
      modifies isMatch, isRep, isRepG0, isRepG1, isRepG2, isRep0Long
      ensures Tables() == old(Tables()).(isMatch := Fresh(192), isRep := Fresh(12), isRepG0 := Fresh(12),
                                         isRepG1 := Fresh(12), isRepG2 := Fresh(12), isRep0Long := Fresh(192),
                                         posDecoders := Fresh(115), literal := Fresh(limit * 0x300),
                                         posSlot := FreshRows(4, 64), align := Fresh(16))
    {
      label literal:
      ResetProbs(literalProbs);
      LiteralChanged@literal();
      label distance:
      ResetDistanceTables();
      DistanceChanged@distance();
      label flags:
      ResetFlags();
      FlagsChanged@flags();
    }

    /** The length decoders' and the distances' part of `reset`. */
    method ResetCoders()
      requires Shaped()
      modifies lenDecoder, lenDecoder.Repr, repLenDecoder, repLenDecoder.Repr, rep
      ensures Tables() == old(Tables()).(len := InitLenTables(), repLen := InitLenTables())
      ensures rep[..] == [0, 0, 0, 0]
    {
      label len:
      lenDecoder.Reset();
      LenChanged@len();
      label repLen:
      repLenDecoder.Reset();
      RepLenChanged@repLen();
      label reps:
      ResetReps();
      SameTables@reps();
    }

    /** The slot, align and `pos_decoders` part of `reset`. */
    method ResetDistanceTables()
      requires Shaped()
      modifies RangeCoder.Arrays(posSlotDecoder), alignDecoder.probs, posDecoders
      ensures Rows(posSlotDecoder) == FreshRows(4, 64)
      ensures alignDecoder.probs[..] == Fresh(16) && posDecoders[..] == Fresh(115)
    {
      assert Pow2(6) == 64 && Pow2(4) == 16;
      ResetTrees(posSlotDecoder, 64);
      alignDecoder.Reset();
      ResetProbs(posDecoders);
    }

    /** The flag tables' part of `reset`. */
    method ResetFlags()
      requires Shaped()
      modifies isMatch, isRep, isRepG0, isRepG1, isRepG2, isRep0Long
      ensures isMatch[..] == Fresh(192) && isRep[..] == Fresh(12) && isRepG0[..] == Fresh(12)
      ensures isRepG1[..] == Fresh(12) && isRepG2[..] == Fresh(12) && isRep0Long[..] == Fresh(192)
    {
      ResetProbs(isMatch);
      ResetProbs(isRep);
      ResetProbs(isRepG0);
      ResetProbs(isRepG1);
      ResetProbs(isRepG2);
      ResetProbs(isRep0Long);
    }

    /** `self.rep = [0; 4]`. */
    method ResetReps()
      requires Shaped()
      modifies rep
      ensures rep[..] == [0, 0, 0, 0]
    {
      rep[0], rep[1], rep[2], rep[3] := 0, 0, 0, 0;
    }

    /** `set_params`: refused when the literal table is smaller than the
        2^(lc + lp) rows the parameters need; otherwise the dictionary
        takes the parameters' size.  Nothing else changes. */
    method SetParams(p: Params) returns (r: Result<()>)
      requires Valid() && status != Uninitialized && ParamsOk(p)
      modifies this
      ensures Valid() && status == old(status) && Model() == old(Model()).(out := output)
      ensures Pow2(p.lc + p.lp) > limit ==>
        r == Err(ProbabilitiesBufferTooSmall(Pow2(p.lc + p.lp), limit))
        && params == old(params) && output == old(output)
      ensures Pow2(p.lc + p.lp) <= limit ==>
        r == Ok(()) && params == Some(p) && output == SetDictSize(old(output), p.dictSize) && ParamsFit(p, limit)
    {
      if Pow2(p.lc + p.lp) > limit {
        return Err(ProbabilitiesBufferTooSmall(Pow2(p.lc + p.lp), limit));
      }
      output, params := SetDictSize(output, p.dictSize), Some(p);
      SameTables();
      r := Ok(());
    }

    /** `decode_literal(update)`: the row of the literal state, the match
        byte after a match (which `last_n` may refuse), then the loops.
        Only the literal table changes. */
    method DecodeLiteral(rc: RangeDecoder, update: bool) returns (r: Result<u8>)
      requires Ready() && rc.Valid()
      modifies rc, literalProbs
      ensures rc.Valid()
      ensures var s := LiteralOf(rc.input, old(rc.State()), old(literalProbs[..]), output, state, rep[0], params.value,
                                 limit, update);
        && (s.Ok? ==> r == Ok(s.value.value as u8) && rc.State() == s.value.coder && literalProbs[..] == s.value.probs)
        && (s.Err? ==> r == Err(s.error))
      ensures !update ==> literalProbs[..] == old(literalProbs[..])
    {
      r := LiteralFrom(rc, literalProbs, output, state, rep[0], params.value, limit, update);
    }

    // -------------------------------------------------------------------
    // `process_next_inner`, one decision at a time.  Each stage is given
    // the coder `c` and the machine `m` it starts from as ghost values.

    /** What every stage needs: parameters set and the position state of
        the current output length. */
    ghost predicate Steppable(rc: RangeDecoder, posState: nat)
      reads this, rc
    {
      Ready() && rc.Valid() && rc !in Repr && posState < 16 && posState == Len(output) % Pow2(params.value.pb)
    }

    /** What a stage leaves untouched besides the tables it decodes with. */
    twostate predicate Kept()
      reads this
    {
      output == old(output) && state == old(state) && params == old(params) && status == old(status)
    }

    /** `process_next_inner(update)` (lines 252-372): one packet. */
    method ProcessNextInner(rc: RangeDecoder, update: bool) returns (r: Result<Status>)
      requires Ready() && rc.Valid() && rc !in Repr
      modifies this, Repr, rc
      ensures Ready() && rc.Valid() && params == old(params)
      ensures status == (if r == Ok(Finished) then Finished else old(status))
      ensures Computes(rc, r, Step(rc.input, old(rc.State()), old(Model()), params.value, limit, update))
      ensures !update ==> Model() == old(Model()) && status == old(status)
    {
      var posState := Len(output) % Pow2(params.value.pb);
      assert posState == PosState(Model(), params.value);
      r := IsMatchStage(rc, posState, update, rc.State(), Model());
    }

    /** Lines 264-272: the `is_match` bit of the state and the position. */
    method IsMatchStage(rc: RangeDecoder, posState: nat, update: bool, ghost c: Coder, ghost m: Machine)
      returns (r: Result<Status>)
      requires Steppable(rc, posState) && rc.State() == c && Model() == m
      modifies this, Repr, rc
      ensures Ready() && rc.Valid() && params == old(params)
      ensures status == (if r == Ok(Finished) then Finished else old(status))
      ensures Computes(rc, r, StepIsMatch(rc.input, c, m, params.value, limit, update))
      ensures !update ==> Model() == m
    {
      assert posState == PosState(m, params.value);
      IsMatchThen(rc.input, c, m, params.value, limit, update);
      var bit := IsMatchBit(rc, state * 16 + posState, update, m);
      if bit.Err? {
        return Err(bit.error);
      }
      if bit.value {
        r := IsRepStage(rc, posState, update, rc.State(), Model());
      } else {
        r := LiteralStage(rc, update, rc.State(), Model());
      }
    }

    /** `decode_bit` on entry `i` of `is_match`; nothing else changes. */
    method IsMatchBit(rc: RangeDecoder, i: nat, update: bool, ghost m: Machine) returns (r: Result<bool>)
      requires Ready() && rc.Valid() && rc !in Repr && i < 192 && Model() == m
      modifies rc, isMatch
      ensures Ready() && rc.Valid() && Kept()
      ensures var f := DecodeFlag(rc.input, old(rc.State()), m.t.isMatch, i, update);
        && (f.Ok? ==> r == Ok(f.value.bit) && rc.State() == f.value.coder && isMatch[..] == f.value.probs
                      && Model() == m.(t := m.t.(isMatch := f.value.probs)))
        && (f.Err? ==> r == Err(f.error))
      ensures !update ==> Model() == m
    {
      label before:
      r := DecodeFlagAt(rc, isMatch, i, update);
      IsMatchChanged@before();
    }

    /** Line 292: the `is_rep` bit chooses a repeated or a new distance. */
    method IsRepStage(rc: RangeDecoder, posState: nat, update: bool, ghost c: Coder, ghost m: Machine)
      returns (r: Result<Status>)
      requires Steppable(rc, posState) && rc.State() == c && Model() == m
      modifies this, Repr, rc
      ensures Ready() && rc.Valid() && params == old(params)
      ensures status == (if r == Ok(Finished) then Finished else old(status))
      ensures Computes(rc, r, StepIsRep(rc.input, c, m, params.value, limit, update))
      ensures !update ==> Model() == m
    {
      IsRepThen(rc.input, c, m, params.value, limit, update);
      var bit := IsRepBit(rc, update, m);
      if bit.Err? {
        return Err(bit.error);
      }
      if bit.value {
        r := RepG0Stage(rc, posState, update, rc.State(), Model());
      } else {
        r := MatchLengthStage(rc, posState, update, rc.State(), Model());
      }
    }

    /** `decode_bit` on entry `state` of `is_rep`; nothing else changes. */
    method IsRepBit(rc: RangeDecoder, update: bool, ghost m: Machine) returns (r: Result<bool>)
      requires Ready() && rc.Valid() && rc !in Repr && Model() == m
      modifies rc, isRep
      ensures Ready() && rc.Valid() && Kept()
      ensures var f := DecodeFlag(rc.input, old(rc.State()), m.t.isRep, m.state, update);
        && (f.Ok? ==> r == Ok(f.value.bit) && rc.State() == f.value.coder && isRep[..] == f.value.probs
                      && Model() == m.(t := m.t.(isRep := f.value.probs)))
        && (f.Err? ==> r == Err(f.error))
      ensures !update ==> Model() == m
    {
      label before:
      r := DecodeFlagAt(rc, isRep, state, update);
      IsRepChanged@before();
    }

    /** Line 294: a 0 `is_rep_g0` bit means `rep[0]`. */
    method RepG0Stage(rc: RangeDecoder, posState: nat, update: bool, ghost c: Coder, ghost m: Machine)
      returns (r: Result<Status>)
      requires Steppable(rc, posState) && rc.State() == c && Model() == m
      modifies this, Repr, rc
      ensures Ready() && rc.Valid() && params == old(params) && status == old(status) && r != Ok(Finished)
      ensures Computes(rc, r, StepRepG0(rc.input, c, m, params.value, limit, update))
      ensures !update ==> Model() == m
    {
      RepG0Then(rc.input, c, m, params.value, limit, update);
      var bit := RepG0Bit(rc, update, m);
      if bit.Err? {
        return Err(bit.error);
      }
      if bit.value {
        r := RepG1Stage(rc, posState, update, rc.State(), Model());
      } else {
        r := Rep0LongStage(rc, posState, update, rc.State(), Model());
      }
    }

    /** `decode_bit` on entry `state` of `is_rep_g0`; nothing else changes. */
    method RepG0Bit(rc: RangeDecoder, update: bool, ghost m: Machine) returns (r: Result<bool>)
      requires Ready() && rc.Valid() && rc !in Repr && Model() == m
      modifies rc, isRepG0
      ensures Ready() && rc.Valid() && Kept()
      ensures var f := DecodeFlag(rc.input, old(rc.State()), m.t.isRepG0, m.state, update);
        && (f.Ok? ==> r == Ok(f.value.bit) && rc.State() == f.value.coder && isRepG0[..] == f.value.probs
                      && Model() == m.(t := m.t.(isRepG0 := f.value.probs)))
        && (f.Err? ==> r == Err(f.error))
      ensures !update ==> Model() == m
    {
      label before:
      r := DecodeFlagAt(rc, isRepG0, state, update);
      IsRepG0Changed@before();
    }

    /** Lines 295-307: a 0 `is_rep_0long` bit copies one byte from distance
        `rep[0] + 1`; a 1 goes on to the length of a repeat of `rep[0]`. */
    method Rep0LongStage(rc: RangeDecoder, posState: nat, update: bool, ghost c: Coder, ghost m: Machine)
      returns (r: Result<Status>)
      requires Steppable(rc, posState) && rc.State() == c && Model() == m
      modifies this, Repr, rc
      ensures Ready() && rc.Valid() && params == old(params) && status == old(status) && r != Ok(Finished)
      ensures Computes(rc, r, StepRep0Long(rc.input, c, m, params.value, limit, update))
      ensures !update ==> Model() == m
    {
      assert posState == PosState(m, params.value);
      Rep0LongThen(rc.input, c, m, params.value, limit, update);
      var bit := Rep0LongBit(rc, state * 16 + posState, update, m);
      if bit.Err? {
        return Err(bit.error);
      }
      if bit.value {
        r := RepLengthStage(rc, 0, posState, update, rc.State(), Model());
      } else {
        r := ShortRepStage(rc, update, rc.State(), Model());
      }
    }

    /** `decode_bit` on entry `i` of `is_rep_0long`; nothing else changes. */
    method Rep0LongBit(rc: RangeDecoder, i: nat, update: bool, ghost m: Machine) returns (r: Result<bool>)
      requires Ready() && rc.Valid() && rc !in Repr && i < 192 && Model() == m
      modifies rc, isRep0Long
      ensures Ready() && rc.Valid() && Kept()
      ensures var f := DecodeFlag(rc.input, old(rc.State()), m.t.isRep0Long, i, update);
        && (f.Ok? ==> r == Ok(f.value.bit) && rc.State() == f.value.coder && isRep0Long[..] == f.value.probs
                      && Model() == m.(t := m.t.(isRep0Long := f.value.probs)))
        && (f.Err? ==> r == Err(f.error))
      ensures !update ==> Model() == m
    {
      label before:
      r := DecodeFlagAt(rc, isRep0Long, i, update);
      IsRep0LongChanged@before();
    }

    /** Lines 310-311: a 0 `is_rep_g1` bit means `rep[1]`. */
    method RepG1Stage(rc: RangeDecoder, posState: nat, update: bool, ghost c: Coder, ghost m: Machine)
      returns (r: Result<Status>)
      requires Steppable(rc, posState) && rc.State() == c && Model() == m
      modifies this, Repr, rc
      ensures Ready() && rc.Valid() && params == old(params) && status == old(status) && r != Ok(Finished)
      ensures Computes(rc, r, StepRepG1(rc.input, c, m, params.value, limit, update))
      ensures !update ==> Model() == m
    {
      RepG1Then(rc.input, c, m, params.value, limit, update);
      var bit := RepG1Bit(rc, update, m);
      if bit.Err? {
        return Err(bit.error);
      }
      if bit.value {
        r := RepG2Stage(rc, posState, update, rc.State(), Model());
      } else {
        r := RepLengthStage(rc, 1, posState, update, rc.State(), Model());
      }
    }

    /** `decode_bit` on entry `state` of `is_rep_g1`; nothing else changes. */
    method RepG1Bit(rc: RangeDecoder, update: bool, ghost m: Machine) returns (r: Result<bool>)
      requires Ready() && rc.Valid() && rc !in Repr && Model() == m
      modifies rc, isRepG1
      ensures Ready() && rc.Valid() && Kept()
      ensures var f := DecodeFlag(rc.input, old(rc.State()), m.t.isRepG1, m.state, update);
        && (f.Ok? ==> r == Ok(f.value.bit) && rc.State() == f.value.coder && isRepG1[..] == f.value.probs
                      && Model() == m.(t := m.t.(isRepG1 := f.value.probs)))
        && (f.Err? ==> r == Err(f.error))
      ensures !update ==> Model() == m
    {
      label before:
      r := DecodeFlagAt(rc, isRepG1, state, update);
      IsRepG1Changed@before();
    }

    /** Lines 312-316: the `is_rep_g2` bit chooses `rep[2]` or `rep[3]`. */
    method RepG2Stage(rc: RangeDecoder, posState: nat, update: bool, ghost c: Coder, ghost m: Machine)
      returns (r: Result<Status>)
      requires Steppable(rc, posState) && rc.State() == c && Model() == m
      modifies this, Repr, rc
      ensures Ready() && rc.Valid() && params == old(params) && status == old(status) && r != Ok(Finished)
      ensures Computes(rc, r, StepRepG2(rc.input, c, m, params.value, limit, update))
      ensures !update ==> Model() == m
    {
      RepG2Then(rc.input, c, m, params.value, limit, update);
      var bit := RepG2Bit(rc, update, m);
      if bit.Err? {
        return Err(bit.error);
      }
      r := RepLengthStage(rc, if bit.value then 3 else 2, posState, update, rc.State(), Model());
    }

    /** `decode_bit` on entry `state` of `is_rep_g2`; nothing else changes. */
    method RepG2Bit(rc: RangeDecoder, update: bool, ghost m: Machine) returns (r: Result<bool>)
      requires Ready() && rc.Valid() && rc !in Repr && Model() == m
      modifies rc, isRepG2
      ensures Ready() && rc.Valid() && Kept()
      ensures var f := DecodeFlag(rc.input, old(rc.State()), m.t.isRepG2, m.state, update);
        && (f.Ok? ==> r == Ok(f.value.bit) && rc.State() == f.value.coder && isRepG2[..] == f.value.probs
                      && Model() == m.(t := m.t.(isRepG2 := f.value.probs)))
        && (f.Err? ==> r == Err(f.error))
      ensures !update ==> Model() == m
    {
      label before:
      r := DecodeFlagAt(rc, isRepG2, state, update);
      IsRepG2Changed@before();
    }

    /** Lines 273-287: a literal, appended with `update`, and the state
        moved towards 0. */
    method LiteralStage(rc: RangeDecoder, update: bool, ghost c: Coder, ghost m: Machine) returns (r: Result<Status>)
      requires Ready() && rc.Valid() && rc !in Repr && rc.State() == c && Model() == m
      modifies this, Repr, rc
      ensures Ready() && rc.Valid() && params == old(params) && status == old(status) && r != Ok(Finished)
      ensures Computes(rc, r, StepLiteral(rc.input, c, m, params.value, limit, update))
      ensures !update ==> Model() == m
    {
      var byte := LiteralBits(rc, update, m);
      if byte.Err? {
        return Err(byte.error);
      }
      if update {
        PutLiteral(byte.value, Model());
      }
      return Ok(Continue);
    }

    /** `decode_literal(update)`, with nothing but the literal table changed. */
    method LiteralBits(rc: RangeDecoder, update: bool, ghost m: Machine) returns (r: Result<u8>)
      requires Ready() && rc.Valid() && rc !in Repr && Model() == m
      modifies rc, literalProbs
      ensures Ready() && rc.Valid() && Kept()
      ensures var s := LiteralOf(rc.input, old(rc.State()), m.t.literal, m.out, m.state, m.rep[0], params.value,
                                 limit, update);
        && (s.Ok? ==> r == Ok(s.value.value as u8) && rc.State() == s.value.coder
                      && Model() == m.(t := m.t.(literal := s.value.probs)))
        && (s.Err? ==> r == Err(s.error))
      ensures !update ==> Model() == m
    {
      label before:
      r := DecodeLiteral(rc, update);
      LiteralChanged@before();
    }

    /** Lines 318-333 and 363-368: with `update` distance `idx` moves to
        the front first; then the length from the repeat length decoder,
        the state update and the copy of `len + 2` bytes. */
    method RepLengthStage(rc: RangeDecoder, idx: nat, posState: nat, update: bool, ghost c: Coder, ghost m: Machine)
      returns (r: Result<Status>)
      requires Steppable(rc, posState) && idx < 4 && rc.State() == c && Model() == m
      modifies this, Repr, rc
      ensures Ready() && rc.Valid() && params == old(params) && status == old(status) && r != Ok(Finished)
      ensures Computes(rc, r, StepRepLength(rc.input, c, m, params.value, idx, limit, update))
      ensures !update ==> Model() == m
    {
      assert posState == PosState(m, params.value);
      ghost var m1 := m;
      if update {
        MoveRep(idx, m);
        m1 := m.(rep := MoveToFront(m.rep, idx));
      }
      var len := RepLen(rc, posState, update, m1);
      if len.Err? {
        return Err(len.error);
      }
      r := RepCopyStage(rc, idx, len.value, update, rc.State(), Model());
    }

    /** Lines 321-325: `rep[idx]` to the front; nothing else changes. */
    method MoveRep(idx: nat, ghost m: Machine)
      requires Ready() && idx < 4 && Model() == m
      modifies rep
      ensures Ready() && Kept() && Model() == m.(rep := MoveToFront(m.rep, idx))
    {
      label moved:
      MoveToFrontInPlace(rep, idx);
      SameTables@moved();
    }

    /** Line 328: the repeat length decoder; nothing else changes. */
    method RepLen(rc: RangeDecoder, posState: nat, update: bool, ghost m: Machine) returns (r: Result<nat>)
      requires Ready() && rc.Valid() && rc !in Repr && posState < 16 && Model() == m
      modifies rc, repLenDecoder, repLenDecoder.Repr
      ensures Ready() && rc.Valid() && Kept()
      ensures var s := LenDecode(rc.input, old(rc.State()), m.t.repLen, posState, update);
        && (s.Ok? ==> r == Ok(s.value.len) && rc.State() == s.value.coder
                      && Model() == m.(t := m.t.(repLen := s.value.tables)))
        && (s.Err? ==> r == Err(s.error))
      ensures !update ==> Model() == m
    {
      label before:
      r := repLenDecoder.Decode(rc, posState, update);
      RepLenChanged@before();
    }

    /** Lines 334-345: with `update` the distances shift back; the length
        from the match length decoder and the state update, then the
        distance. */
    method MatchLengthStage(rc: RangeDecoder, posState: nat, update: bool, ghost c: Coder, ghost m: Machine)
      returns (r: Result<Status>)
      requires Steppable(rc, posState) && rc.State() == c && Model() == m
      modifies this, Repr, rc
      ensures Ready() && rc.Valid() && params == old(params)
      ensures status == (if r == Ok(Finished) then Finished else old(status))
      ensures Computes(rc, r, StepMatchLength(rc.input, c, m, params.value, limit, update))
      ensures !update ==> Model() == m
    {
      assert posState == PosState(m, params.value);
      ghost var m1 := m;
      if update {
        ShiftReps(m);
        m1 := m.(rep := ShiftBack(m.rep));
      }
      StepMatchLengthCases(rc.input, c, m, params.value, limit, update);
      var len := MatchLen(rc, posState, update, c, m1);
      if len.Err? {
        return Err(len.error);
      }
      if update {
        MatchState(Model());
      }
      r := DistanceStage(rc, len.value, update, rc.State(), Model());
    }

    /** Lines 336-340: the distances shift back; nothing else changes. */
    method ShiftReps(ghost m: Machine)
      requires Ready() && Model() == m
      modifies rep
      ensures Ready() && Kept() && Model() == m.(rep := ShiftBack(m.rep))
    {
      label shifted:
      rep[3] := rep[2];
      rep[2] := rep[1];
      rep[1] := rep[0];
      SameTables@shifted();
    }

    /** Line 343: the match length decoder; nothing else changes. */
    method MatchLen(rc: RangeDecoder, posState: nat, update: bool, ghost c: Coder, ghost m: Machine)
      returns (r: Result<nat>)
      requires Ready() && rc.Valid() && rc !in Repr && posState < 16 && rc.State() == c && Model() == m
      modifies rc, lenDecoder, lenDecoder.Repr
      ensures Ready() && rc.Valid() && Kept()
      ensures var s := LenDecode(rc.input, c, m.t.len, posState, update);
        && (s.Ok? ==> r == Ok(s.value.len) && rc.State() == s.value.coder && lenDecoder.Tables() == s.value.tables
                      && Model() == m.(t := m.t.(len := s.value.tables)))
        && (s.Err? ==> r == Err(s.error))
      ensures !update ==> Model() == m
    {
      label before:
      r := lenDecoder.Decode(rc, posState, update);
      LenChanged@before();
    }

    /** Lines 346-368: the distance becomes `rep[0]`; `0xFFFF_FFFF` ends
        the stream when the coder has finished cleanly and is an error
        otherwise; any other distance is copied `len + 2` times. */
    method DistanceStage(rc: RangeDecoder, len: nat, update: bool, ghost c: Coder, ghost m: Machine)
      returns (r: Result<Status>)
      requires Ready() && rc.Valid() && rc !in Repr && rc.State() == c && Model() == m
      modifies this, Repr, rc
      ensures Ready() && rc.Valid() && params == old(params)
      ensures status == (if r == Ok(Finished) then Finished else old(status))
      ensures Computes(rc, r, StepDistance(rc.input, c, m, len, limit, update))
      ensures !update ==> Model() == m
    {
      var dist := DecodeDistance(rc, len, update, c, m);
      if dist.Err? {
        return Err(dist.error);
      }
      r := MatchTailStage(rc, dist.value, len, update, rc.State(), Model());
    }

    /** `decode_distance(length, update)`: the slot from the tree of
        `min(length, 3)`, then the low bits of slots from 4 on.  Only the
        slot trees, `pos_decoders` and the align tree change. */
    method DecodeDistance(rc: RangeDecoder, len: nat, update: bool, ghost c: Coder, ghost m: Machine)
      returns (r: Result<nat>)
      requires Ready() && rc.Valid() && rc !in Repr && rc.State() == c && Model() == m
      modifies rc, RangeCoder.Arrays(posSlotDecoder), posDecoders, alignDecoder.probs
      ensures Ready() && rc.Valid() && Kept()
      ensures var s := DistanceDecode(rc.input, c, m.t.posSlot, m.t.posDecoders, m.t.align, len, update);
        && (s.Ok? ==> r == Ok(s.value.dist) && rc.State() == s.value.coder
                      && Model() == m.(t := m.t.(posSlot := s.value.posSlot, posDecoders := s.value.posDecoders,
                                                 align := s.value.align)))
        && (s.Err? ==> r == Err(s.error))
      ensures !update ==> Model() == m
    {
      label before:
      DistanceTablesApart();
      r := DistanceFrom(rc, posSlotDecoder, posDecoders, alignDecoder, len, update, c, Rows(posSlotDecoder),
                        posDecoders[..], alignDecoder.probs[..]);
      DistanceModelChanged@before();
    }
    /** Lines 277-285: the literal appended, the state moved towards 0. */
    method PutLiteral(byte: u8, ghost m: Machine)
      requires Ready() && Model() == m
      modifies this
      ensures Ready() && params == old(params) && status == old(status)
      ensures Model() == m.(out := AppendLiteral(m.out, byte), state := LiteralNext(m.state))
    {
      label before:
      output := AppendLiteral(output, byte);
      state := if state < 4 then 0 else if state < 10 then state - 3 else state - 6;
      FieldsChanged@before();
    }

    /** Lines 300-305: with `update`, the short-rep state and one byte
        from `rep[0] + 1`. */
    method ShortRepStage(rc: RangeDecoder, update: bool, ghost c: Coder, ghost m: Machine) returns (r: Result<Status>)
      requires Ready() && rc.Valid() && rc !in Repr && rc.State() == c && Model() == m
      modifies this
      ensures Ready() && rc.Valid() && params == old(params) && status == old(status) && r != Ok(Finished)
      ensures Computes(rc, r, ShortRepTail(rc.input, c, m, update))
      ensures !update ==> Model() == m
    {
      if !update {
        return Ok(Continue);
      }
      r := PutCopy(if state < 7 then 9 else 11, 1, m);
      ShortRepTailUpdate(rc.input, c, m);
    }

    /** Lines 329-332 and 363-368: with `update`, the rep state, then
        `len + 2` bytes from `rep[0] + 1`. */
    method RepCopyStage(rc: RangeDecoder, idx: nat, len: nat, update: bool, ghost c: Coder, ghost m: Machine)
      returns (r: Result<Status>)
      requires Ready() && rc.Valid() && rc !in Repr && rc.State() == c && Model() == m
      modifies this
      ensures Ready() && rc.Valid() && params == old(params) && status == old(status) && r != Ok(Finished)
      ensures Computes(rc, r, RepCopy(rc.input, c, m, idx, len, update))
      ensures !update ==> Model() == m
    {
      if !update {
        return Ok(Continue);
      }
      r := PutCopy(if state < 7 then 8 else 11, len + 2, m);
      RepCopyUpdate(rc.input, c, m, idx, len);
    }

    /** Lines 342-345: the match state. */
    method MatchState(ghost m: Machine)
      requires Ready() && Model() == m
      modifies this
      ensures Ready() && params == old(params) && status == old(status) && output == old(output)
      ensures Model() == m.(state := MatchNext(m.state))
    {
      label before:
      state := if state < 7 then 7 else 10;
      FieldsChanged@before();
    }

    /** Lines 348-368: with `update`, the new distance becomes `rep[0]`;
        the end marker finishes the stream or is an error; any other
        distance is copied. */
    method MatchTailStage(rc: RangeDecoder, dist: nat, len: nat, update: bool, ghost c: Coder, ghost m: Machine)
      returns (r: Result<Status>)
      requires Ready() && rc.Valid() && rc !in Repr && rc.State() == c && Model() == m
      modifies this, rep
      ensures Ready() && rc.Valid() && params == old(params)
      ensures status == (if r == Ok(Finished) then Finished else old(status))
      ensures Computes(rc, r, MatchTail(rc.input, c, m, dist, len, update))
      ensures !update ==> Model() == m
    {
      if !update {
        return Ok(Continue);
      }
      SetRep0(dist, m);
      if rep[0] == 0xFFFF_FFFF {
        r := EndOfStream(rc);
      } else {
        r := PutCopy(state, len + 2, Model());
        MatchTailCopy(rc.input, c, m, dist, len);
      }
    }

    /** Lines 354-361: at the end marker the stream is finished when the
        coder has finished cleanly, and otherwise it is an error. */
    method EndOfStream(rc: RangeDecoder) returns (r: Result<Status>)
      requires Ready() && rc.Valid() && rc !in Repr
      modifies this
      ensures Ready() && params == old(params) && Model() == old(Model())
      ensures r == if FinishedOk(rc.input, rc.State()) then Ok(Finished) else Err(EosFoundButMoreBytesAvailable)
      ensures status == (if r == Ok(Finished) then Finished else old(status))
    {
      label before:
      var finished := rc.IsFinishedOk();
      if finished {
        status := Finished;
        r := Ok(Finished);
      } else {
        r := Err(EosFoundButMoreBytesAvailable);
      }
      FieldsChanged@before();
    }

    /** Line 353: the new distance becomes `rep[0]`. */
    method SetRep0(dist: nat, ghost m: Machine)
      requires Ready() && Model() == m
      modifies rep
      ensures Ready() && Kept() && rep[0] == dist && Model() == m.(rep := m.rep[0 := dist])
    {
      label before:
      rep[0] := dist;
      SameTables@before();
    }

    /** Lines 302-304, 331 and 365-368: the state becomes `next`, then
        `count` bytes are copied from `rep[0] + 1`. */
    method PutCopy(next: nat, count: nat, ghost m: Machine) returns (r: Result<Status>)
      requires Ready() && Model() == m && next < 12
      modifies this
      ensures Ready() && params == old(params) && status == old(status)
      ensures var out := AppendLz(m.out, count, m.rep[0] + 1);
        && (out.Ok? ==> r == Ok(Continue) && Model() == m.(state := next, out := out.value))
        && (out.Err? ==> r == Err(out.error))
    {
      label before:
      var out := AppendLz(output, count, rep[0] + 1);
      if out.Err? {
        return Err(out.error);
      }
      state, output := next, out.value;
      FieldsChanged@before();
      r := Ok(Continue);
    }
  }
}
