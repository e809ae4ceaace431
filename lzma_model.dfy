/** The LZMA decoder of src/decode/lzma.rs stated on values: the
    probability tables, the 12-state machine, the four repeat distances,
    literal and distance decoding, one step of `process_next_inner`, and
    the decoding loop of `process_mode` with its final size check.  The
    class `Lzma.DecoderState` is proved to compute these functions. */
module LzmaModel {
  import opened Base
  import opened RangeModel
  import opened LzBuffer
  import opened LzmaHeader

  // ---------------------------------------------------------------------
  // The state machine and the repeat distances

  /** After a literal the state is below 7. */
  function LiteralNext(s: nat): (r: nat)
    requires s < 12
    ensures r < 7
    ensures s < 7 ==> r <= s
  {
    if s < 4 then 0 else if s < 10 then s - 3 else s - 6
  }

  /** After a match (a new distance) the state is 7 or 10. */
  function MatchNext(s: nat): (r: nat)
    ensures 7 <= r < 12
    ensures r == 7 <==> s < 7
  {
    if s < 7 then 7 else 10
  }

  /** After a long repeated match the state is 8 or 11. */
  function RepNext(s: nat): (r: nat)
    ensures 7 <= r < 12
    ensures r == 8 <==> s < 7
  {
    if s < 7 then 8 else 11
  }

  /** After a one-byte repeat the state is 9 or 11. */
  function ShortRepNext(s: nat): (r: nat)
    ensures 7 <= r < 12
    ensures r == 9 <==> s < 7
  {
    if s < 7 then 9 else 11
  }

  /** A literal never takes more than three more literals to reach state 0,
      whatever the state it starts from. */
  lemma LiteralsSettle(s: nat)
    requires s < 12
    ensures LiteralNext(LiteralNext(LiteralNext(LiteralNext(s)))) == 0
  {
  }

  /** The repeat distance at `idx` moves to the front and the ones before it
      move back by one (`idx` 0 leaves the list alone). */
  function MoveToFront(rep: seq<nat>, idx: nat): (r: seq<nat>)
    requires idx < |rep|
    ensures |r| == |rep| && r[0] == rep[idx]
    ensures forall i :: 0 <= i < idx ==> r[i + 1] == rep[i]
    ensures forall i :: idx < i < |rep| ==> r[i] == rep[i]
  {
    [rep[idx]] + rep[..idx] + rep[idx + 1..]
  }

  /** Moving a distance to the front neither loses nor duplicates one. */
  lemma MoveToFrontPermutes(rep: seq<nat>, idx: nat)
    requires idx < |rep|
    ensures multiset(MoveToFront(rep, idx)) == multiset(rep)
  {
    assert rep == rep[..idx] + [rep[idx]] + rep[idx + 1..];
  }

  /** Lines 336-341: before a new distance is decoded every distance moves
      back one place; the oldest is dropped and `rep[0]` stays until it is
      overwritten. */
  function ShiftBack(rep: seq<nat>): (r: seq<nat>)
    requires |rep| == 4
    ensures |r| == 4 && r[0] == rep[0] && forall i :: 1 <= i < 4 ==> r[i] == rep[i - 1]
  {
    [rep[0]] + rep[..3]
  }

  /** A new distance goes to the front and the oldest one is dropped. */
  function Push(rep: seq<nat>, dist: nat): (r: seq<nat>)
    requires |rep| == 4
    ensures |r| == 4 && r[0] == dist && r[1..] == rep[..3]
  {
    [dist] + rep[..3]
  }

  // ---------------------------------------------------------------------
  // The decoder's tables

  /** The probabilities of `DecoderState`; `literal` holds the rows of
      `literal_probs` one after the other, 0x300 entries each. */
  datatype ProbTables = ProbTables(
    isMatch: seq<Prob>, isRep: seq<Prob>, isRepG0: seq<Prob>, isRepG1: seq<Prob>, isRepG2: seq<Prob>,
    isRep0Long: seq<Prob>, posDecoders: seq<Prob>, literal: seq<Prob>,
    posSlot: seq<seq<Prob>>, align: seq<Prob>, len: LenTables, repLen: LenTables)

  /** The sizes `DecoderState` allocates, with `limit` literal rows
      (`PROBS_MEM_LIMIT`). */
  predicate Shaped(t: ProbTables, limit: nat) {
    && |t.isMatch| == 192 && |t.isRep| == 12 && |t.isRepG0| == 12 && |t.isRepG1| == 12
    && |t.isRepG2| == 12 && |t.isRep0Long| == 192 && |t.posDecoders| == 115
    && |t.literal| == limit * 0x300
    && |t.posSlot| == 4 && (forall i :: 0 <= i < 4 ==> |t.posSlot[i]| == 64)
    && |t.align| == 16 && LenShaped(t.len) && LenShaped(t.repLen)
  }

  /** Every probability in band (see `ProbOk`). */
  predicate TablesOk(t: ProbTables) {
    && AllOk(t.isMatch) && AllOk(t.isRep) && AllOk(t.isRepG0) && AllOk(t.isRepG1) && AllOk(t.isRepG2)
    && AllOk(t.isRep0Long) && AllOk(t.posDecoders) && AllOk(t.literal)
    && (forall i :: 0 <= i < |t.posSlot| ==> AllOk(t.posSlot[i]))
    && AllOk(t.align) && LenOk(t.len) && LenOk(t.repLen)
  }

  /** The tables after `reset`: every probability at 0x400. */
  function InitTables(limit: nat): (t: ProbTables)
    ensures Shaped(t, limit) && TablesOk(t)
  {
    assert Pow2(6) == 64;
    ProbTables(Fresh(192), Fresh(12), Fresh(12), Fresh(12), Fresh(12), Fresh(192), Fresh(115),
               Fresh(limit * 0x300), FreshRows(4, 64), Fresh(16), InitLenTables(), InitLenTables())
  }

  /** A table of `n` probabilities at 0. */
  function Zeros(n: nat): seq<Prob> {
    seq(n, _ => 0)
  }

  /** The tables `DecoderState::new` allocates: the plain tables at 0, the
      bit trees and the length decoders at 0x400.  `reset` sets them all to
      0x400 before anything is decoded. */
  function NewTables(limit: nat): (t: ProbTables)
    ensures Shaped(t, limit)
  {
    assert Pow2(6) == 64;
    ProbTables(Zeros(192), Zeros(12), Zeros(12), Zeros(12), Zeros(12), Zeros(192), Zeros(115),
               Zeros(limit * 0x300), FreshRows(4, 64), Fresh(16), InitLenTables(), InitLenTables())
  }

  /** The part of `DecoderState` one step reads and writes. */
  datatype Machine = Machine(t: ProbTables, state: nat, rep: seq<nat>, out: Window)

  predicate MachineShaped(m: Machine, limit: nat) {
    Shaped(m.t, limit) && m.state < 12 && |m.rep| == 4
  }

  /** Probabilities in band and repeat distances that fit 32 bits. */
  predicate MachineOk(m: Machine) {
    TablesOk(m.t) && forall i :: 0 <= i < |m.rep| ==> m.rep[i] < 0x1_0000_0000
  }

  /** Parameters `set_params` accepts for `limit` literal rows. */
  predicate ParamsFit(p: Params, limit: nat) {
    ParamsOk(p) && Pow2(p.lc + p.lp) <= limit
  }

  // ---------------------------------------------------------------------
  // Literals: `decode_literal`

  /** Line 264: the low `pb` bits of the output length. */
  function PosState(m: Machine, p: Params): (r: nat)
    requires ParamsOk(p)
    ensures r < 16
  {
    Pow2Mono(p.pb, 4);
    Len(m.out) % Pow2(p.pb)
  }

  /** Lines 534-535: the literal row, from the low `lp` bits of the output
      length and the high `lc` bits of the previous byte. */
  function LitState(len: nat, prev: u8, p: Params): nat
    requires ParamsOk(p)
  {
    var lo: nat := len % Pow2(p.lp);
    var hi: nat := prev / Pow2(8 - p.lc);
    lo * Pow2(p.lc) + hi
  }

  /** The literal row is one of the 2^(lc + lp) that `set_params` checked. */
  lemma LitStateBound(len: nat, prev: u8, p: Params)
    requires ParamsOk(p)
    ensures LitState(len, prev, p) < Pow2(p.lc + p.lp)
  {
    var a, b, n := Pow2(8 - p.lc), Pow2(p.lc), Pow2(p.lp);
    Pow2Add(8 - p.lc, p.lc);
    Pow2Add(p.lc, p.lp);
    assert Pow2(8) == 0x100;
    var hi := DivBelow(prev, a, b);
    MulAddBelow(len % n, hi, b, n);
  }

  lemma DivBelow(x: nat, a: nat, b: nat) returns (q: nat)
    requires 0 < a && x < a * b
    ensures q == x / a && q < b
  {
    q := x / a;
  }

  lemma MulAddBelow(lo: nat, hi: nat, b: nat, n: nat)
    requires lo < n && hi < b
    ensures lo * b + hi < b * n
  {
    MulMono(b, lo + 1, n);
  }

  /** A row that fits the table leaves room for its 0x300 entries. */
  lemma RowFits(row: nat, limit: nat)
    requires row < limit
    ensures row * 0x300 + 0x300 <= limit * 0x300
  {
  }

  /** The bit of the match byte the matched-literal loop compares next:
      bit 7 of the byte shifted left once per round. */
  function MatchBit(matchByte: nat): nat {
    (matchByte / 0x80) % 2
  }

  /** Lines 541-545: the index of the matched-literal loop. */
  lemma MatchedIndexBound(bit: nat, bits: seq<bool>)
    requires bit <= 1 && |bits| < 8
    ensures 0x100 <= (1 + bit) * 0x100 + Node(bits) < 0x300
  {
    NodeBound(bits, 8);
    assert Pow2(8) == 0x100;
  }

  /** Both loops of `decode_literal` run while the node is below 0x100,
      that is until eight bits are decoded. */
  lemma NodeBelowByte(bits: seq<bool>)
    requires |bits| <= 8
    ensures Node(bits) < 0x100 <==> |bits| < 8
  {
    assert Pow2(8) == 0x100;
    if |bits| < 8 {
      NodeBound(bits, 8);
    }
  }

  /** The matched-literal loop from `bits` on: each bit is decoded with the
      probability chosen by the corresponding bit of the match byte; at the
      first bit that differs the rest of the byte is an ordinary 8-bit tree
      walk over the row's first 0x100 entries. */
  function MatchedWalk(input: seq<u8>, c: Coder, probs: seq<Prob>, offset: nat, matchByte: nat,
                       bits: seq<bool>, update: bool): (r: Result<TreeOut>)
    requires OnInput(input, c) && |bits| <= 8 && offset + 0x300 <= |probs|
    ensures r.Ok? ==> OnInput(input, r.value.coder)
    ensures r.Ok? ==> |r.value.bits| == 8 && r.value.bits[..|bits|] == bits && |r.value.probs| == |probs|
    ensures r.Ok? && !update ==> r.value.probs == probs
    ensures r.Ok? && Normalized(c) && AllOk(probs) ==>
      && Normalized(r.value.coder) && AllOk(r.value.probs)
      && Measure(input, r.value.coder) + (8 - |bits|) <= Measure(input, c)
    decreases 8 - |bits|
  {
    if |bits| == 8 then
      Ok(TreeOut(0, bits, c, probs))
    else
      var bit := MatchBit(matchByte);
      MatchedIndexBound(bit, bits);
      assert Pow2(8) == 0x100;
      var i := offset + (1 + bit) * 0x100 + Node(bits);
      match DecodeBit(input, c, probs[i])
      case Err(e) => Err(e)
      case Ok(d) =>
        var p := Adapt(probs[i], d.value, update);
        AllOkUpdate(probs, i, p);
        var r :=
          if B(d.value) != bit then TreeWalk(input, d.coder, probs[i := p], offset, 8, bits + [d.value], update)
          else MatchedWalk(input, d.coder, probs[i := p], offset, matchByte * 2, bits + [d.value], update);
        if r.Ok? then
          assert r.value.bits[..|bits|] == (r.value.bits[..|bits| + 1])[..|bits|];
          r
        else r
  }

  /** The index the matched loop reads for `bits` and match byte `matchByte`. */
  function MatchedIndex(offset: nat, matchByte: nat, bits: seq<bool>): nat {
    offset + (1 + MatchBit(matchByte)) * 0x100 + Node(bits)
  }

  /** One round of the matched loop whose bit fails: the walk fails with it. */
  lemma MatchedWalkFails(input: seq<u8>, c: Coder, probs: seq<Prob>, offset: nat, matchByte: nat,
                         bits: seq<bool>, update: bool)
    requires OnInput(input, c) && |bits| < 8 && offset + 0x300 <= |probs|
    requires MatchedIndex(offset, matchByte, bits) < |probs|
    requires DecodeBit(input, c, probs[MatchedIndex(offset, matchByte, bits)]).Err?
    ensures MatchedWalk(input, c, probs, offset, matchByte, bits, update)
         == Err(DecodeBit(input, c, probs[MatchedIndex(offset, matchByte, bits)]).error)
  {
  }

  /** One round of the matched loop that decodes `b`, leaving coder `c1`
      and the adapted probability `p`: a bit that differs from the match
      byte's hands over to the plain walk, an equal one goes on matching
      with the match byte shifted. */
  lemma MatchedWalkNext(input: seq<u8>, c: Coder, probs: seq<Prob>, offset: nat, matchByte: nat,
                        bits: seq<bool>, update: bool, c1: Coder, b: bool, p: Prob)
    requires OnInput(input, c) && |bits| < 8 && offset + 0x300 <= |probs|
    requires MatchedIndex(offset, matchByte, bits) < |probs|
    requires DecodeBit(input, c, probs[MatchedIndex(offset, matchByte, bits)]) == Ok(Decoded(b, c1))
    requires p == Adapt(probs[MatchedIndex(offset, matchByte, bits)], b, update)
    ensures OnInput(input, c1)
    ensures var probs' := probs[MatchedIndex(offset, matchByte, bits) := p];
      MatchedWalk(input, c, probs, offset, matchByte, bits, update)
      == if B(b) != MatchBit(matchByte) then TreeWalk(input, c1, probs', offset, 8, bits + [b], update)
         else MatchedWalk(input, c1, probs', offset, matchByte * 2, bits + [b], update)
  {
  }

  /** `decode_literal` after the row is chosen: with a match byte the
      matched loop, then the plain loop; the byte is the 8 bits read most
      significant first. */
  function LiteralDecode(input: seq<u8>, c: Coder, probs: seq<Prob>, offset: nat, matchByte: Option<u8>,
                         update: bool): (r: Result<TreeOut>)
    requires OnInput(input, c) && offset + 0x300 <= |probs|
    ensures r.Ok? ==> OnInput(input, r.value.coder) && |r.value.probs| == |probs|
    ensures r.Ok? ==> |r.value.bits| == 8 && r.value.value == MsbValue(r.value.bits) < 0x100
    ensures r.Ok? && !update ==> r.value.probs == probs
    ensures r.Ok? && Normalized(c) && AllOk(probs) ==>
      && Normalized(r.value.coder) && AllOk(r.value.probs)
      && Measure(input, r.value.coder) < Measure(input, c)
  {
    assert Pow2(8) == 0x100;
    var t :-
      if matchByte.Some? then MatchedWalk(input, c, probs, offset, matchByte.value, [], update)
      else TreeWalk(input, c, probs, offset, 8, [], update);
    MsbValueBound(t.bits);
    Ok(t.(value := MsbValue(t.bits)))
  }

  /** The matched path is taken after a match (state 7 and up): it needs
      the byte at the last distance, which `last_n` may refuse. */
  function MatchByte(out: Window, state: nat, rep0: nat): (r: Result<Option<u8>>)
    ensures r.Ok? && r.value.Some? <==> state >= 7 && LastN(out, rep0 + 1).Ok?
    ensures r.Ok? && r.value.Some? ==> r.value.value == out.history[|out.history| - rep0 - 1]
  {
    if state >= 7 then
      match LastN(out, rep0 + 1)
      case Ok(b) => Ok(Some(b))
      case Err(e) => Err(e)
    else Ok(None)
  }

  /** `decode_literal(update)` (lines 519-559) on the literal table, the
      output, the state and `rep[0]`: the row of the literal state, the
      matched loop after a match, then the plain loop.  Only the literal
      table changes. */
  function LiteralOf(input: seq<u8>, c: Coder, literal: seq<Prob>, out: Window, state: nat, rep0: nat, p: Params,
                     limit: nat, update: bool): (r: Result<TreeOut>)
    requires OnInput(input, c) && |literal| == limit * 0x300 && ParamsFit(p, limit)
    ensures r.Ok? ==> OnInput(input, r.value.coder) && |r.value.probs| == |literal| && r.value.value < 0x100
    ensures r.Ok? && !update ==> r.value.probs == literal
    ensures r.Ok? && Normalized(c) && AllOk(literal) ==>
      && Normalized(r.value.coder) && AllOk(r.value.probs)
      && Measure(input, r.value.coder) < Measure(input, c)
  {
    var row := LitState(Len(out), LastOr(out, 0), p);
    LitStateBound(Len(out), LastOr(out, 0), p);
    RowFits(row, limit);
    var matchByte :- MatchByte(out, state, rep0);
    LiteralDecode(input, c, literal, row * 0x300, matchByte, update)
  }

  // ---------------------------------------------------------------------
  // Distances: `decode_distance`

  /** Lines 574-575: slots from 4 on carry `slot / 2 - 1` more bits below a
      base of `2` or `3` (the slot's low bit) shifted up by them. */
  function DirectBitCount(slot: nat): nat
    requires slot >= 4
  {
    slot / 2 - 1
  }

  function SlotBase(slot: nat): nat
    requires slot >= 4
  {
    (2 + slot % 2) * Pow2(DirectBitCount(slot))
  }

  /** Slots 4-13 index `pos_decoders` from `base - slot`, and their reverse
      trees end within its 115 entries. */
  lemma PosDecodersFit(slot: nat)
    requires 4 <= slot < 14
    ensures slot <= SlotBase(slot) && SlotBase(slot) - slot + Pow2(DirectBitCount(slot)) <= 115
  {
    assert Pow2(1) == 2 && Pow2(2) == 4 && Pow2(3) == 8 && Pow2(4) == 16 && Pow2(5) == 32;
  }

  /** Where the reverse tree of a slot from 4 to 13 starts in
      `pos_decoders`: `base - slot`. */
  function PosOffset(slot: nat): (r: nat)
    requires 4 <= slot < 14
    ensures r + Pow2(DirectBitCount(slot)) <= 115
  {
    PosDecodersFit(slot);
    SlotBase(slot) - slot
  }

  /** Slots 14-63: `ndb - 4` direct bits and four align bits fill the
      `ndb` bits below the base. */
  lemma DirectAlignFit(slot: nat, direct: nat, align: nat)
    requires 14 <= slot < 64 && direct < Pow2(DirectBitCount(slot) - 4) && align < 16
    ensures direct * 16 + align < Pow2(DirectBitCount(slot))
  {
    var n := DirectBitCount(slot);
    Pow2Add(n - 4, 4);
    assert Pow2(4) == 16;
    MulMono(16, direct + 1, Pow2(n - 4));
  }

  /** Every distance of a slot fits 32 bits. */
  lemma SlotFits(slot: nat)
    requires 4 <= slot < 64
    ensures SlotBase(slot) + Pow2(DirectBitCount(slot)) <= 0x1_0000_0000
  {
    var n := DirectBitCount(slot);
    Pow2Mono(n, 30);
    Pow2Word();
    assert Pow2(30) == 0x4000_0000;
    MulMono(Pow2(n), 2 + slot % 2, 3);
  }

  datatype DistOut = DistOut(dist: nat, slot: nat, coder: Coder, posSlot: seq<seq<Prob>>, posDecoders: seq<Prob>,
                             align: seq<Prob>)

  predicate DistShaped(posSlot: seq<seq<Prob>>, posDecoders: seq<Prob>, align: seq<Prob>) {
    && |posSlot| == 4 && (forall i :: 0 <= i < 4 ==> |posSlot[i]| == 64)
    && |posDecoders| == 115 && |align| == 16
  }

  predicate DistOk(posSlot: seq<seq<Prob>>, posDecoders: seq<Prob>, align: seq<Prob>) {
    (forall i :: 0 <= i < |posSlot| ==> AllOk(posSlot[i])) && AllOk(posDecoders) && AllOk(align)
  }

  /** `decode_distance(length)`: a 6-bit slot from the tree of
      `min(length, 3)`; slots 0-3 are the distance; slots 4-13 add a
      reverse tree in `pos_decoders`; slots 14-63 add direct bits and the
      4-bit reverse align tree.  The distance lies in its slot's range. */
  function DistanceDecode(input: seq<u8>, c: Coder, posSlot: seq<seq<Prob>>, posDecoders: seq<Prob>,
                          align: seq<Prob>, len: nat, update: bool): (r: Result<DistOut>)
    requires OnInput(input, c) && DistShaped(posSlot, posDecoders, align)
    ensures r.Ok? ==> OnInput(input, r.value.coder) && DistShaped(r.value.posSlot, r.value.posDecoders, r.value.align)
    ensures r.Ok? ==> r.value.slot < 64 && r.value.dist < 0x1_0000_0000
    ensures r.Ok? && r.value.slot < 4 ==> r.value.dist == r.value.slot
    ensures r.Ok? && r.value.slot >= 4 ==>
      SlotBase(r.value.slot) <= r.value.dist < SlotBase(r.value.slot) + Pow2(DirectBitCount(r.value.slot))
    ensures r.Ok? && !update ==>
      r.value.posSlot == posSlot && r.value.posDecoders == posDecoders && r.value.align == align
    ensures r.Ok? ==> r.value.posSlot == posSlot[Min(len, 3) := r.value.posSlot[Min(len, 3)]]
    ensures r.Ok? && Normalized(c) && DistOk(posSlot, posDecoders, align) ==>
      && Normalized(r.value.coder) && DistOk(r.value.posSlot, r.value.posDecoders, r.value.align)
      && Measure(input, r.value.coder) < Measure(input, c)
  {
    assert Pow2(6) == 64;
    var ls := Min(len, 3);  // line 567: lengths from 3 on share a tree
    var s :- BitTreeDecode(input, c, posSlot[ls], 6, update);
    var d :- SlotDistance(input, s.coder, s.value, posDecoders, align, update);
    Ok(DistOut(d.value, s.value, d.coder, posSlot[ls := s.probs], d.posDecoders, d.align))
  }

  /** Line 569 reads and adapts only the slot tree of `min(length, 3)`:
      two sets of slot trees that agree on that tree give the same
      outcome, and the same other trees back. */
  lemma DistanceDecodeOneTree(input: seq<u8>, c: Coder, posSlot: seq<seq<Prob>>, other: seq<seq<Prob>>,
                              posDecoders: seq<Prob>, align: seq<Prob>, len: nat, update: bool)
    requires OnInput(input, c) && DistShaped(posSlot, posDecoders, align) && DistShaped(other, posDecoders, align)
    requires posSlot[Min(len, 3)] == other[Min(len, 3)]
    ensures var r := DistanceDecode(input, c, posSlot, posDecoders, align, len, update);
      var q := DistanceDecode(input, c, other, posDecoders, align, len, update);
      && (r.Ok? <==> q.Ok?)
      && (r.Err? ==> q.error == r.error)
      && (r.Ok? ==>
            && q.value.dist == r.value.dist && q.value.slot == r.value.slot && q.value.coder == r.value.coder
            && q.value.posDecoders == r.value.posDecoders && q.value.align == r.value.align
            && q.value.posSlot == other[Min(len, 3) := r.value.posSlot[Min(len, 3)]])
  {
  }

  datatype LowBits = LowBits(value: nat, coder: Coder, posDecoders: seq<Prob>, align: seq<Prob>)

  /** Lines 571-590: the distance of slot `slot`: slots 0-3 are their own
      distance; later slots add their low bits to their base. */
  function SlotDistance(input: seq<u8>, c: Coder, slot: nat, posDecoders: seq<Prob>, align: seq<Prob>,
                        update: bool): (r: Result<LowBits>)
    requires OnInput(input, c) && slot < 64 && |posDecoders| == 115 && |align| == 16
    ensures r.Ok? ==> OnInput(input, r.value.coder) && |r.value.posDecoders| == 115 && |r.value.align| == 16
    ensures r.Ok? ==> r.value.value < 0x1_0000_0000
    ensures r.Ok? && slot < 4 ==> r.value.value == slot
    ensures r.Ok? && slot >= 4 ==> SlotBase(slot) <= r.value.value < SlotBase(slot) + Pow2(DirectBitCount(slot))
    ensures r.Ok? && !update ==> r.value.posDecoders == posDecoders && r.value.align == align
    ensures r.Ok? && Normalized(c) && AllOk(posDecoders) && AllOk(align) ==>
      && Normalized(r.value.coder) && AllOk(r.value.posDecoders) && AllOk(r.value.align)
      && Measure(input, r.value.coder) <= Measure(input, c)
  {
    if slot < 4 then
      Ok(LowBits(slot, c, posDecoders, align))
    else
      var low :- SlotLowBits(input, c, slot, posDecoders, align, update);
      SlotFits(slot);
      Ok(low.(value := SlotBase(slot) + low.value))
  }

  /** Lines 574-590: the `slot / 2 - 1` bits below the base of a slot from
      4 on: slots up to 13 read them from a reverse tree in `pos_decoders`
      at `base - slot`; later slots read all but the low four as direct
      bits and those four from the reverse align tree. */
  function SlotLowBits(input: seq<u8>, c: Coder, slot: nat, posDecoders: seq<Prob>, align: seq<Prob>,
                       update: bool): (r: Result<LowBits>)
    requires OnInput(input, c) && 4 <= slot < 64 && |posDecoders| == 115 && |align| == 16
    ensures r.Ok? ==> OnInput(input, r.value.coder) && |r.value.posDecoders| == 115 && |r.value.align| == 16
    ensures r.Ok? ==> r.value.value < Pow2(DirectBitCount(slot))
    ensures r.Ok? && !update ==> r.value.posDecoders == posDecoders && r.value.align == align
    ensures r.Ok? && Normalized(c) && AllOk(posDecoders) && AllOk(align) ==>
      && Normalized(r.value.coder) && AllOk(r.value.posDecoders) && AllOk(r.value.align)
      && Measure(input, r.value.coder) <= Measure(input, c)
  {
    if slot < 14 then
      var rv :- ReverseBitTreeDecode(input, c, posDecoders, PosOffset(slot), DirectBitCount(slot), update);
      Ok(LowBits(rv.value, rv.coder, rv.probs, align))
    else
      var low :- DirectLow(input, c, slot, align, update);
      Ok(LowBits(low.value, low.coder, posDecoders, low.probs))
  }

  /** Lines 583-586: slots 14-63 read `ndb - 4` direct bits, then the
      four low bits from the reverse align tree. */
  function DirectLow(input: seq<u8>, c: Coder, slot: nat, align: seq<Prob>, update: bool): (r: Result<TreeOut>)
    requires OnInput(input, c) && 14 <= slot < 64 && |align| == 16
    ensures r.Ok? ==> OnInput(input, r.value.coder) && |r.value.probs| == 16
    ensures r.Ok? ==> r.value.value < Pow2(DirectBitCount(slot))
    ensures r.Ok? && !update ==> r.value.probs == align
    ensures r.Ok? && Normalized(c) && AllOk(align) ==>
      && Normalized(r.value.coder) && AllOk(r.value.probs) && Measure(input, r.value.coder) <= Measure(input, c)
  {
    assert Pow2(4) == 16;
    var d :- DirectBits(input, c, DirectBitCount(slot) - 4);
    var al :- ReverseBitTreeDecode(input, d.coder, align, 0, 4, update);
    DirectAlignFit(slot, d.value, al.value);
    Ok(al.(value := d.value * 16 + al.value))
  }

  /** `DirectLow` as its two reads, one after the other. */
  lemma DirectLowSteps(input: seq<u8>, c: Coder, slot: nat, align: seq<Prob>, update: bool)
    requires OnInput(input, c) && 14 <= slot < 64 && |align| == 16
    ensures var d := DirectBits(input, c, DirectBitCount(slot) - 4);
      DirectLow(input, c, slot, align, update) ==
        if d.Err? then Err(d.error)
        else
          var a := ReverseBitTreeDecode(input, d.value.coder, align, 0, 4, update);
          if a.Err? then Err(a.error) else Ok(a.value.(value := d.value.value * 16 + a.value.value))
  {
  }

  /** The reverse trees of slots 4-13 follow one another in
      `pos_decoders`: the nodes of one end where the next one's begin. */
  lemma PosTreesAdjacent(slot: nat)
    requires 4 <= slot < 13
    ensures PosOffset(slot) + Pow2(DirectBitCount(slot)) == PosOffset(slot + 1) + 1
  {
    var n := DirectBitCount(slot);
    var p := Pow2(n);
    if slot % 2 == 0 {
      assert DirectBitCount(slot + 1) == n;
      assert SlotBase(slot) == 2 * p && SlotBase(slot + 1) == 3 * p;
    } else {
      assert DirectBitCount(slot + 1) == n + 1;
      assert Pow2(n + 1) == 2 * p;
      assert SlotBase(slot) == 3 * p && SlotBase(slot + 1) == 2 * Pow2(n + 1);
    }
  }

  /** So the trees of two different slots share no node. */
  lemma {:induction false} PosTreesApart(s: nat, t: nat)
    requires 4 <= s < t < 14
    ensures PosOffset(s) + Pow2(DirectBitCount(s)) <= PosOffset(t) + 1
    decreases t - s
  {
    PosTreesAdjacent(s);
    if s + 1 < t {
      PosTreesApart(s + 1, t);
    }
  }

  /** Lines 576-586: the low bits of a slot adapt only that slot's tree.
      A slot from 4 to 13 changes no entry of `pos_decoders` outside the
      nodes of its reverse tree and leaves the align tree alone; a later
      slot leaves `pos_decoders` alone and entry 0 of the align table,
      which is no node of its tree. */
  lemma SlotLowBitsFrame(input: seq<u8>, c: Coder, slot: nat, posDecoders: seq<Prob>, align: seq<Prob>,
                         update: bool)
    requires OnInput(input, c) && 4 <= slot < 64 && |posDecoders| == 115 && |align| == 16
    ensures var r := SlotLowBits(input, c, slot, posDecoders, align, update);
      r.Ok? && slot < 14 ==>
        && r.value.align == align
        && forall j :: 0 <= j < 115 && !(PosOffset(slot) < j < PosOffset(slot) + Pow2(DirectBitCount(slot))) ==>
             r.value.posDecoders[j] == posDecoders[j]
    ensures var r := SlotLowBits(input, c, slot, posDecoders, align, update);
      r.Ok? && 14 <= slot ==> r.value.posDecoders == posDecoders && r.value.align[0] == align[0]
  {
    if slot < 14 {
      ReverseBitTreeDecodeFrame(input, c, posDecoders, PosOffset(slot), DirectBitCount(slot), update);
    } else {
      var d := DirectBits(input, c, DirectBitCount(slot) - 4);
      if d.Ok? {
        assert Pow2(4) == 16;
        ReverseBitTreeDecodeFrame(input, d.value.coder, align, 0, 4, update);
      }
    }
  }

  /** The slots 4-13 share `pos_decoders` without interfering: the low
      bits of one slot leave every node of another slot's tree as it was. */
  lemma SlotTreesUntouched(input: seq<u8>, c: Coder, slot: nat, other: nat, posDecoders: seq<Prob>,
                           align: seq<Prob>, update: bool)
    requires OnInput(input, c) && 4 <= slot < 14 && 4 <= other < 14 && slot != other
    requires |posDecoders| == 115 && |align| == 16
    ensures var r := SlotLowBits(input, c, slot, posDecoders, align, update);
      r.Ok? ==> forall j :: PosOffset(other) < j < PosOffset(other) + Pow2(DirectBitCount(other)) ==>
                  r.value.posDecoders[j] == posDecoders[j]
  {
    SlotLowBitsFrame(input, c, slot, posDecoders, align, update);
    if slot < other {
      PosTreesApart(slot, other);
    } else {
      PosTreesApart(other, slot);
    }
  }

  // ---------------------------------------------------------------------
  // One step: `process_next_inner`

  datatype Status = Uninitialized | Continue | Finished

  /** What one step decoded: a literal byte, a one-byte repeat of the last
      distance, a repeat of distance `index` of the list, or a match with a
      new distance (`0xFFFF_FFFF` is the end marker).  `len` is the decoded
      length; `len + 2` bytes are copied. */
  datatype Packet = Literal(byte: u8) | ShortRep | Rep(index: nat, len: nat) | Match(dist: nat, len: nat)

  const EndMarker: nat := 0xFFFF_FFFF

  /** What a packet does to the state, the distances and the output, as
      the LZMA format describes it, independently of how it was decoded. */
  function Perform(m: Machine, k: Packet): Result<Machine>
    requires m.state < 12 && |m.rep| == 4 && (k.Rep? ==> k.index < 4)
  {
    match k
    case Literal(b) =>
      Ok(m.(out := AppendLiteral(m.out, b), state := LiteralNext(m.state)))
    case ShortRep =>
      var out :- AppendLz(m.out, 1, m.rep[0] + 1);
      Ok(m.(out := out, state := ShortRepNext(m.state)))
    case Rep(i, len) =>
      var rep := MoveToFront(m.rep, i);
      var out :- AppendLz(m.out, len + 2, rep[0] + 1);
      Ok(m.(rep := rep, out := out, state := RepNext(m.state)))
    case Match(d, len) =>
      if d == EndMarker then Ok(m.(rep := Push(m.rep, d), state := MatchNext(m.state)))
      else
        var out :- AppendLz(m.out, len + 2, d + 1);
        Ok(m.(rep := Push(m.rep, d), out := out, state := MatchNext(m.state)))
  }

  datatype StepOut = StepOut(status: Status, packet: Packet, coder: Coder, m: Machine)

  /** What every step promises about its outcome `r` from machine `m` and
      coder `c`: the shape is kept; without `update` nothing but the coder
      changes; the output only grows; and the stream is finished exactly
      when the end marker was decoded with the coder finished cleanly. */
  predicate Keeps(input: seq<u8>, c: Coder, m: Machine, limit: nat, update: bool, r: StepOut)
    requires OnInput(input, c) && MachineShaped(m, limit)
  {
    && OnInput(input, r.coder) && MachineShaped(r.m, limit)
    && (r.packet.Rep? ==> r.packet.index < 4)
    && (!update ==> r.m == m && r.status == Continue)
    && r.m.out.dictSize == m.out.dictSize && m.out.history <= r.m.out.history
    && (r.status == Finished <==> update && r.packet.Match? && r.packet.dist == EndMarker)
    && (r.status == Finished ==> FinishedOk(input, r.coder))
  }

  /** A step from a normalised coder and in-band tables keeps both and
      strictly lowers the measure. */
  predicate Advanced(input: seq<u8>, c: Coder, r: StepOut)
    requires OnInput(input, c) && OnInput(input, r.coder)
  {
    Normalized(r.coder) && MachineOk(r.m) && Measure(input, r.coder) < Measure(input, c)
  }

  /** `process_next_inner(update)`: one packet. */
  function Step(input: seq<u8>, c: Coder, m: Machine, p: Params, limit: nat, update: bool): (r: Result<StepOut>)
    requires OnInput(input, c) && MachineShaped(m, limit) && ParamsFit(p, limit)
    ensures r.Ok? ==> Keeps(input, c, m, limit, update, r.value)
  {
    StepIsMatch(input, c, m, p, limit, update)
  }

  datatype Flag = Flag(bit: bool, coder: Coder, probs: seq<Prob>)

  /** `decode_bit` on entry `i` of a table, which is adapted to the bit. */
  function DecodeFlag(input: seq<u8>, c: Coder, probs: seq<Prob>, i: nat, update: bool): (r: Result<Flag>)
    requires OnInput(input, c) && i < |probs|
    ensures r.Ok? ==> OnInput(input, r.value.coder) && r.value.probs == probs[i := Adapt(probs[i], r.value.bit, update)]
    ensures r.Ok? ==> r.value.bit == BitOf(c, probs[i])
    ensures r.Ok? && Normalized(c) && AllOk(probs) ==>
      Normalized(r.value.coder) && AllOk(r.value.probs) && Measure(input, r.value.coder) < Measure(input, c)
  {
    var d :- DecodeBit(input, c, probs[i]);
    var p := Adapt(probs[i], d.value, update);
    AllOkUpdate(probs, i, p);
    Ok(Flag(d.value, d.coder, probs[i := p]))
  }

  /** Lines 264-272: the `is_match` bit of the state and the position. */
  function StepIsMatch(input: seq<u8>, c: Coder, m: Machine, p: Params, limit: nat, update: bool)
    : (r: Result<StepOut>)
    requires OnInput(input, c) && MachineShaped(m, limit) && ParamsFit(p, limit)
    ensures r.Ok? ==> Keeps(input, c, m, limit, update, r.value)
  {
    var f :- DecodeFlag(input, c, m.t.isMatch, m.state * 16 + PosState(m, p), update);
    var m1 := m.(t := m.t.(isMatch := f.probs));
    if f.bit then StepIsRep(input, f.coder, m1, p, limit, update)
    else StepLiteral(input, f.coder, m1, p, limit, update)
  }

  /** `StepIsMatch` as its bit followed by the stage the bit chooses. */
  lemma IsMatchThen(input: seq<u8>, c: Coder, m: Machine, p: Params, limit: nat, update: bool)
    requires OnInput(input, c) && MachineShaped(m, limit) && ParamsFit(p, limit)
    ensures var f := DecodeFlag(input, c, m.t.isMatch, m.state * 16 + PosState(m, p), update);
      StepIsMatch(input, c, m, p, limit, update) ==
        if f.Err? then Err(f.error)
        else if f.value.bit then StepIsRep(input, f.value.coder, m.(t := m.t.(isMatch := f.value.probs)), p, limit, update)
        else StepLiteral(input, f.value.coder, m.(t := m.t.(isMatch := f.value.probs)), p, limit, update)
  {
  }

  /** Lines 273-287: a literal, appended, with the literal state update. */
  function StepLiteral(input: seq<u8>, c: Coder, m: Machine, p: Params, limit: nat, update: bool)
    : (r: Result<StepOut>)
    requires OnInput(input, c) && MachineShaped(m, limit) && ParamsFit(p, limit)
    ensures r.Ok? ==> Keeps(input, c, m, limit, update, r.value) && r.value.packet.Literal?
  {
    var lit :- LiteralOf(input, c, m.t.literal, m.out, m.state, m.rep[0], p, limit, update);
    var m1 := m.(t := m.t.(literal := lit.probs));
    if update then
      Ok(StepOut(Continue, Literal(lit.value), lit.coder,
                 m1.(out := AppendLiteral(m.out, lit.value), state := LiteralNext(m.state))))
    else
      Ok(StepOut(Continue, Literal(lit.value), lit.coder, m1))
  }

  /** Line 292: the `is_rep` bit chooses a repeated or a new distance. */
  function StepIsRep(input: seq<u8>, c: Coder, m: Machine, p: Params, limit: nat, update: bool)
    : (r: Result<StepOut>)
    requires OnInput(input, c) && MachineShaped(m, limit) && ParamsFit(p, limit)
    ensures r.Ok? ==> Keeps(input, c, m, limit, update, r.value)
  {
    var f :- DecodeFlag(input, c, m.t.isRep, m.state, update);
    var m1 := m.(t := m.t.(isRep := f.probs));
    if f.bit then StepRepG0(input, f.coder, m1, p, limit, update)
    else StepMatchLength(input, f.coder, m1, p, limit, update)
  }

  /** `StepIsRep` as its bit followed by the stage the bit chooses. */
  lemma IsRepThen(input: seq<u8>, c: Coder, m: Machine, p: Params, limit: nat, update: bool)
    requires OnInput(input, c) && MachineShaped(m, limit) && ParamsFit(p, limit)
    ensures var f := DecodeFlag(input, c, m.t.isRep, m.state, update);
      StepIsRep(input, c, m, p, limit, update) ==
        if f.Err? then Err(f.error)
        else if f.value.bit then StepRepG0(input, f.value.coder, m.(t := m.t.(isRep := f.value.probs)), p, limit, update)
        else StepMatchLength(input, f.value.coder, m.(t := m.t.(isRep := f.value.probs)), p, limit, update)
  {
  }

  /** Line 294: a 0 `is_rep_g0` bit means `rep[0]`. */
  function StepRepG0(input: seq<u8>, c: Coder, m: Machine, p: Params, limit: nat, update: bool)
    : (r: Result<StepOut>)
    requires OnInput(input, c) && MachineShaped(m, limit) && ParamsFit(p, limit)
    ensures r.Ok? ==> Keeps(input, c, m, limit, update, r.value)
  {
    var f :- DecodeFlag(input, c, m.t.isRepG0, m.state, update);
    var m1 := m.(t := m.t.(isRepG0 := f.probs));
    if f.bit then StepRepG1(input, f.coder, m1, p, limit, update)
    else StepRep0Long(input, f.coder, m1, p, limit, update)
  }

  /** `StepRepG0` as its bit followed by the stage the bit chooses. */
  lemma RepG0Then(input: seq<u8>, c: Coder, m: Machine, p: Params, limit: nat, update: bool)
    requires OnInput(input, c) && MachineShaped(m, limit) && ParamsFit(p, limit)
    ensures var f := DecodeFlag(input, c, m.t.isRepG0, m.state, update);
      StepRepG0(input, c, m, p, limit, update) ==
        if f.Err? then Err(f.error)
        else if f.value.bit then StepRepG1(input, f.value.coder, m.(t := m.t.(isRepG0 := f.value.probs)), p, limit, update)
        else StepRep0Long(input, f.value.coder, m.(t := m.t.(isRepG0 := f.value.probs)), p, limit, update)
  {
  }

  /** Lines 295-307: with `rep[0]`, a 0 `is_rep_0long` bit copies a single
      byte; a 1 goes on to a length. */
  function StepRep0Long(input: seq<u8>, c: Coder, m: Machine, p: Params, limit: nat, update: bool)
    : (r: Result<StepOut>)
    requires OnInput(input, c) && MachineShaped(m, limit) && ParamsFit(p, limit)
    ensures r.Ok? ==> Keeps(input, c, m, limit, update, r.value)
  {
    var f :- DecodeFlag(input, c, m.t.isRep0Long, m.state * 16 + PosState(m, p), update);
    var m1 := m.(t := m.t.(isRep0Long := f.probs));
    if f.bit then StepRepLength(input, f.coder, m1, p, 0, limit, update)
    else ShortRepTail(input, f.coder, m1, update)
  }

  /** Lines 300-305: with `update`, the short-rep state and one byte
      copied from `rep[0] + 1`. */
  function ShortRepTail(input: seq<u8>, c: Coder, m: Machine, update: bool): (r: Result<StepOut>)
    requires OnInput(input, c) && m.state < 12 && |m.rep| == 4
    ensures r.Ok? ==> r.value.packet == ShortRep && r.value.coder == c && r.value.status == Continue
    ensures r.Ok? && !update ==> r.value.m == m
    ensures r.Ok? ==> r.value.m.t == m.t && r.value.m.rep == m.rep && r.value.m.state < 12
  {
    if !update then Ok(StepOut(Continue, ShortRep, c, m))
    else
      var out :- AppendLz(m.out, 1, m.rep[0] + 1);
      Ok(StepOut(Continue, ShortRep, c, m.(state := ShortRepNext(m.state), out := out)))
  }

  /** `ShortRepTail` with `update`, as the copy's two outcomes. */
  lemma ShortRepTailUpdate(input: seq<u8>, c: Coder, m: Machine)
    requires OnInput(input, c) && m.state < 12 && |m.rep| == 4
    ensures var out := AppendLz(m.out, 1, m.rep[0] + 1);
      ShortRepTail(input, c, m, true) ==
        if out.Ok? then Ok(StepOut(Continue, ShortRep, c, m.(state := ShortRepNext(m.state), out := out.value)))
        else Err(out.error)
  {
  }

  /** `StepRep0Long` as its bit followed by a length or a single byte. */
  lemma Rep0LongThen(input: seq<u8>, c: Coder, m: Machine, p: Params, limit: nat, update: bool)
    requires OnInput(input, c) && MachineShaped(m, limit) && ParamsFit(p, limit)
    ensures var f := DecodeFlag(input, c, m.t.isRep0Long, m.state * 16 + PosState(m, p), update);
      StepRep0Long(input, c, m, p, limit, update) ==
        if f.Err? then Err(f.error)
        else if f.value.bit then StepRepLength(input, f.value.coder, m.(t := m.t.(isRep0Long := f.value.probs)), p, 0, limit, update)
        else ShortRepTail(input, f.value.coder, m.(t := m.t.(isRep0Long := f.value.probs)), update)
  {
  }

  /** Lines 310-311: a 0 `is_rep_g1` bit means `rep[1]`. */
  function StepRepG1(input: seq<u8>, c: Coder, m: Machine, p: Params, limit: nat, update: bool)
    : (r: Result<StepOut>)
    requires OnInput(input, c) && MachineShaped(m, limit) && ParamsFit(p, limit)
    ensures r.Ok? ==> Keeps(input, c, m, limit, update, r.value)
  {
    var f :- DecodeFlag(input, c, m.t.isRepG1, m.state, update);
    var m1 := m.(t := m.t.(isRepG1 := f.probs));
    if f.bit then StepRepG2(input, f.coder, m1, p, limit, update)
    else StepRepLength(input, f.coder, m1, p, 1, limit, update)
  }

  /** `StepRepG1` as its bit followed by `rep[1]` or the next bit. */
  lemma RepG1Then(input: seq<u8>, c: Coder, m: Machine, p: Params, limit: nat, update: bool)
    requires OnInput(input, c) && MachineShaped(m, limit) && ParamsFit(p, limit)
    ensures var f := DecodeFlag(input, c, m.t.isRepG1, m.state, update);
      var m1 := if f.Ok? then m.(t := m.t.(isRepG1 := f.value.probs)) else m;
      StepRepG1(input, c, m, p, limit, update) ==
        if f.Err? then Err(f.error)
        else if f.value.bit then StepRepG2(input, f.value.coder, m1, p, limit, update)
        else StepRepLength(input, f.value.coder, m1, p, 1, limit, update)
  {
  }

  /** Lines 312-316: the `is_rep_g2` bit chooses `rep[2]` or `rep[3]`. */
  function StepRepG2(input: seq<u8>, c: Coder, m: Machine, p: Params, limit: nat, update: bool)
    : (r: Result<StepOut>)
    requires OnInput(input, c) && MachineShaped(m, limit) && ParamsFit(p, limit)
    ensures r.Ok? ==> Keeps(input, c, m, limit, update, r.value)
  {
    var f :- DecodeFlag(input, c, m.t.isRepG2, m.state, update);
    StepRepLength(input, f.coder, m.(t := m.t.(isRepG2 := f.probs)), p, if f.bit then 3 else 2, limit, update)
  }

  /** `StepRepG2` as its bit followed by the length of `rep[2]` or `rep[3]`. */
  lemma RepG2Then(input: seq<u8>, c: Coder, m: Machine, p: Params, limit: nat, update: bool)
    requires OnInput(input, c) && MachineShaped(m, limit) && ParamsFit(p, limit)
    ensures var f := DecodeFlag(input, c, m.t.isRepG2, m.state, update);
      StepRepG2(input, c, m, p, limit, update) ==
        if f.Err? then Err(f.error)
        else StepRepLength(input, f.value.coder, m.(t := m.t.(isRepG2 := f.value.probs)), p,
                           if f.value.bit then 3 else 2, limit, update)
  {
  }

  /** Lines 318-333: distance `idx` moves to the front of the list, then
      the length comes from the repeat length decoder. */
  function StepRepLength(input: seq<u8>, c: Coder, m: Machine, p: Params, idx: nat, limit: nat, update: bool)
    : (r: Result<StepOut>)
    requires OnInput(input, c) && MachineShaped(m, limit) && ParamsFit(p, limit) && idx < 4
    ensures r.Ok? ==> Keeps(input, c, m, limit, update, r.value)
    ensures r.Ok? ==> r.value.packet.Rep? && r.value.packet.index == idx
  {
    var m1 := if update then m.(rep := MoveToFront(m.rep, idx)) else m;
    var l :- LenDecode(input, c, m1.t.repLen, PosState(m, p), update);
    RepCopy(input, l.coder, m1.(t := m1.t.(repLen := l.tables)), idx, l.len, update)
  }

  /** Lines 329-332 and 363-368: the state update and the copy of
      `len + 2` bytes from `rep[0] + 1`, once the list has moved. */
  function RepCopy(input: seq<u8>, c: Coder, m: Machine, idx: nat, len: nat, update: bool): (r: Result<StepOut>)
    requires OnInput(input, c) && m.state < 12 && |m.rep| == 4
    ensures r.Ok? ==> r.value.packet == Rep(idx, len) && r.value.coder == c && r.value.status == Continue
    ensures r.Ok? && !update ==> r.value.m == m
    ensures r.Ok? && update ==> r.value.m.t == m.t && r.value.m.rep == m.rep && r.value.m.state == RepNext(m.state)
  {
    if !update then Ok(StepOut(Continue, Rep(idx, len), c, m))
    else
      var out :- AppendLz(m.out, len + 2, m.rep[0] + 1);
      Ok(StepOut(Continue, Rep(idx, len), c, m.(state := RepNext(m.state), out := out)))
  }

  /** `RepCopy` with `update`, as the copy's two outcomes. */
  lemma RepCopyUpdate(input: seq<u8>, c: Coder, m: Machine, idx: nat, len: nat)
    requires OnInput(input, c) && m.state < 12 && |m.rep| == 4
    ensures var out := AppendLz(m.out, len + 2, m.rep[0] + 1);
      RepCopy(input, c, m, idx, len, true) ==
        if out.Ok? then Ok(StepOut(Continue, Rep(idx, len), c, m.(state := RepNext(m.state), out := out.value)))
        else Err(out.error)
  {
  }

  /** Lines 334-345: a new distance.  The list shifts back, the length
      comes from the match length decoder and the state is updated. */
  function StepMatchLength(input: seq<u8>, c: Coder, m: Machine, p: Params, limit: nat, update: bool)
    : (r: Result<StepOut>)
    requires OnInput(input, c) && MachineShaped(m, limit) && ParamsFit(p, limit)
    ensures r.Ok? ==> Keeps(input, c, m, limit, update, r.value)
  {
    var m1 := if update then m.(rep := ShiftBack(m.rep)) else m;
    var l :- LenDecode(input, c, m1.t.len, PosState(m, p), update);
    var m2 := m1.(t := m1.t.(len := l.tables), state := if update then MatchNext(m1.state) else m1.state);
    StepDistance(input, l.coder, m2, l.len, limit, update)
  }

  /** Lines 346-347: the distance from `decode_distance`, then the rest
      of the match (`MatchTail`). */
  function StepDistance(input: seq<u8>, c: Coder, m: Machine, len: nat, limit: nat, update: bool)
    : (r: Result<StepOut>)
    requires OnInput(input, c) && MachineShaped(m, limit)
    ensures r.Ok? ==> Keeps(input, c, m, limit, update, r.value)
    ensures r.Ok? ==> r.value.packet.Match? && r.value.packet.len == len
  {
    var d :- DistanceDecode(input, c, m.t.posSlot, m.t.posDecoders, m.t.align, len, update);
    MatchTail(input, d.coder, m.(t := m.t.(posSlot := d.posSlot, posDecoders := d.posDecoders, align := d.align)),
              d.dist, len, update)
  }

  /** Lines 348-368: with `update`, distance `dist` becomes `rep[0]`;
      distance `0xFFFF_FFFF` ends the stream when the coder has finished
      cleanly and is an error otherwise; any other distance is copied. */
  function MatchTail(input: seq<u8>, c: Coder, m: Machine, dist: nat, len: nat, update: bool): (r: Result<StepOut>)
    requires OnInput(input, c) && |m.rep| == 4
    ensures r.Ok? ==> r.value.packet == Match(dist, len) && r.value.coder == c
    ensures r.Ok? ==> r.value.m.t == m.t && r.value.m.state == m.state && |r.value.m.rep| == 4
    ensures r.Ok? ==> r.value.m.out.dictSize == m.out.dictSize && m.out.history <= r.value.m.out.history
    ensures r.Ok? && !update ==> r.value.m == m && r.value.status == Continue
    ensures r.Ok? ==> (r.value.status == Finished <==> update && dist == EndMarker)
    ensures r.Ok? && r.value.status == Finished ==> FinishedOk(input, c)
  {
    if !update then Ok(StepOut(Continue, Match(dist, len), c, m))
    else
      var m1 := m.(rep := m.rep[0 := dist]);
      if dist == EndMarker then
        if FinishedOk(input, c) then Ok(StepOut(Finished, Match(dist, len), c, m1))
        else Err(EosFoundButMoreBytesAvailable)
      else
        var out :- AppendLz(m1.out, len + 2, dist + 1);
        Ok(StepOut(Continue, Match(dist, len), c, m1.(out := out)))
  }

  /** `MatchTail` with `update` and a distance other than the end marker,
      as the copy's two outcomes. */
  lemma MatchTailCopy(input: seq<u8>, c: Coder, m: Machine, dist: nat, len: nat)
    requires OnInput(input, c) && |m.rep| == 4 && dist != EndMarker
    ensures var m1 := m.(rep := m.rep[0 := dist]);
      var out := AppendLz(m1.out, len + 2, dist + 1);
      MatchTail(input, c, m, dist, len, true) ==
        if out.Ok? then Ok(StepOut(Continue, Match(dist, len), c, m1.(out := out.value)))
        else Err(out.error)
  {
  }

  /** `StepMatchLength` as its two outcomes: the length decoder's error,
      or the distance step after the length. */
  lemma StepMatchLengthCases(input: seq<u8>, c: Coder, m: Machine, p: Params, limit: nat, update: bool)
    requires OnInput(input, c) && MachineShaped(m, limit) && ParamsFit(p, limit)
    ensures var m1 := if update then m.(rep := ShiftBack(m.rep)) else m;
      var l := LenDecode(input, c, m1.t.len, PosState(m, p), update);
      && (l.Err? ==> StepMatchLength(input, c, m, p, limit, update) == Err(l.error))
      && (l.Ok? ==>
            StepMatchLength(input, c, m, p, limit, update) ==
            StepDistance(input, l.value.coder, m1.(t := m1.t.(len := l.value.tables),
                                                   state := if update then MatchNext(m1.state) else m1.state),
                         l.value.len, limit, update))
  {
  }

  /** Lines 354-359: with `update`, the end marker decoded while the coder
      has not finished cleanly is `EosFoundButMoreBytesAvailable`, whatever
      the tables and the output. */
  lemma EndMarkerUnfinished(input: seq<u8>, c: Coder, m: Machine, len: nat, limit: nat)
    requires OnInput(input, c) && MachineShaped(m, limit)
    requires var d := DistanceDecode(input, c, m.t.posSlot, m.t.posDecoders, m.t.align, len, true);
      d.Ok? && d.value.dist == EndMarker && !FinishedOk(input, d.value.coder)
    ensures StepDistance(input, c, m, len, limit, true) == Err(EosFoundButMoreBytesAvailable)
  {
  }

  // ---------------------------------------------------------------------
  // What a step achieves

  /** From a normalised coder and in-band tables, a successful step from
      any stage keeps both and lowers the measure, so the decoding loop
      ends. */
  lemma StepProgress(input: seq<u8>, c: Coder, m: Machine, p: Params, limit: nat, update: bool)
    requires OnInput(input, c) && MachineShaped(m, limit) && ParamsFit(p, limit)
    requires Normalized(c) && MachineOk(m) && Step(input, c, m, p, limit, update).Ok?
    ensures Advanced(input, c, Step(input, c, m, p, limit, update).value)
  {
    IsMatchProgress(input, c, m, p, limit, update);
  }

  lemma IsMatchProgress(input: seq<u8>, c: Coder, m: Machine, p: Params, limit: nat, update: bool)
    requires OnInput(input, c) && MachineShaped(m, limit) && ParamsFit(p, limit)
    requires Normalized(c) && MachineOk(m) && StepIsMatch(input, c, m, p, limit, update).Ok?
    ensures Advanced(input, c, StepIsMatch(input, c, m, p, limit, update).value)
  {
    IsMatchThen(input, c, m, p, limit, update);
    var f := DecodeFlag(input, c, m.t.isMatch, m.state * 16 + PosState(m, p), update).value;
    var m1 := m.(t := m.t.(isMatch := f.probs));
    assert MachineOk(m1);
    if f.bit {
      IsRepProgress(input, f.coder, m1, p, limit, update);
    } else {
      LiteralProgress(input, f.coder, m1, p, limit, update);
    }
  }

  lemma IsRepProgress(input: seq<u8>, c: Coder, m: Machine, p: Params, limit: nat, update: bool)
    requires OnInput(input, c) && MachineShaped(m, limit) && ParamsFit(p, limit)
    requires Normalized(c) && MachineOk(m) && StepIsRep(input, c, m, p, limit, update).Ok?
    ensures Advanced(input, c, StepIsRep(input, c, m, p, limit, update).value)
  {
    IsRepThen(input, c, m, p, limit, update);
    var f := DecodeFlag(input, c, m.t.isRep, m.state, update).value;
    var m1 := m.(t := m.t.(isRep := f.probs));
    assert MachineOk(m1);
    if f.bit {
      RepG0Progress(input, f.coder, m1, p, limit, update);
    } else {
      MatchLengthProgress(input, f.coder, m1, p, limit, update);
    }
  }

  lemma RepG0Progress(input: seq<u8>, c: Coder, m: Machine, p: Params, limit: nat, update: bool)
    requires OnInput(input, c) && MachineShaped(m, limit) && ParamsFit(p, limit)
    requires Normalized(c) && MachineOk(m) && StepRepG0(input, c, m, p, limit, update).Ok?
    ensures Advanced(input, c, StepRepG0(input, c, m, p, limit, update).value)
  {
    RepG0Then(input, c, m, p, limit, update);
    var f := DecodeFlag(input, c, m.t.isRepG0, m.state, update).value;
    var m1 := m.(t := m.t.(isRepG0 := f.probs));
    assert MachineOk(m1);
    if f.bit {
      RepG1Progress(input, f.coder, m1, p, limit, update);
    } else {
      Rep0LongProgress(input, f.coder, m1, p, limit, update);
    }
  }

  lemma RepG1Progress(input: seq<u8>, c: Coder, m: Machine, p: Params, limit: nat, update: bool)
    requires OnInput(input, c) && MachineShaped(m, limit) && ParamsFit(p, limit)
    requires Normalized(c) && MachineOk(m) && StepRepG1(input, c, m, p, limit, update).Ok?
    ensures Advanced(input, c, StepRepG1(input, c, m, p, limit, update).value)
  {
    RepG1Then(input, c, m, p, limit, update);
    var f := DecodeFlag(input, c, m.t.isRepG1, m.state, update).value;
    var m1 := m.(t := m.t.(isRepG1 := f.probs));
    assert MachineOk(m1);
    if f.bit {
      RepG2Progress(input, f.coder, m1, p, limit, update);
    } else {
      RepLengthProgress(input, f.coder, m1, p, 1, limit, update);
    }
  }

  lemma RepG2Progress(input: seq<u8>, c: Coder, m: Machine, p: Params, limit: nat, update: bool)
    requires OnInput(input, c) && MachineShaped(m, limit) && ParamsFit(p, limit)
    requires Normalized(c) && MachineOk(m) && StepRepG2(input, c, m, p, limit, update).Ok?
    ensures Advanced(input, c, StepRepG2(input, c, m, p, limit, update).value)
  {
    RepG2Then(input, c, m, p, limit, update);
    var f := DecodeFlag(input, c, m.t.isRepG2, m.state, update).value;
    var m1 := m.(t := m.t.(isRepG2 := f.probs));
    assert MachineOk(m1);
    RepLengthProgress(input, f.coder, m1, p, if f.bit then 3 else 2, limit, update);
  }

  lemma LiteralProgress(input: seq<u8>, c: Coder, m: Machine, p: Params, limit: nat, update: bool)
    requires OnInput(input, c) && MachineShaped(m, limit) && ParamsFit(p, limit)
    requires Normalized(c) && MachineOk(m) && StepLiteral(input, c, m, p, limit, update).Ok?
    ensures Advanced(input, c, StepLiteral(input, c, m, p, limit, update).value)
  {
    var lit := LiteralOf(input, c, m.t.literal, m.out, m.state, m.rep[0], p, limit, update).value;
    assert MachineOk(m.(t := m.t.(literal := lit.probs)));
  }

  lemma Rep0LongProgress(input: seq<u8>, c: Coder, m: Machine, p: Params, limit: nat, update: bool)
    requires OnInput(input, c) && MachineShaped(m, limit) && ParamsFit(p, limit)
    requires Normalized(c) && MachineOk(m) && StepRep0Long(input, c, m, p, limit, update).Ok?
    ensures Advanced(input, c, StepRep0Long(input, c, m, p, limit, update).value)
  {
    Rep0LongThen(input, c, m, p, limit, update);
    var f := DecodeFlag(input, c, m.t.isRep0Long, m.state * 16 + PosState(m, p), update).value;
    var m1 := m.(t := m.t.(isRep0Long := f.probs));
    assert MachineOk(m1);
    if f.bit {
      RepLengthProgress(input, f.coder, m1, p, 0, limit, update);
    }
  }

  /** Moving a distance to the front keeps every distance within 32 bits. */
  lemma MoveToFrontFits(rep: seq<nat>, idx: nat)
    requires idx < |rep| && forall i :: 0 <= i < |rep| ==> rep[i] < 0x1_0000_0000
    ensures forall i :: 0 <= i < |rep| ==> MoveToFront(rep, idx)[i] < 0x1_0000_0000
  {
    var r := MoveToFront(rep, idx);
    forall i | 0 <= i < |rep| ensures r[i] < 0x1_0000_0000 {
      if 0 < i <= idx {
        assert r[i] == rep[i - 1];
      }
    }
  }

  lemma RepLengthProgress(input: seq<u8>, c: Coder, m: Machine, p: Params, idx: nat, limit: nat, update: bool)
    requires OnInput(input, c) && MachineShaped(m, limit) && ParamsFit(p, limit)
    requires idx < 4 && Normalized(c) && MachineOk(m) && StepRepLength(input, c, m, p, idx, limit, update).Ok?
    ensures Advanced(input, c, StepRepLength(input, c, m, p, idx, limit, update).value)
  {
    MoveToFrontFits(m.rep, idx);
  }

  lemma MatchLengthProgress(input: seq<u8>, c: Coder, m: Machine, p: Params, limit: nat, update: bool)
    requires OnInput(input, c) && MachineShaped(m, limit) && ParamsFit(p, limit)
    requires Normalized(c) && MachineOk(m) && StepMatchLength(input, c, m, p, limit, update).Ok?
    ensures Advanced(input, c, StepMatchLength(input, c, m, p, limit, update).value)
  {
    var m1 := if update then m.(rep := ShiftBack(m.rep)) else m;
    assert MachineOk(m1);
    var l := LenDecode(input, c, m1.t.len, PosState(m, p), update).value;
    var m2 := m1.(t := m1.t.(len := l.tables), state := if update then MatchNext(m1.state) else m1.state);
    assert MachineOk(m2);
    DistanceProgress(input, l.coder, m2, l.len, limit, update);
  }

  lemma DistanceProgress(input: seq<u8>, c: Coder, m: Machine, len: nat, limit: nat, update: bool)
    requires OnInput(input, c) && MachineShaped(m, limit)
    requires Normalized(c) && MachineOk(m) && StepDistance(input, c, m, len, limit, update).Ok?
    ensures Advanced(input, c, StepDistance(input, c, m, len, limit, update).value)
  {
    var d := DistanceDecode(input, c, m.t.posSlot, m.t.posDecoders, m.t.align, len, update).value;
    var m1 := m.(t := m.t.(posSlot := d.posSlot, posDecoders := d.posDecoders, align := d.align));
    assert MachineOk(m1);
    if update {
      assert MachineOk(m1.(rep := m1.rep[0 := d.dist]));
    }
  }

  /** With `update`, a successful step from any stage
      does to the state, the distances and the output exactly what its
      packet means (`Perform`), on top of the adapted probabilities. */
  lemma StepPerforms(input: seq<u8>, c: Coder, m: Machine, p: Params, limit: nat)
    requires OnInput(input, c) && MachineShaped(m, limit) && ParamsFit(p, limit)
    requires Step(input, c, m, p, limit, true).Ok?
    ensures var r := Step(input, c, m, p, limit, true).value;
      Perform(m.(t := r.m.t), r.packet) == Ok(r.m)
  {
    IsMatchPerforms(input, c, m, p, limit);
  }

  lemma IsMatchPerforms(input: seq<u8>, c: Coder, m: Machine, p: Params, limit: nat)
    requires OnInput(input, c) && MachineShaped(m, limit) && ParamsFit(p, limit)
    requires StepIsMatch(input, c, m, p, limit, true).Ok?
    ensures var r := StepIsMatch(input, c, m, p, limit, true).value;
      Perform(m.(t := r.m.t), r.packet) == Ok(r.m)
  {
    IsMatchThen(input, c, m, p, limit, true);
    var f := DecodeFlag(input, c, m.t.isMatch, m.state * 16 + PosState(m, p), true).value;
    if f.bit {
      IsRepPerforms(input, f.coder, m.(t := m.t.(isMatch := f.probs)), p, limit);
    } else {
      LiteralPerforms(input, f.coder, m.(t := m.t.(isMatch := f.probs)), p, limit);
    }
  }

  lemma IsRepPerforms(input: seq<u8>, c: Coder, m: Machine, p: Params, limit: nat)
    requires OnInput(input, c) && MachineShaped(m, limit) && ParamsFit(p, limit)
    requires StepIsRep(input, c, m, p, limit, true).Ok?
    ensures var r := StepIsRep(input, c, m, p, limit, true).value;
      Perform(m.(t := r.m.t), r.packet) == Ok(r.m)
  {
    IsRepThen(input, c, m, p, limit, true);
    var f := DecodeFlag(input, c, m.t.isRep, m.state, true).value;
    if f.bit {
      RepG0Performs(input, f.coder, m.(t := m.t.(isRep := f.probs)), p, limit);
    } else {
      MatchLengthPerforms(input, f.coder, m.(t := m.t.(isRep := f.probs)), p, limit);
    }
  }

  lemma RepG0Performs(input: seq<u8>, c: Coder, m: Machine, p: Params, limit: nat)
    requires OnInput(input, c) && MachineShaped(m, limit) && ParamsFit(p, limit)
    requires StepRepG0(input, c, m, p, limit, true).Ok?
    ensures var r := StepRepG0(input, c, m, p, limit, true).value;
      Perform(m.(t := r.m.t), r.packet) == Ok(r.m)
  {
    RepG0Then(input, c, m, p, limit, true);
    var f := DecodeFlag(input, c, m.t.isRepG0, m.state, true).value;
    if f.bit {
      RepG1Performs(input, f.coder, m.(t := m.t.(isRepG0 := f.probs)), p, limit);
    } else {
      Rep0LongPerforms(input, f.coder, m.(t := m.t.(isRepG0 := f.probs)), p, limit);
    }
  }

  lemma RepG1Performs(input: seq<u8>, c: Coder, m: Machine, p: Params, limit: nat)
    requires OnInput(input, c) && MachineShaped(m, limit) && ParamsFit(p, limit)
    requires StepRepG1(input, c, m, p, limit, true).Ok?
    ensures var r := StepRepG1(input, c, m, p, limit, true).value;
      Perform(m.(t := r.m.t), r.packet) == Ok(r.m)
  {
    RepG1Then(input, c, m, p, limit, true);
    var f := DecodeFlag(input, c, m.t.isRepG1, m.state, true).value;
    var m1 := m.(t := m.t.(isRepG1 := f.probs));
    if f.bit {
      RepG2Performs(input, f.coder, m1, p, limit);
    } else {
      RepLengthPerforms(input, f.coder, m1, p, 1, limit);
    }
  }

  lemma RepG2Performs(input: seq<u8>, c: Coder, m: Machine, p: Params, limit: nat)
    requires OnInput(input, c) && MachineShaped(m, limit) && ParamsFit(p, limit)
    requires StepRepG2(input, c, m, p, limit, true).Ok?
    ensures var r := StepRepG2(input, c, m, p, limit, true).value;
      Perform(m.(t := r.m.t), r.packet) == Ok(r.m)
  {
    RepG2Then(input, c, m, p, limit, true);
    var f := DecodeFlag(input, c, m.t.isRepG2, m.state, true).value;
    RepLengthPerforms(input, f.coder, m.(t := m.t.(isRepG2 := f.probs)), p, if f.bit then 3 else 2, limit);
  }

  lemma LiteralPerforms(input: seq<u8>, c: Coder, m: Machine, p: Params, limit: nat)
    requires OnInput(input, c) && MachineShaped(m, limit) && ParamsFit(p, limit)
    requires StepLiteral(input, c, m, p, limit, true).Ok?
    ensures var r := StepLiteral(input, c, m, p, limit, true).value;
      Perform(m.(t := r.m.t), r.packet) == Ok(r.m)
  {
  }

  lemma Rep0LongPerforms(input: seq<u8>, c: Coder, m: Machine, p: Params, limit: nat)
    requires OnInput(input, c) && MachineShaped(m, limit) && ParamsFit(p, limit)
    requires StepRep0Long(input, c, m, p, limit, true).Ok?
    ensures var r := StepRep0Long(input, c, m, p, limit, true).value;
      Perform(m.(t := r.m.t), r.packet) == Ok(r.m)
  {
    Rep0LongThen(input, c, m, p, limit, true);
    var f := DecodeFlag(input, c, m.t.isRep0Long, m.state * 16 + PosState(m, p), true).value;
    if f.bit {
      RepLengthPerforms(input, f.coder, m.(t := m.t.(isRep0Long := f.probs)), p, 0, limit);
    }
  }

  lemma RepLengthPerforms(input: seq<u8>, c: Coder, m: Machine, p: Params, idx: nat, limit: nat)
    requires OnInput(input, c) && MachineShaped(m, limit) && ParamsFit(p, limit)
    requires idx < 4 && StepRepLength(input, c, m, p, idx, limit, true).Ok?
    ensures var r := StepRepLength(input, c, m, p, idx, limit, true).value;
      Perform(m.(t := r.m.t), r.packet) == Ok(r.m)
  {
    var m1 := m.(rep := MoveToFront(m.rep, idx));
    var l := LenDecode(input, c, m1.t.repLen, PosState(m, p), true).value;
    var m2 := m1.(t := m1.t.(repLen := l.tables));
    RepCopyPerforms(input, l.coder, m.(t := m2.t), idx, l.len);
  }

  /** The copy of a repeat match is what `Perform` does with it. */
  lemma RepCopyPerforms(input: seq<u8>, c: Coder, m: Machine, idx: nat, len: nat)
    requires OnInput(input, c) && m.state < 12 && |m.rep| == 4 && idx < 4
    requires RepCopy(input, c, m.(rep := MoveToFront(m.rep, idx)), idx, len, true).Ok?
    ensures Perform(m, Rep(idx, len)) == Ok(RepCopy(input, c, m.(rep := MoveToFront(m.rep, idx)), idx, len, true).value.m)
  {
  }

  lemma MatchLengthPerforms(input: seq<u8>, c: Coder, m: Machine, p: Params, limit: nat)
    requires OnInput(input, c) && MachineShaped(m, limit) && ParamsFit(p, limit)
    requires StepMatchLength(input, c, m, p, limit, true).Ok?
    ensures var r := StepMatchLength(input, c, m, p, limit, true).value;
      Perform(m.(t := r.m.t), r.packet) == Ok(r.m)
  {
    StepMatchLengthCases(input, c, m, p, limit, true);
    var m1 := m.(rep := ShiftBack(m.rep));
    var l := LenDecode(input, c, m1.t.len, PosState(m, p), true).value;
    var m2 := m1.(t := m1.t.(len := l.tables), state := MatchNext(m1.state));
    var r := StepDistance(input, l.coder, m2, l.len, limit, true).value;
    DistanceUpdates(input, l.coder, m2, l.len, limit);
    assert m2.rep[0 := r.packet.dist] == Push(m.rep, r.packet.dist) by {
      assert m2.rep[0 := r.packet.dist][1..] == m.rep[..3];
    }
  }

  /** With `update`, the new distance becomes `rep[0]`; the output is left
      alone at the end marker and otherwise gets the copy. */
  lemma DistanceUpdates(input: seq<u8>, c: Coder, m: Machine, len: nat, limit: nat)
    requires OnInput(input, c) && MachineShaped(m, limit)
    requires StepDistance(input, c, m, len, limit, true).Ok?
    ensures var r := StepDistance(input, c, m, len, limit, true).value;
      && r.m.rep == m.rep[0 := r.packet.dist] && r.m.state == m.state
      && (r.packet.dist == EndMarker ==> r.m.out == m.out)
      && (r.packet.dist != EndMarker ==> AppendLz(m.out, len + 2, r.packet.dist + 1) == Ok(r.m.out))
  {
    var d := DistanceDecode(input, c, m.t.posSlot, m.t.posDecoders, m.t.align, len, true).value;
    assert StepDistance(input, c, m, len, limit, true).value.packet.dist == d.dist;
  }

  // ---------------------------------------------------------------------
  // The decoding loop: `process_mode` with the whole input at hand

  datatype RunOut = RunOut(coder: Coder, m: Machine, marker: bool)

  /** The loop of `process_mode` (lines 429-502) in `Finish` mode over an
      input that is all present: stop once the output has reached a known
      unpacked size, or, with no size, once the coder has finished cleanly;
      otherwise step, and stop after the end marker.  With in-band
      probabilities and a normalised coder every step consumes input or
      range, so the loop ends. */
  function Run(input: seq<u8>, c: Coder, m: Machine, p: Params, limit: nat): (r: Result<RunOut>)
    requires OnInput(input, c) && Normalized(c) && MachineShaped(m, limit) && MachineOk(m) && ParamsFit(p, limit)
    ensures r.Ok? ==>
      && OnInput(input, r.value.coder) && Normalized(r.value.coder)
      && MachineShaped(r.value.m, limit) && MachineOk(r.value.m)
      && r.value.m.out.dictSize == m.out.dictSize && m.out.history <= r.value.m.out.history
    ensures r.Ok? && r.value.marker ==> FinishedOk(input, r.value.coder)
    ensures r.Ok? && !r.value.marker && p.unpackedSize.Some? ==>
      |r.value.m.out.history| >= p.unpackedSize.value
    ensures r.Ok? && p.unpackedSize.None? ==> FinishedOk(input, r.value.coder)
    decreases Measure(input, c)
  {
    if p.unpackedSize.Some? && Len(m.out) >= p.unpackedSize.value then
      Ok(RunOut(c, m, false))
    else if p.unpackedSize.None? && FinishedOk(input, c) then
      Ok(RunOut(c, m, false))
    else
      var s :- Step(input, c, m, p, limit, true);
      StepProgress(input, c, m, p, limit, true);
      if s.status == Finished then Ok(RunOut(s.coder, s.m, true))
      else
        var r := Run(input, s.coder, s.m, p, limit);
        if r.Ok? then
          assert m.out.history <= s.m.out.history <= r.value.m.out.history;
          r
        else r
  }

  /** `process` (`process_mode` in `Finish` mode): the loop, then lines
      504-513: a known unpacked size must match the output exactly. */
  function Process(input: seq<u8>, c: Coder, m: Machine, p: Params, limit: nat): (r: Result<RunOut>)
    requires OnInput(input, c) && Normalized(c) && MachineShaped(m, limit) && MachineOk(m) && ParamsFit(p, limit)
    ensures r.Ok? && p.unpackedSize.Some? ==> |r.value.m.out.history| == p.unpackedSize.value
    ensures r.Ok? && p.unpackedSize.None? ==> FinishedOk(input, r.value.coder)
    ensures r.Ok? ==> m.out.history <= r.value.m.out.history
  {
    var r :- Run(input, c, m, p, limit);
    if p.unpackedSize.Some? && p.unpackedSize.value != Len(r.m.out) then
      Err(ProcessedDataDoesNotMatchUnpackedSize(p.unpackedSize.value, Len(r.m.out)))
    else
      Ok(r)
  }
}
