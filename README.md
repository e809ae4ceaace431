# Raw LZMA decoding core of lzma-rs, modelled and proved in Dafny

This project models the part of lzma-rs that turns a raw LZMA stream into
bytes:

- **The range decoder** (`src/decode/rangecoder.rs`). This covers
  `RangeDecoder`, bit decoding with adaptive 11-bit probabilities, direct
  bits, forward and reverse bit trees, and the length decoder.
- **The LZMA decoder state** (`src/decode/lzma.rs`). This covers
  `LzmaParams::read_header` and `DecoderState`: `new`, `set_params`,
  `reset`, one packet (`process_next_inner`), `decode_literal` and
  `decode_distance`, and the size checks of `process_mode` in `Finish`
  mode.

The project has two layers.

1. **Value-level specification.** Each part of the decoder is a set of
   pure functions over values:
   - `RangeModel` covers the coder, the tree walks and the length decoder.
   - `LzmaModel` covers the state machine, the repeat-distance list, the
     literal and distance decoders, and one step and the decoding loop.
   - `LzmaHeader` covers the header.
   - `LzBuffer` describes the dictionary.

   Lemmas state what the format promises of these functions:
   - decoding terminates;
   - probabilities stay in band;
   - `update == false` changes no table;
   - every step does what its packet means;
   - repeat distances are permuted;
   - the properties byte is a bijection;
   - a header reads back as written;
   - the slot trees share `pos_decoders` without touching each other.
2. **Imperative model.** It follows the source's own shape:
   - `RangeDecoder`, `BitTree`, `LenDecoder` and `DecoderState` are
     classes.
   - The probability tables are arrays.
   - `get`, the two bit-tree walks and the loops of `decode_literal` are
     `while` loops.
   - The LRU update of the repeat distances happens in place.

   Each method is proved against the specification function of layer 1:
   on success its result and new state are the function's; on an error
   it returns the function's error, and the decoder state it leaves
   behind is not specified.

Input is a byte sequence with a read position. "End of input" stands for
every I/O error of the source's reader.

## Model

| member | source | states |
|---|---|---|
| RangeModel.Normalize | src/decode/rangecoder.rs:61-70 | fails exactly when `range < 2^24` and the input is exhausted; reads one byte exactly when `range < 2^24`; after a bit that left at least 2^16 of range, `range >= 2^24` again; keeps `code < range` |
| RangeModel.Low24Mod | src/decode/rangecoder.rs:65 | `code << 8` on a `u32` keeps `code mod 2^24` shifted up: `Low24(x) == x % 2^24` |
| RangeModel.Bound | src/decode/rangecoder.rs:95 | `(range >> 11) * prob` never exceeds `range`; with a probability strictly inside (0, 0x800) and `range >= 0x800` it splits `range` into two non-empty parts |
| RangeModel.Narrow | src/decode/rangecoder.rs:103-118 | narrowing keeps the position and the invariant `code < range` |
| RangeModel.Adapt | src/decode/rangecoder.rs:104-114 | without `update` the probability is unchanged; a 0 raises it and a 1 lowers it; it stays strictly inside (0, 0x800) and inside the band `ProbOk` |
| RangeModel.NarrowProgress | src/decode/rangecoder.rs:94-121 | from a normalised coder and an in-band probability, narrowing leaves between 2^16 and less than the old `range` |
| RangeModel.DecodeBit | src/decode/rangecoder.rs:94-121 | the bit is 0 exactly when `code < bound`; the coder stays normalised and the termination measure strictly drops; `code < range` is kept |
| RangeModel.DirectBit | src/decode/rangecoder.rs:73-83 | `get_bit` keeps the coder normalised and strictly lowers the measure |
| RangeModel.ShiftInBit | src/decode/rangecoder.rs:88 | shifting a bit into a `u32` holding at most 31 bits loses nothing: the wrapped shift equals the most-significant-first value |
| RangeModel.DirectWalk | src/decode/rangecoder.rs:85-91 | `k` more rounds of `get` yield `k` more bits; up to 32 bits the result is their most-significant-first value; the measure drops by at least `k` |
| RangeModel.DirectBits | src/decode/rangecoder.rs:85-91 | `get(count)` yields `count` bits read most significant first, a value below `2^count` when `count <= 32`; each bit lowers the measure |
| RangeModel.MsbValueBound | src/decode/rangecoder.rs:130-134 | `n` bits read most significant first are below 2^n |
| RangeModel.LsbValueBound | src/decode/rangecoder.rs:146-150 | `n` bits read least significant first are below 2^n |
| RangeModel.NodeNext | src/decode/rangecoder.rs:132 | the next node is `2 * tmp + bit` |
| RangeModel.NodeBound | src/decode/rangecoder.rs:130-133 | below level `n`, every node reached lies in [2^level, 2^(level+1)) within a table of 2^n entries |
| RangeModel.TreeWalk | src/decode/rangecoder.rs:123-152 | the rest of a walk yields `n` bits extending those decoded so far; without `update` the table is unchanged; in-band tables stay in band; the measure drops by one per level |
| RangeModel.TreeWalkFails | src/decode/rangecoder.rs:131-146 | a level whose bit fails makes the whole walk fail with that error |
| RangeModel.TreeWalkNext | src/decode/rangecoder.rs:131-147 | a level that decodes `b` stores the adapted probability at `offset + node` and goes on from `bits + [b]` |
| RangeModel.TreeWalkFrame | src/decode/rangecoder.rs:123-152 | the walk from `bits` on adapts no entry outside `offset + 2^|bits|` to `offset + 2^n - 1` |
| RangeModel.BitTreeDecode | src/decode/rangecoder.rs:123-135 | `parse_bit_tree` returns its `n` bits read most significant first, below 2^n; without `update` the table is unchanged; the measure drops by `n` |
| RangeModel.BitTreeDecodeWalk | src/decode/rangecoder.rs:123-135 | `parse_bit_tree` is the tree walk from the root, with the value taken most significant first |
| RangeModel.BitTreeDecodeFrame | src/decode/rangecoder.rs:123-135 | `parse_bit_tree` changes only entries 1 to 2^n - 1 of its table |
| RangeModel.ReverseBitTreeDecode | src/decode/rangecoder.rs:137-152 | `parse_reverse_bit_tree` returns its `n` bits with the i-th worth 2^i, below 2^n; without `update` the table is unchanged; the measure drops by `n` |
| RangeModel.ReverseBitTreeDecodeWalk | src/decode/rangecoder.rs:137-152 | `parse_reverse_bit_tree` is the same tree walk at `offset`, with the value taken least significant first |
| RangeModel.ReverseBitTreeDecodeFrame | src/decode/rangecoder.rs:137-152 | `parse_reverse_bit_tree` changes only entries `offset + 1` to `offset + 2^n - 1` of the shared table |
| RangeModel.InitLenTables | src/decode/rangecoder.rs:281-289 | a new length decoder has 16 low and 16 mid 3-bit trees and one 8-bit high tree, all in band |
| RangeModel.LenDecode | src/decode/rangecoder.rs:237-250 | the length is below 272; without `update` no table changes; in-band tables stay in band and the measure drops |
| RangeModel.LenDecodeLow | src/decode/rangecoder.rs:243-244 | a 0 `choice` bit gives a length from 0 to 7 |
| RangeModel.LenDecodeUpper | src/decode/rangecoder.rs:245-248 | a 1 `choice` bit gives a length from 8 to 271 |
| RangeModel.LenDecodeMid | src/decode/rangecoder.rs:245-246 | a 0 `choice2` bit gives a length from 8 to 15 |
| RangeModel.LenDecodeHigh | src/decode/rangecoder.rs:247-248 | the high tree gives a length from 16 to 271 |
| RangeModel.LenDecodeBands | src/decode/rangecoder.rs:237-250 | the length is below 8 exactly when the `choice` bit is 0, and then only `choice` and the low tree of `pos_state` change |
| RangeModel.LenDecodeUpperBands | src/decode/rangecoder.rs:245-249 | past `choice`, the length is below 16 exactly when `choice2` is 0; the mid band changes only the mid tree of `pos_state`, and the high band leaves the mid trees alone |
| RangeModel.LenOkUpdate | src/decode/rangecoder.rs:244-246 | replacing the low or mid tree of `pos_state` by an in-band tree of the same size keeps the length tables shaped and in band |
| RangeModel.AllOkUpdate | src/decode/rangecoder.rs:104-114 | storing an in-band probability keeps a table in band |
| RangeCoder.RangeDecoder.New | src/decode/rangecoder.rs:21-31 | fails with `UnexpectedEof` exactly when fewer than 5 bytes are available; otherwise skips one byte, reads `code` big-endian from bytes 1-4 and starts at `range = 0xFFFF_FFFF` |
| RangeCoder.RangeDecoder.FromParts | src/decode/rangecoder.rs:33-39 | the decoder over the given input with the given `range` and `code` |
| RangeCoder.RangeDecoder.IsFinishedOk | src/decode/rangecoder.rs:51-53 | true exactly when `code == 0` and no input is left |
| RangeCoder.RangeDecoder.Normalize | src/decode/rangecoder.rs:61-70 | the registers become those of `RangeModel.Normalize`, or its error is returned |
| RangeCoder.RangeDecoder.GetBit | src/decode/rangecoder.rs:73-83 | bit and registers as `RangeModel.DirectBit` |
| RangeCoder.RangeDecoder.Get | src/decode/rangecoder.rs:85-91 | the loop returns `RangeModel.DirectBits`: `count` bits, most significant first, or the first error |
| RangeCoder.RangeDecoder.DecodeBit | src/decode/rangecoder.rs:94-121 | bit and registers as `RangeModel.DecodeBit`; the adapted probability is `Adapt(prob, bit, update)`, also when normalisation then fails |
| RangeCoder.RangeDecoder.TreeLevel | src/decode/rangecoder.rs:131-148 | one loop round: on success the walk from the new state equals the walk from the old one, and on failure the walk fails with the same error |
| RangeCoder.RangeDecoder.ParseBitTree | src/decode/rangecoder.rs:123-135 | value, registers and table are those of `BitTreeDecode`; without `update` the table is unchanged |
| RangeCoder.RangeDecoder.ParseReverseBitTree | src/decode/rangecoder.rs:137-152 | value, registers and table are those of `ReverseBitTreeDecode` at `offset`; without `update` the table is unchanged |
| RangeCoder.BitTree.constructor | src/decode/rangecoder.rs:192-197 | a tree of `num_bits` levels has 2^num_bits probabilities, all 0x400 |
| RangeCoder.BitTree.Parse | src/decode/rangecoder.rs:158-164 | `parse` is `parse_bit_tree` on the tree's own table |
| RangeCoder.BitTree.ParseReverse | src/decode/rangecoder.rs:166-172 | `parse_reverse` is `parse_reverse_bit_tree` at offset 0 |
| RangeCoder.BitTree.Reset | src/decode/lzma.rs:214-215 | every probability of the tree back to 0x400 |
| RangeCoder.ResetProbs | src/decode/lzma.rs:210-223 | the `iter_mut().for_each(... = 0x400)` loops: every entry of the array becomes 0x400 |
| RangeCoder.NewTrees | src/decode/lzma.rs:164 | `count` new trees of `num_bits` levels, no two sharing a table, all at 0x400 |
| RangeCoder.ResetTrees | src/decode/lzma.rs:214 | every tree of a sequence back to 0x400 |
| RangeCoder.LenDecoder.constructor | src/decode/rangecoder.rs:281-289 | the tables of a new length decoder are `InitLenTables()` |
| RangeCoder.LenDecoder.NewCoders | src/decode/rangecoder.rs:281-289 | the 16 low, 16 mid and one high tree of `new`, disjoint, all at 0x400 |
| RangeCoder.LenDecoder.Decode | src/decode/rangecoder.rs:237-250 | length, registers and tables are those of `LenDecode`; without `update` the tables are unchanged |
| RangeCoder.LenDecoder.DecodeLow | src/decode/rangecoder.rs:243-244 | the low tree of `pos_state`, as `LenDecodeLow` |
| RangeCoder.LenDecoder.DecodeUpper | src/decode/rangecoder.rs:245-249 | `choice2`, then the mid or the high tree, as `LenDecodeUpper` |
| RangeCoder.LenDecoder.DecodeMid | src/decode/rangecoder.rs:245-246 | the mid tree of `pos_state` plus 8, as `LenDecodeMid` |
| RangeCoder.LenDecoder.DecodeHigh | src/decode/rangecoder.rs:247-248 | the high tree plus 16, as `LenDecodeHigh` |
| RangeCoder.LenDecoder.Reset | src/decode/lzma.rs:225-226 | the decoder stays valid and its tables are back to those of a new length decoder |
| RangeCoder.LenDecoder.ResetCoders | src/decode/lzma.rs:225-226 | every low, mid and high tree back to 0x400 |
| LzBuffer.LastN | src/decode/lzma.rs:539 | the byte `dist` places back; it is refused exactly when `dist` exceeds the dictionary size or the bytes written, and the dictionary check comes first |
| LzBuffer.Copy | src/decode/lzma.rs:363-368 | appends `len` bytes, each equal to the byte `dist` places before it, so an overlapping copy repeats what it has just written |
| LzBuffer.AppendLz | src/decode/lzma.rs:363-368 | refused under the same two checks as `LastN`; otherwise the history grows by exactly `len` bytes, each a copy from `dist` back, and the dictionary size stays |
| LzBuffer.CopyDisjoint | src/decode/lzma.rs:368 | a copy no longer than its distance appends the `len` bytes starting `dist` back |
| LzBuffer.CopyRun | src/decode/lzma.rs:304 | a copy at distance 1 repeats the last byte `len` times |
| LzmaHeader.SplitProps | src/decode/lzma.rs:63-76 | a properties byte below 225 splits into `lc <= 8`, `lp <= 4`, `pb <= 4` that pack back into it |
| LzmaHeader.SplitPropsInverse | src/decode/lzma.rs:63-76 | every in-range triple packs into a byte below 225 that splits back into it, so the split is a bijection onto 0..224 |
| LzmaHeader.LittleEndianBound | src/decode/lzma.rs:81-97 | `n` little-endian bytes are below 2^(8n) |
| LzmaHeader.LittleEndianLeBytes | src/decode/lzma.rs:81-97 | writing a value in `n` little-endian bytes and reading them back gives it |
| LzmaHeader.LittleEndianAllOnes | src/decode/lzma.rs:98 | a little-endian number is all ones exactly when each of its bytes is 0xFF |
| LzmaHeader.ReadHeader | src/decode/lzma.rs:58-125 | fails exactly on a missing or out-of-range properties byte or a header shorter than the mode reads; the properties byte is checked first (`InvalidHeader` before `HeaderTooShort`); on success the fields pack into the first byte, the dictionary size is `max(le32, 0x1000)`, and a size the caller provided is used as given |
| LzmaHeader.ReadHeaderUnknownSize | src/decode/lzma.rs:93-102 | with the size read from the header, it is unknown exactly when its eight bytes are all 0xFF, and otherwise it is their little-endian value |
| LzmaHeader.ReadEncodedHeader | src/decode/lzma.rs:58-125 | a header written for valid parameters reads back as the same parameters and 13 consumed bytes, whatever follows it |
| LzmaModel.LiteralNext | src/decode/lzma.rs:278-284 | after a literal the state is below 7 and never higher than a state already below 7 |
| LzmaModel.MatchNext | src/decode/lzma.rs:347 | after a match the state is 7 or 10, and 7 exactly after a literal state |
| LzmaModel.RepNext | src/decode/lzma.rs:332 | after a repeat match the state is 8 or 11, and 8 exactly after a literal state |
| LzmaModel.ShortRepNext | src/decode/lzma.rs:302 | after a short repeat the state is 9 or 11, and 9 exactly after a literal state |
| LzmaModel.LiteralsSettle | src/decode/lzma.rs:278-284 | four literals bring any state to 0 |
| LzmaModel.MoveToFront | src/decode/lzma.rs:318-326 | `rep[idx]` comes first, the distances before it move back one place, and those after it stay |
| LzmaModel.MoveToFrontPermutes | src/decode/lzma.rs:318-326 | moving a distance to the front neither loses nor duplicates one |
| LzmaModel.ShiftBack | src/decode/lzma.rs:336-341 | every distance moves back one place, the oldest is dropped and `rep[0]` stays |
| LzmaModel.Push | src/decode/lzma.rs:336-353 | the new distance comes first, followed by the three newest old ones |
| LzmaModel.InitTables | src/decode/lzma.rs:206-227 | the tables after `reset` have the sizes `new` allocates and are in band |
| LzmaModel.NewTables | src/decode/lzma.rs:157-178 | the tables of `new` have the sizes it allocates |
| LzmaModel.PosState | src/decode/lzma.rs:264 | the position state is below 16 |
| LzmaModel.LitStateBound | src/decode/lzma.rs:534-535 | the literal row is below `2^(lc + lp)`, so it fits the table `set_params` accepted |
| LzmaModel.RowFits | src/decode/lzma.rs:536 | a row below the limit leaves room for its 0x300 entries |
| LzmaModel.MatchedIndexBound | src/decode/lzma.rs:541-545 | the matched loop reads index `(1 + match_bit) * 0x100 + node`, within 0x100..0x2FF |
| LzmaModel.NodeBelowByte | src/decode/lzma.rs:541-554 | both loops run while the node is below 0x100, that is until eight bits are in |
| LzmaModel.MatchedWalk | src/decode/lzma.rs:538-551 | the matched loop yields eight bits extending those decoded so far; without `update` the row is unchanged; in-band tables stay in band and the measure drops per bit |
| LzmaModel.MatchedWalkFails | src/decode/lzma.rs:544-546 | a matched round whose bit fails makes the loop fail with that error |
| LzmaModel.MatchedWalkNext | src/decode/lzma.rs:541-550 | a round that decodes a bit differing from the match byte's hands over to the plain walk; an equal bit goes on with the match byte shifted |
| LzmaModel.LiteralDecode | src/decode/lzma.rs:538-558 | the byte is the eight bits read most significant first, below 0x100; without `update` the table is unchanged; in-band tables stay in band and the measure drops |
| LzmaModel.MatchByte | src/decode/lzma.rs:538-539 | a match byte is used exactly after a match state (7 and up) when `last_n(rep[0] + 1)` succeeds, and it is the byte `rep[0] + 1` back |
| LzmaModel.LiteralOf | src/decode/lzma.rs:519-559 | `decode_literal` yields a byte below 0x100 and changes only the literal table, and not at all without `update`; the measure drops |
| LzmaModel.PosDecodersFit | src/decode/lzma.rs:576-582 | the reverse tree of slots 4-13 starts at `base - slot >= 0` and ends within the 115 entries of `pos_decoders` |
| LzmaModel.PosOffset | src/decode/lzma.rs:581 | the offset `base - slot` leaves the slot's tree inside `pos_decoders` |
| LzmaModel.DirectAlignFit | src/decode/lzma.rs:583-587 | `ndb - 4` direct bits shifted by 4, plus four align bits, fit in the slot's `ndb` bits |
| LzmaModel.SlotFits | src/decode/lzma.rs:574-587 | every distance of a slot fits 32 bits |
| LzmaModel.DistanceDecode | src/decode/lzma.rs:561-590 | the slot is below 64; slots 0-3 are the distance; a later slot's distance lies in `[base, base + 2^ndb)`; every distance fits 32 bits; of the four slot trees only that of `min(length, 3)` (lines 567-569) may change, and without `update` no table changes; the measure drops |
| LzmaModel.DistanceDecodeOneTree | src/decode/lzma.rs:567-569 | only the slot tree of `min(length, 3)` is read: slot trees that agree on it give the same outcome, error or distance, coder and other tables, and keep their other trees |
| LzmaModel.SlotDistance | src/decode/lzma.rs:570-589 | the distance of a slot: the slot itself below 4, otherwise in its range |
| LzmaModel.SlotLowBits | src/decode/lzma.rs:574-587 | the low bits of a slot from 4 on are below `2^ndb`; without `update` no table changes |
| LzmaModel.DirectLow | src/decode/lzma.rs:583-587 | slots 14-63: direct bits then the align tree give a value below `2^ndb`; without `update` the align table is unchanged |
| LzmaModel.DirectLowSteps | src/decode/lzma.rs:585-586 | `DirectLow` is `get(ndb - 4)` shifted by four, then the reverse align tree, failing with the first failing read |
| LzmaModel.PosTreesAdjacent | src/decode/lzma.rs:575-581 | the reverse tree of each slot 4-12 ends where the next slot's begins |
| LzmaModel.PosTreesApart | src/decode/lzma.rs:575-581 | the trees of two different slots 4-13 share no node of `pos_decoders` |
| LzmaModel.SlotLowBitsFrame | src/decode/lzma.rs:576-587 | a slot 4-13 changes no entry of `pos_decoders` outside its own tree and leaves the align tree alone; a later slot leaves `pos_decoders` alone |
| LzmaModel.SlotTreesUntouched | src/decode/lzma.rs:576-582 | decoding the low bits of one slot 4-13 leaves every node of another slot's tree as it was |
| LzmaModel.Step | src/decode/lzma.rs:252-372 | one packet keeps the table shapes; without `update` only the coder changes and the status is `Continue`; the output only grows and keeps its dictionary size; the stream is finished exactly when the end marker was decoded with `update`, and then the coder has finished cleanly |
| LzmaModel.DecodeFlag | src/decode/lzma.rs:267-271 | the flag bit is `BitOf(c, probs[i])`, only entry `i` changes, adapted to that bit; the measure drops |
| LzmaModel.StepIsMatch | src/decode/lzma.rs:264-271 | every outcome keeps the step guarantees of `Step` |
| LzmaModel.IsMatchThen | src/decode/lzma.rs:267-272 | the `is_match` bit, then a literal on 0 and the `is_rep` stage on 1 |
| LzmaModel.StepLiteral | src/decode/lzma.rs:272-287 | keeps the step guarantees and yields a literal packet |
| LzmaModel.StepIsRep | src/decode/lzma.rs:292 | keeps the step guarantees |
| LzmaModel.IsRepThen | src/decode/lzma.rs:292-334 | the `is_rep` bit, then the repeat stages on 1 and a new match on 0 |
| LzmaModel.StepRepG0 | src/decode/lzma.rs:294 | keeps the step guarantees |
| LzmaModel.RepG0Then | src/decode/lzma.rs:294-308 | the `is_rep_g0` bit, then `is_rep_0long` on 0 and `is_rep_g1` on 1 |
| LzmaModel.StepRep0Long | src/decode/lzma.rs:295-307 | keeps the step guarantees |
| LzmaModel.ShortRepTail | src/decode/lzma.rs:300-306 | a short repeat: the coder and tables are unchanged, the state stays below 12, and the output only grows; without `update` nothing changes |
| LzmaModel.Rep0LongThen | src/decode/lzma.rs:295-307 | the `is_rep_0long` bit, then a short repeat on 0 and a repeat length of `rep[0]` on 1 |
| LzmaModel.StepRepG1 | src/decode/lzma.rs:310-311 | keeps the step guarantees |
| LzmaModel.RepG1Then | src/decode/lzma.rs:310-311 | the `is_rep_g1` bit, then `rep[1]` on 0 and the `is_rep_g2` bit on 1 |
| LzmaModel.StepRepG2 | src/decode/lzma.rs:312-316 | keeps the step guarantees |
| LzmaModel.RepG2Then | src/decode/lzma.rs:312-316 | the `is_rep_g2` bit, then `rep[2]` on 0 and `rep[3]` on 1 |
| LzmaModel.StepRepLength | src/decode/lzma.rs:318-333 | keeps the step guarantees and yields a repeat packet of the chosen index |
| LzmaModel.RepCopy | src/decode/lzma.rs:329-368 | with `update` the state becomes `RepNext` and the output only grows; the coder, tables and distances are unchanged; without `update` nothing changes |
| LzmaModel.StepMatchLength | src/decode/lzma.rs:334-348 | keeps the step guarantees |
| LzmaModel.StepDistance | src/decode/lzma.rs:350-368 | keeps the step guarantees and yields a match packet of the decoded length |
| LzmaModel.MatchTail | src/decode/lzma.rs:352-368 | the stream is finished exactly when `update` and the distance is 0xFFFF_FFFF, and then the coder has finished cleanly; without `update` nothing changes; the output only grows |
| LzmaModel.EndMarkerUnfinished | src/decode/lzma.rs:354-359 | the end marker decoded with `update` while the coder has not finished cleanly is `EosFoundButMoreBytesAvailable` |
| LzmaModel.StepProgress | src/decode/lzma.rs:252-372 | from a normalised coder and in-band tables a successful step keeps both and strictly lowers the measure, so the decoding loop terminates |
| LzmaModel.MoveToFrontFits | src/decode/lzma.rs:318-326 | moving a distance to the front keeps every distance within 32 bits |
| LzmaModel.StepPerforms | src/decode/lzma.rs:252-372 | with `update`, every successful step does to the state, the distances and the output exactly what its packet means (`Perform`) |
| LzmaModel.RepCopyPerforms | src/decode/lzma.rs:318-368 | the copy of a repeat match is what `Perform` does with the packet |
| LzmaModel.DistanceUpdates | src/decode/lzma.rs:353-368 | with `update` the new distance becomes `rep[0]`; the output is unchanged at the end marker and otherwise receives the copy |
| LzmaModel.Run | src/decode/lzma.rs:429-502 | in `Finish` mode the loop keeps shapes, the band and normalisation; after the end marker the coder has finished cleanly; without the marker it stops once a known size is reached, or with no size once the coder has finished cleanly; the output only grows |
| LzmaModel.Process | src/decode/lzma.rs:504-514 | a known unpacked size is matched exactly, otherwise `ProcessedDataDoesNotMatchUnpackedSize`; with no size the coder has finished cleanly; the output only grows |
| LzmaTables.NewTable | src/decode/lzma.rs:163-175 | a new table of `n` probabilities at 0 |
| LzmaTables.NewReps | src/decode/lzma.rs:173 | `rep` of a new decoder is `[0; 4]` |
| LzmaTables.NewLenDecoders | src/decode/lzma.rs:174-175 | two new, separate length decoders at their initial tables |
| LzmaTables.NewDistanceTables | src/decode/lzma.rs:163-166 | the literal table and `pos_decoders` at 0, the four slot trees and the align tree at 0x400 |
| LzmaTables.NewFlagTables | src/decode/lzma.rs:167-172 | the six flag tables of `new`, at 0, with their sizes |
| LzmaTables.Allocate | src/decode/lzma.rs:157-178 | every table of `new`, freshly allocated and separate from one another, with the contents `new` gives them |
| LzmaTables.NewTablesOf | src/decode/lzma.rs:157-178 | those contents are the model's `NewTables` |
| Lzma.DecodeFlagAt | src/decode/lzma.rs:267-271 | `decode_bit` on `probs[i]` is `DecodeFlag`; without `update` the table is unchanged |
| Lzma.MatchedLevel | src/decode/lzma.rs:541-550 | one matched round, proved against `MatchedWalk` |
| Lzma.LiteralLoops | src/decode/lzma.rs:538-558 | the two loops compute `LiteralDecode` |
| Lzma.MatchedLoop | src/decode/lzma.rs:538-551 | the matched loop ends on the node the matched walk hands to the plain walk |
| Lzma.PlainLoop | src/decode/lzma.rs:554-558 | the plain loop finishes the tree walk, and the byte is its bits read most significant first |
| Lzma.DistanceFrom | src/decode/lzma.rs:561-590 | `decode_distance` over the given tables is `DistanceDecode` |
| Lzma.DecodeSlot | src/decode/lzma.rs:569 | the slot is `BitTreeDecode` on tree `len_state`, and only that tree changes |
| Lzma.DecodeSlotDistance | src/decode/lzma.rs:570-589 | the distance of the slot is `SlotDistance` |
| Lzma.DecodeSlotLow | src/decode/lzma.rs:574-587 | the low bits are `SlotLowBits` |
| Lzma.ReverseLowBits | src/decode/lzma.rs:577-582 | slots 4-13 use `parse_reverse_bit_tree` on `pos_decoders` at `base - slot` |
| Lzma.DirectLowOf | src/decode/lzma.rs:583-587 | slots 14-63 compute `DirectLow` |
| Lzma.DirectLowBits | src/decode/lzma.rs:585-586 | `get(ndb - 4) << 4`, then the align tree, failing with the first failing read |
| Lzma.AlignLowBits | src/decode/lzma.rs:586 | the four low bits from the reverse align tree, below the direct bits already read |
| Lzma.LiteralFrom | src/decode/lzma.rs:519-559 | `decode_literal` on the literal table is `LiteralOf` |
| Lzma.MoveToFrontInPlace | src/decode/lzma.rs:318-326 | the in-place loop leaves `rep` as `MoveToFront(old rep, idx)` |
| Lzma.DecoderState.FromParts | src/decode/lzma.rs:157-178 | a decoder over tables already allocated: uninitialized, no parameters, an empty dictionary, state 0 |
| Lzma.DecoderState.New | src/decode/lzma.rs:157-178 | a fresh decoder owning freshly allocated tables (so its caller may reset and step it); uninitialized, no parameters, an empty dictionary, and the model state `NewTables`, state 0, `rep = [0; 4]` |
| Lzma.DecoderState.TablesShaped | src/decode/lzma.rs:128-152 | the decoder's tables have the sizes `new` allocates |
| Lzma.DecoderState.Reset | src/decode/lzma.rs:206-227 | status `Continue`, no parameters, every probability 0x400, state 0, `rep = [0; 4]`, the dictionary emptied |
| Lzma.DecoderState.ResetTables | src/decode/lzma.rs:210-226 | the tables become `InitTables` and `rep` becomes `[0; 4]` |
| Lzma.DecoderState.ResetArrays | src/decode/lzma.rs:210-222 | every probability array back to 0x400, the length decoders left alone |
| Lzma.DecoderState.ResetCoders | src/decode/lzma.rs:224-226 | both length decoders back to their initial tables, `rep = [0; 4]` |
| Lzma.DecoderState.ResetDistanceTables | src/decode/lzma.rs:214-216 | slot trees, align tree and `pos_decoders` back to 0x400 |
| Lzma.DecoderState.ResetFlags | src/decode/lzma.rs:217-222 | the six flag tables back to 0x400 |
| Lzma.DecoderState.ResetReps | src/decode/lzma.rs:224 | `rep = [0; 4]` |
| Lzma.DecoderState.SetParams | src/decode/lzma.rs:190-203 | refused with `ProbabilitiesBufferTooSmall(2^(lc+lp), limit)` when the literal table is too small, changing nothing; otherwise it stores the parameters and the dictionary size; tables, state and distances never change |
| Lzma.DecoderState.DecodeLiteral | src/decode/lzma.rs:519-559 | byte, coder and literal table are those of `LiteralOf`; without `update` the table is unchanged |
| Lzma.DecoderState.DecodeDistance | src/decode/lzma.rs:561-590 | distance and coder are those of `DistanceDecode` on the decoder's slot trees, `pos_decoders` and align tree; the machine changes only in those tables, and not at all without `update` |
| Lzma.DecoderState.ProcessNextInner | src/decode/lzma.rs:252-372 | on success the result and new state are those of the model `Step`; on an error the same error is returned and the decoder state left behind is not specified; `Finished` is recorded only when returned; without `update` the tables, state, distances, output and status are unchanged whatever the outcome |
| Lzma.DecoderState.IsMatchStage | src/decode/lzma.rs:264-272 | computes `StepIsMatch`; without `update` the state is unchanged |
| Lzma.DecoderState.IsMatchBit | src/decode/lzma.rs:267-271 | the `is_match` flag, with only that table changed |
| Lzma.DecoderState.IsRepStage | src/decode/lzma.rs:292 | computes `StepIsRep` |
| Lzma.DecoderState.IsRepBit | src/decode/lzma.rs:292 | the `is_rep` flag, with only that table changed |
| Lzma.DecoderState.RepG0Stage | src/decode/lzma.rs:294 | computes `StepRepG0` |
| Lzma.DecoderState.RepG0Bit | src/decode/lzma.rs:294 | the `is_rep_g0` flag, with only that table changed |
| Lzma.DecoderState.Rep0LongStage | src/decode/lzma.rs:295-307 | computes `StepRep0Long` |
| Lzma.DecoderState.Rep0LongBit | src/decode/lzma.rs:295-298 | the `is_rep_0long` flag, with only that table changed |
| Lzma.DecoderState.RepG1Stage | src/decode/lzma.rs:310-311 | computes `StepRepG1` |
| Lzma.DecoderState.RepG1Bit | src/decode/lzma.rs:310 | the `is_rep_g1` flag, with only that table changed |
| Lzma.DecoderState.RepG2Stage | src/decode/lzma.rs:312-316 | computes `StepRepG2` |
| Lzma.DecoderState.RepG2Bit | src/decode/lzma.rs:312 | the `is_rep_g2` flag, with only that table changed |
| Lzma.DecoderState.LiteralStage | src/decode/lzma.rs:272-287 | computes `StepLiteral` |
| Lzma.DecoderState.LiteralBits | src/decode/lzma.rs:273 | `decode_literal`, with only the literal table changed |
| Lzma.DecoderState.RepLengthStage | src/decode/lzma.rs:318-368 | computes `StepRepLength` |
| Lzma.DecoderState.MoveRep | src/decode/lzma.rs:318-326 | `rep` becomes `MoveToFront(rep, idx)`, nothing else changes |
| Lzma.DecoderState.RepLen | src/decode/lzma.rs:328 | the repeat length decoder, with only its tables changed |
| Lzma.DecoderState.MatchLengthStage | src/decode/lzma.rs:334-348 | computes `StepMatchLength` |
| Lzma.DecoderState.ShiftReps | src/decode/lzma.rs:336-341 | `rep` becomes `ShiftBack(rep)`, nothing else changes |
| Lzma.DecoderState.MatchLen | src/decode/lzma.rs:343 | the match length decoder, with only its tables changed |
| Lzma.DecoderState.DistanceStage | src/decode/lzma.rs:350-368 | computes `StepDistance` |
| Lzma.DecoderState.PutLiteral | src/decode/lzma.rs:274-285 | the byte is appended and the state becomes `LiteralNext(state)` |
| Lzma.DecoderState.ShortRepStage | src/decode/lzma.rs:300-306 | computes `ShortRepTail` |
| Lzma.DecoderState.RepCopyStage | src/decode/lzma.rs:329-368 | computes `RepCopy` |
| Lzma.DecoderState.MatchState | src/decode/lzma.rs:345-348 | the state becomes `MatchNext(state)` |
| Lzma.DecoderState.MatchTailStage | src/decode/lzma.rs:352-368 | computes `MatchTail` |
| Lzma.DecoderState.EndOfStream | src/decode/lzma.rs:354-360 | `Finished` exactly when the coder has finished cleanly, otherwise `EosFoundButMoreBytesAvailable` |
| Lzma.DecoderState.SetRep0 | src/decode/lzma.rs:353 | `rep[0]` becomes the new distance |
| Lzma.DecoderState.PutCopy | src/decode/lzma.rs:365-368 | the state becomes the given next state (the short-rep and rep updates of lines 302 and 331; a match passes the state line 345 already set) and the output `append_lz(count, rep[0] + 1)` (count `len + 2` for a match or long rep, 1 for a short rep); on `append_lz`'s error that error is returned |

## Left out

- Lzma.DecoderState.SetParams: `self.output.set_dict_size(..)?` (lzma.rs:200) is modelled as always succeeding. The circular buffer's refusal of a dictionary larger than its memory limit is not modelled, because `lzbuffer.rs` is not part of this model.
- LzBuffer.SetDictSize: total, for the same reason.
- LzBuffer.AppendLiteral: total. The failure of `append_literal(output, byte)?` (lzma.rs:276) is not modelled, and neither is the write to the `io::Write` sink.
- LzBuffer.LastN: the two checks (distance beyond the dictionary size, then beyond the bytes written) and their order are assumed from the buffer's documented behaviour, because `lzbuffer.rs` is not part of this model. A circular buffer that has wrapped may refuse differently.
- LzBuffer.AppendLz: the same assumed checks as `LastN`. The output is modelled as the whole history since the last reset, so the circular buffer's wrap-around and the flushing of bytes to the sink are not modelled.
- LzBuffer.Reset: the sink is not modelled, so resetting only empties the history.
- Lzma.DecoderState.ProcessNextInner: the panic on missing parameters (lzma.rs:258-263) is a precondition (`Ready()`), not a modelled path.
- Lzma.DecoderState.ProcessNextInner: with `update`, the decoder the source leaves behind an error is partly updated, and the model does not say how. The state set before the short-rep copy (lzma.rs:302-304), the LRU moved before the repeat length (318-328), the shift and state before `decode_distance` (336-350), `rep[0]` set before `EosFoundButMoreBytesAvailable` (353-359) and the probabilities already adapted all stay. Only the error itself is promised, because `process_mode` hands the error to its caller and decodes nothing more (lzma.rs:472, 498).
- Lzma.DecoderState.SetParams: the panic on an uninitialized decoder (lzma.rs:191-193) is a precondition.
- LzmaModel.Run: only `Finish` mode with the whole input present. `Partial` mode is not modelled. Neither are `process_stream`, `partial_input_buf`, `read_partial_input_buf`, `try_process_next` and `process_next` (lzma.rs:374-412), because they buffer a streaming reader. What `try_process_next` relies on is stated by `Lzma.DecoderState.ProcessNextInner`: without `update` nothing changes, on error too.
- LzmaModel.Process: the loop is a function over the value model, not a method of `DecoderState`.
- RangeCoder.RangeDecoder.New: the reader is a byte sequence with a position, so every I/O error of the source is end of input (`UnexpectedEof`). `set`, `read_into` and `is_eof` are not modelled separately: `is_eof` is "position at the end".
- RangeCoder.BitTree.constructor: allocation through an `Allocator` (and its failure) is not modelled; the array is allocated directly.
- RangeCoder.LenDecoder.constructor: allocation failure is not modelled, as for `BitTree`.
- RangeCoder.BitTree.Reset: the source's `reset` of a bit tree and of a length decoder is not part of this model. It is modelled as putting every probability back at 0x400, which is what `new` gives them.
- RangeModel.Adapt: probabilities are `u16` values restricted to 0..0x800. The decoder never leaves that range, and outside it the source's arithmetic would overflow.
- LzmaHeader.ReadHeader: the reader's I/O errors are all `HeaderTooShort`. The `lzma_info!` logging is dropped.
- Lzma.DecoderState.New: `PROBS_MEM_LIMIT` and `DICT_MEM_LIMIT` are const generics in the source. Here the first is the field `limit`, and the second is the dictionary size the window keeps.
- All `lzma_debug!`/`lzma_trace!` logging is dropped. `usize` lengths are unbounded integers; the 32-bit registers and distances carry explicit bounds.
