/** The probability tables of `DecoderState` (src/decode/lzma.rs, lines
    157-180) as the arrays and trees it allocates: their sizes, that no
    two share memory, and the contents `new` gives them. */
module LzmaTables {
  import opened Base
  import opened RangeModel
  import opened RangeCoder
  import opened LzmaModel

  /** A new table of `n` probabilities at 0 (`[0; n]`). */
  method NewTable(n: nat) returns (a: array<Prob>)
    ensures fresh(a) && a[..] == Zeros(n)
  {
    a := new Prob[n](_ => 0);
    assert a[..] == Zeros(n);
  }

  /** `[0; 4]`: the repeat distances of a new decoder, none of `taken`. */
  method NewReps(ghost taken: set<object>) returns (a: array<nat>)
    ensures fresh(a) && a !in taken && a.Length == 4 && a[..] == [0, 0, 0, 0]
  {
    a := new nat[4](_ => 0);
    assert a[..] == [0, 0, 0, 0];
  }

  /** A new length decoder, apart from the objects `taken` already allocated. */
  method NewLenDecoder(ghost taken: set<object>) returns (d: LenDecoder)
    ensures d.Valid() && d.Tables() == InitLenTables() && fresh(d) && fresh(d.Repr)
    ensures taken !! d.Repr && d !in taken + d.Repr
  {
    d := new LenDecoder();
  }

  /** The two length decoders of a new decoder, apart from each other and
      from the objects `own` already allocated. */
  method NewLenDecoders(ghost own: set<object>) returns (len: LenDecoder, repLen: LenDecoder)
    ensures len.Valid() && repLen.Valid() && len.Tables() == InitLenTables() && repLen.Tables() == InitLenTables()
    ensures fresh(len) && fresh(repLen) && fresh(len.Repr) && fresh(repLen.Repr)
    ensures len.Repr !! repLen.Repr && own !! len.Repr + repLen.Repr
    ensures len !in own + len.Repr + repLen.Repr && repLen !in own + len.Repr + repLen.Repr && len != repLen
  {
    len := NewLenDecoder(own);
    repLen := NewLenDecoder(own + {len} + len.Repr);
  }

  /** The literal, slot and align arrays and `pos_decoders`. */
  ghost function DistanceArrays(lit: array<Prob>, trees: seq<BitTree>, align: BitTree, pos: array<Prob>): set<object>
    requires |trees| == 4
  {
    {lit, pos, align.probs, trees[0].probs, trees[1].probs, trees[2].probs, trees[3].probs}
  }

  /** The sizes of the literal, slot, align and `pos_decoders` tables, no
      two sharing an array. */
  ghost predicate DistanceLayout(limit: nat, lit: array<Prob>, trees: seq<BitTree>, align: BitTree, pos: array<Prob>) {
    && lit.Length == limit * 0x300 && pos.Length == 115
    && |trees| == 4 && Disjoint(trees)
    && (forall i :: 0 <= i < 4 ==> trees[i].numBits == 6 && trees[i].Valid())
    && align.numBits == 4 && align.Valid()
    && RangeCoder.Arrays(trees) == {trees[0].probs, trees[1].probs, trees[2].probs, trees[3].probs}
    && lit != align.probs && pos !in {lit, align.probs}
    && (forall k :: 0 <= k < 4 ==> trees[k].probs !in {pos, lit, align.probs})
  }

  /** The sizes of the six flag tables, no two the same array. */
  ghost predicate FlagLayout(m: array<Prob>, r: array<Prob>, g0: array<Prob>, g1: array<Prob>, g2: array<Prob>,
                             l0: array<Prob>) {
    && m.Length == 192 && r.Length == 12 && g0.Length == 12 && g1.Length == 12
    && g2.Length == 12 && l0.Length == 192
    && m !in {r, g0, g1, g2, l0} && r !in {g0, g1, g2, l0} && g0 !in {g1, g2, l0}
    && g1 !in {g2, l0} && g2 != l0
  }

  /** The arrays of a decoder other than its length decoders'. */
  ghost function Own(lit: array<Prob>, trees: seq<BitTree>, align: BitTree, pos: array<Prob>,
                     m: array<Prob>, r: array<Prob>, g0: array<Prob>, g1: array<Prob>, g2: array<Prob>,
                     l0: array<Prob>, reps: array<nat>): set<object>
    requires |trees| == 4
  {
    DistanceArrays(lit, trees, align, pos) + {m, r, g0, g1, g2, l0} + {reps}
  }

  /** The arrays of a decoder other than its length decoders' as `new`
      lays them out: the sizes it allocates, no two the same array. */
  ghost predicate OwnLayout(limit: nat, lit: array<Prob>, trees: seq<BitTree>, align: BitTree, pos: array<Prob>,
                            m: array<Prob>, r: array<Prob>, g0: array<Prob>, g1: array<Prob>, g2: array<Prob>,
                            l0: array<Prob>, reps: array<nat>)
  {
    && DistanceLayout(limit, lit, trees, align, pos)
    && FlagLayout(m, r, g0, g1, g2, l0)
    && m !in DistanceArrays(lit, trees, align, pos) && r !in DistanceArrays(lit, trees, align, pos)
    && g0 !in DistanceArrays(lit, trees, align, pos) && g1 !in DistanceArrays(lit, trees, align, pos)
    && g2 !in DistanceArrays(lit, trees, align, pos) && l0 !in DistanceArrays(lit, trees, align, pos)
    && reps.Length == 4 && reps !in DistanceArrays(lit, trees, align, pos) + {m, r, g0, g1, g2, l0}
  }

  /** The tables of a decoder as `new` lays them out: the sizes it
      allocates, no two tables sharing memory, and `repr` every object
      they occupy. */
  ghost predicate Layout(limit: nat, lit: array<Prob>, trees: seq<BitTree>, align: BitTree, pos: array<Prob>,
                         m: array<Prob>, r: array<Prob>, g0: array<Prob>, g1: array<Prob>, g2: array<Prob>,
                         l0: array<Prob>, reps: array<nat>, len: LenDecoder, repLen: LenDecoder, repr: set<object>)
  {
    && OwnLayout(limit, lit, trees, align, pos, m, r, g0, g1, g2, l0, reps)
    && len.Valid() && repLen.Valid() && len != repLen
    && len.Repr !! repLen.Repr
    && Own(lit, trees, align, pos, m, r, g0, g1, g2, l0, reps) !! len.Repr + repLen.Repr
    && len !in Own(lit, trees, align, pos, m, r, g0, g1, g2, l0, reps) + len.Repr + repLen.Repr
    && repLen !in Own(lit, trees, align, pos, m, r, g0, g1, g2, l0, reps) + len.Repr + repLen.Repr
    && repr == Own(lit, trees, align, pos, m, r, g0, g1, g2, l0, reps) + {len, repLen} + len.Repr + repLen.Repr
  }

  /** The probabilities held in the given tables, as a value of the model. */
  ghost function TablesOf(limit: nat, lit: array<Prob>, trees: seq<BitTree>, align: BitTree, pos: array<Prob>,
                          m: array<Prob>, r: array<Prob>, g0: array<Prob>, g1: array<Prob>, g2: array<Prob>,
                          l0: array<Prob>, reps: array<nat>, len: LenDecoder, repLen: LenDecoder,
                          repr: set<object>): ProbTables
    requires Layout(limit, lit, trees, align, pos, m, r, g0, g1, g2, l0, reps, len, repLen, repr)
    reads repr
  {
    ProbTables(m[..], r[..], g0[..], g1[..], g2[..], l0[..], pos[..], lit[..], Rows(trees), align.probs[..],
               len.Tables(), repLen.Tables())
  }

  /** The literal, slot, align and `pos_decoders` tables of `new`. */
  method NewDistanceTables(limit: nat) returns (lit: array<Prob>, trees: seq<BitTree>, align: BitTree, pos: array<Prob>)
    ensures DistanceLayout(limit, lit, trees, align, pos) && fresh(DistanceArrays(lit, trees, align, pos))
    ensures lit[..] == Zeros(limit * 0x300) && pos[..] == Zeros(115)
    ensures Rows(trees) == FreshRows(4, 64) && align.probs[..] == Fresh(16)
  {
    lit := NewTable(limit * 0x300);
    trees := NewTrees(4, 6);
    ArraysOfFour(trees);
    align := new BitTree(4);
    pos := NewTable(115);
    assert Pow2(4) == 16 && Pow2(6) == 64;
  }

  /** The six flag tables of `new`, none of `taken`. */
  method NewFlagTables(ghost taken: set<object>)
    returns (m: array<Prob>, r: array<Prob>, g0: array<Prob>, g1: array<Prob>, g2: array<Prob>, l0: array<Prob>)
    ensures FlagLayout(m, r, g0, g1, g2, l0)
    ensures m !in taken && r !in taken && g0 !in taken && g1 !in taken && g2 !in taken && l0 !in taken
    ensures fresh(m) && fresh(r) && fresh(g0) && fresh(g1) && fresh(g2) && fresh(l0)
    ensures m[..] == Zeros(192) && r[..] == Zeros(12) && g0[..] == Zeros(12)
    ensures g1[..] == Zeros(12) && g2[..] == Zeros(12) && l0[..] == Zeros(192)
  {
    m := NewTable(192);
    r := NewTable(12);
    g0 := NewTable(12);
    g1 := NewTable(12);
    g2 := NewTable(12);
    l0 := NewTable(192);
  }

  /** Every table of `new`, laid out as `Layout` demands. */
  method Allocate(limit: nat)
    returns (lit: array<Prob>, trees: seq<BitTree>, align: BitTree, pos: array<Prob>,
             m: array<Prob>, r: array<Prob>, g0: array<Prob>, g1: array<Prob>, g2: array<Prob>, l0: array<Prob>,
             reps: array<nat>, len: LenDecoder, repLen: LenDecoder, ghost repr: set<object>)
    ensures Layout(limit, lit, trees, align, pos, m, r, g0, g1, g2, l0, reps, len, repLen, repr)
    ensures NewContents(limit, lit, trees, align, pos, m, r, g0, g1, g2, l0, len, repLen)
    ensures reps[..] == [0, 0, 0, 0]
    ensures fresh(repr)
  {
    lit, trees, align, pos, m, r, g0, g1, g2, l0, reps := AllocateOwn(limit);
    ghost var own := Own(lit, trees, align, pos, m, r, g0, g1, g2, l0, reps);
    assert fresh(own);
    len, repLen := NewLenDecoders(own);
    repr := own + {len, repLen} + len.Repr + repLen.Repr;
  }

  /** The contents `new` gives its tables. */
  ghost predicate NewContents(limit: nat, lit: array<Prob>, trees: seq<BitTree>, align: BitTree, pos: array<Prob>,
                              m: array<Prob>, r: array<Prob>, g0: array<Prob>, g1: array<Prob>, g2: array<Prob>,
                              l0: array<Prob>, len: LenDecoder, repLen: LenDecoder)
    requires len.Valid() && repLen.Valid()
    reads lit, pos, align.probs, m, r, g0, g1, g2, l0, len, repLen, len.Repr, repLen.Repr
    reads RangeCoder.Arrays(trees)
  {
    && lit[..] == Zeros(limit * 0x300) && pos[..] == Zeros(115)
    && Rows(trees) == FreshRows(4, 64) && align.probs[..] == Fresh(16)
    && m[..] == Zeros(192) && r[..] == Zeros(12) && g0[..] == Zeros(12)
    && g1[..] == Zeros(12) && g2[..] == Zeros(12) && l0[..] == Zeros(192)
    && len.Tables() == InitLenTables() && repLen.Tables() == InitLenTables()
  }

  /** Tables with the contents `new` gives them are the model's new tables. */
  lemma NewTablesOf(limit: nat, lit: array<Prob>, trees: seq<BitTree>, align: BitTree, pos: array<Prob>,
                    m: array<Prob>, r: array<Prob>, g0: array<Prob>, g1: array<Prob>, g2: array<Prob>,
                    l0: array<Prob>, reps: array<nat>, len: LenDecoder, repLen: LenDecoder, repr: set<object>)
    requires Layout(limit, lit, trees, align, pos, m, r, g0, g1, g2, l0, reps, len, repLen, repr)
    requires lit[..] == Zeros(limit * 0x300) && pos[..] == Zeros(115)
    requires Rows(trees) == FreshRows(4, 64) && align.probs[..] == Fresh(16)
    requires m[..] == Zeros(192) && r[..] == Zeros(12) && g0[..] == Zeros(12)
    requires g1[..] == Zeros(12) && g2[..] == Zeros(12) && l0[..] == Zeros(192)
    requires len.Tables() == InitLenTables() && repLen.Tables() == InitLenTables()
    ensures TablesOf(limit, lit, trees, align, pos, m, r, g0, g1, g2, l0, reps, len, repLen, repr) == NewTables(limit)
  {}

  /** The tables of `new` other than the length decoders. */
  method AllocateOwn(limit: nat)
    returns (lit: array<Prob>, trees: seq<BitTree>, align: BitTree, pos: array<Prob>,
             m: array<Prob>, r: array<Prob>, g0: array<Prob>, g1: array<Prob>, g2: array<Prob>, l0: array<Prob>,
             reps: array<nat>)
    ensures OwnLayout(limit, lit, trees, align, pos, m, r, g0, g1, g2, l0, reps)
    ensures fresh(Own(lit, trees, align, pos, m, r, g0, g1, g2, l0, reps))
    ensures lit[..] == Zeros(limit * 0x300) && pos[..] == Zeros(115)
    ensures Rows(trees) == FreshRows(4, 64) && align.probs[..] == Fresh(16)
    ensures m[..] == Zeros(192) && r[..] == Zeros(12) && g0[..] == Zeros(12)
    ensures g1[..] == Zeros(12) && g2[..] == Zeros(12) && l0[..] == Zeros(192)
    ensures reps[..] == [0, 0, 0, 0]
  {
    lit, trees, align, pos := NewDistanceTables(limit);
    ghost var distance := DistanceArrays(lit, trees, align, pos);
    assert fresh(distance);
    m, r, g0, g1, g2, l0 := NewFlagTables(distance);
    ghost var flags: set<object> := {m, r, g0, g1, g2, l0};
    assert fresh(distance);
    assert fresh(flags);
    FreshUnion(distance, flags);
    reps := NewReps(distance + flags);
    FreshUnion(distance + flags, {reps});
  }

  /** Objects allocated since the old state, taken together. */
  twostate lemma FreshUnion(new a: set<object>, new b: set<object>)
    requires fresh(a) && fresh(b)
    ensures fresh(a + b)
  {}
}
