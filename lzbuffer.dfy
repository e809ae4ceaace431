/** The dictionary the LZMA decoder writes into (`self.output`, an
    `LzBuffer`), as a value.  Its implementation is not part of this model:
    it is described only by what the decoder asks of it -- the bytes
    written since the last reset, the last byte, the byte `dist` places
    back, appending a literal and copying a match.  A back-reference may
    reach neither past the dictionary size nor past what has been written. */
module LzBuffer {
  import opened Base

  /** Every byte written since the last reset, and the dictionary size. */
  datatype Window = Window(history: seq<u8>, dictSize: nat)

  /** `len`: the number of bytes written since the last reset. */
  function Len(w: Window): nat {
    |w.history|
  }

  /** `last_or(lit)`: the last byte written, or `lit` before the first. */
  function LastOr(w: Window, lit: u8): u8 {
    if w.history == [] then lit else w.history[|w.history| - 1]
  }

  /** `last_n(dist)`: the byte `dist` places back; `dist` 1 is the last byte. */
  function LastN(w: Window, dist: nat): (r: Result<u8>)
    requires dist >= 1
    ensures r.Ok? <==> dist <= w.dictSize && dist <= |w.history|
    ensures r.Ok? ==> r.value == w.history[|w.history| - dist]
    ensures r.Err? && dist > w.dictSize ==> r.error == DistanceBeyondDictionary(dist, w.dictSize)
    ensures r.Err? && dist <= w.dictSize ==> r.error == DistanceBeyondOutput(dist, |w.history|)
  {
    if dist > w.dictSize then Err(DistanceBeyondDictionary(dist, w.dictSize))
    else if dist > |w.history| then Err(DistanceBeyondOutput(dist, |w.history|))
    else Ok(w.history[|w.history| - dist])
  }

  /** `append_literal`. */
  function AppendLiteral(w: Window, lit: u8): Window {
    w.(history := w.history + [lit])
  }

  /** Appends `len` bytes one at a time, each a copy of the byte `dist`
      places before it, so a copy longer than `dist` repeats the bytes it
      has just written. */
  function Copy(h: seq<u8>, len: nat, dist: nat): (r: seq<u8>)
    requires 1 <= dist <= |h|
    ensures |r| == |h| + len && r[..|h|] == h
    ensures forall i :: |h| <= i < |r| ==> r[i] == r[i - dist]
    decreases len
  {
    if len == 0 then h
    else
      var h' := h + [h[|h| - dist]];
      var r := Copy(h', len - 1, dist);
      assert r[..|h|] == r[..|h'|][..|h|];
      r
  }

  /** `append_lz(len, dist)`: the match copy, after the two distance checks. */
  function AppendLz(w: Window, len: nat, dist: nat): (r: Result<Window>)
    requires dist >= 1
    ensures r.Ok? <==> dist <= w.dictSize && dist <= |w.history|
    ensures r.Err? && dist > w.dictSize ==> r.error == DistanceBeyondDictionary(dist, w.dictSize)
    ensures r.Err? && dist <= w.dictSize ==> r.error == DistanceBeyondOutput(dist, |w.history|)
    ensures r.Ok? ==> r.value.dictSize == w.dictSize
    ensures r.Ok? ==> |r.value.history| == |w.history| + len && r.value.history[..|w.history|] == w.history
    ensures r.Ok? ==> forall i :: |w.history| <= i < |r.value.history| ==>
      r.value.history[i] == r.value.history[i - dist]
  {
    if dist > w.dictSize then Err(DistanceBeyondDictionary(dist, w.dictSize))
    else if dist > |w.history| then Err(DistanceBeyondOutput(dist, |w.history|))
    else Ok(w.(history := Copy(w.history, len, dist)))
  }

  /** A copy no longer than its distance is a plain copy of the `len`
      bytes that start `dist` places back. */
  lemma {:induction false} CopyDisjoint(h: seq<u8>, len: nat, dist: nat)
    requires 1 <= dist <= |h| && len <= dist
    ensures Copy(h, len, dist) == h + h[|h| - dist .. |h| - dist + len]
    decreases len
  {
    if len > 0 {
      var k := |h| - dist;
      var h' := h + [h[k]];
      assert Copy(h, len, dist) == Copy(h', len - 1, dist);
      CopyDisjoint(h', len - 1, dist);
      assert h' + h'[k + 1 .. k + len] == h + h[k .. k + len] by {
        assert h'[k + 1 .. k + len] == h[k + 1 .. k + len];
        assert h[k .. k + len] == [h[k]] + h[k + 1 .. k + len];
      }
    }
  }

  /** A copy at distance 1 repeats the last byte `len` times. */
  lemma {:induction false} CopyRun(h: seq<u8>, len: nat)
    requires 1 <= |h|
    ensures Copy(h, len, 1) == h + seq(len, _ => h[|h| - 1])
    decreases len
  {
    if len > 0 {
      var h' := h + [h[|h| - 1]];
      CopyRun(h', len - 1);
      assert h + seq(len, _ => h[|h| - 1]) == h' + seq(len - 1, _ => h'[|h'| - 1]);
    }
  }

  /** `reset`: the history is discarded; the dictionary size stays. */
  function Reset(w: Window): Window {
    Window([], w.dictSize)
  }

  /** `set_dict_size`. */
  function SetDictSize(w: Window, dictSize: nat): Window {
    w.(dictSize := dictSize)
  }
}
