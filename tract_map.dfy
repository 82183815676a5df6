/**
 * The slice layout that bismit's `SliceTractMap` gives the window code.
 *
 * The map lives in an external crate; the window code uses only three of its
 * queries: `slc_id_range()`, `axn_count(range)` and `axn_id_range(range)`.
 * This module models the map as a contiguous layout: the slices with ids
 * `firstSlc .. firstSlc + |axnCounts|` are stored one after another in
 * slice-id order, slice `firstSlc + k` holding `axnCounts[k]` axons (cells).
 * The layout facts the window code relies on (ordered slices give ordered,
 * disjoint axon ranges; the whole slice range covers `0 .. axn_count`) are
 * proved below about this layout.
 */
module TractMaps {
  import opened Types

  datatype Layout = Layout(firstSlc: Byte, axnCounts: seq<nat>)

  /** The map's slice range is a `Range<u8>`, so its end, one past the last slice id, fits in a `u8`. */
  type SliceTractMap = m: Layout | m.firstSlc + |m.axnCounts| <= 0xFF
    witness Layout(0, [])

  /** `slc_id_range()`: the ids of every slice the map holds. */
  function SlcIdRange(m: SliceTractMap): (r: Range<Byte>)
    ensures r.start == m.firstSlc && r.end - r.start == |m.axnCounts|
  {
    Range(m.firstSlc, m.firstSlc + |m.axnCounts|)
  }

  /** The slice range `r` is an interval of the map's own slice ids. */
  predicate Covers(m: SliceTractMap, r: Range<Byte>) {
    m.firstSlc <= r.start <= r.end <= m.firstSlc + |m.axnCounts|
  }

  function Sum(s: seq<nat>): nat {
    if s == [] then 0 else Sum(s[..|s| - 1]) + s[|s| - 1]
  }

  /** Index of the first axon of slice `slc` (for `slc` one past the last slice: the axon count). */
  function AxnIdz(m: SliceTractMap, slc: int): nat
    requires m.firstSlc <= slc <= m.firstSlc + |m.axnCounts|
  {
    Sum(m.axnCounts[..slc - m.firstSlc])
  }

  /** `axn_count(range)`: how many axons the slices of `r` hold together. */
  function AxnCount(m: SliceTractMap, r: Range<Byte>): nat
    requires Covers(m, r)
  {
    Sum(m.axnCounts[r.start - m.firstSlc .. r.end - m.firstSlc])
  }

  /**
   * `axn_id_range(range)`: where the axons of the slices of `r` lie in the flat
   * axon space; a range outside the map is a panic of the map.
   */
  function AxnIdRange(m: SliceTractMap, r: Range<Byte>): Result<Range<nat>> {
    if Covers(m, r) then Ok(Range(AxnIdz(m, r.start), AxnIdz(m, r.end)))
    else Err(TractMapOutOfRange)
  }

  /** A prefix sum is the sum up to `i` plus the sum of the next stretch. */
  lemma {:induction false} SumSplit(s: seq<nat>, i: nat, j: nat)
    requires i <= j <= |s|
    ensures Sum(s[..j]) == Sum(s[..i]) + Sum(s[i..j])
  {
    if j == i {
      assert s[i..j] == [];
    } else {
      SumSplit(s, i, j - 1);
      assert s[..j][..j - 1] == s[..j - 1];
      assert s[i..j][..j - 1 - i] == s[i..j - 1];
    }
  }

  /**
   * `axn_id_range` succeeds exactly on the map's own slice intervals, and then
   * it is the interval of `axn_count(r)` axons that starts after the axons of
   * every earlier slice.
   */
  lemma AxnIdRangeSpec(m: SliceTractMap, r: Range<Byte>)
    ensures AxnIdRange(m, r).Ok? <==> Covers(m, r)
    ensures Covers(m, r) ==>
      var ar := AxnIdRange(m, r).value;
      && ar.start == AxnCount(m, Range(m.firstSlc, r.start))
      && ar.start <= ar.end
      && ar.end - ar.start == AxnCount(m, r)
  {
    if Covers(m, r) {
      SumSplit(m.axnCounts, r.start - m.firstSlc, r.end - m.firstSlc);
      assert m.axnCounts[0 .. r.start - m.firstSlc] == m.axnCounts[..r.start - m.firstSlc];
    }
  }

  /** The whole slice range of the map covers axons `0 .. axn_count(slc_id_range())`, every axon of the map. */
  lemma TotalAxnIdRange(m: SliceTractMap)
    ensures Covers(m, SlcIdRange(m))
    ensures AxnCount(m, SlcIdRange(m)) == Sum(m.axnCounts)
    ensures AxnIdRange(m, SlcIdRange(m)) == Ok(Range(0, AxnCount(m, SlcIdRange(m))))
  {
    assert m.axnCounts[..0] == [];
    assert m.axnCounts[0 .. |m.axnCounts|] == m.axnCounts;
    assert m.axnCounts[..|m.axnCounts|] == m.axnCounts;
  }

  /**
   * Slice intervals that follow one another give axon ranges that follow one
   * another: the first ends no later than the second starts, so they are disjoint.
   */
  lemma OrderedSlicesOrderedAxons(m: SliceTractMap, r1: Range<Byte>, r2: Range<Byte>)
    requires Covers(m, r1) && Covers(m, r2) && r1.end <= r2.start
    ensures AxnIdRange(m, r1).value.end <= AxnIdRange(m, r2).value.start
    ensures r1.end == r2.start ==> AxnIdRange(m, r1).value.end == AxnIdRange(m, r2).value.start
  {
    SumSplit(m.axnCounts, r1.end - m.firstSlc, r2.start - m.firstSlc);
  }

  /** The axon range of one slice holds exactly that slice's axons. */
  lemma SingleSliceAxnIdRange(m: SliceTractMap, slc: Byte)
    requires m.firstSlc <= slc < m.firstSlc + |m.axnCounts|
    ensures AxnIdRange(m, Range(slc, slc + 1)).Ok?
    ensures var ar := AxnIdRange(m, Range(slc, slc + 1)).value;
      ar.end - ar.start == m.axnCounts[slc - m.firstSlc]
  {
    var k := slc - m.firstSlc;
    assert m.axnCounts[..k + 1][..k] == m.axnCounts[..k];
  }
}
