/**
 * `HexGridBuffer`: raw state bytes from a cortical ganglion, shared with the
 * simulation thread behind a mutex, and the render-side vertex buffer that
 * mirrors them.
 *
 * The mutex is not modelled as concurrency: each operation that takes the
 * lock is told the lock's state at that moment (`LockState`). The bytes the
 * producer writes are the shared array itself, which it reaches through the
 * handle `RawStatesVec` returns.
 */
module HexGridBuffers {
  import opened Types
  import opened TractMaps

  /** Whether `refresh_vertex_buf` waits for the lock; `false` means it only tries. */
  const SMOOTH_REFRESH: bool := false

  /** `StateVertex`: the per-instance vertex attribute, a wrapper around exactly one state byte. */
  datatype StateVertex = StateVertex(state: Byte)

  /**
   * The pointer cast from `Vec<u8>` to `Vec<StateVertex>`: it reinterprets the
   * bytes in place, so the vertex at each position wraps the byte at that position.
   */
  function AsVertices(bytes: seq<Byte>): (vs: seq<StateVertex>)
    ensures |vs| == |bytes|
    ensures forall i :: 0 <= i < |bytes| ==> vs[i].state == bytes[i]
  {
    seq(|bytes|, i requires 0 <= i < |bytes| => StateVertex(bytes[i]))
  }

  /** The bytes a sequence of vertices is laid out as, one byte per vertex. */
  function AsBytes(vs: seq<StateVertex>): (bytes: seq<Byte>)
    ensures |bytes| == |vs|
    ensures forall i :: 0 <= i < |vs| ==> bytes[i] == vs[i].state
  {
    seq(|vs|, i requires 0 <= i < |vs| => vs[i].state)
  }

  /** The cast loses nothing: reading the vertices back as bytes gives the original bytes. */
  lemma AsVerticesRoundTrip(bytes: seq<Byte>)
    ensures AsBytes(AsVertices(bytes)) == bytes
  {
  }

  /** And every vertex sequence is the cast of its own bytes, so the cast is onto. */
  lemma AsBytesRoundTrip(vs: seq<StateVertex>)
    ensures AsVertices(AsBytes(vs)) == vs
  {
  }

  /** What the mutex around the shared bytes is doing when the renderer asks for it. */
  datatype LockState =
    | Free            // nobody holds it
    | HeldByProducer  // the simulation thread is writing
    | Poisoned        // a holder panicked while holding it

  class HexGridBuffer {
    /** `raw_states_vec`: the bytes behind the `Arc<Mutex<Vec<u8>>>`; the `Arc` is never replaced. */
    const rawStatesVec: array<Byte>
    /** Whether `refresh_vertex_buf` blocks on the lock; fixed to `SMOOTH_REFRESH`. */
    const smoothRefresh: bool
    /** `raw_states_buf`: the render-side vertex buffer. */
    var rawStatesBuf: seq<StateVertex>
    /** The total and current slice ranges are set by `new` and never reassigned. */
    const totalSlcRange: Range<Byte>
    var defaultSlcRange: Range<Byte>
    const curSlcRange: Range<Byte>
    var tractMap: SliceTractMap

    /** The vertex buffer is as long as the shared byte buffer, so a refresh copies the whole of it. */
    ghost predicate Valid()
      reads this
    {
      |rawStatesBuf| == rawStatesVec.Length
    }

    /**
     * `HexGridBuffer::new`: the first argument is ignored; both buffers hold one
     * zero per axon of the map's whole slice range, and every slice range is that range.
     */
    constructor (ignoredSlcRange: Range<Byte>, tractMap: SliceTractMap)
      ensures Valid() && fresh(rawStatesVec)
      ensures rawStatesVec.Length == AxnCount(tractMap, SlcIdRange(tractMap))
      ensures forall i :: 0 <= i < rawStatesVec.Length ==> rawStatesVec[i] == 0
      ensures rawStatesBuf == AsVertices(rawStatesVec[..])
      ensures forall i :: 0 <= i < |rawStatesBuf| ==> rawStatesBuf[i] == StateVertex(0)
      ensures totalSlcRange == defaultSlcRange == curSlcRange == SlcIdRange(tractMap)
      ensures this.tractMap == tractMap
      ensures !smoothRefresh
    {
      var defaultRange := SlcIdRange(tractMap);
      var gridCount := AxnCount(tractMap, defaultRange);
      var rawStates := new Byte[gridCount](_ => 0);
      rawStatesVec := rawStates;
      smoothRefresh := SMOOTH_REFRESH;
      rawStatesBuf := AsVertices(rawStates[..]);
      totalSlcRange := SlcIdRange(tractMap);
      defaultSlcRange := defaultRange;
      curSlcRange := defaultRange;
      this.tractMap := tractMap;
    }

    /** `write_to_buf`: the vertex buffer becomes the given bytes, cast to vertices. */
    method WriteToBuf(rawStates: seq<Byte>)
      modifies this`rawStatesBuf
      ensures rawStatesBuf == AsVertices(rawStates)
    {
      rawStatesBuf := AsVertices(rawStates);
    }

    /** The `SMOOTH_REFRESH` path: wait for the lock, then copy; a poisoned lock panics. */
    method RefreshBlocking(lock: LockState) returns (r: Outcome)
      requires Valid()
      modifies this`rawStatesBuf
      ensures Valid()
      ensures r == (if lock == Poisoned then Panicked(LockPoisoned) else Done)
      ensures rawStatesBuf == (if lock == Poisoned then old(rawStatesBuf) else AsVertices(rawStatesVec[..]))
    {
      // A lock held by the producer is waited for; then it is ours.
      if lock == Poisoned {
        r := Panicked(LockPoisoned);
      } else {
        WriteToBuf(rawStatesVec[..]);
        r := Done;
      }
    }

    /**
     * The `try_lock` path: copy if the lock is free at once, otherwise return
     * without copying; a poisoned lock is an error of `try_lock` like contention, so it is skipped too.
     */
    method RefreshOpportunistic(lock: LockState) returns (r: Outcome)
      requires Valid()
      modifies this`rawStatesBuf
      ensures Valid() && r == Done
      ensures rawStatesBuf == (if lock == Free then AsVertices(rawStatesVec[..]) else old(rawStatesBuf))
    {
      if lock == Free {
        WriteToBuf(rawStatesVec[..]);
      }
      r := Done;
    }

    /**
     * `refresh_vertex_buf`: the vertex buffer becomes a byte-for-byte copy of the
     * shared buffer or keeps its old contents; nothing else changes.
     */
    method RefreshVertexBuf(lock: LockState) returns (r: Outcome)
      requires Valid()
      modifies this`rawStatesBuf
      ensures Valid()
      ensures r == (if smoothRefresh && lock == Poisoned then Panicked(LockPoisoned) else Done)
      ensures rawStatesBuf == (
        if lock == Free || (smoothRefresh && lock == HeldByProducer) then AsVertices(rawStatesVec[..])
        else old(rawStatesBuf))
      ensures lock == Free ==> AsBytes(rawStatesBuf) == rawStatesVec[..]
    {
      if smoothRefresh {
        r := RefreshBlocking(lock);
      } else {
        r := RefreshOpportunistic(lock);
      }
      AsVerticesRoundTrip(rawStatesVec[..]);
    }

    /** `set_default_slc_range`: replaces the default slice range, unchecked; nothing else changes. */
    method SetDefaultSlcRange(slcRange: Range<Byte>)
      requires Valid()
      modifies this`defaultSlcRange
      ensures Valid() && defaultSlcRange == slcRange
    {
      defaultSlcRange := slcRange;
    }

    /** `set_tract_map`: replaces the slice map, without comparing its size to the buffers; nothing else changes. */
    method SetTractMap(tractMap: SliceTractMap)
      requires Valid()
      modifies this`tractMap
      ensures Valid() && this.tractMap == tractMap
    {
      this.tractMap := tractMap;
    }

    /**
     * `fill_rand`: under the blocking lock, every shared byte gets a value drawn
     * from the half-open range `0..255`; a poisoned lock panics at `unwrap`
     * before anything is written. The vertex buffer is not touched.
     */
    method FillRand(lock: LockState) returns (r: Outcome)
      requires Valid()
      modifies rawStatesVec
      ensures Valid()
      ensures lock == Poisoned ==> r == Panicked(LockPoisoned) && rawStatesVec[..] == old(rawStatesVec[..])
      ensures lock != Poisoned ==> r == Done
      ensures lock != Poisoned ==> forall i :: 0 <= i < rawStatesVec.Length ==> rawStatesVec[i] < 255
    {
      if lock == Poisoned {
        return Panicked(LockPoisoned);
      }
      var i := 0;
      while i < rawStatesVec.Length
        invariant 0 <= i <= rawStatesVec.Length
        invariant forall k :: 0 <= k < i ==> rawStatesVec[k] < 255
      {
        var sample: Byte :| 0 <= sample < 255;
        rawStatesVec[i] := sample;
        i := i + 1;
      }
      r := Done;
    }

    /** `raw_states_vec()`: a handle on the shared bytes; it is the buffer itself, not a copy. */
    method RawStatesVec() returns (handle: array<Byte>)
      ensures handle == rawStatesVec
    {
      handle := rawStatesVec;
    }

    /**
     * `raw_states_buf(slc_id)`: the part of the vertex buffer that holds slice
     * `slcId`. It panics when `slc_id + 1` overflows, when the map does not hold
     * the slice, and when the slice's axon range runs past the vertex buffer.
     */
    function RawStatesBuf(slcId: Byte): Result<seq<StateVertex>>
      reads this
    {
      if slcId == 0xFF then Err(SlcIdOverflow)
      else match AxnIdRange(tractMap, Range(slcId, slcId + 1))
        case Err(p) => Err(p)
        case Ok(ar) =>
          if ar.start <= ar.end <= |rawStatesBuf| then Ok(rawStatesBuf[ar.start..ar.end])
          else Err(SliceOutOfRange)
    }

    /** `cur_slc_range()`. */
    function CurSlcRange(): Range<Byte>
      reads this
    {
      curSlcRange
    }

    /** `cur_axn_range()`: the axons of the current slice range. */
    function CurAxnRange(): Result<Range<nat>>
      reads this
    {
      AxnIdRange(tractMap, curSlcRange)
    }

    /** `tract_map()`. */
    function TractMap(): SliceTractMap
      reads this
    {
      tractMap
    }

    /** The buffers are sized to the whole slice range of the current map (true from `new` until a map of another size is set). */
    ghost predicate SizedToMap()
      reads this
    {
      |rawStatesBuf| == AxnCount(tractMap, SlcIdRange(tractMap))
    }

    /**
     * While the buffers are sized to the map, `raw_states_buf(s)` succeeds for
     * exactly the map's slice ids and returns that slice's cells, in place;
     * an id outside the map (such as one past the last) panics.
     */
    lemma RawStatesBufSpec(slcId: Byte)
      requires SizedToMap()
      ensures RawStatesBuf(slcId).Ok? <==> tractMap.firstSlc <= slcId < SlcIdRange(tractMap).end
      ensures RawStatesBuf(slcId).Ok? ==>
        var cells, lo := RawStatesBuf(slcId).value, AxnIdz(tractMap, slcId);
        && |cells| == tractMap.axnCounts[slcId - tractMap.firstSlc]
        && lo + |cells| <= |rawStatesBuf|
        && cells == rawStatesBuf[lo .. lo + |cells|]
    {
      var m := tractMap;
      if m.firstSlc <= slcId < SlcIdRange(m).end {
        SingleSliceAxnIdRange(m, slcId);
        TotalAxnIdRange(m);
        OrderedSlicesOrderedAxons(m, Range(slcId, slcId + 1), Range(SlcIdRange(m).end, SlcIdRange(m).end));
      }
    }

    /** While the current range is the map's whole range and the buffers are sized to it, `cur_axn_range()` is the whole buffer. */
    lemma CurAxnRangeWhole()
      requires SizedToMap() && curSlcRange == SlcIdRange(tractMap)
      ensures CurAxnRange() == Ok(Range(0, |rawStatesBuf|))
    {
      TotalAxnIdRange(tractMap);
    }
  }

  /**
   * A producer/consumer walk-through on a 64 x 64 grid: a write under contention
   * is not seen by the vertex buffer; the next uncontended refresh copies it.
   */
  method RefreshScenario() {
    var m: SliceTractMap := Layout(0, [4096]);
    TotalAxnIdRange(m);
    assert m.axnCounts[..1] == [4096];
    var grid := new HexGridBuffer(Range(0, 0), m);
    assert grid.rawStatesVec.Length == 4096;
    var producer := grid.RawStatesVec();
    producer[10] := 200;
    var r := grid.RefreshVertexBuf(HeldByProducer);
    assert grid.rawStatesBuf[10] == StateVertex(0);
    r := grid.RefreshVertexBuf(Free);
    assert AsBytes(grid.rawStatesBuf)[10] == 200;
    assert grid.RawStatesBuf(1) == Err(TractMapOutOfRange);
  }
}
