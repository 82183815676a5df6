/**
 * The hex-grid flyover demo's event handling: released arrow keys resize the
 * grid, Q, Escape or closing the window ends the render loop, and every frame
 * draws `grid_side * grid_side` hexagon instances from a fixed index list.
 */
module HexGridFlyover {
  import opened Types

  const GRID_SIDE: U32 := 64
  const MAX_GRID_SIDE: U32 := 1024

  datatype ElementState = Pressed | Released

  datatype VirtualKeyCode = Q | Escape | Up | Down | Left | Right | OtherKey(code: nat)

  /** The window events the loop matches on; every other event is `OtherEvent`. */
  datatype Event =
    | Closed
    | KeyboardInput(state: ElementState, scanCode: Byte, vkCode: Option<VirtualKeyCode>)
    | OtherEvent

  /** The loop variables the events update: `grid_side` and `exit_app`. */
  datatype Controls = Controls(gridSide: U32, exitApp: bool)

  /** The loop variables before the first frame. */
  const Initial: Controls := Controls(GRID_SIDE, false)

  /** The arm of the key `match` for a released key. */
  function OnKeyReleased(c: Controls, key: VirtualKeyCode): Controls {
    match key
    case Q | Escape => c.(exitApp := true)
    case Up => if c.gridSide <= MAX_GRID_SIDE then c.(gridSide := c.gridSide * 2) else c
    case Down => if c.gridSide > 1 then c.(gridSide := c.gridSide / 2) else c
    case Right => if c.gridSide <= MAX_GRID_SIDE then c.(gridSide := c.gridSide + 1) else c
    case Left => if c.gridSide > 1 then c.(gridSide := c.gridSide - 1) else c
    case OtherKey(_) => c
  }

  /** One iteration of the event `match`. */
  function OnEvent(c: Controls, ev: Event): Controls {
    match ev
    case Closed => c.(exitApp := true)
    case KeyboardInput(Released, _, Some(key)) => OnKeyReleased(c, key)
    case _ => c
  }

  /** The loop variables after handling `evs` in order. */
  function ApplyEvents(c: Controls, evs: seq<Event>): Controls {
    if evs == [] then c else OnEvent(ApplyEvents(c, evs[..|evs| - 1]), evs[|evs| - 1])
  }

  /** The events that end the render loop. */
  predicate IsExitEvent(ev: Event) {
    ev == Closed || (ev.KeyboardInput? && ev.state == Released && ev.vkCode in {Some(Q), Some(Escape)})
  }

  /** The grid side stays between 1 and twice `MAX_GRID_SIDE`. */
  predicate InBounds(c: Controls) {
    1 <= c.gridSide <= 2 * MAX_GRID_SIDE
  }

  /** Every event keeps the grid side in bounds: shrinking needs a side above 1, growing a side of at most 1024. */
  lemma OnEventInBounds(c: Controls, ev: Event)
    requires InBounds(c)
    ensures InBounds(OnEvent(c, ev))
  {
  }

  /** So does every sequence of events. */
  lemma {:induction false} ApplyEventsInBounds(c: Controls, evs: seq<Event>)
    requires InBounds(c)
    ensures InBounds(ApplyEvents(c, evs))
  {
    if evs != [] {
      ApplyEventsInBounds(c, evs[..|evs| - 1]);
      OnEventInBounds(ApplyEvents(c, evs[..|evs| - 1]), evs[|evs| - 1]);
    }
  }

  /**
   * `exit_app` is set exactly by the exit events and is never reset; the grid
   * side changes only on a released arrow key.
   */
  lemma OnEventEffect(c: Controls, ev: Event)
    ensures OnEvent(c, ev).exitApp == (c.exitApp || IsExitEvent(ev))
    ensures OnEvent(c, ev).gridSide != c.gridSide ==>
      ev.KeyboardInput? && ev.state == Released && ev.vkCode in {Some(Up), Some(Down), Some(Left), Some(Right)}
  {
  }

  /** A key press, a release without a key code and any other key leave everything as it was. */
  lemma IgnoredEvents(c: Controls, ev: Event)
    requires || ev == OtherEvent
             || (ev.KeyboardInput? && (ev.state == Pressed || ev.vkCode.None? || ev.vkCode.value.OtherKey?))
    ensures OnEvent(c, ev) == c
  {
  }

  /** Up and then Down, or Right and then Left, give back the side they started from whenever the growth step fires. */
  lemma GrowThenShrink(c: Controls, sc: Byte)
    requires 1 <= c.gridSide <= MAX_GRID_SIDE
    ensures OnEvent(OnEvent(c, KeyboardInput(Released, sc, Some(Up))), KeyboardInput(Released, sc, Some(Down))) == c
    ensures OnEvent(OnEvent(c, KeyboardInput(Released, sc, Some(Right))), KeyboardInput(Released, sc, Some(Left))) == c
  {
  }

  /** Once set, `exit_app` stays set whatever events follow. */
  lemma {:induction false} ExitSticky(c: Controls, evs: seq<Event>)
    requires c.exitApp
    ensures ApplyEvents(c, evs).exitApp
  {
    if evs != [] {
      ExitSticky(c, evs[..|evs| - 1]);
    }
  }

  /** The `for ev in display.poll_events()` loop of one frame. */
  method HandleEvents(c: Controls, evs: seq<Event>) returns (d: Controls)
    ensures d == ApplyEvents(c, evs)
  {
    d := c;
    for k := 0 to |evs|
      invariant d == ApplyEvents(c, evs[..k])
    {
      assert evs[..k + 1][..k] == evs[..k];
      d := OnEvent(d, evs[k]);
    }
    assert evs[..|evs|] == evs;
  }

  /** `grid_count`: the number of hexagon instances drawn, `grid_side * grid_side`. */
  function GridCount(gridSide: U32): nat {
    gridSide * gridSide
  }

  lemma MulLe(a: nat, b: nat, c: nat)
    requires a <= b
    ensures a * c <= b * c
  {
  }

  /** In bounds, the `u32` product `grid_side * grid_side` cannot wrap, and at least one hexagon is drawn. */
  lemma GridCountFits(c: Controls)
    requires InBounds(c)
    ensures 1 <= GridCount(c.gridSide) <= 4 * MAX_GRID_SIDE * MAX_GRID_SIDE < 0x1_0000_0000
  {
    var g: nat := c.gridSide;
    MulLe(g, 2 * MAX_GRID_SIDE, g);
    MulLe(g, 2 * MAX_GRID_SIDE, 2 * MAX_GRID_SIDE);
    MulLe(1, g, 1);
    MulLe(1, g, g);
  }

  /** The loop variables after the events of every frame in `frames`. */
  function AfterFrames(frames: seq<seq<Event>>): Controls {
    if frames == [] then Initial
    else ApplyEvents(AfterFrames(frames[..|frames| - 1]), frames[|frames| - 1])
  }

  /** From the start, the grid side is in bounds after any number of frames. */
  lemma {:induction false} AfterFramesInBounds(frames: seq<seq<Event>>)
    ensures InBounds(AfterFrames(frames))
  {
    if frames != [] {
      AfterFramesInBounds(frames[..|frames| - 1]);
      ApplyEventsInBounds(AfterFrames(frames[..|frames| - 1]), frames[|frames| - 1]);
    }
  }

  /** The loop variables at the end of frame `n`, after the events of the first `n` frames. */
  function StateAfterFrame(frames: seq<seq<Event>>, n: nat): Controls
    requires n <= |frames|
  {
    AfterFrames(frames[..n])
  }

  /**
   * The render loop of `window`, fed the events of each frame in turn: each
   * frame handles its events, draws `grid_count` instances and stops after the
   * first frame that ends with `exit_app` set. `drawn` lists the instance
   * counts drawn, and `i` counts the frames.
   */
  method Window(frames: seq<seq<Event>>) returns (drawn: seq<nat>, i: nat)
    ensures i == |drawn| <= |frames|
    ensures forall n :: 1 <= n <= i ==> drawn[n - 1] == GridCount(StateAfterFrame(frames, n).gridSide)
    ensures forall n :: 1 <= n < i ==> !StateAfterFrame(frames, n).exitApp
    ensures i < |frames| ==> 0 < i && StateAfterFrame(frames, i).exitApp
  {
    var c := Initial;
    drawn := [];
    i := 0;
    while i < |frames|
      invariant i == |drawn| <= |frames|
      invariant c == StateAfterFrame(frames, i)
      invariant forall n :: 1 <= n <= i ==> drawn[n - 1] == GridCount(StateAfterFrame(frames, n).gridSide)
      invariant forall n :: 1 <= n <= i ==> !StateAfterFrame(frames, n).exitApp
    {
      c := HandleEvents(c, frames[i]);
      assert frames[..i + 1][..i] == frames[..i];
      drawn := drawn + [GridCount(c.gridSide)];
      i := i + 1;
      if c.exitApp {
        break;
      }
    }
  }

  /** The number of vertices `hex_vbo` uploads: the centre and the six corners. */
  const HEX_VERTEX_COUNT: nat := 7

  /** `hex_ibo`: the hexagon's index list, six triangles. */
  function HexIbo(): (indices: seq<U16>)
    ensures |indices| == 18
    ensures forall k :: 0 <= k < |indices| ==> indices[k] < HEX_VERTEX_COUNT
  {
    [ 0, 1, 2,
      2, 3, 0,
      0, 3, 4,
      4, 5, 0,
      0, 5, 6,
      6, 1, 0 ]
  }

  /** The `t`-th triangle of `hex_ibo`. */
  function Triangle(t: nat): seq<U16>
    requires t < 6
  {
    HexIbo()[3 * t .. 3 * t + 3]
  }

  /**
   * The triangles are a fan around the centre vertex 0: triangle `t` has the
   * three vertices centre, corner `t + 1` and the next corner round.
   */
  lemma TriangleCorners(t: nat)
    requires t < 6
    ensures |Triangle(t)| == 3
    ensures 0 in Triangle(t) && t + 1 in Triangle(t) && (t + 1) % 6 + 1 in Triangle(t)
  {
    if t == 0 { assert Triangle(t) == [0, 1, 2]; }
    else if t == 1 { assert Triangle(t) == [2, 3, 0]; }
    else if t == 2 { assert Triangle(t) == [0, 3, 4]; }
    else if t == 3 { assert Triangle(t) == [4, 5, 0]; }
    else if t == 4 { assert Triangle(t) == [0, 5, 6]; }
    else { assert Triangle(t) == [6, 1, 0]; }
  }
}
