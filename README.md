# vibi window core in Dafny

This project models, and proves properties of, the window-side core of vibi, a viewer for bismit cortical simulations. It covers four parts:

- **`HexGridBuffer`** (`hex_grid_buffer.dfy`, module `HexGridBuffers`). A byte buffer of cell states is shared with the simulation thread behind a mutex. A render-side vertex buffer mirrors it. Three slice ranges (total, default, current) and a slice map say which slices are where. The class keeps the shared bytes as an `array` that the producer reaches through the handle `RawStatesVec` returns. The mirror is a `seq<StateVertex>`. The mutex is an input, `LockState`: `Free`, `HeldByProducer` or `Poisoned`.
  - `RefreshVertexBuf` replaces the whole mirror with the shared bytes, or leaves it exactly as it was. It never touches the shared bytes, the ranges or the map.
  - The `Vec<u8>` to `Vec<StateVertex>` pointer cast is `AsVertices`, proved lossless.
  - `RefreshScenario` walks a 64 x 64 grid through a contended refresh and then an uncontended one.
- **The slice map** (`tract_map.dfy`, module `TractMaps`). bismit's `SliceTractMap` is modelled as a contiguous layout: each slice holds a number of axons (cells), stored one slice after another in slice-id order. The facts the window code relies on are proved about that layout:
  - ordered slices give ordered, disjoint axon ranges;
  - the whole slice range covers `0 .. axn_count`;
  - a single slice's range holds exactly its own axons.
- **The hex-grid flyover demo** (`flyover.dfy`, module `HexGridFlyover`).
  - The key handling that updates `grid_side` and `exit_app` is a transition function, `OnEvent`.
  - The per-frame event loop is `HandleEvents`. The render loop is `Window`: it draws `grid_side * grid_side` instances per frame and stops after the first frame that sets `exit_app`.
  - `HexIbo` is the hexagon index list.
- **The `Ui` builder** (`ui.dfy`, module `WindowUi`).
  - `Ui` has two phases: add elements, then `init`.
  - `init` concatenates each element's vertices. Each element's indices are generated from the running vertex count, cast to `u16`.
  - `UiElement` is external. The three methods `Ui` calls on it are passed in as arbitrary total functions (`ElementOps`), about which nothing is assumed.
  - `LifecycleScenario` walks through the phases.

Panics are modelled as error outcomes: `Outcome.Panicked` and `Result.Err`, carrying a `Panic` reason. Integer widths (`u8`, `u16`, `u32`) are subset types in `types.dfy`. The `u8` addition in `raw_states_buf` and the `u16` cast in `Ui::init` are written out. An arithmetic overflow is taken to panic, as in a debug build.

The accessors `raw_states_buf`, `cur_slc_range`, `cur_axn_range` and `tract_map` are modelled as the reading functions `HexGridBuffer.RawStatesBuf`, `CurSlcRange`, `CurAxnRange` and `TractMap`. Their properties are stated by the lemmas `RawStatesBufSpec` and `CurAxnRangeWhole`. `curSlcRange` and `totalSlcRange` are `const` fields: they are set by `new` and nothing reassigns them, as in the source. Each method's `modifies` clause names exactly the fields it replaces.

The code makes none of the following checks, and the model adds none:

- `set_default_slc_range` does not check its range against the total range.
- `set_tract_map` does not compare the new map's size with the buffers.
- Writes to the shared bytes carry no length check.
- On the live `try_lock` path, a poisoned lock is skipped silently, the same as contention.
- An out-of-range `raw_states_buf` panics. It does not return a recoverable error.

The doc comment on `refresh_vertex_buf` speaks of converting states to floats. The code copies the raw bytes, and so does the model.

## Model

| member | source | states |
|---|---|---|
| `TractMaps.AxnIdRangeSpec` | src/window/hex_grid_buffer.rs:145 | `axn_id_range(r)` succeeds exactly when `r` is an interval of the map's slices; it then starts after the axons of all earlier slices and spans `axn_count(r)` axons |
| `TractMaps.TotalAxnIdRange` | src/window/hex_grid_buffer.rs:32-35 | the whole slice range maps to axons `0 .. axn_count(slc_id_range())`, the sum of every slice's axons |
| `TractMaps.OrderedSlicesOrderedAxons` | src/window/hex_grid_buffer.rs:145 | ordered slice intervals have ordered, disjoint axon ranges; adjacent intervals have adjacent ranges |
| `TractMaps.SingleSliceAxnIdRange` | src/window/hex_grid_buffer.rs:145 | the range of `slc..slc+1` holds exactly that slice's axon count |
| `HexGridBuffers.AsVerticesRoundTrip` | src/window/hex_grid_buffer.rs:64-65 | casting bytes to vertices and reading them back gives the original bytes |
| `HexGridBuffers.AsBytesRoundTrip` | src/window/hex_grid_buffer.rs:175-177 | every vertex sequence is the cast of its own bytes |
| `HexGridBuffers.HexGridBuffer.constructor` | src/window/hex_grid_buffer.rs:28-61 | shared buffer fresh, length `axn_count(slc_id_range())`, all zeros; mirror is the cast of those bytes, so all zero vertices; total, default and current ranges all equal the map's slice range; the first argument is ignored; refresh is non-blocking |
| `HexGridBuffers.HexGridBuffer.WriteToBuf` | src/window/hex_grid_buffer.rs:63-67 | the mirror becomes the given bytes cast to vertices; nothing else changes |
| `HexGridBuffers.HexGridBuffer.RefreshBlocking` | src/window/hex_grid_buffer.rs:81-90 | blocking path: unless the lock is poisoned, the mirror becomes the cast of the shared bytes; a poisoned lock panics and leaves the mirror unchanged |
| `HexGridBuffers.HexGridBuffer.RefreshOpportunistic` | src/window/hex_grid_buffer.rs:91-100 | `try_lock` path: a free lock copies the whole shared buffer; a held or poisoned lock returns without a panic and with the mirror unchanged |
| `HexGridBuffers.HexGridBuffer.RefreshVertexBuf` | src/window/hex_grid_buffer.rs:80-112 | the mirror becomes a byte-identical copy of the shared buffer or keeps its old contents, by lock state and mode; only the mirror may change; mirror length is preserved |
| `HexGridBuffers.HexGridBuffer.SetDefaultSlcRange` | src/window/hex_grid_buffer.rs:114-116 | replaces only the default slice range, with no bounds check |
| `HexGridBuffers.HexGridBuffer.SetTractMap` | src/window/hex_grid_buffer.rs:118-120 | replaces only the map, with no size check; buffers and ranges untouched |
| `HexGridBuffers.HexGridBuffer.FillRand` | src/window/hex_grid_buffer.rs:124-135 | a poisoned lock panics before any write; otherwise every shared byte is in `0..=254` (the half-open `0..255`); length is kept and the mirror is not touched |
| `HexGridBuffers.HexGridBuffer.RawStatesVec` | src/window/hex_grid_buffer.rs:138-140 | the handle is the shared buffer itself (aliasing), not a copy |
| `HexGridBuffers.HexGridBuffer.RawStatesBuf` | src/window/hex_grid_buffer.rs:144-152 | `raw_states_buf(slc_id)`: the `u8` overflow of `slc_id + 1`, the map's panic, and the failed `expect` on `slice` are its three error outcomes; which ids succeed and which cells come back is proved in `RawStatesBufSpec` |
| `HexGridBuffers.HexGridBuffer.RawStatesBufSpec` | src/window/hex_grid_buffer.rs:144-152 | while the mirror is sized to the map, `raw_states_buf(s)` succeeds exactly for the map's slice ids and returns the mirror's cells at `axn_id_range(s..s+1)`; other ids, including one past the last, panic |
| `HexGridBuffers.HexGridBuffer.CurSlcRange` | src/window/hex_grid_buffer.rs:154-156 | `cur_slc_range()` returns the current slice range; that range is a `const` field, which the constructor sets to the whole slice range of the map it is given |
| `HexGridBuffers.HexGridBuffer.CurAxnRange` | src/window/hex_grid_buffer.rs:158-166 | `cur_axn_range()` is the map's axon range of the current slice range; `CurAxnRangeWhole` proves it is the whole mirror while the mirror is sized to the map |
| `HexGridBuffers.HexGridBuffer.TractMap` | src/window/hex_grid_buffer.rs:168-170 | `tract_map()` returns the stored map, which is the one `new` took until `SetTractMap` replaces it (their contracts) |
| `HexGridBuffers.HexGridBuffer.CurAxnRangeWhole` | src/window/hex_grid_buffer.rs:158-166 | `cur_axn_range()` is `axn_id_range(cur_slc_range)`; with the construction-time ranges this is the whole mirror |
| `HexGridFlyover.OnKeyReleased` | src/demos/window_hex_grid_flyover.rs:162-169 | the `match vk_code` arm for a released key; its effect is proved in `OnEventEffect`, `GrowThenShrink` and `OnEventInBounds` |
| `HexGridFlyover.OnEvent` | src/demos/window_hex_grid_flyover.rs:152-175 | one iteration of the `match ev`; `OnEventEffect` proves `exit_app` becomes set exactly on an exit event and the side changes only on a released arrow key, `OnEventInBounds` that the side stays in bounds, `IgnoredEvents` that every other event changes nothing |
| `HexGridFlyover.OnEventInBounds` | src/demos/window_hex_grid_flyover.rs:164-167 | every event keeps `1 <= grid_side <= 2 * MAX_GRID_SIDE`: shrinking needs `grid_side > 1`, growing needs `grid_side <= 1024` |
| `HexGridFlyover.ApplyEventsInBounds` | src/demos/window_hex_grid_flyover.rs:150-176 | any sequence of events keeps the grid side within those bounds |
| `HexGridFlyover.OnEventEffect` | src/demos/window_hex_grid_flyover.rs:153-175 | `exit_app` afterwards is the old value or-ed with "the event is `Closed` or a released Q/Escape"; the grid side changes only on a released arrow key |
| `HexGridFlyover.IgnoredEvents` | src/demos/window_hex_grid_flyover.rs:157-174 | presses, releases without a key code, other keys and other events change nothing |
| `HexGridFlyover.GrowThenShrink` | src/demos/window_hex_grid_flyover.rs:164-167 | when the growth step fires, Up then Down, and Right then Left, restore the grid side |
| `HexGridFlyover.ExitSticky` | src/demos/window_hex_grid_flyover.rs:153-175 | once `exit_app` is set, no later events reset it |
| `HexGridFlyover.HandleEvents` | src/demos/window_hex_grid_flyover.rs:150-176 | the per-frame event loop applies the events in order, one `match` per event |
| `HexGridFlyover.GridCount` | src/demos/window_hex_grid_flyover.rs:188 | `grid_count`, the number of instances drawn; `GridCountFits` proves it is between 1 and 4194304 in bounds, so the `u32` product does not wrap |
| `HexGridFlyover.GridCountFits` | src/demos/window_hex_grid_flyover.rs:188 | within bounds, `grid_side * grid_side` is between 1 and 4194304, so the `u32` product cannot wrap |
| `HexGridFlyover.AfterFramesInBounds` | src/demos/window_hex_grid_flyover.rs:146 | starting from `GRID_SIDE`, the grid side stays in bounds after any number of frames |
| `HexGridFlyover.Window` | src/demos/window_hex_grid_flyover.rs:149-255 | each frame draws `grid_side * grid_side` instances, using that frame's grid side after its events; the loop stops after the first frame that ends with `exit_app` set, and `i` counts the frames drawn |
| `HexGridFlyover.HexIbo` | src/demos/window_hex_grid_flyover.rs:294-303 | 18 indices, each below the 7 vertices of `hex_vbo` |
| `HexGridFlyover.TriangleCorners` | src/demos/window_hex_grid_flyover.rs:295-302 | triangle `t` has vertex 0, corner `t + 1` and the next corner round: a fan around the centre |
| `WindowUi.AsU16` | src/window/ui.rs:81 | `vertices.len() as u16`, the low 16 bits; `OffsetsExact` proves it is the exact count below 65536 vertices |
| `WindowUi.AllVertices` | src/window/ui.rs:78-86 | the vertex list `init` builds, one element after another; `AllVerticesPrefix` and `ElementChunks` prove each element's vertices sit right after those of the elements before it, and `Ui.Init` that the loop builds exactly this list |
| `WindowUi.AllIndices` | src/window/ui.rs:78-86 | the index list `init` builds, each element's indices generated with the `u16` count of the vertices before it; `AllIndicesPrefix` and `ElementChunks` prove where each element's indices lie, and `Ui.Init` that the loop builds exactly this list |
| `WindowUi.ElementChunks` | src/window/ui.rs:78-86 | element `k`'s vertices, and its indices generated with offset the (`u16`-cast) vertex count of elements `0..k`, sit right after those of elements `0..k` in the assembled buffers |
| `WindowUi.AllVerticesPrefix` | src/window/ui.rs:83-85 | the vertices of the first `j` elements are a prefix of the vertex list |
| `WindowUi.AllIndicesPrefix` | src/window/ui.rs:81 | the indices of the first `j` elements are a prefix of the index list |
| `WindowUi.OffsetsExact` | src/window/ui.rs:81 | below 65536 vertices in all, `vertices.len() as u16` does not wrap, and every offset is the exact vertex count before the element |
| `WindowUi.Ui.constructor` | src/window/ui.rs:24-63 | no vertex buffer, no index buffer, no elements |
| `WindowUi.Ui.Element` | src/window/ui.rs:65-72 | appends at the end while neither buffer exists; otherwise panics and adds nothing |
| `WindowUi.Ui.Init` | src/window/ui.rs:74-93 | elements get their text widths; the vertex buffer is the in-order concatenation of their vertices; the index buffer is the in-order concatenation of their indices at running offsets; both buffers exist |
| `WindowUi.Ui.Resize` | src/window/ui.rs:95-112 | panics before `init`; afterwards rebuilds the vertex buffer from the elements in order; elements and index buffer untouched |
| `WindowUi.Ui.Draw` | src/window/ui.rs:114-117 | panics unless both buffers exist |

## Left out

- GPU and display: the `display` arguments, `Program` and shader compilation, and the draw calls themselves are not modelled. Neither are `VertexBuffer::dynamic`/`IndexBuffer::new` failing at `unwrap`, or glium's internal checks in `write`, `slice` and `draw`. `slice` is modelled only as a bounds-checked subsequence that panics at `expect`.
- `SliceTractMap` internals live in the bismit crate. The map is modelled as a contiguous layout in slice-id order. A query about slices the map does not hold is assumed to panic (error `TractMapOutOfRange`).
- Threads and the `Mutex`: the lock's state at each call is an input (`LockState`), not concurrency.
- HexGridBuffers.HexGridBuffer.RefreshBlocking: the blocking `lock()` is assumed to return. A producer holding the lock releases it eventually; the unbounded wait is not modelled.
- The producer's writes: the producer writes bytes of the shared array through the handle. Replacing the `Vec` with one of a different length is not modelled, since the array's length is fixed.
- The `rand` generator: `fill_rand` picks each byte nondeterministically from the sampled range.
- src/demos/window_glium_v1.rs and src/lib.rs as a whole: window setup, teapot, textures and module declarations.
- In the flyover demo: shaders, `persp_matrix`, `view_matrix`, the camera animation with the `f32` counter `t`, and the hexagon's vertex coordinates. All are floating point. Only the vertex count 7 of `hex_vbo` is kept.
- HexGridFlyover.Window: the source's `loop` is unbounded. The model runs over a finite list of frames and stops early on exit; the `Sender`/`Receiver` arguments are unused.
- In `Ui`: text rendering (`TextSystem`, `FontTexture`, `glium_text::draw`, `TextDisplay`), the font bytes, draw parameters and uniforms. The `f32` `scale` passed to `vertices` is folded into the abstract `vertices` function.
- `get_framebuffer_dimensions()` is called once per element in `init` and `resize`. The model reads the dimensions once per call (`dims`), so it does not capture a window resized in the middle of either loop.
- WindowUi.Ui.Resize: glium's `write` requires the new vertex list to be as long as the buffer. That length check is not modelled.
