# MiEx: multipart conditions and the 2D map renderer

This project models two parts of MiEx, a Minecraft world exporter, and
proves properties of the models.

**Multipart block states.** A multipart blockstate is a list of pieces, each
with an optional `when` condition. `BlockStateMultiPart.usePart` decides
whether a piece applies to a block, given the block's properties as NBT tags:

- no condition means the piece always applies;
- an `OR` array needs one of its objects to be satisfied;
- an `AND` array needs all of them;
- otherwise the `when` object itself is the condition.

`testProperties` checks one condition object against the properties:

- a property whose name the object does not mention is ignored;
- a tag of a type without a text form is ignored;
- a byte, short, int, long, float, double or string value must be accepted
  by one of the `|`-separated alternatives, where `"true"` and `"false"` also
  accept `"1"` and `"0"`.

**The 2D renderer.** `Renderer2D` runs a render loop. Each tick it:

- skips when nothing was requested and nothing finished loading;
- (re)allocates the back buffer to the viewport size;
- on a full render, records the chunk rectangle under the viewport and
  visits every chunk in it, dispatching a load task for each chunk that
  needs a tile and has none in flight, and drawing each cached tile;
- draws the chunks finished since the last tick;
- copies the back buffer to the front buffer.

A `LoadChunkTask` drops its work when its chunk has left the current
rectangle. Otherwise it loads the chunk and adds it to the finished list.

The files:

- `wrappers.dfy` holds Option, used for Java's null.
- `javalang.dfy` holds the Java semantics the code relies on: `int`
  wrap-around, `1 << n`, `>> 4`, decimal `toString` and `String.split("\\|")`.
- `multipart.dfy` holds the conditions as predicates, the matching loops as
  methods proved equal to them, and lemmas about the predicates.
- `rendermodel.dfy` holds the renderer's tick and task as functions on
  values, and lemmas about them.
- `renderer.dfy` holds the objects: the world's chunk store, the renderer
  and the loading task. Their methods update fields in place and are proved
  equal to the functions of `rendermodel.dfy`.

Source paths below are relative to the repository root.

## Model

| member | source | states |
|---|---|---|
| MultiPart.UsePart | src/nl/bramstout/mcworldexporter/model/BlockStateMultiPart.java:96-115 | the loop's answer equals `Applies`: true without a condition, OR decided by some element, else AND by every element, else the object itself |
| MultiPart.TestProperties | src/nl/bramstout/mcworldexporter/model/BlockStateMultiPart.java:117-172 | the loop over the tags returns exactly `Satisfies`: every named tag with a text value is accepted by some alternative |
| MultiPart.AnyAlternativeAccepts | src/nl/bramstout/mcworldexporter/model/BlockStateMultiPart.java:156-168 | found is true iff some alternative equals the value or is the `true`/`false` alias of `1`/`0` |
| MultiPart.PropValue | src/nl/bramstout/mcworldexporter/model/BlockStateMultiPart.java:122-154 | a text value exists exactly for tag IDs 1-6 and 8; a string tag's text is its value |
| MultiPart.SatisfiesConcat | src/nl/bramstout/mcworldexporter/model/BlockStateMultiPart.java:118-171 | a condition object holds for p + q iff it holds for p and for q |
| MultiPart.SatisfiesByMembers | src/nl/bramstout/mcworldexporter/model/BlockStateMultiPart.java:118-171 | satisfaction is a property of each tag alone |
| MultiPart.SatisfiesOrderIndependent | src/nl/bramstout/mcworldexporter/model/BlockStateMultiPart.java:118-171 | reordering the properties (same multiset) does not change the outcome |
| MultiPart.UnnamedKeyIgnored | src/nl/bramstout/mcworldexporter/model/BlockStateMultiPart.java:119-120 | adding or removing a key that no property has leaves the outcome unchanged |
| MultiPart.EmptyCheckSatisfied | src/nl/bramstout/mcworldexporter/model/BlockStateMultiPart.java:118-171 | an empty condition object is satisfied by any properties |
| MultiPart.UnsupportedTagIgnored | src/nl/bramstout/mcworldexporter/model/BlockStateMultiPart.java:152-156 | a tag whose ID is not 1-6 or 8 never changes the outcome |
| MultiPart.ValueAllowedByPieces | src/nl/bramstout/mcworldexporter/model/BlockStateMultiPart.java:121-166 | for a non-empty value, acceptance is the same over Java's split as over all the pieces between separators |
| MultiPart.SingleProperty | src/nl/bramstout/mcworldexporter/model/BlockStateMultiPart.java:117-172 | a lone supported property satisfies a one-key object iff its text is allowed by the alternatives |
| MultiPart.BooleanAliases | src/nl/bramstout/mcworldexporter/model/BlockStateMultiPart.java:162 | byte 1 and string "1" match "true", byte 0 matches "false", byte 0 does not match "true" |
| MultiPart.EmptyValueAlternatives | src/nl/bramstout/mcworldexporter/model/BlockStateMultiPart.java:121 | an empty string value matches the empty text and a text that starts with a separator before "a", but not a lone separator, for which Java's split returns no pieces |
| MultiPart.ConditionKinds | src/nl/bramstout/mcworldexporter/model/BlockStateMultiPart.java:97-115 | no condition applies; OR wins over AND; OR is an existential and AND a universal over the elements; empty OR fails, empty AND holds |
| JavaLang.DecimalRoundTrip | src/nl/bramstout/mcworldexporter/model/BlockStateMultiPart.java:126-138 | the decimal text of an integral tag reads back to its value, so the text determines it |
| JavaLang.DecimalInjective | src/nl/bramstout/mcworldexporter/model/BlockStateMultiPart.java:126-138 | two integral values with the same text are equal |
| JavaLang.SplitAllJoin | src/nl/bramstout/mcworldexporter/model/BlockStateMultiPart.java:121 | splitting at every separator loses nothing: joining the pieces gives the text back |
| JavaLang.JoinSplitAll | src/nl/bramstout/mcworldexporter/model/BlockStateMultiPart.java:121 | separator-free pieces joined and split again come back unchanged |
| JavaLang.JavaSplitNonEmpty | src/nl/bramstout/mcworldexporter/model/BlockStateMultiPart.java:121 | a non-empty alternative is in Java's split result iff it is one of the pieces between separators |
| JavaLang.DropTrailingEmpty | src/nl/bramstout/mcworldexporter/model/BlockStateMultiPart.java:121 | the result is a prefix ending in a non-empty piece, and only empty pieces are dropped |
| JavaLang.ShiftLeftOne | src/nl/bramstout/mcworldexporter/ui/Renderer2D.java:163 | `1 << n` is 2^n for counts 0-30, and INT_MIN when the masked count is 31 |
| JavaLang.ShiftRight4 | src/nl/bramstout/mcworldexporter/ui/Renderer2D.java:134-137 | `x >> 4` is the chunk c with 16c <= x < 16c + 16, negatives included |
| RenderModel.TileResolution | src/nl/bramstout/mcworldexporter/ui/Renderer2D.java:161-163 | a tile is drawn at its width up to zoom 4, and at width times 2^(zoom-4) above it when that fits in an int |
| RenderModel.TileResolutionDoubles | src/nl/bramstout/mcworldexporter/ui/Renderer2D.java:161-163 | each zoom level above 4 doubles the drawn tile size |
| RenderModel.RowMembers | src/nl/bramstout/mcworldexporter/ui/Renderer2D.java:140 | the inner loop visits exactly the chunks of its row from minX to maxX, each once |
| RenderModel.GridMembers | src/nl/bramstout/mcworldexporter/ui/Renderer2D.java:139-140 | the nested loops visit exactly the chunks of the rectangle, each once |
| RenderModel.VisitedIdempotent | src/nl/bramstout/mcworldexporter/ui/Renderer2D.java:146-153 | visiting a chunk twice sets its flags as once, and never touches images or the load error |
| RenderModel.VisitedFlags | src/nl/bramstout/mcworldexporter/ui/Renderer2D.java:146-153 | a chunk needing a tile loses its redraw mark, is marked in flight unless it failed to load, and a dispatched chunk is then not dispatchable |
| RenderModel.VisitAllChunks | src/nl/bramstout/mcworldexporter/ui/Renderer2D.java:139-167 | after the sweep, visited chunks have their visited flags and others are unchanged; no chunk is added or removed |
| RenderModel.VisitAllImages | src/nl/bramstout/mcworldexporter/ui/Renderer2D.java:139-167 | the sweep does not change any chunk's images |
| RenderModel.VisitAllSubmitted | src/nl/bramstout/mcworldexporter/ui/Renderer2D.java:149-152 | over distinct positions, the sweep submits exactly the dispatchable chunks, in visiting order |
| RenderModel.VisitAllTiles | src/nl/bramstout/mcworldexporter/ui/Renderer2D.java:154-165 | the sweep draws one tile per visited chunk with a cached image at the zoom, in order |
| RenderModel.DispatchedMembers | src/nl/bramstout/mcworldexporter/ui/Renderer2D.java:141-152 | a chunk is dispatched iff it is visited, present and dispatchable; distinct positions give distinct tasks |
| RenderModel.DrainTilesImages | src/nl/bramstout/mcworldexporter/ui/Renderer2D.java:171-191 | draining depends only on the chunks' images, not on their flags |
| RenderModel.TickEarlyExits | src/nl/bramstout/mcworldexporter/ui/Renderer2D.java:90-96 | the request flag is always cleared; with no request and no finished chunk nothing changes; an empty viewport only clears the flag |
| RenderModel.TickBufferSize | src/nl/bramstout/mcworldexporter/ui/Renderer2D.java:100-104 | after an active tick the back buffer has the viewport's size; a reallocation forces a full render |
| RenderModel.TickWithoutWorld | src/nl/bramstout/mcworldexporter/ui/Renderer2D.java:121-126 | without a world the buffer is prepared but nothing is drawn, dispatched, drained or swapped, and the range is kept |
| RenderModel.TickSwaps | src/nl/bramstout/mcworldexporter/ui/Renderer2D.java:171-202 | an active tick with a world empties the finished list and publishes the back buffer with the transform it was drawn for |
| RenderModel.TickRange | src/nl/bramstout/mcworldexporter/ui/Renderer2D.java:128-137 | a full render records the chunks containing the viewport's world corners; an incremental tick keeps the range |
| RenderModel.TickTiles | src/nl/bramstout/mcworldexporter/ui/Renderer2D.java:121-193 | a full render draws the rectangle's cached tiles and then the finished ones on a cleared buffer; an incremental one adds the finished ones to the old tiles |
| RenderModel.TickDispatch | src/nl/bramstout/mcworldexporter/ui/Renderer2D.java:133-153 | a full render submits each chunk of the new range that needs a tile, is not in flight and did not fail, exactly once, and visits exactly the range |
| RenderModel.IncrementalTickDispatchesNothing | src/nl/bramstout/mcworldexporter/ui/Renderer2D.java:133 | an incremental tick submits nothing and leaves the chunks alone |
| RenderModel.TickRespectsInFlight | src/nl/bramstout/mcworldexporter/ui/Renderer2D.java:149-151 | a chunk in flight is never resubmitted and stays in flight; every submitted chunk was idle and is now in flight |
| RenderModel.NoDuplicateDispatchAcrossTicks | src/nl/bramstout/mcworldexporter/ui/Renderer2D.java:149-151 | a chunk submitted by one tick is not submitted again by the next one |
| RenderModel.TickIdempotent | src/nl/bramstout/mcworldexporter/ui/Renderer2D.java:90-94 | a tick right after a tick changes nothing |
| RenderModel.CameraChangeReachesFront | src/nl/bramstout/mcworldexporter/ui/Renderer2D.java:90-226 | after a camera change, the next tick does a full render and the front buffer carries the new camera |
| RenderModel.AbandonedTask | src/nl/bramstout/mcworldexporter/ui/Renderer2D.java:253-257 | a task outside the current range clears only its chunk's in-flight flag, so a later sweep can dispatch it again |
| RenderModel.PublishedTask | src/nl/bramstout/mcworldexporter/ui/Renderer2D.java:259-266 | a task in range stores the loaded images, keeps the chunk's flags and every other chunk, and appends the chunk to the finished list |
| RenderModel.LoadedChunkDrawnNextTick | src/nl/bramstout/mcworldexporter/ui/Renderer2D.java:170-202 | a chunk loaded in range is drawn at its tile size by the next incremental tick, which submits nothing and empties the list |
| Renderer.Renderer2D.constructor | src/nl/bramstout/mcworldexporter/ui/Renderer2D.java:68-78 | no buffers, no request, an empty finished list, the default camera |
| Renderer.Renderer2D.RequestRender | src/nl/bramstout/mcworldexporter/ui/Renderer2D.java:211-213 | sets the request flag and nothing else |
| Renderer.Renderer2D.SetResolution | src/nl/bramstout/mcworldexporter/ui/Renderer2D.java:215-221 | the same size changes nothing; a new one is stored and requests a render |
| Renderer.Renderer2D.SetCameraTransform | src/nl/bramstout/mcworldexporter/ui/Renderer2D.java:223-226 | stores the camera and requests a render |
| Renderer.Renderer2D.Tick | src/nl/bramstout/mcworldexporter/ui/Renderer2D.java:89-204 | the fields and the world's chunks after one loop pass are those of `TickStep` |
| Renderer.Renderer2D.RenderFrame | src/nl/bramstout/mcworldexporter/ui/Renderer2D.java:128-202 | the part after the buffer is prepared matches `TickStep` |
| Renderer.Renderer2D.RenderVisibleChunks | src/nl/bramstout/mcworldexporter/ui/Renderer2D.java:139-167 | the nested loops leave the chunks, tasks and tiles of `VisitAll` over the rectangle |
| Renderer.Renderer2D.VisitChunkAt | src/nl/bramstout/mcworldexporter/ui/Renderer2D.java:141-165 | one iteration matches `VisitChunk` |
| Renderer.Renderer2D.DrawFinishedChunks | src/nl/bramstout/mcworldexporter/ui/Renderer2D.java:171-193 | appends the finished chunks' tiles to the back buffer and empties the list |
| Renderer.Renderer2D.SwapBuffers | src/nl/bramstout/mcworldexporter/ui/Renderer2D.java:196-203 | the front buffer becomes a copy of the back buffer, with the transform it was drawn for |
| Renderer.LoadChunkTask.Run | src/nl/bramstout/mcworldexporter/ui/Renderer2D.java:250-270 | the renderer and the world after the task are those of `TaskStep`, checked against the range as it is when the task runs |

## Left out

- The piece constructor (`BlockStateMultiPart.java:51-94`) is left out. It parses the
  `apply` models and the `when` object with Gson. The model works on the parsed
  `When` value: its `OR` array, its `AND` array and its string members.
- A `CheckObject` value is the text Gson's `getAsString` gives for the
  member (`BlockStateMultiPart.java:121`). That is the string itself, the
  text of a JSON number or boolean, or the text of the single element of a
  one-element array. So `"lit": true` is compared as the text `true`, and
  by line 162 it accepts a byte 1. Turning JSON values into that text is not
  modelled.
- The exceptions Gson throws are not modelled: `getAsString` on an object
  member, a null member or an array of other than one element (line 121),
  and `getAsJsonObject` on an `OR` or `AND` element that is not an object
  (lines 101 and 107). The model's `When` and `CheckObject` types hold
  only conditions for which these calls succeed.
- `Float.toString` and `Double.toString` are not modelled. A float or double
  tag carries the text Java gives for it.
- Pixels are not modelled. A buffer records its size and the tiles drawn on
  it, in order. This leaves out AWT (`Graphics2D`, rendering hints,
  `clearRect`, `copyData`, `drawImage`).
- `CameraTransform.toScreen` is left out. A tile records its chunk position
  and its drawn size, not the pixel position it is drawn at.
- `CameraTransform.toWorld` is a function parameter of the tick; its code is
  not part of this model.
- `Chunk.load`, `renderChunkImage` and `getChunkImage` are the `loaded`
  argument of `LoadChunkTask.Run`: the chunk's images afterwards, or None
  when one of them threw.
- `Renderer.LoadChunkTask.Run`: a failed load changes nothing here. Setting
  the chunk's load error is Chunk's own business, and `Chunk.java` is not
  part of this model.
- Concurrency is not modelled: the thread pool, the spin lock, the
  `synchronized` blocks and the atomic flag. The tick and the tasks are
  steps that run one at a time, and submitted tasks are logged in
  `submitted` instead of run.
- Because the model has no concurrency, it assumes the range fields, the
  world and the camera do not change while a tick runs.
- `Renderer.Renderer2D.Tick`: the 16 ms pacing (`Thread.sleep`, the clock) is
  left out, and so is the endless loop and the catch-all that logs an
  exception and goes on with the next pass. `Tick` is one pass of the loop.
- The world is fetched with `MCWorldExporter.getApp().getWorld()`; the model
  passes it to `Tick`, null when no world is open.
- Chunks are referenced by their grid position in the world's map, not as
  objects. A finished entry whose chunk the world no longer holds is skipped,
  like a null entry.
- The getters `getFrameBufferLock`, `getFrameBuffer` and `getCameraTransform`
  are left out. They have no logic; the front buffer and its transform are
  fields of the state.
- The model's loop counters `chunkX` and `chunkZ` and toWorld's points are
  unbounded integers, not 32-bit ones. This loses nothing: the range fields
  are an `int` shifted right by 4 (`Renderer2D.java:134-137`), so they lie in
  [-2^27, 2^27-1], and no reachable range makes the Java loop wrap.
- All other integer arithmetic wraps where Java's does: the tile size and
  `1 << n`.

## Design notes

- A loading task compares its chunk with the renderer's range fields as
  they are when the task runs (`Renderer2D.java:253-254`), not as they were
  when the task was dispatched. `TaskStep` reads the range from the state it
  is given, and `AbandonedTask` is stated against that range.
- A failed load is only logged (`Renderer2D.java:267-269`). The task itself
  sets no flag on the chunk, so in the model a failed task leaves the chunk
  and the renderer as they were.
