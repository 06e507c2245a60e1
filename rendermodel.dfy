/**
  The decisions of the 2D map renderer as functions on values: one tick of
  the render loop, one run of a chunk-loading task, and what they imply for
  the dispatch of loading work, the visible chunk range and the buffers.
 */
module RenderModel {

  import opened Wrappers
  import opened JavaLang

  // ---------------------------------------------------------------------
  // Values
  // ---------------------------------------------------------------------

  /** A chunk's grid coordinates; the world keys its chunks by these. */
  datatype ChunkPos = ChunkPos(x: int, z: int)

  /** A point, already truncated to integers by `ix()`/`iy()`. */
  datatype Point = Point(ix: int, iy: int)

  /** The camera: a position and a discrete zoom level. */
  datatype CameraTransform = CameraTransform(posX: real, posY: real, zoomLevel: int)

  /**
    The renderer-visible state of a chunk: its two flags, whether loading it
    failed, and its cached tile images, as a map from zoom level to the
    width of the image cached at that level.
   */
  datatype Chunk = Chunk(shouldRender: bool, renderRequested: bool, loadError: bool, images: map<int, int>)

  /** One `drawImage` of a chunk's tile, drawn `res` pixels wide and high at
      the screen position of chunk `pos`. */
  datatype Draw = Draw(pos: ChunkPos, res: int)

  /** An image buffer: its size and the tiles drawn on it since it was last
      cleared, in drawing order. */
  datatype Image = Image(width: int, height: int, tiles: seq<Draw>)

  /** The fields of a renderer. `submitted` logs, in order, the chunks of the
      loading tasks handed to the thread pool. */
  datatype RendererState = RendererState(
    buffer: Option<Image>,
    frontBuffer: Option<Image>,
    bufferWidth: int32,
    bufferHeight: int32,
    bufferTransform: CameraTransform,
    frontBufferTransform: CameraTransform,
    finishedChunksStack: seq<Option<ChunkPos>>,
    renderRequested: bool,
    minChunkX: int,
    minChunkZ: int,
    maxChunkX: int,
    maxChunkZ: int,
    submitted: seq<ChunkPos>)

  type ScreenToWorld = (CameraTransform, Point, int, int) -> Point

  /** The outcome of a step: the renderer's new fields and the world's chunks
      (None when there is no world). */
  datatype TickResult = TickResult(state: RendererState, chunks: Option<map<ChunkPos, Chunk>>)

  // ---------------------------------------------------------------------
  // Tile size
  // ---------------------------------------------------------------------

  /** The pixel size a tile of the given image width is drawn at: above zoom
      level 4 the width is multiplied by `1 << (zoom - 4)` with Java `int`
      arithmetic, otherwise it is drawn at its own width. */
  function TileResolution(width: int, zoom: int): (res: int)
    ensures zoom <= 4 ==> res == width
    ensures 4 < zoom < 35 && INT_MIN <= width * Pow2(zoom - 4) <= INT_MAX ==> res == width * Pow2(zoom - 4)
  {
    if zoom > 4 then Wrap32(width * ShiftLeftOne(zoom - 4)) else width
  }

  /** Each zoom step above the reference level doubles the tile size. */
  lemma TileResolutionDoubles(width: int, zoom: int)
    requires zoom > 4 && zoom + 1 - 4 < 31
    requires INT_MIN <= width * Pow2(zoom + 1 - 4) <= INT_MAX
    ensures TileResolution(width, zoom + 1) == 2 * TileResolution(width, zoom)
  {
    var k := zoom - 4;
    assert Pow2(k + 1) == 2 * Pow2(k);
    assert width * Pow2(k + 1) == 2 * (width * Pow2(k));
  }

  // ---------------------------------------------------------------------
  // The full-render sweep over the visible chunks
  // ---------------------------------------------------------------------

  /** The chunks of row z from column minX to maxX, in loop order. */
  function Row(z: int, minX: int, maxX: int): (r: seq<ChunkPos>)
    decreases maxX - minX + 1
  {
    if maxX < minX then [] else Row(z, minX, maxX - 1) + [ChunkPos(maxX, z)]
  }

  /** The chunks of the rectangle in the order of the nested loops: rows by
      increasing z, each row by increasing x. */
  function Grid(minX: int, maxX: int, minZ: int, maxZ: int): (r: seq<ChunkPos>)
    decreases maxZ - minZ + 1
  {
    if maxZ < minZ then [] else Grid(minX, maxX, minZ, maxZ - 1) + Row(maxZ, minX, maxX)
  }

  /** What the sweep changes: the chunks, the task log and the back buffer's tiles. */
  datatype Sweep = Sweep(chunks: map<ChunkPos, Chunk>, submitted: seq<ChunkPos>, tiles: seq<Draw>)

  /** The chunk's image is missing at this zoom level or the chunk was marked
      for a redraw. */
  predicate NeedsRender(c: Chunk, zoom: int) {
    zoom !in c.images || c.shouldRender
  }

  /** A visit hands a loading task to the pool. */
  predicate Dispatches(c: Chunk, zoom: int) {
    NeedsRender(c, zoom) && !c.loadError && !c.renderRequested
  }

  /** The flags of a chunk after the sweep has visited it. */
  function Visited(c: Chunk, zoom: int): Chunk {
    if !NeedsRender(c, zoom) then c
    else if !c.loadError && !c.renderRequested then c.(shouldRender := false, renderRequested := true)
    else c.(shouldRender := false)
  }

  /** One iteration of the inner loop: a missing chunk is skipped; otherwise
      its flags are updated, a task may be submitted, and a cached tile is drawn. */
  function VisitChunk(s: Sweep, p: ChunkPos, zoom: int): Sweep {
    if p !in s.chunks then s
    else
      var c := s.chunks[p];
      var submitted := if Dispatches(c, zoom) then s.submitted + [p] else s.submitted;
      var tiles := if zoom in c.images then s.tiles + [Draw(p, TileResolution(c.images[zoom], zoom))] else s.tiles;
      Sweep(s.chunks[p := Visited(c, zoom)], submitted, tiles)
  }

  /** The loop over a sequence of chunk positions. */
  function VisitAll(s: Sweep, ps: seq<ChunkPos>, zoom: int): (r: Sweep)
    ensures s.submitted <= r.submitted
  {
    if ps == [] then s else VisitChunk(VisitAll(s, ps[..|ps| - 1], zoom), ps[|ps| - 1], zoom)
  }

  /** The positions of ps whose chunk, as given, would be dispatched. */
  function Dispatched(chunks: map<ChunkPos, Chunk>, ps: seq<ChunkPos>, zoom: int): seq<ChunkPos> {
    if ps == [] then []
    else
      var p := ps[|ps| - 1];
      Dispatched(chunks, ps[..|ps| - 1], zoom) + (if p in chunks && Dispatches(chunks[p], zoom) then [p] else [])
  }

  /** The tiles drawn for ps: one per chunk of ps that has an image at this zoom. */
  function Drawn(chunks: map<ChunkPos, Chunk>, ps: seq<ChunkPos>, zoom: int): seq<Draw> {
    if ps == [] then []
    else
      var p := ps[|ps| - 1];
      Drawn(chunks, ps[..|ps| - 1], zoom)
        + (if p in chunks && zoom in chunks[p].images then [Draw(p, TileResolution(chunks[p].images[zoom], zoom))] else [])
  }

  predicate Distinct(s: seq<ChunkPos>) {
    forall i, j :: 0 <= i < j < |s| ==> s[i] != s[j]
  }

  predicate InRect(p: ChunkPos, minX: int, maxX: int, minZ: int, maxZ: int) {
    minX <= p.x <= maxX && minZ <= p.z <= maxZ
  }

  // ---------------------------------------------------------------------
  // Drawing the finished chunks
  // ---------------------------------------------------------------------

  /** The tiles drawn while draining: a null entry, a chunk the world does not
      hold and a chunk without an image at this zoom are skipped. */
  function DrainTiles(finished: seq<Option<ChunkPos>>, chunks: map<ChunkPos, Chunk>, zoom: int): seq<Draw> {
    if finished == [] then []
    else
      var e := finished[|finished| - 1];
      DrainTiles(finished[..|finished| - 1], chunks, zoom)
        + (if e.Some? && e.value in chunks && zoom in chunks[e.value].images
           then [Draw(e.value, TileResolution(chunks[e.value].images[zoom], zoom))] else [])
  }

  // ---------------------------------------------------------------------
  // One tick of the render loop
  // ---------------------------------------------------------------------

  /** The buffer has to be (re)allocated to the requested size. */
  predicate NeedsAllocation(s: RendererState) {
    s.buffer.None? || s.buffer.value.width != s.bufferWidth || s.buffer.value.height != s.bufferHeight
  }

  /** The tick gets past its early exits: there is work and a non-empty viewport. */
  predicate Active(s: RendererState) {
    (s.renderRequested || s.finishedChunksStack != []) && s.bufferWidth > 0 && s.bufferHeight > 0
  }

  /** The tick redraws everything: requested, or forced by a new buffer. */
  predicate FullRender(s: RendererState) {
    s.renderRequested || NeedsAllocation(s)
  }

  /** The back buffer after allocation and clearing. */
  function PreparedBuffer(s: RendererState): Image
    requires s.buffer.Some? || NeedsAllocation(s)
  {
    var b := if NeedsAllocation(s) then Image(s.bufferWidth, s.bufferHeight, []) else s.buffer.value;
    if FullRender(s) then b.(tiles := []) else b
  }

  /** The chunk rectangle a full render records: the world corners of the
      viewport shifted right by 4. */
  function RecordRange(s: RendererState, width: int, height: int, toWorld: ScreenToWorld): RendererState {
    var minBlock := toWorld(s.bufferTransform, Point(0, 0), width, height);
    var maxBlock := toWorld(s.bufferTransform, Point(width, height), width, height);
    s.(minChunkX := ShiftRight4(minBlock.ix), minChunkZ := ShiftRight4(minBlock.iy),
       maxChunkX := ShiftRight4(maxBlock.ix), maxChunkZ := ShiftRight4(maxBlock.iy))
  }

  /** The full-render sweep, or nothing for an incremental tick, starting
      from the prepared back buffer. */
  function SweepStep(s: RendererState, w: map<ChunkPos, Chunk>, ranged: RendererState): (r: Sweep)
    requires s.buffer.Some? || NeedsAllocation(s)
    ensures s.submitted <= r.submitted
  {
    var start := Sweep(w, s.submitted, PreparedBuffer(s).tiles);
    if FullRender(s)
    then VisitAll(start, Grid(ranged.minChunkX, ranged.maxChunkX, ranged.minChunkZ, ranged.maxChunkZ),
                  s.bufferTransform.zoomLevel)
    else start
  }

  /** One pass of the render loop's body. The task log only grows. */
  function TickStep(s: RendererState, world: Option<map<ChunkPos, Chunk>>, toWorld: ScreenToWorld): (r: TickResult)
    ensures s.submitted <= r.state.submitted
  {
    var cleared := s.(renderRequested := false);
    if !Active(s) then TickResult(cleared, world)
    else
      var back := PreparedBuffer(s);
      var prepared := cleared.(buffer := Some(back));
      if world.None? then TickResult(prepared, world)
      else
        var ranged := if FullRender(s) then RecordRange(prepared, back.width, back.height, toWorld) else prepared;
        var swept := SweepStep(s, world.value, ranged);
        var drawn := back.(tiles := swept.tiles + DrainTiles(s.finishedChunksStack, swept.chunks, s.bufferTransform.zoomLevel));
        TickResult(
          ranged.(buffer := Some(drawn), submitted := swept.submitted, finishedChunksStack := [],
                  frontBuffer := Some(drawn), frontBufferTransform := s.bufferTransform),
          Some(swept.chunks))
  }

  // ---------------------------------------------------------------------
  // A loading task
  // ---------------------------------------------------------------------

  /** The chunk lies in the renderer's currently recorded chunk rectangle. */
  predicate InRange(s: RendererState, p: ChunkPos) {
    InRect(p, s.minChunkX, s.maxChunkX, s.minChunkZ, s.maxChunkZ)
  }

  /**
    One run of a loading task for chunk p, checked against the renderer's
    range at the time it runs. `loaded` is the chunk's image cache after it
    was loaded and rendered, or None when that threw.
   */
  function TaskStep(s: RendererState, chunks: map<ChunkPos, Chunk>, p: ChunkPos, loaded: Option<map<int, int>>): TickResult
    requires p in chunks
  {
    if !InRange(s, p) then TickResult(s, Some(chunks[p := chunks[p].(renderRequested := false)]))
    else match loaded
      case None => TickResult(s, Some(chunks))
      case Some(images) =>
        TickResult(s.(finishedChunksStack := s.finishedChunksStack + [Some(p)]),
                   Some(chunks[p := chunks[p].(images := images)]))
  }

  // ---------------------------------------------------------------------
  // The rectangle and the sweep
  // ---------------------------------------------------------------------

  lemma DistinctConcat(a: seq<ChunkPos>, b: seq<ChunkPos>)
    requires Distinct(a) && Distinct(b)
    requires forall p :: p in a ==> p !in b
    ensures Distinct(a + b)
  {
    forall i, j | 0 <= i < j < |a + b| ensures (a + b)[i] != (a + b)[j] {
      if j < |a| {
        assert (a + b)[i] == a[i] && (a + b)[j] == a[j];
      } else if i >= |a| {
        assert (a + b)[i] == b[i - |a|] && (a + b)[j] == b[j - |a|];
      } else {
        assert (a + b)[i] == a[i] && (a + b)[j] == b[j - |a|];
        assert a[i] in a;
      }
    }
  }

  /** A row holds each of its columns once. */
  lemma {:induction false} RowMembers(z: int, minX: int, maxX: int)
    ensures forall p :: p in Row(z, minX, maxX) <==> p.z == z && minX <= p.x <= maxX
    ensures Distinct(Row(z, minX, maxX))
    decreases maxX - minX + 1
  {
    if maxX >= minX {
      RowMembers(z, minX, maxX - 1);
      DistinctConcat(Row(z, minX, maxX - 1), [ChunkPos(maxX, z)]);
    }
  }

  /** The nested loops visit every chunk of the rectangle, each exactly once. */
  lemma {:induction false} GridMembers(minX: int, maxX: int, minZ: int, maxZ: int)
    ensures forall p :: p in Grid(minX, maxX, minZ, maxZ) <==> InRect(p, minX, maxX, minZ, maxZ)
    ensures Distinct(Grid(minX, maxX, minZ, maxZ))
    decreases maxZ - minZ + 1
  {
    if maxZ >= minZ {
      GridMembers(minX, maxX, minZ, maxZ - 1);
      RowMembers(maxZ, minX, maxX);
      DistinctConcat(Grid(minX, maxX, minZ, maxZ - 1), Row(maxZ, minX, maxX));
    }
  }

  /** Visiting a chunk twice is the same as visiting it once. */
  lemma VisitedIdempotent(c: Chunk, zoom: int)
    ensures Visited(Visited(c, zoom), zoom) == Visited(c, zoom)
    ensures Visited(c, zoom).images == c.images && Visited(c, zoom).loadError == c.loadError
  {
  }

  /** The sweep changes only the flags of the chunks it visits, and those as
      one visit does; it adds and removes no chunks. */
  lemma {:induction false} VisitAllChunks(s: Sweep, ps: seq<ChunkPos>, zoom: int)
    ensures VisitAll(s, ps, zoom).chunks.Keys == s.chunks.Keys
    ensures forall p :: p in s.chunks ==>
      VisitAll(s, ps, zoom).chunks[p] == if p in ps then Visited(s.chunks[p], zoom) else s.chunks[p]
  {
    if ps != [] {
      var init, q := ps[..|ps| - 1], ps[|ps| - 1];
      assert ps == init + [q];
      VisitAllChunks(s, init, zoom);
      if q in s.chunks {
        VisitedIdempotent(s.chunks[q], zoom);
      }
    }
  }

  /** The images are untouched by the sweep. */
  lemma VisitAllImages(s: Sweep, ps: seq<ChunkPos>, zoom: int)
    ensures VisitAll(s, ps, zoom).chunks.Keys == s.chunks.Keys
    ensures forall p :: p in s.chunks ==> VisitAll(s, ps, zoom).chunks[p].images == s.chunks[p].images
  {
    VisitAllChunks(s, ps, zoom);
    forall p | p in s.chunks ensures VisitAll(s, ps, zoom).chunks[p].images == s.chunks[p].images {
      VisitedIdempotent(s.chunks[p], zoom);
    }
  }

  /** Over distinct positions, the sweep submits exactly the chunks that were
      due for a task before it started, in visiting order. */
  lemma {:induction false} VisitAllSubmitted(s: Sweep, ps: seq<ChunkPos>, zoom: int)
    requires Distinct(ps)
    ensures VisitAll(s, ps, zoom).submitted == s.submitted + Dispatched(s.chunks, ps, zoom)
  {
    if ps != [] {
      var init, q := ps[..|ps| - 1], ps[|ps| - 1];
      assert ps == init + [q];
      assert q !in init by {
        forall i | 0 <= i < |init| ensures init[i] != q {
          assert ps[i] == init[i];
        }
      }
      VisitAllSubmitted(s, init, zoom);
      VisitAllChunks(s, init, zoom);
    }
  }

  /** The sweep draws, in visiting order, every visited chunk with an image. */
  lemma {:induction false} VisitAllTiles(s: Sweep, ps: seq<ChunkPos>, zoom: int)
    ensures VisitAll(s, ps, zoom).tiles == s.tiles + Drawn(s.chunks, ps, zoom)
  {
    if ps != [] {
      var init := ps[..|ps| - 1];
      VisitAllTiles(s, init, zoom);
      VisitAllImages(s, init, zoom);
    }
  }

  /** Which positions get a task, and none of them twice. */
  lemma {:induction false} DispatchedMembers(chunks: map<ChunkPos, Chunk>, ps: seq<ChunkPos>, zoom: int)
    ensures forall p :: p in Dispatched(chunks, ps, zoom) <==> p in ps && p in chunks && Dispatches(chunks[p], zoom)
    ensures Distinct(ps) ==> Distinct(Dispatched(chunks, ps, zoom))
  {
    if ps != [] {
      var init, q := ps[..|ps| - 1], ps[|ps| - 1];
      assert ps == init + [q];
      DispatchedMembers(chunks, init, zoom);
      if Distinct(ps) {
        assert Distinct(init) by {
          forall i, j | 0 <= i < j < |init| ensures init[i] != init[j] {
            assert init[i] == ps[i] && init[j] == ps[j];
          }
        }
        assert q !in init by {
          forall i | 0 <= i < |init| ensures init[i] != q {
            assert ps[i] == init[i];
          }
        }
        DistinctConcat(Dispatched(chunks, init, zoom), if q in chunks && Dispatches(chunks[q], zoom) then [q] else []);
      }
    }
  }

  /** The drained tiles depend only on the chunks' images. */
  lemma {:induction false} DrainTilesImages(f: seq<Option<ChunkPos>>, c1: map<ChunkPos, Chunk>, c2: map<ChunkPos, Chunk>, zoom: int)
    requires c1.Keys == c2.Keys
    requires forall p :: p in c1 ==> c1[p].images == c2[p].images
    ensures DrainTiles(f, c1, zoom) == DrainTiles(f, c2, zoom)
  {
    if f != [] {
      DrainTilesImages(f[..|f| - 1], c1, c2, zoom);
    }
  }

  // ---------------------------------------------------------------------
  // Properties of a tick
  // ---------------------------------------------------------------------

  /** Reading the request flag clears it; with nothing to do, or a viewport
      without area, the tick changes nothing else (and does not drain). */
  lemma TickEarlyExits(s: RendererState, world: Option<map<ChunkPos, Chunk>>, toWorld: ScreenToWorld)
    ensures !TickStep(s, world, toWorld).state.renderRequested
    ensures !s.renderRequested && s.finishedChunksStack == [] ==> TickStep(s, world, toWorld) == TickResult(s, world)
    ensures s.bufferWidth <= 0 || s.bufferHeight <= 0 ==>
      TickStep(s, world, toWorld) == TickResult(s.(renderRequested := false), world)
  {
  }

  /** A tick that gets past the early exits leaves a back buffer of exactly
      the requested size; a freshly allocated buffer forces a full render. */
  lemma TickBufferSize(s: RendererState, world: Option<map<ChunkPos, Chunk>>, toWorld: ScreenToWorld)
    requires Active(s)
    ensures var r := TickStep(s, world, toWorld).state;
      r.buffer.Some? && r.buffer.value.width == s.bufferWidth && r.buffer.value.height == s.bufferHeight
    ensures NeedsAllocation(s) ==> FullRender(s)
  {
  }

  /** Without a world the tick stops after preparing the buffer: the request
      flag is already cleared, yet the finished list is not drained, no
      range is recorded and the front buffer is not swapped. */
  lemma TickWithoutWorld(s: RendererState, toWorld: ScreenToWorld)
    requires Active(s)
    ensures var r := TickStep(s, None, toWorld);
      r.chunks.None? && !r.state.renderRequested
      && r.state.finishedChunksStack == s.finishedChunksStack
      && r.state.frontBuffer == s.frontBuffer && r.state.frontBufferTransform == s.frontBufferTransform
      && r.state.submitted == s.submitted
      && r.state.minChunkX == s.minChunkX && r.state.maxChunkX == s.maxChunkX
      && r.state.minChunkZ == s.minChunkZ && r.state.maxChunkZ == s.maxChunkZ
      && r.state.buffer == Some(PreparedBuffer(s))
  {
  }

  /** With a world the tick drains the finished list and publishes the back
      buffer, with the transform it was drawn for, as the front buffer. */
  lemma TickSwaps(s: RendererState, w: map<ChunkPos, Chunk>, toWorld: ScreenToWorld)
    requires Active(s)
    ensures var r := TickStep(s, Some(w), toWorld).state;
      r.finishedChunksStack == [] && !r.renderRequested
      && r.frontBuffer == r.buffer && r.frontBufferTransform == s.bufferTransform
      && r.bufferTransform == s.bufferTransform
  {
  }

  /** A full render records the chunk rectangle as the floor division by 16
      of the viewport's world corners; an incremental tick keeps the old one. */
  lemma TickRange(s: RendererState, w: map<ChunkPos, Chunk>, toWorld: ScreenToWorld)
    requires Active(s)
    ensures var r := TickStep(s, Some(w), toWorld).state;
      var minBlock := toWorld(s.bufferTransform, Point(0, 0), s.bufferWidth, s.bufferHeight);
      var maxBlock := toWorld(s.bufferTransform, Point(s.bufferWidth, s.bufferHeight), s.bufferWidth, s.bufferHeight);
      if FullRender(s) then
        16 * r.minChunkX <= minBlock.ix < 16 * r.minChunkX + 16
        && 16 * r.minChunkZ <= minBlock.iy < 16 * r.minChunkZ + 16
        && 16 * r.maxChunkX <= maxBlock.ix < 16 * r.maxChunkX + 16
        && 16 * r.maxChunkZ <= maxBlock.iy < 16 * r.maxChunkZ + 16
      else
        r.minChunkX == s.minChunkX && r.minChunkZ == s.minChunkZ
        && r.maxChunkX == s.maxChunkX && r.maxChunkZ == s.maxChunkZ
  {
  }

  /** What a full render draws: starting from a cleared buffer, every chunk
      of the recorded rectangle that has an image at the current zoom, then
      the finished chunks; an incremental tick only adds the finished chunks
      on top of what the buffer held. */
  lemma TickTiles(s: RendererState, w: map<ChunkPos, Chunk>, toWorld: ScreenToWorld)
    requires Active(s)
    ensures var r := TickStep(s, Some(w), toWorld).state;
      var zoom := s.bufferTransform.zoomLevel;
      r.buffer.Some?
      && if FullRender(s) then
           r.buffer.value.tiles
             == Drawn(w, Grid(r.minChunkX, r.maxChunkX, r.minChunkZ, r.maxChunkZ), zoom)
                + DrainTiles(s.finishedChunksStack, w, zoom)
         else
           r.buffer.value.tiles == s.buffer.value.tiles + DrainTiles(s.finishedChunksStack, w, zoom)
  {
    var r := TickStep(s, Some(w), toWorld).state;
    var zoom := s.bufferTransform.zoomLevel;
    if FullRender(s) {
      var ps := Grid(r.minChunkX, r.maxChunkX, r.minChunkZ, r.maxChunkZ);
      var s0 := Sweep(w, s.submitted, []);
      VisitAllTiles(s0, ps, zoom);
      VisitAllImages(s0, ps, zoom);
      DrainTilesImages(s.finishedChunksStack, VisitAll(s0, ps, zoom).chunks, w, zoom);
    }
  }

  /**
    Dispatch on a full render: exactly the chunks of the recorded rectangle
    that need rendering, have no load error and have no task in flight get
    a task, each one once, appended after the earlier ones; the visited
    chunks lose `shouldRender` when they needed rendering and are marked as
    requested when they get a task; all other chunks stay as they were.
   */
  lemma TickDispatch(s: RendererState, w: map<ChunkPos, Chunk>, toWorld: ScreenToWorld)
    requires Active(s) && FullRender(s)
    ensures var res := TickStep(s, Some(w), toWorld);
      var r := res.state;
      var zoom := s.bufferTransform.zoomLevel;
      var added := r.submitted[|s.submitted|..];
      s.submitted <= r.submitted
      && Distinct(added)
      && (forall p :: p in added <==> p in w && InRange(r, p) && Dispatches(w[p], zoom))
      && res.chunks.Some? && res.chunks.value.Keys == w.Keys
      && (forall p :: p in w ==> res.chunks.value[p] == if InRange(r, p) then Visited(w[p], zoom) else w[p])
  {
    var r := TickStep(s, Some(w), toWorld).state;
    var zoom := s.bufferTransform.zoomLevel;
    var ps := Grid(r.minChunkX, r.maxChunkX, r.minChunkZ, r.maxChunkZ);
    var s0 := Sweep(w, s.submitted, PreparedBuffer(s).tiles);
    GridMembers(r.minChunkX, r.maxChunkX, r.minChunkZ, r.maxChunkZ);
    VisitAllSubmitted(s0, ps, zoom);
    VisitAllChunks(s0, ps, zoom);
    DispatchedMembers(w, ps, zoom);
    assert r.submitted[|s.submitted|..] == Dispatched(w, ps, zoom);
  }

  /** An incremental tick submits nothing and changes no chunk. */
  lemma IncrementalTickDispatchesNothing(s: RendererState, w: map<ChunkPos, Chunk>, toWorld: ScreenToWorld)
    requires !FullRender(s)
    ensures var res := TickStep(s, Some(w), toWorld);
      res.state.submitted == s.submitted && res.chunks == Some(w)
  {
  }

  /** What one visit does to a chunk that needed rendering: `shouldRender`
      is cleared, and `renderRequested` ends true unless there is a load
      error and no task was in flight. */
  lemma VisitedFlags(c: Chunk, zoom: int)
    requires NeedsRender(c, zoom)
    ensures !Visited(c, zoom).shouldRender
    ensures Visited(c, zoom).renderRequested <==> c.renderRequested || !c.loadError
    ensures Dispatches(c, zoom) ==> Visited(c, zoom).renderRequested && !Dispatches(Visited(c, zoom), zoom)
  {
  }

  /** A chunk that has a task in flight gets no second one from a tick, and
      keeps its flag; a chunk that gets a task is marked as requested. */
  lemma TickRespectsInFlight(s: RendererState, w: map<ChunkPos, Chunk>, toWorld: ScreenToWorld)
    ensures var res := TickStep(s, Some(w), toWorld);
      var added := res.state.submitted[|s.submitted|..];
      s.submitted <= res.state.submitted
      && res.chunks.Some? && res.chunks.value.Keys == w.Keys
      && (forall p :: p in w && w[p].renderRequested ==> p !in added && res.chunks.value[p].renderRequested)
      && (forall p :: p in added ==> p in w && !w[p].renderRequested && res.chunks.value[p].renderRequested)
  {
    var res := TickStep(s, Some(w), toWorld);
    if Active(s) && FullRender(s) {
      TickDispatch(s, w, toWorld);
    }
  }

  /** Two ticks, with anything but a task run in between, never submit a
      task twice for the same chunk. */
  lemma NoDuplicateDispatchAcrossTicks(s: RendererState, w: map<ChunkPos, Chunk>, toWorld: ScreenToWorld,
                                      between: RendererState)
    requires between.submitted == TickStep(s, Some(w), toWorld).state.submitted
    ensures var r1 := TickStep(s, Some(w), toWorld);
      var r2 := TickStep(between, r1.chunks, toWorld);
      var first := r1.state.submitted[|s.submitted|..];
      var second := r2.state.submitted[|between.submitted|..];
      forall p :: p in first ==> p !in second
  {
    var r1 := TickStep(s, Some(w), toWorld);
    TickRespectsInFlight(s, w, toWorld);
    TickRespectsInFlight(between, r1.chunks.value, toWorld);
  }

  /** A second tick with nothing new in between changes nothing: the first
      one cleared the request and drained the finished list. */
  lemma TickIdempotent(s: RendererState, world: Option<map<ChunkPos, Chunk>>, toWorld: ScreenToWorld)
    ensures var r1 := TickStep(s, world, toWorld);
      TickStep(r1.state, r1.chunks, toWorld) == r1
  {
    var r1 := TickStep(s, world, toWorld);
    if Active(s) && world.None? {
      assert !NeedsAllocation(r1.state) && !FullRender(r1.state);
    }
  }

  /** After the camera is set, the next tick in a world with a viewport is a
      full render under the new transform and publishes a frame tagged with it. */
  lemma CameraChangeReachesFront(s: RendererState, t: CameraTransform, w: map<ChunkPos, Chunk>, toWorld: ScreenToWorld)
    requires s.bufferWidth > 0 && s.bufferHeight > 0
    ensures var s1 := s.(bufferTransform := t, renderRequested := true);
      var r := TickStep(s1, Some(w), toWorld).state;
      FullRender(s1) && r.frontBufferTransform == t && r.frontBuffer == r.buffer
      && r == RecordRange(r, s.bufferWidth, s.bufferHeight, toWorld)
  {
  }

  // ---------------------------------------------------------------------
  // Properties of a loading task
  // ---------------------------------------------------------------------

  /** A task for a chunk outside the current rectangle is abandoned: the
      renderer and the chunk's images are untouched and `renderRequested` is
      cleared, so a later full render can dispatch the chunk again. */
  lemma AbandonedTask(s: RendererState, chunks: map<ChunkPos, Chunk>, p: ChunkPos, loaded: Option<map<int, int>>)
    requires p in chunks && !InRange(s, p)
    ensures var r := TaskStep(s, chunks, p, loaded);
      r.state == s && r.chunks.Some? && r.chunks.value.Keys == chunks.Keys
      && r.chunks.value[p].images == chunks[p].images && !r.chunks.value[p].renderRequested
      && (forall q :: q in chunks && q != p ==> r.chunks.value[q] == chunks[q])
      && (forall zoom :: NeedsRender(chunks[p], zoom) && !chunks[p].loadError ==> Dispatches(r.chunks.value[p], zoom))
  {
  }

  /** A task in range publishes the chunk and stores its images; its flags and
      every other chunk stay as they were. */
  lemma PublishedTask(s: RendererState, chunks: map<ChunkPos, Chunk>, p: ChunkPos, images: map<int, int>)
    requires p in chunks && InRange(s, p)
    ensures var r := TaskStep(s, chunks, p, Some(images));
      r.state == s.(finishedChunksStack := s.finishedChunksStack + [Some(p)])
      && r.chunks.Some? && r.chunks.value.Keys == chunks.Keys
      && r.chunks.value[p].renderRequested == chunks[p].renderRequested
      && r.chunks.value[p].shouldRender == chunks[p].shouldRender
      && r.chunks.value[p].loadError == chunks[p].loadError
      && r.chunks.value[p].images == images
      && (forall q :: q in chunks && q != p ==> r.chunks.value[q] == chunks[q])
  {
  }

  /**
    A chunk loaded in range appears on the next tick without a full render
    being requested: it is drawn on top of the buffer after the other
    finished chunks, the frame is published, and no task is submitted.
   */
  lemma LoadedChunkDrawnNextTick(s: RendererState, w: map<ChunkPos, Chunk>, p: ChunkPos, images: map<int, int>,
                                 toWorld: ScreenToWorld)
    requires p in w && InRange(s, p)
    requires s.bufferTransform.zoomLevel in images
    requires !s.renderRequested && !NeedsAllocation(s) && s.bufferWidth > 0 && s.bufferHeight > 0
    ensures var task := TaskStep(s, w, p, Some(images));
      var r := TickStep(task.state, task.chunks, toWorld).state;
      var zoom := s.bufferTransform.zoomLevel;
      r.buffer.Some? && s.buffer.Some?
      && r.buffer.value.tiles
           == s.buffer.value.tiles + DrainTiles(s.finishedChunksStack, task.chunks.value, zoom)
              + [Draw(p, TileResolution(images[zoom], zoom))]
      && r.frontBuffer == r.buffer && r.submitted == s.submitted && r.finishedChunksStack == []
  {
    var task := TaskStep(s, w, p, Some(images));
    var f := task.state.finishedChunksStack;
    assert f[..|f| - 1] == s.finishedChunksStack;
  }
}
