/**
  The 2D map renderer as objects: the world's chunk store, the renderer
  with its buffers, range fields and finished list, and the chunk-loading
  task. Each state change is proved equal to the step functions of
  RenderModel, where its properties are proved.
 */
module Renderer {

  import opened Wrappers
  import opened JavaLang
  import opened RenderModel

  /** The world's chunks, keyed by position. The renderer and the loading
      tasks update their flags and images in place. */
  class World {
    var chunks: map<ChunkPos, Chunk>

    constructor (chunks: map<ChunkPos, Chunk>)
      ensures this.chunks == chunks
    {
      this.chunks := chunks;
    }
  }

  class Renderer2D {
    var buffer: Option<Image>
    var frontBuffer: Option<Image>
    var bufferWidth: int32
    var bufferHeight: int32
    var bufferTransform: CameraTransform
    var frontBufferTransform: CameraTransform
    var finishedChunksStack: seq<Option<ChunkPos>>
    var renderRequested: bool
    var minChunkX: int
    var minChunkZ: int
    var maxChunkX: int
    var maxChunkZ: int
    /** The chunks of the tasks handed to the thread pool, in order. */
    var submitted: seq<ChunkPos>

    /** The renderer's fields as one value. */
    function State(): RendererState
      reads this
    {
      RendererState(buffer, frontBuffer, bufferWidth, bufferHeight, bufferTransform, frontBufferTransform,
                    finishedChunksStack, renderRequested, minChunkX, minChunkZ, maxChunkX, maxChunkZ, submitted)
    }

    /** No buffers, no request, an empty viewport and the given default camera. */
    constructor (initial: CameraTransform)
      ensures State() == RendererState(None, None, 0, 0, initial, initial, [], false, 0, 0, 0, 0, [])
    {
      buffer, frontBuffer := None, None;
      bufferWidth, bufferHeight := 0, 0;
      renderRequested := false;
      bufferTransform, frontBufferTransform := initial, initial;
      finishedChunksStack := [];
      minChunkX, minChunkZ, maxChunkX, maxChunkZ := 0, 0, 0, 0;
      submitted := [];
    }

    method RequestRender()
      modifies this
      ensures State() == old(State()).(renderRequested := true)
    {
      renderRequested := true;
    }

    /** A new viewport size is stored and requests a full render; the same
        size changes nothing. */
    method SetResolution(width: int32, height: int32)
      modifies this
      ensures if old(bufferWidth) == width && old(bufferHeight) == height
              then State() == old(State())
              else State() == old(State()).(bufferWidth := width, bufferHeight := height, renderRequested := true)
    {
      if bufferWidth == width && bufferHeight == height {
        return;
      }
      bufferWidth := width;
      bufferHeight := height;
      RequestRender();
    }

    /** A new camera is stored and always requests a full render. */
    method SetCameraTransform(transform: CameraTransform)
      modifies this
      ensures State() == old(State()).(bufferTransform := transform, renderRequested := true)
    {
      bufferTransform := transform;
      RequestRender();
    }

    /**
      One pass of the render loop. `world` is the application's current
      world, null when none is open; `toWorld` is the camera's mapping of
      screen points to world blocks.
     */
    method Tick(world: World?, toWorld: ScreenToWorld)
      modifies this, world
      ensures var r := TickStep(old(State()), if world == null then None else Some(old(world.chunks)), toWorld);
        State() == r.state && (world != null ==> r.chunks == Some(world.chunks))
    {
      ghost var s0 := State();
      var fullRender := renderRequested;
      if fullRender {
        renderRequested := false;
      }
      if !fullRender && |finishedChunksStack| == 0 {
        return;
      }
      if bufferWidth <= 0 || bufferHeight <= 0 {
        return;
      }
      if buffer.None? || buffer.value.width != bufferWidth || buffer.value.height != bufferHeight {
        buffer := Some(Image(bufferWidth, bufferHeight, []));
        fullRender := true;
      }
      if fullRender {
        buffer := Some(buffer.value.(tiles := []));
      }
      assert fullRender == FullRender(s0);
      assert State() == s0.(renderRequested := false, buffer := Some(PreparedBuffer(s0)));
      if world == null {
        return;
      }
      RenderFrame(world, toWorld, fullRender, s0);
    }

    /** The rest of a tick once the back buffer is prepared and a world is
        open: record the range and sweep it on a full render, draw the
        finished chunks, swap. */
    method RenderFrame(world: World, toWorld: ScreenToWorld, fullRender: bool, ghost s0: RendererState)
      requires Active(s0) && fullRender == FullRender(s0)
      requires State() == s0.(renderRequested := false, buffer := Some(PreparedBuffer(s0)))
      modifies this, world
      ensures var r := TickStep(s0, Some(old(world.chunks)), toWorld);
        State() == r.state && r.chunks == Some(world.chunks)
    {
      ghost var back := PreparedBuffer(s0);
      ghost var prepared := State();
      ghost var w0 := world.chunks;
      var transform := bufferTransform;
      var width, height := buffer.value.width, buffer.value.height;
      var minBlock := toWorld(transform, Point(0, 0), width, height);
      var maxBlock := toWorld(transform, Point(width, height), width, height);
      if fullRender {
        minChunkX := ShiftRight4(minBlock.ix);
        minChunkZ := ShiftRight4(minBlock.iy);
        maxChunkX := ShiftRight4(maxBlock.ix);
        maxChunkZ := ShiftRight4(maxBlock.iy);
        assert State() == RecordRange(prepared, back.width, back.height, toWorld);
        RenderVisibleChunks(world, transform.zoomLevel);
      }
      ghost var ranged := if fullRender then RecordRange(prepared, back.width, back.height, toWorld) else prepared;
      ghost var swept := SweepStep(s0, w0, ranged);
      assert world.chunks == swept.chunks;
      assert State() == ranged.(buffer := Some(back.(tiles := swept.tiles)), submitted := swept.submitted);
      DrawFinishedChunks(world, transform.zoomLevel);
      SwapBuffers(transform);
    }

    /** The full render's nested loops over the recorded chunk rectangle. */
    method RenderVisibleChunks(world: World, zoom: int)
      requires buffer.Some?
      modifies this, world
      ensures var sw := VisitAll(Sweep(old(world.chunks), old(submitted), old(buffer.value.tiles)),
                                 Grid(minChunkX, maxChunkX, minChunkZ, maxChunkZ), zoom);
        world.chunks == sw.chunks
        && State() == old(State()).(buffer := Some(old(buffer.value).(tiles := sw.tiles)), submitted := sw.submitted)
    {
      var image := buffer.value;
      var chunks, log, tiles := world.chunks, submitted, image.tiles;
      var minX, maxX, minZ, maxZ := minChunkX, maxChunkX, minChunkZ, maxChunkZ;
      ghost var start := Sweep(chunks, log, tiles);
      var chunkZ := minZ;
      while chunkZ <= maxZ
        invariant minZ <= chunkZ && (chunkZ <= maxZ + 1 || chunkZ == minZ)
        invariant Sweep(chunks, log, tiles) == VisitAll(start, Grid(minX, maxX, minZ, chunkZ - 1), zoom)
        decreases maxZ - chunkZ + 1
        modifies {}
      {
        var chunkX := minX;
        assert Grid(minX, maxX, minZ, chunkZ - 1) + Row(chunkZ, minX, chunkX - 1)
               == Grid(minX, maxX, minZ, chunkZ - 1);
        while chunkX <= maxX
          invariant minX <= chunkX && (chunkX <= maxX + 1 || chunkX == minX)
          invariant Sweep(chunks, log, tiles)
                    == VisitAll(start, Grid(minX, maxX, minZ, chunkZ - 1) + Row(chunkZ, minX, chunkX - 1), zoom)
          decreases maxX - chunkX + 1
          modifies {}
        {
          ghost var before := Grid(minX, maxX, minZ, chunkZ - 1) + Row(chunkZ, minX, chunkX - 1);
          chunks, log, tiles := VisitChunkAt(chunks, log, tiles, ChunkPos(chunkX, chunkZ), zoom);
          assert before + [ChunkPos(chunkX, chunkZ)]
                 == Grid(minX, maxX, minZ, chunkZ - 1) + Row(chunkZ, minX, chunkX);
          assert (before + [ChunkPos(chunkX, chunkZ)])[..|before|] == before;
          chunkX := chunkX + 1;
        }
        assert Row(chunkZ, minX, chunkX - 1) == Row(chunkZ, minX, maxX);
        chunkZ := chunkZ + 1;
      }
      assert Grid(minX, maxX, minZ, chunkZ - 1) == Grid(minX, maxX, minZ, maxZ);
      world.chunks := chunks;
      submitted := log;
      buffer := Some(image.(tiles := tiles));
    }

    /** The body of the inner loop for one chunk position: the chunk's flags,
        the submitted tasks and the back buffer's tiles afterwards. */
    static method VisitChunkAt(chunks: map<ChunkPos, Chunk>, log: seq<ChunkPos>, tiles: seq<Draw>, p: ChunkPos, zoom: int)
      returns (chunks': map<ChunkPos, Chunk>, log': seq<ChunkPos>, tiles': seq<Draw>)
      ensures Sweep(chunks', log', tiles') == VisitChunk(Sweep(chunks, log, tiles), p, zoom)
    {
      chunks', log', tiles' := chunks, log, tiles;
      if p !in chunks {
        return;
      }
      var chunk := chunks[p];
      var img: Option<int> := if zoom in chunk.images then Some(chunk.images[zoom]) else None;
      if img.None? || chunk.shouldRender {
        chunks' := chunks'[p := chunks'[p].(shouldRender := false)];
        if !chunks'[p].loadError && !chunks'[p].renderRequested {
          chunks' := chunks'[p := chunks'[p].(renderRequested := true)];
          log' := log' + [p];
        }
      }
      if img.Some? {
        var chunkRes := img.value;
        if zoom > 4 {
          chunkRes := Wrap32(chunkRes * ShiftLeftOne(zoom - 4));
        }
        tiles' := tiles' + [Draw(p, chunkRes)];
      }
    }

    /** Draws the chunks finished since the last tick, then empties the list. */
    method DrawFinishedChunks(world: World, zoom: int)
      requires buffer.Some?
      modifies this
      ensures State() == old(State()).(
        buffer := Some(old(buffer.value).(tiles := old(buffer.value.tiles) + DrainTiles(old(finishedChunksStack), world.chunks, zoom))),
        finishedChunksStack := [])
    {
      var image := buffer.value;
      var tiles := image.tiles;
      var finished := finishedChunksStack;
      var i := 0;
      assert image.tiles + DrainTiles(finished[..0], world.chunks, zoom) == tiles;
      while i < |finished|
        invariant 0 <= i <= |finished|
        invariant tiles == image.tiles + DrainTiles(finished[..i], world.chunks, zoom)
      {
        var entry := finished[i];
        assert finished[..i + 1][..i] == finished[..i];
        if entry.Some? && entry.value in world.chunks {
          var chunk := world.chunks[entry.value];
          if zoom in chunk.images {
            var chunkRes := chunk.images[zoom];
            if zoom > 4 {
              chunkRes := Wrap32(chunkRes * ShiftLeftOne(zoom - 4));
            }
            tiles := tiles + [Draw(entry.value, chunkRes)];
          }
        }
        i := i + 1;
      }
      assert finished[..i] == finished;
      buffer := Some(image.(tiles := tiles));
      finishedChunksStack := [];
    }

    /** Publishes the back buffer: the front buffer gets its size and
        contents, and the transform it was drawn for. */
    method SwapBuffers(transform: CameraTransform)
      requires buffer.Some?
      modifies this
      ensures State() == old(State()).(frontBuffer := buffer, frontBufferTransform := transform)
    {
      if frontBuffer.None? || frontBuffer.value.width != buffer.value.width || frontBuffer.value.height != buffer.value.height {
        frontBuffer := Some(Image(buffer.value.width, buffer.value.height, []));
      }
      frontBuffer := Some(frontBuffer.value.(tiles := buffer.value.tiles));
      frontBufferTransform := transform;
    }
  }

  /** A task that loads one chunk and hands it back to the renderer. */
  class LoadChunkTask {
    const chunk: ChunkPos
    const renderer: Renderer2D
    const world: World

    constructor (chunk: ChunkPos, renderer: Renderer2D, world: World)
      ensures this.chunk == chunk && this.renderer == renderer && this.world == world
    {
      this.chunk := chunk;
      this.renderer := renderer;
      this.world := world;
    }

    /**
      Checks the chunk against the renderer's range as it is now; outside
      it the request is undone, inside it the chunk is loaded and added to
      the finished list. `loaded` is the chunk's image cache once loading
      and rendering are done, or None when they threw.
     */
    method Run(loaded: Option<map<int, int>>)
      requires chunk in world.chunks
      modifies renderer, world
      ensures var r := TaskStep(old(renderer.State()), old(world.chunks), chunk, loaded);
        renderer.State() == r.state && r.chunks == Some(world.chunks)
    {
      if chunk.x < renderer.minChunkX || chunk.x > renderer.maxChunkX
         || chunk.z < renderer.minChunkZ || chunk.z > renderer.maxChunkZ {
        world.chunks := world.chunks[chunk := world.chunks[chunk].(renderRequested := false)];
        return;
      }
      match loaded {
        case None =>
        case Some(images) =>
          world.chunks := world.chunks[chunk := world.chunks[chunk].(images := images)];
          renderer.finishedChunksStack := renderer.finishedChunksStack + [Some(chunk)];
      }
    }
  }
}
