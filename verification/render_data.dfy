/** The precomputed render model the renderer consumes
    (`tmx::render::MapRenderData` and its parts). Their definitions belong to
    the tmx library; the fields here are the ones the renderer and the map
    facade read. SDL texture handles are opaque values, `Null` being the null
    pointer. */
module RenderData {
  import opened UInt32

  /** An axis-aligned pixel rectangle; the source converts it to `SDL_FRect`. */
  datatype Rect = Rect(x: int, y: int, w: int, h: int)

  /** One frame of a flattened animation: where the frame sits in the
      tileset image and when it ends within the cycle. */
  datatype AnimationFrame = AnimationFrame(srcX: int, srcY: int, endTime: int)

  datatype FlatAnimation = FlatAnimation(totalDuration: U32, frames: seq<AnimationFrame>)

  datatype TilesetRenderData = TilesetRenderData(
    name: string,
    imagePath: string,
    animations: seq<FlatAnimation>)

  /** A renderable tile. The static source rectangle is meaningful only when
      the tile is not animated; `srcW`/`srcH` are used in both cases. */
  datatype RenderTile = RenderTile(
    destX: int, destY: int, destW: int, destH: int,
    tilesetIndex: U32,
    isAnimated: bool,
    animationIndex: U32,
    srcX: int, srcY: int, srcW: int, srcH: int,
    opacity: real)

  datatype LayerRenderData = LayerRenderData(name: string, visible: bool, tiles: seq<RenderTile>)

  datatype MapRenderData = MapRenderData(
    pixelWidth: U32, pixelHeight: U32,
    mapWidth: U32, mapHeight: U32,
    tilesets: seq<TilesetRenderData>,
    layers: seq<LayerRenderData>)

  /** The default-constructed render data a map holds before any load. */
  const EmptyRenderData: MapRenderData := MapRenderData(0, 0, 0, 0, [], [])

  /** An `SDL_Texture*`. */
  datatype Texture = Null | Handle(id: nat)
}
