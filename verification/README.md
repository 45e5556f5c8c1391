# Tile-map render path of TheElderwoodHill, in Dafny

This project models the map render path of a small SDL3 tile-map game. It
sits on top of an external `tmx` library, which parses the map and compiles
it into render data. The model covers four pieces:

- **Animation state store** (`AnimationStateManager`, module `Animation`).
  It maps a packed 64-bit key `tilesetIndex << 32 | animationIndex` to a pair
  of `uint32_t` counters. `getState` creates an entry on first access and
  `update` adds a delta to every entry. Both wrap around at 2^32.
- **Tile renderer** (`teh::map::Renderer`, modules `TileRenderer` and
  `RendererLemmas`). It folds over layers and tiles and emits the SDL calls
  as `Command` records: `SetAlpha` for `SDL_SetTextureAlphaModFloat` and
  `Draw` for `SDL_RenderTexture`. It threads the animation store through the
  fold. Lemmas cover:
  - the skip guards;
  - the static and animated source rectangles;
  - draw order;
  - the alpha each draw sees, and that no texture is left translucent;
  - how far each animation state moves in one call.
- **Map facade** (`teh::map::Map`, module `Facade`). It holds a loaded flag,
  the texture list, the render data and the renderer. It covers `load`,
  `render`, the destructor and the dimension queries.
- **Legacy single-tileset map** (src/Map.cpp, module `Legacy`). It computes
  source and destination rectangles from a grid of global tile ids. The
  nested row and column loops are proved equal to a row-major enumeration of
  the cells, and the source rectangle is proved to lie within the tileset's
  columns.

`UInt32` holds the `uint32_t` arithmetic, `RenderData` the render-data
records the renderer reads, and `Wrappers` an `Option` type.

External collaborators become parameters:

- the parse plus `createRenderData` step is an `Option<MapRenderData>`;
- `IMG_LoadTexture` is a function from an image path to a `Texture`
  (`Null` stands for a null pointer);
- `getFrameIndexAtTime` is a `FrameLookup` function.

## Behaviour worth knowing

- `AnimationStateManager::update` is never called. The increment sits in
  the tile loop instead (src/Map/Renderer.cpp:63-66), so an animation moves
  once per drawn tile that uses it. `RendererLemmas.RenderAdvance` states
  how far it moves.
- There is no guard before `% animation.totalDuration`
  (src/Map/Renderer.cpp:69), and `frames[frameIndex]` is read unchecked
  (src/Map/Renderer.cpp:73). `TileRenderer.Render` therefore requires a
  positive duration and an in-range frame for every animation it plays.
- `Map::load` never calls `resetAnimations` (src/Map/Map.cpp:30-113), so
  `Facade.Load` keeps the renderer's store across reloads.
- When a texture fails to load, `Map::load` returns false and leaves
  `m_Loaded` as it was (src/Map/Map.cpp:99-104). See Findings.

## Model

| member | source | states |
|---|---|---|
| UInt32.Add | src/Map/Animation.cpp:9 | `+=` on `uint32_t` gives the true sum when it fits below 2^32, and the sum less 2^32 otherwise |
| Animation.PackKey | src/Map/Animation.cpp:13-15 | the key's high 32-bit word is the tileset index and its low word is the animation index |
| Animation.PackKeyInjective | src/Map/Animation.cpp:15 | two (tileset, animation) pairs share a key only if they are equal, so tilesets never collide |
| Animation.PackKeyOfWords | src/Map/Animation.cpp:15 | every 64-bit key is the packing of its own two words, so the packing is a bijection onto `uint64_t` |
| Animation.GetState | src/Map/Animation.cpp:13-17 | an absent key gets a zero state and grows the map by exactly one; a present key returns its state and leaves the map unchanged; other entries are never changed |
| Animation.Update | src/Map/Animation.cpp:5-11 | every entry's elapsed time becomes `(old + delta) mod 2^32`; frames and the key set are unchanged |
| Animation.UpdateEmpty | src/Map/Animation.cpp:7-10 | updating an empty store is a no-op |
| Animation.UpdateComposes | src/Map/Animation.cpp:9 | `update(a)` then `update(b)` equals `update((a + b) mod 2^32)` |
| Animation.Advance | src/Map/Renderer.cpp:63-66 | incrementing through the `getState` reference creates the entry if missing and adds delta to it alone; every other entry is unchanged |
| TileRenderer.SourceRect | src/Map/Renderer.cpp:51-90 | static tiles, including animated ones with index `0xFFFFFFFF`, use their own source rect; animated tiles use the frame at `elapsed mod totalDuration`, which is below `totalDuration`, with the tile's own width and height |
| TileRenderer.DrawTile | src/Map/Renderer.cpp:34-113 | a tile that fails a guard emits nothing and leaves the store alone; a drawn tile emits one blit to its destination from its tileset's texture; a drawn animated tile adds delta to its own state only |
| TileRenderer.DrawTiles | src/Map/Renderer.cpp:34-113 | the tile loop only ever adds animation entries and never writes `currentFrame` |
| TileRenderer.DrawLayer | src/Map/Renderer.cpp:24-31 | an invisible layer emits no command and leaves the store unchanged |
| TileRenderer.DrawLayers | src/Map/Renderer.cpp:17-21 | the layer loop only ever adds animation entries and never writes `currentFrame` |
| TileRenderer.Render | src/Map/Renderer.cpp:13-22 | a render call keeps every tracked animation and its frame |
| TileRenderer.ResetAnimations | src/Map/Renderer.cpp:116-119 | after a reset, every (tileset, animation) pair reads as the zero state |
| TileRenderer.RenderOncePerFrame | src/Map/Renderer.cpp:63-66 | corrected render: one `update` per call, then tiles only read their states; tracked animations are kept |
| RendererLemmas.BlitPlacement | src/Map/Renderer.cpp:100-112 | from full opacity, one tile draws once with alpha `opacity` if `opacity < 1` and 1.0 otherwise, and every texture ends at full opacity |
| RendererLemmas.DrawTilesPlacements | src/Map/Renderer.cpp:34-113 | the tile loop draws exactly the tiles that pass the guards, in tile order, one draw each, with the right texture, destination and alpha, and leaves no alpha behind |
| RendererLemmas.DrawLayersPlacements | src/Map/Renderer.cpp:17-31 | the layer loop draws visible layers in order, each with its tiles in order, and leaves no alpha behind |
| RendererLemmas.RenderPlacements | src/Map/Renderer.cpp:13-113 | one render call's draws equal the reference list (visible layers, then guarded tiles, in order), and every texture ends at full opacity |
| RendererLemmas.DrawTileAdvance | src/Map/Renderer.cpp:51-66 | a tile advances state `k` by delta exactly when it is drawn through animation `k`; otherwise state `k` is untouched |
| RendererLemmas.DrawTilesAdvance | src/Map/Renderer.cpp:34-66 | over a tile loop, state `k` exists afterwards iff it existed before or a drawn tile uses it; it advances by delta once per such tile; its frame is untouched |
| RendererLemmas.DrawLayersAdvance | src/Map/Renderer.cpp:17-31 | as above over the layer loop; tiles of invisible layers never count |
| RendererLemmas.RenderAdvance | src/Map/Renderer.cpp:13-66 | an animation shared by n drawn tiles advances `(old + n * delta) mod 2^32` in one render call |
| RendererLemmas.SharedAnimationAdvancesPerTile | src/Map/Renderer.cpp:63-66 | two drawn tiles sharing one animation move it 20 ms in a 10 ms frame |
| RendererLemmas.RenderOncePerFrameAdvancesOnce | src/Map/Renderer.cpp:63-66 | with the corrected render, each tracked animation advances by exactly delta per call, however many tiles show it; a new one starts at 0 |
| RendererLemmas.SharedAnimationDesyncs | src/Map/Renderer.cpp:63-73 | two tiles sharing a two-frame 20 ms animation, drawn in one 10 ms call from a new renderer, show frame 1 and then frame 0: each reads the shared state after its own increment |
| RendererLemmas.OncePerFrameKeepsTilesInStep | src/Map/Renderer.cpp:63-73 | with the corrected render, the same two tiles are drawn with the same frame |
| RendererLemmas.ResetThenGetIsInitial | src/Map/Renderer.cpp:116-119 | after a reset, any lookup yields elapsed time 0 and a store with exactly that one entry |
| Facade.NewMap | src/Map/Map.cpp:11-15 | a new map is not loaded, holds no textures, has an empty animation store and reports zero dimensions |
| Facade.NewMapRendersNothing | src/Map/Map.cpp:115-120 | rendering a new map emits nothing and changes nothing |
| Facade.FailedFirstLoadRendersNothing | src/Map/Map.cpp:35-41 | a load that fails to parse leaves a new map not loaded, and rendering it emits nothing |
| Facade.LoadTextures | src/Map/Map.cpp:93-108 | textures load in tileset order and stop at the first null; success iff every image loads; each kept texture is non-null and came from its tileset's path |
| Facade.Load | src/Map/Map.cpp:30-113 | see the list below the table |
| Facade.Render | src/Map/Map.cpp:115-124 | a map that is not loaded renders nothing and is unchanged; a loaded map forwards exactly one render call with the same delta, and only its animation store changes |
| Facade.DestroyAll | src/Map/Map.cpp:19-26 | the destroyed handles are the non-null textures, each destroyed as often as it occurs in the list; no null is destroyed |
| Facade.Destroy | src/Map/Map.cpp:17-28 | the destructor destroys each non-null texture once and leaves the list empty |
| Facade.NewMapTexturesWithinTilesets | src/Map/Map.cpp:11-15 | a new map holds no more textures than tilesets |
| Facade.LoadKeepsTexturesWithinTilesets | src/Map/Map.cpp:91-108 | `load` pushes at most one texture per tileset of the data it installs, on every path, so the texture list never outgrows the tileset list |
| Facade.RenderDefinedFromAnimations | src/Map/Renderer.cpp:37-54 | when the textures stay within the tilesets, a tile that passes both texture guards has its tileset index in range of `renderData.tilesets`; what `render` needs reduces to the animations being playable |
| Facade.DimensionsIgnoreLoadedFlag | src/Map/Map.hpp:37-49 | after a parse succeeds and the first texture fails, `isLoaded` is still false, yet the four dimension queries already report the new map |
| Facade.FailedReloadStaysLoaded | src/Map/Map.cpp:99-104 | a failed reload of a loaded map leaves it marked loaded with no textures for its tilesets |
| Facade.ReloadLeaksTextures | src/Map/Map.cpp:91 | after a successful reload, an old handle is neither kept nor destroyed by the destructor |
| Facade.LoadFixed | src/Map/Map.cpp:91-112 | corrected load: after a successful parse the loaded flag equals the outcome; success iff every image loads |
| Facade.LoadFixedKeepsConsistent | src/Map/Map.cpp:99-111 | with the corrected load, a loaded map always has one non-null texture per tileset |
| Facade.LoadFixedReleasesOld | src/Map/Map.cpp:91 | the corrected load destroys each non-null old texture exactly once |
| Legacy.Destroy | src/Map.cpp:10-14 | the destructor destroys the texture iff it is non-null |
| Legacy.Load | src/Map.cpp:16-35 | the parsed map always replaces the old one; success iff tileset 0 exists and its image loads; with no tileset 0 the texture is kept, otherwise it is replaced by the load result |
| Legacy.Render | src/Map.cpp:37-40 | nothing is drawn while the texture is null |
| Legacy.CellCopies | src/Map.cpp:53-63 | a cell yields no copy iff its global id is 0 |
| Legacy.DrawRowThenRest | src/Map.cpp:51-64 | the inner column loop from column x of row y, followed by the later rows, equals the row-major enumeration from cell (x, y) |
| Legacy.DrawRowsIsRowMajor | src/Map.cpp:50-65 | the nested loops (rows outer, columns inner) equal a single row-major enumeration where position p is cell (p mod width, p div width) |
| Legacy.DrawLayersIsRowMajor | src/Map.cpp:47-67 | the layer loop draws tile layers in order, skips other layers, and enumerates each tile layer row-major |
| Legacy.RenderIsRowMajor | src/Map.cpp:37-68 | with a texture, a render equals the reference list (tile layers in order, non-empty cells row-major); without one it is empty |
| Legacy.SourceInAtlas | src/Map.cpp:57-60 | for gid ≥ 1, the source rect lies in the first `columns` tile columns (`0 ≤ x < columns·tw`), is tile-aligned, and its tile coordinates give back `gid - 1` |
| Legacy.DestinationIsCell | src/Map.cpp:61 | the destination rect is the cell's square in the tileset's tile size; dividing its corner by the tile size gives back (x, y) |
| Legacy.StaleTextureWithoutTileset | src/Map.cpp:19-23 | loading a map with no tileset after a successful load fails but keeps the old texture, so `render` would dereference a missing tileset 0 |
| Legacy.LoadFixed | src/Map.cpp:16-35 | corrected load: the texture is non-null iff the load succeeds |
| Legacy.LoadFixedKeepsTileset | src/Map.cpp:38-42 | from any state, the corrected load never leaves a texture without a tileset 0 |

`Facade.Load` states the following:

- A failed parse returns false and changes nothing.
- A successful parse replaces the render data and keeps the renderer.
- The load succeeds iff every tileset image loads. Then the map is loaded,
  with one texture per tileset, each from that tileset's path.
- If texture i fails, the map keeps exactly textures 0..i-1 and the loaded
  flag keeps its old value.

## Left out

- The `tmx` library is not part of this model: parsing, `createRenderData`
  and `getFrameIndexAtTime`. Parse plus compile is an optional
  `MapRenderData`. The frame lookup is a function parameter. The renderer
  assumes it returns an index below the frame count for every time below
  the total duration, because the source indexes `frames` unchecked.
- The render-data records (`RenderData`) are rebuilt from the fields the
  source reads. Their integer widths are not part of this model, except that
  tileset and animation indices are `uint32_t` as `getState` takes them.
- SDL calls are records (`Command`, `Legacy.Copy`) or oracle functions
  (`TextureLoader`). SDL's per-texture alpha is a map from texture to alpha.
  The same path always loads to the same handle.
- Conversion to `SDL_FRect` floats is not modelled: rectangles are integers.
  Opacity is a `real`, used only in the `< 1.0` test and as the alpha value.
- `std::filesystem` path resolution (src/Map/Map.cpp:51-53,
  src/Map.cpp:25-26) is a foreign path API. The loader receives the tileset's
  resolved path (legacy: its image source).
- Logging and the tile and animation counting loops (src/Map/Map.cpp:32-110)
  only feed log messages and have no effect on state.
- src/Game.cpp, src/Game.hpp, src/Utils/Logger.cpp, src/Utils/Logger.hpp and
  src/Utils/Error.hpp are window, event-loop, logging and empty-enum code
  outside the render path.
- TileRenderer.Render: requires a positive total duration and an in-range
  frame lookup for each animation it plays, because the source divides and
  indexes without a guard. This is undefined behaviour, not a handled case.
- TileRenderer.Render: also requires `tilesetIndex < |tilesets|` for every
  tile that passes the texture guards and takes the animated branch, because
  `renderData.tilesets[tile.tilesetIndex]` is read unchecked
  (src/Map/Renderer.cpp:54). A `Map` always meets this:
  `Facade.NewMapTexturesWithinTilesets` and
  `Facade.LoadKeepsTexturesWithinTilesets` keep the texture list no longer
  than the tileset list, and `Facade.RenderDefinedFromAnimations` derives
  the index bound from that.
- Facade.NewMap: reports zero dimensions on the assumption that a
  default-constructed `tmx::render::MapRenderData` has zero sizes and no
  tilesets or layers. The constructor (src/Map/Map.cpp:11-15) does not
  initialise `m_RenderData` explicitly, and that type belongs to the `tmx`
  library, which is not part of this model.
- Legacy.Render: requires a positive column count and tile layers that
  cover the map, because the source divides by `columns` and reads
  `GetTile(x, y)` unguarded. Out-of-range `GetTile` belongs to the tinytmx
  library, which is not part of this model.
- Legacy: `int` overflow of `x * tileWidth` and friends is not modelled.
  Neither are the flip-flag bits of global ids, a null `GetImage()`, or the
  ignored result of `ParseFile` (the parsed map always replaces the old one).
- Legacy.Load: assumes tinytmx's `GetTileset(0)` returns null for a map
  without tilesets (src/Map.cpp:19-20), so that case takes the early return
  that keeps the texture. tinytmx is not part of this model; if the accessor
  failed instead, that branch would not be reached.
- Legacy.Load: the old texture is overwritten on reload without being
  destroyed (src/Map.cpp:28). This is stated only as the texture being
  replaced.

## Findings

| source | as written | input that shows it | evidently intended | confidence | as-written member | corrected member |
|---|---|---|---|---|---|---|
| src/Map/Renderer.cpp:63-66 | each drawn tile adds `deltaTime` to its shared animation state | two drawn tiles using animation 0 of tileset 0, one 10 ms frame from a new renderer: elapsed time becomes 20 | an animation advances once per frame; the unused `AnimationStateManager::update` exists for this | medium, not executed | RendererLemmas.SharedAnimationAdvancesPerTile | RendererLemmas.RenderOncePerFrameAdvancesOnce |
| src/Map/Renderer.cpp:63-73 | each tile reads the shared animation state after its own increment, so tiles that share an animation show different frames | two tiles sharing a two-frame 20 ms animation (frame 0 before 10 ms), one 10 ms call from a new renderer: the first is drawn with frame 1, the second with frame 0 | every tile showing an animation shows the same frame | medium, not executed | RendererLemmas.SharedAnimationDesyncs | RendererLemmas.OncePerFrameKeepsTilesInStep |
| src/Map/Map.cpp:99-104 | a texture failure returns false without clearing `m_Loaded` | a loaded map reloaded with a map whose first image fails: `isLoaded()` stays true with no textures | a failed load leaves the map not loaded | high, not executed | Facade.FailedReloadStaysLoaded | Facade.LoadFixedKeepsConsistent |
| src/Map/Map.cpp:91 | `m_TilesetTextures.clear()` drops the old handles without `SDL_DestroyTexture` | a map holding handle 1 reloaded with one tileset that loads handle 2: handle 1 is never destroyed | old textures are released on reload | high, not executed | Facade.ReloadLeaksTextures | Facade.LoadFixedReleasesOld |
| src/Map.cpp:19-23 | with no tileset 0, `load` returns false but keeps the old texture, though the tile map is already replaced | a loaded map reloaded with a map that has no tilesets: the next `render` passes the texture check and dereferences a null tileset (src/Map.cpp:42-43) | a failed load drops the texture | medium, not executed; depends on tinytmx's `GetTileset(0)` returning null for a map without tilesets and on `ParseFile` replacing the old map, neither of which the source shows | Legacy.StaleTextureWithoutTileset | Legacy.LoadFixedKeepsTileset |

The facade model uses the renderer as written, per-tile increment included.
The corrected members sit beside the as-written ones.
