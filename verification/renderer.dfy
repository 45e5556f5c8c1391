/** The per-frame tile renderer (`teh::map::Renderer`): a fold over layers and
    their tiles that emits SDL commands and threads the animation store. */
module TileRenderer {
  import opened UInt32
  import opened Animation
  import opened RenderData

  /** The SDL calls the renderer makes, in the order it makes them. */
  datatype Command =
    | SetAlpha(texture: Texture, alpha: real)          // SDL_SetTextureAlphaModFloat
    | Draw(texture: Texture, src: Rect, dest: Rect)   // SDL_RenderTexture

  /** The renderer object: it owns the animation store. */
  datatype Renderer = Renderer(states: Store)

  /** The commands of one `render` call and the renderer after it. */
  datatype Frame = Frame(commands: seq<Command>, renderer: Renderer)

  /** `getFrameIndexAtTime` of the tmx library, given as a parameter: the
      index of the frame that is active at a time within the cycle. */
  type FrameLookup = (FlatAnimation, U32) -> nat

  /** A freshly constructed renderer has an empty store. */
  const NewRenderer: Renderer := Renderer(map[])

  /** `static_cast<uint32_t>(-1)`: an animated tile with this index is drawn
      as a static tile. */
  const NoAnimation: U32 := MaxValue

  /** The tile's tileset index is in range of the texture list and names a
      non-null texture (the first two guards of the tile loop). */
  predicate HasTexture(textures: seq<Texture>, tile: RenderTile) {
    tile.tilesetIndex < |textures| && textures[tile.tilesetIndex] != Null
  }

  /** The tile takes the animated branch. */
  predicate TakesAnimatedPath(tile: RenderTile) {
    tile.isAnimated && tile.animationIndex != NoAnimation
  }

  /** The tile passes every guard and is drawn. */
  predicate Drawn(data: MapRenderData, textures: seq<Texture>, tile: RenderTile) {
    && HasTexture(textures, tile)
    && (TakesAnimatedPath(tile) ==>
          && tile.tilesetIndex < |data.tilesets|
          && tile.animationIndex < |data.tilesets[tile.tilesetIndex].animations|)
  }

  /** The animation may be played: the cycle length is not zero (the source
      takes `elapsedTime % totalDuration` unguarded) and the frame lookup
      stays inside the frame table for every time within the cycle (the
      source indexes `frames` unchecked). */
  predicate AnimationPlayable(anim: FlatAnimation, lookup: FrameLookup) {
    && anim.totalDuration > 0
    && forall t: U32 :: t < anim.totalDuration ==> lookup(anim, t) < |anim.frames|
  }

  /** What the tile loop needs to have defined behaviour on this tile: a
      tile with a texture that takes the animated branch indexes
      `renderData.tilesets` unchecked, and, if its animation index is in
      range, plays that animation. */
  predicate TileDefined(data: MapRenderData, textures: seq<Texture>, lookup: FrameLookup, tile: RenderTile) {
    HasTexture(textures, tile) && TakesAnimatedPath(tile) ==>
      && tile.tilesetIndex < |data.tilesets|
      && (tile.animationIndex < |data.tilesets[tile.tilesetIndex].animations| ==>
            AnimationPlayable(data.tilesets[tile.tilesetIndex].animations[tile.animationIndex], lookup))
  }

  predicate TilesDefined(data: MapRenderData, textures: seq<Texture>, lookup: FrameLookup, tiles: seq<RenderTile>) {
    forall i :: 0 <= i < |tiles| ==> TileDefined(data, textures, lookup, tiles[i])
  }

  /** Invisible layers are never looked at. */
  predicate LayersDefined(data: MapRenderData, textures: seq<Texture>, lookup: FrameLookup, layers: seq<LayerRenderData>) {
    forall j :: 0 <= j < |layers| && layers[j].visible ==> TilesDefined(data, textures, lookup, layers[j].tiles)
  }

  predicate RenderDefined(data: MapRenderData, textures: seq<Texture>, lookup: FrameLookup) {
    LayersDefined(data, textures, lookup, data.layers)
  }

  /** The key of the tile's animation state. */
  function KeyOf(tile: RenderTile): Key {
    PackKey(tile.tilesetIndex, tile.animationIndex)
  }

  function StaticSource(tile: RenderTile): Rect {
    Rect(tile.srcX, tile.srcY, tile.srcW, tile.srcH)
  }

  function Destination(tile: RenderTile): Rect {
    Rect(tile.destX, tile.destY, tile.destW, tile.destH)
  }

  /** The source rectangle of a drawn tile, read with the animation store as
      it is after the tile's own increment. */
  function SourceRect(data: MapRenderData, lookup: FrameLookup, states: Store, tile: RenderTile): (r: Rect)
    requires TakesAnimatedPath(tile) ==>
      && tile.tilesetIndex < |data.tilesets|
      && tile.animationIndex < |data.tilesets[tile.tilesetIndex].animations|
      && AnimationPlayable(data.tilesets[tile.tilesetIndex].animations[tile.animationIndex], lookup)
      && KeyOf(tile) in states
    ensures !TakesAnimatedPath(tile) ==> r == StaticSource(tile)
    ensures tile.animationIndex == NoAnimation ==> r == StaticSource(tile)
    ensures TakesAnimatedPath(tile) ==>
      var anim := data.tilesets[tile.tilesetIndex].animations[tile.animationIndex];
      var timeInCycle := states[KeyOf(tile)].elapsedTime % anim.totalDuration;
      && timeInCycle < anim.totalDuration
      && lookup(anim, timeInCycle) < |anim.frames|
      && r.x == anim.frames[lookup(anim, timeInCycle)].srcX
      && r.y == anim.frames[lookup(anim, timeInCycle)].srcY
      && r.w == tile.srcW && r.h == tile.srcH
  {
    if TakesAnimatedPath(tile) then
      var anim := data.tilesets[tile.tilesetIndex].animations[tile.animationIndex];
      var timeInCycle := states[KeyOf(tile)].elapsedTime % anim.totalDuration;
      var frame := anim.frames[lookup(anim, timeInCycle)];
      Rect(frame.srcX, frame.srcY, tile.srcW, tile.srcH)
    else
      StaticSource(tile)
  }

  /** One draw with the opacity applied around it: set before, reset to full
      after, and only when the tile is translucent. */
  function Blit(texture: Texture, src: Rect, dest: Rect, opacity: real): seq<Command> {
    if opacity < 1.0 then
      [SetAlpha(texture, opacity), Draw(texture, src, dest), SetAlpha(texture, 1.0)]
    else
      [Draw(texture, src, dest)]
  }

  /** One iteration of the tile loop. A drawn animated tile advances its own
      state by `deltaTime` before its frame is chosen. */
  function DrawTile(data: MapRenderData, textures: seq<Texture>, lookup: FrameLookup, deltaTime: U32,
                    states: Store, tile: RenderTile): (r: (seq<Command>, Store))
    requires TileDefined(data, textures, lookup, tile)
    ensures !Drawn(data, textures, tile) ==> r == ([], states)
    ensures Drawn(data, textures, tile) && !TakesAnimatedPath(tile) ==> r.1 == states
    ensures Drawn(data, textures, tile) && TakesAnimatedPath(tile) ==>
      && r.1.Keys == states.Keys + {KeyOf(tile)}
      && r.1[KeyOf(tile)].elapsedTime == Add(Lookup(states, KeyOf(tile)).elapsedTime, deltaTime)
      && (forall k :: k in states && k != KeyOf(tile) ==> r.1[k] == states[k])
    ensures Drawn(data, textures, tile) ==>
      && (TakesAnimatedPath(tile) ==> KeyOf(tile) in r.1)
      && r.0 == Blit(textures[tile.tilesetIndex], SourceRect(data, lookup, r.1, tile), Destination(tile), tile.opacity)
    ensures states.Keys <= r.1.Keys
    ensures forall k :: k in states ==> r.1[k].currentFrame == states[k].currentFrame
  {
    if !Drawn(data, textures, tile) then
      ([], states)
    else
      var states' :=
        if TakesAnimatedPath(tile) then Advance(states, tile.tilesetIndex, tile.animationIndex, deltaTime)
        else states;
      (Blit(textures[tile.tilesetIndex], SourceRect(data, lookup, states', tile), Destination(tile), tile.opacity),
       states')
  }

  /** The tile loop of `renderLayer`, tiles in order. */
  function DrawTiles(data: MapRenderData, textures: seq<Texture>, lookup: FrameLookup, deltaTime: U32,
                     states: Store, tiles: seq<RenderTile>): (r: (seq<Command>, Store))
    requires TilesDefined(data, textures, lookup, tiles)
    ensures states.Keys <= r.1.Keys
    ensures forall k :: k in states ==> r.1[k].currentFrame == states[k].currentFrame
    decreases |tiles|
  {
    if tiles == [] then
      ([], states)
    else
      var first := DrawTile(data, textures, lookup, deltaTime, states, tiles[0]);
      var rest := DrawTiles(data, textures, lookup, deltaTime, first.1, tiles[1..]);
      (first.0 + rest.0, rest.1)
  }

  /** `renderLayer`: an invisible layer is skipped whole. */
  function DrawLayer(data: MapRenderData, textures: seq<Texture>, lookup: FrameLookup, deltaTime: U32,
                     states: Store, layer: LayerRenderData): (r: (seq<Command>, Store))
    requires layer.visible ==> TilesDefined(data, textures, lookup, layer.tiles)
    ensures !layer.visible ==> r == ([], states)
    ensures states.Keys <= r.1.Keys
    ensures forall k :: k in states ==> r.1[k].currentFrame == states[k].currentFrame
  {
    if !layer.visible then ([], states)
    else DrawTiles(data, textures, lookup, deltaTime, states, layer.tiles)
  }

  /** The layer loop of `render`, layers in order. */
  function DrawLayers(data: MapRenderData, textures: seq<Texture>, lookup: FrameLookup, deltaTime: U32,
                      states: Store, layers: seq<LayerRenderData>): (r: (seq<Command>, Store))
    requires LayersDefined(data, textures, lookup, layers)
    ensures states.Keys <= r.1.Keys
    ensures forall k :: k in states ==> r.1[k].currentFrame == states[k].currentFrame
    decreases |layers|
  {
    if layers == [] then
      ([], states)
    else
      var first := DrawLayer(data, textures, lookup, deltaTime, states, layers[0]);
      var rest := DrawLayers(data, textures, lookup, deltaTime, first.1, layers[1..]);
      (first.0 + rest.0, rest.1)
  }

  /** `render(renderData, tilesetTextures, deltaTime)`. Animation entries are
      only ever added, and no `currentFrame` is ever written. */
  function Render(renderer: Renderer, data: MapRenderData, textures: seq<Texture>, deltaTime: U32,
                  lookup: FrameLookup): (f: Frame)
    requires RenderDefined(data, textures, lookup)
    ensures renderer.states.Keys <= f.renderer.states.Keys
    ensures forall k :: k in renderer.states ==>
      f.renderer.states[k].currentFrame == renderer.states[k].currentFrame
  {
    var r := DrawLayers(data, textures, lookup, deltaTime, renderer.states, data.layers);
    Frame(r.0, Renderer(r.1))
  }

  /** `resetAnimations`: the store is replaced by an empty one. */
  function ResetAnimations(renderer: Renderer): (r: Renderer)
    ensures forall t: U32, a: U32 :: GetState(r.states, t, a).0 == Initial
  {
    Renderer(map[])
  }

  /** A corrected render step that advances every tracked animation once per
      call, through `update`, and lets the drawn tiles only read (and lazily
      create) their states. */
  function RenderOncePerFrame(renderer: Renderer, data: MapRenderData, textures: seq<Texture>, deltaTime: U32,
                              lookup: FrameLookup): (f: Frame)
    requires RenderDefined(data, textures, lookup)
    ensures renderer.states.Keys <= f.renderer.states.Keys
  {
    var r := DrawLayers(data, textures, lookup, 0, Update(renderer.states, deltaTime), data.layers);
    Frame(r.0, Renderer(r.1))
  }

  /** SDL's per-texture alpha modulation; a texture absent from the map is at
      full opacity. */
  type AlphaState = map<Texture, real>

  function AlphaOf(alphas: AlphaState, texture: Texture): real {
    if texture in alphas then alphas[texture] else 1.0
  }

  predicate FullyOpaque(alphas: AlphaState) {
    forall t :: t in alphas ==> alphas[t] == 1.0
  }

  /** The alpha modulation after a command sequence has run. */
  function AlphaAfter(alphas: AlphaState, commands: seq<Command>): AlphaState
    decreases |commands|
  {
    if commands == [] then alphas
    else
      match commands[0]
      case SetAlpha(t, a) => AlphaAfter(alphas[t := a], commands[1..])
      case Draw(_, _, _) => AlphaAfter(alphas, commands[1..])
  }

  /** What a draw puts on screen, apart from which part of the image: the
      texture, where it goes, and the alpha in effect. */
  datatype Placement = Placement(texture: Texture, dest: Rect, alpha: real)

  /** The draws of a command sequence in order, each with the alpha its
      texture had at that moment. */
  function Placements(alphas: AlphaState, commands: seq<Command>): seq<Placement>
    decreases |commands|
  {
    if commands == [] then []
    else
      match commands[0]
      case SetAlpha(t, a) => Placements(alphas[t := a], commands[1..])
      case Draw(t, _, d) => [Placement(t, d, AlphaOf(alphas, t))] + Placements(alphas, commands[1..])
  }
}
