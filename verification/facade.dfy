/** The map facade (`teh::map::Map`): it owns the render data, the tileset
    textures and the renderer, loads a map in one shot and forwards each
    frame to the renderer while a map is loaded. Parsing and render-data
    compilation arrive as one optional result; `IMG_LoadTexture` is a
    function from an image path to a texture handle. */
module Facade {
  import opened UInt32
  import opened Wrappers
  import opened RenderData
  import opened TileRenderer

  datatype MapFacade = MapFacade(
    renderer: Renderer,
    data: MapRenderData,
    textures: seq<Texture>,
    loaded: bool)

  /** `IMG_LoadTexture(renderer, path)`. */
  type TextureLoader = string -> Texture

  /** `Map(renderer)`: nothing loaded, no textures, default render data. */
  function NewMap(): (m: MapFacade)
    ensures !IsLoaded(m) && m.textures == [] && m.renderer.states == map[]
    ensures PixelWidth(m) == 0 && PixelHeight(m) == 0 && Width(m) == 0 && Height(m) == 0
  {
    MapFacade(NewRenderer, EmptyRenderData, [], false)
  }

  function IsLoaded(m: MapFacade): bool {
    m.loaded
  }

  function PixelWidth(m: MapFacade): U32 {
    m.data.pixelWidth
  }

  function PixelHeight(m: MapFacade): U32 {
    m.data.pixelHeight
  }

  function Width(m: MapFacade): U32 {
    m.data.mapWidth
  }

  function Height(m: MapFacade): U32 {
    m.data.mapHeight
  }

  /** The image path of every tileset, in tileset order. */
  function ImagePaths(tilesets: seq<TilesetRenderData>): (paths: seq<string>)
    ensures |paths| == |tilesets|
    ensures forall i :: 0 <= i < |tilesets| ==> paths[i] == tilesets[i].imagePath
  {
    seq(|tilesets|, i requires 0 <= i < |tilesets| => tilesets[i].imagePath)
  }

  /** The texture loop of `load`: loads the images in order and stops at the
      first one that fails. Returns the textures pushed so far and whether
      every image loaded. */
  function LoadTextures(paths: seq<string>, load: TextureLoader): (r: (seq<Texture>, bool))
    ensures r.1 <==> forall i :: 0 <= i < |paths| ==> load(paths[i]) != Null
    ensures r.1 ==> |r.0| == |paths|
    ensures !r.1 ==> |r.0| < |paths| && load(paths[|r.0|]) == Null
    ensures |r.0| <= |paths|
    ensures forall i :: 0 <= i < |r.0| ==> r.0[i] == load(paths[i]) && r.0[i] != Null
    decreases |paths|
  {
    if paths == [] then
      ([], true)
    else
      var texture := load(paths[0]);
      if texture == Null then
        ([], false)
      else
        var rest := LoadTextures(paths[1..], load);
        ([texture] + rest.0, rest.1)
  }

  /** `load(filePath)`, as written. A failed parse changes nothing. Once the
      parse succeeds the render data is replaced and the texture list cleared
      (the old handles are dropped without being destroyed); a failing
      texture stops the load with the textures before it kept and the loaded
      flag as it was. */
  function Load(m: MapFacade, parsed: Option<MapRenderData>, load: TextureLoader): (r: (bool, MapFacade))
    ensures parsed.None? ==> r == (false, m)
    ensures parsed.Some? ==> r.1.data == parsed.value && r.1.renderer == m.renderer
    ensures r.0 <==> (parsed.Some? &&
      forall i :: 0 <= i < |parsed.value.tilesets| ==> load(parsed.value.tilesets[i].imagePath) != Null)
    ensures r.0 ==> r.1.loaded && |r.1.textures| == |r.1.data.tilesets|
    ensures parsed.Some? && !r.0 ==>
      && r.1.loaded == m.loaded
      && |r.1.textures| < |r.1.data.tilesets|
      && load(r.1.data.tilesets[|r.1.textures|].imagePath) == Null
    ensures parsed.Some? ==>
      forall i :: 0 <= i < |r.1.textures| ==>
        r.1.textures[i] == load(r.1.data.tilesets[i].imagePath) && r.1.textures[i] != Null
  {
    match parsed
    case None => (false, m)
    case Some(data) =>
      var (textures, ok) := LoadTextures(ImagePaths(data.tilesets), load);
      (ok, m.(data := data, textures := textures, loaded := if ok then true else m.loaded))
  }

  /** `render(deltaTime)`: nothing while no map is loaded; otherwise exactly
      the renderer's frame for the held data and textures with the same
      `deltaTime`, and only the renderer's store changes. */
  function Render(m: MapFacade, deltaTime: U32, lookup: FrameLookup): (r: (seq<Command>, MapFacade))
    requires m.loaded ==> RenderDefined(m.data, m.textures, lookup)
    ensures !m.loaded ==> r == ([], m)
    ensures m.loaded ==>
      && r.0 == TileRenderer.Render(m.renderer, m.data, m.textures, deltaTime, lookup).commands
      && r.1 == m.(renderer := TileRenderer.Render(m.renderer, m.data, m.textures, deltaTime, lookup).renderer)
  {
    if !m.loaded then ([], m)
    else
      var f := TileRenderer.Render(m.renderer, m.data, m.textures, deltaTime, lookup);
      (f.commands, m.(renderer := f.renderer))
  }

  /** The handles `SDL_DestroyTexture` receives for a texture list: each
      non-null entry once, in order. */
  function DestroyAll(textures: seq<Texture>): (destroyed: seq<Texture>)
    ensures Null !in destroyed
    ensures forall t :: t != Null ==> multiset(destroyed)[t] == multiset(textures)[t]
    decreases |textures|
  {
    if textures == [] then []
    else
      var rest := DestroyAll(textures[1..]);
      assert textures == [textures[0]] + textures[1..];
      if textures[0] == Null then rest else [textures[0]] + rest
  }

  /** `~Map()`: every non-null texture is destroyed once and the list is
      emptied. Yields the destroyed handles and the map afterwards. */
  function Destroy(m: MapFacade): (r: (seq<Texture>, MapFacade))
    ensures r.1.textures == []
    ensures Null !in r.0
    ensures forall t :: t != Null ==> multiset(r.0)[t] == multiset(m.textures)[t]
  {
    (DestroyAll(m.textures), m.(textures := []))
  }

  /** A loaded map holds a non-null texture for every tileset, which is what
      lets the renderer draw every tile it has data for. */
  predicate Consistent(m: MapFacade) {
    m.loaded ==> |m.textures| == |m.data.tilesets| && Null !in m.textures
  }

  /** The texture list is never longer than the tileset list, so a tile
      that passes the texture guards also has its tileset in
      `renderData.tilesets`. */
  predicate TexturesWithinTilesets(m: MapFacade) {
    |m.textures| <= |m.data.tilesets|
  }

  /** A fresh map holds no textures. */
  lemma NewMapTexturesWithinTilesets()
    ensures TexturesWithinTilesets(NewMap())
  {
  }

  /** `load`, failed or not, pushes at most one texture per tileset of the
      data it installs, and a failed parse changes nothing. */
  lemma LoadKeepsTexturesWithinTilesets(m: MapFacade, parsed: Option<MapRenderData>, load: TextureLoader)
    requires TexturesWithinTilesets(m)
    ensures TexturesWithinTilesets(Load(m, parsed, load).1)
  {
  }

  /** Every animation of every tileset can be played with `lookup`. */
  predicate AnimationsPlayable(data: MapRenderData, lookup: FrameLookup) {
    forall i, j :: 0 <= i < |data.tilesets| && 0 <= j < |data.tilesets[i].animations| ==>
      AnimationPlayable(data.tilesets[i].animations[j], lookup)
  }

  /** For a map whose textures stay within its tilesets, what `render` needs
      reduces to the animations alone: the unchecked tileset lookup at a
      textured animated tile is always in range. */
  lemma RenderDefinedFromAnimations(m: MapFacade, lookup: FrameLookup)
    requires TexturesWithinTilesets(m) && AnimationsPlayable(m.data, lookup)
    ensures RenderDefined(m.data, m.textures, lookup)
  {
  }

  /** A fresh map is a no-op to render. */
  lemma NewMapRendersNothing(deltaTime: U32, lookup: FrameLookup)
    ensures Render(NewMap(), deltaTime, lookup) == ([], NewMap())
  {
  }

  /** A map whose only load failed to parse stays not loaded and renders
      nothing. */
  lemma FailedFirstLoadRendersNothing(deltaTime: U32, lookup: FrameLookup, load: TextureLoader)
    ensures var r := Load(NewMap(), None, load);
      && !r.0 && !IsLoaded(r.1) && Render(r.1, deltaTime, lookup).0 == []
  {
  }

  /** After a successful parse whose first texture fails, a map that was not
      loaded stays not loaded, yet the dimension queries already report the
      new map: they read the render data without looking at the flag. */
  lemma DimensionsIgnoreLoadedFlag(m: MapFacade, data: MapRenderData, load: TextureLoader)
    requires !m.loaded
    requires |data.tilesets| > 0 && load(data.tilesets[0].imagePath) == Null
    ensures var r := Load(m, Some(data), load);
      && !r.0 && !IsLoaded(r.1)
      && Width(r.1) == data.mapWidth && Height(r.1) == data.mapHeight
      && PixelWidth(r.1) == data.pixelWidth && PixelHeight(r.1) == data.pixelHeight
  {
  }

  /** As written, a failed reload of a loaded map leaves it marked loaded
      with fewer textures than tilesets. */
  lemma FailedReloadStaysLoaded(m: MapFacade, data: MapRenderData, load: TextureLoader)
    requires m.loaded
    requires |data.tilesets| > 0 && load(data.tilesets[0].imagePath) == Null
    ensures var r := Load(m, Some(data), load);
      && !r.0 && IsLoaded(r.1) && r.1.textures == [] && !Consistent(r.1)
  {
  }

  /** As written, a successful reload forgets the old handles: a handle held
      before the reload is neither kept nor among those the destructor
      destroys afterwards. */
  lemma ReloadLeaksTextures()
    ensures var m := MapFacade(NewRenderer, EmptyRenderData, [Handle(1)], true);
      var data := MapRenderData(16, 16, 1, 1, [TilesetRenderData("tiles", "tiles.png", [])], []);
      var r := Load(m, Some(data), path => Handle(2));
      && r.0 && r.1.textures == [Handle(2)]
      && Handle(1) !in Destroy(r.1).0
  {
    var data := MapRenderData(16, 16, 1, 1, [TilesetRenderData("tiles", "tiles.png", [])], []);
    var load: TextureLoader := path => Handle(2);
    var m := MapFacade(NewRenderer, EmptyRenderData, [Handle(1)], true);
    var r := Load(m, Some(data), load);
    assert r.1.textures == [Handle(2)];
    assert multiset(Destroy(r.1).0)[Handle(1)] == 0;
  }

  /** The outcome of the corrected load: success, the map afterwards, and
      the handles it destroyed. */
  datatype LoadResult = LoadResult(ok: bool, facade: MapFacade, released: seq<Texture>)

  /** A corrected `load`: once the parse succeeds, the old textures are
      destroyed before being cleared, and the loaded flag is set to the
      outcome, so a failed load leaves the map not loaded. */
  function LoadFixed(m: MapFacade, parsed: Option<MapRenderData>, load: TextureLoader): (r: LoadResult)
    ensures parsed.None? ==> r == LoadResult(false, m, [])
    ensures parsed.Some? ==> r.facade.data == parsed.value && r.facade.loaded == r.ok
    ensures r.ok <==> (parsed.Some? &&
      forall i :: 0 <= i < |parsed.value.tilesets| ==> load(parsed.value.tilesets[i].imagePath) != Null)
  {
    match parsed
    case None => LoadResult(false, m, [])
    case Some(data) =>
      var (textures, ok) := LoadTextures(ImagePaths(data.tilesets), load);
      LoadResult(ok, m.(data := data, textures := textures, loaded := ok), DestroyAll(m.textures))
  }

  /** The corrected load keeps the facade consistent whatever happens: a
      loaded map always has one non-null texture per tileset. */
  lemma LoadFixedKeepsConsistent(m: MapFacade, parsed: Option<MapRenderData>, load: TextureLoader)
    requires Consistent(m)
    ensures Consistent(LoadFixed(m, parsed, load).facade)
  {
    if parsed.Some? {
      var r := LoadFixed(m, parsed, load);
      if r.ok {
        forall i | 0 <= i < |r.facade.textures|
          ensures r.facade.textures[i] != Null
        {
        }
      }
    }
  }

  /** The corrected load destroys every handle it drops: each non-null
      texture held before a successful parse is released exactly once. */
  lemma LoadFixedReleasesOld(m: MapFacade, data: MapRenderData, load: TextureLoader)
    ensures var r := LoadFixed(m, Some(data), load);
      && Null !in r.released
      && forall t :: t != Null ==> multiset(r.released)[t] == multiset(m.textures)[t]
  {
  }
}
