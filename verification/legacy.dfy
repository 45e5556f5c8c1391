/** The earlier single-tileset map (`::Map` in src/Map.cpp): it keeps the
    parsed tile map and one texture for tileset 0, and draws every non-empty
    cell of every tile layer straight from its global tile id. The tile map
    is whatever the parser leaves behind; `IMG_LoadTexture` is a function
    from the tileset's image source to a texture handle. */
module Legacy {
  import opened RenderData

  datatype Tileset = Tileset(tileWidth: int, tileHeight: int, columns: int, imageSource: string)

  /** A tile layer holds its global ids by row, `gids[y][x]`; 0 is an empty
      cell. Layers of other kinds are not drawn. */
  datatype Layer = TileLayer(gids: seq<seq<nat>>) | OtherLayer

  datatype TmxMap = TmxMap(width: nat, height: nat, tilesets: seq<Tileset>, layers: seq<Layer>)

  datatype TileMap = TileMap(tmx: TmxMap, texture: Texture)

  /** One `SDL_RenderCopy`. */
  datatype Copy = Copy(texture: Texture, src: Rect, dest: Rect)

  /** `Map(renderer)`: an empty tile map and a null texture. */
  const NewTileMap: TileMap := TileMap(TmxMap(0, 0, [], []), Null)

  /** `~Map()`: the handle `SDL_DestroyTexture` receives, if any. */
  function Destroy(m: TileMap): (destroyed: seq<Texture>)
    ensures |destroyed| <= 1 && Null !in destroyed
    ensures m.texture != Null <==> m.texture in destroyed
  {
    if m.texture != Null then [m.texture] else []
  }

  /** `load(filePath)`, as written: the parse result always replaces the tile
      map; without a tileset 0 the load fails and the texture stays as it
      was; otherwise the texture is whatever loading tileset 0's image gives,
      and the load succeeds when that is not null. */
  function Load(m: TileMap, parsed: TmxMap, load: string -> Texture): (r: (bool, TileMap))
    ensures r.1.tmx == parsed
    ensures r.0 <==> (|parsed.tilesets| > 0 && load(parsed.tilesets[0].imageSource) != Null)
    ensures |parsed.tilesets| == 0 ==> r.1.texture == m.texture
    ensures |parsed.tilesets| > 0 ==> r.1.texture == load(parsed.tilesets[0].imageSource)
  {
    var m' := m.(tmx := parsed);
    if |parsed.tilesets| == 0 then (false, m')
    else
      var texture := load(parsed.tilesets[0].imageSource);
      (texture != Null, m'.(texture := texture))
  }

  /** `render` dereferences tileset 0 whenever the texture is not null. */
  predicate TextureHasTileset(m: TileMap) {
    m.texture != Null ==> |m.tmx.tilesets| > 0
  }

  /** Every tile layer has a cell for each position of the map. */
  predicate GridCovers(grid: seq<seq<nat>>, width: nat, height: nat) {
    |grid| >= height && forall y :: 0 <= y < height ==> |grid[y]| >= width
  }

  /** What `render` needs to be defined once it gets past the texture check:
      a tileset 0 with a positive column count (it divides by it) and tile
      layers that cover the map. */
  predicate Renderable(m: TileMap) {
    m.texture != Null ==>
      && |m.tmx.tilesets| > 0
      && m.tmx.tilesets[0].columns > 0
      && forall j :: 0 <= j < |m.tmx.layers| && m.tmx.layers[j].TileLayer? ==>
           GridCovers(m.tmx.layers[j].gids, m.tmx.width, m.tmx.height)
  }

  /** The part of the tileset image that shows global id `gid`. */
  function SourceRect(ts: Tileset, gid: nat): Rect
    requires gid >= 1 && ts.columns > 0
  {
    Rect(((gid - 1) % ts.columns) * ts.tileWidth, ((gid - 1) / ts.columns) * ts.tileHeight,
         ts.tileWidth, ts.tileHeight)
  }

  /** The screen square of cell (x, y), measured in the tileset's tile size. */
  function DestRect(ts: Tileset, x: nat, y: nat): Rect {
    Rect(x * ts.tileWidth, y * ts.tileHeight, ts.tileWidth, ts.tileHeight)
  }

  /** The copy for a non-empty cell. */
  function CopyCell(ts: Tileset, texture: Texture, gid: nat, x: nat, y: nat): Copy
    requires gid >= 1 && ts.columns > 0
  {
    Copy(texture, SourceRect(ts, gid), DestRect(ts, x, y))
  }

  /** The copy for any cell: none for an empty one. */
  function CellCopies(ts: Tileset, texture: Texture, gid: nat, x: nat, y: nat): (r: seq<Copy>)
    requires ts.columns > 0
    ensures gid == 0 <==> r == []
  {
    if gid == 0 then [] else [CopyCell(ts, texture, gid, x, y)]
  }

  /** The inner loop: cells x, x+1, ..., width-1 of row y. */
  function DrawRow(ts: Tileset, texture: Texture, grid: seq<seq<nat>>, width: nat, height: nat, x: nat, y: nat): seq<Copy>
    requires ts.columns > 0 && GridCovers(grid, width, height)
    requires x <= width && y < height
    decreases width - x
  {
    if x == width then []
    else CellCopies(ts, texture, grid[y][x], x, y) + DrawRow(ts, texture, grid, width, height, x + 1, y)
  }

  /** The outer loop: rows y, y+1, ..., height-1. */
  function DrawRows(ts: Tileset, texture: Texture, grid: seq<seq<nat>>, width: nat, height: nat, y: nat): seq<Copy>
    requires ts.columns > 0 && GridCovers(grid, width, height)
    requires y <= height
    decreases height - y
  {
    if y == height then []
    else DrawRow(ts, texture, grid, width, height, 0, y) + DrawRows(ts, texture, grid, width, height, y + 1)
  }

  /** The layer loop; layers that are not tile layers contribute nothing. */
  function DrawLayers(m: TileMap, layers: seq<Layer>): seq<Copy>
    requires m.texture != Null && Renderable(m)
    requires forall j :: 0 <= j < |layers| && layers[j].TileLayer? ==>
      GridCovers(layers[j].gids, m.tmx.width, m.tmx.height)
    decreases |layers|
  {
    if layers == [] then []
    else
      (match layers[0]
       case TileLayer(grid) => DrawRows(m.tmx.tilesets[0], m.texture, grid, m.tmx.width, m.tmx.height, 0)
       case OtherLayer => [])
      + DrawLayers(m, layers[1..])
  }

  /** `render()`: nothing without a texture; otherwise every non-empty cell
      of every tile layer, layer by layer. */
  function Render(m: TileMap): (r: seq<Copy>)
    requires Renderable(m)
    ensures m.texture == Null ==> r == []
  {
    if m.texture == Null then [] else DrawLayers(m, m.tmx.layers)
  }

  /** Division by a positive number splits `y * w + x` back into `y` and `x`. */
  lemma DivModOfCell(x: int, y: int, w: int)
    requires 0 <= x < w && 0 <= y
    ensures (y * w + x) / w == y && (y * w + x) % w == x
  {
    var p := y * w + x;
    var q := p / w;
    var r := p % w;
    assert (y - q) * w == r - x;
    ZeroMultiple(y - q, w, r - x);
  }

  /** A multiple of `w` strictly between `-w` and `w` is zero. */
  lemma ZeroMultiple(d: int, w: int, e: int)
    requires w > 0 && d * w == e && -w < e < w
    ensures d == 0
  {
  }

  /** A position below `width * height` names a cell of the map. */
  lemma CellOfPosition(p: nat, width: nat, height: nat)
    requires p < width * height
    ensures width > 0 && p / width < height && p % width < width
  {
  }

  /** Cell (x, y) of the map sits at row-major position `y * width + x`,
      and the next position is the next cell of the same row. */
  lemma PositionOfCell(x: nat, y: nat, width: nat, height: nat)
    requires x < width && y < height
    ensures y * width + x < width * height
    ensures (y * width + x) / width == y && (y * width + x) % width == x
    ensures y * width + (x + 1) == (y * width + x) + 1
  {
    ScaledBelow(y, height, width);
    NextRow(y, width);
    ScaledAtMost(y + 1, height, width);
    DivModOfCell(x, y, width);
  }

  /** A reference enumeration of one tile layer in row-major order: position
      p stands for cell (p mod width, p div width). */
  function RowMajor(ts: Tileset, texture: Texture, grid: seq<seq<nat>>, width: nat, height: nat, p: nat): seq<Copy>
    requires ts.columns > 0 && GridCovers(grid, width, height)
    decreases width * height - p
  {
    if p >= width * height then []
    else
      CellOfPosition(p, width, height);
      CellCopies(ts, texture, grid[p / width][p % width], p % width, p / width)
      + RowMajor(ts, texture, grid, width, height, p + 1)
  }

  /** The reference enumeration at position p, which is cell (x, y), emits
      that cell and moves on to position p + 1. */
  lemma RowMajorStep(ts: Tileset, texture: Texture, grid: seq<seq<nat>>, width: nat, height: nat, x: nat, y: nat, p: nat)
    requires ts.columns > 0 && GridCovers(grid, width, height)
    requires x < width && y < height && p == y * width + x
    ensures RowMajor(ts, texture, grid, width, height, p)
         == CellCopies(ts, texture, grid[y][x], x, y) + RowMajor(ts, texture, grid, width, height, p + 1)
  {
    PositionOfCell(x, y, width, height);
  }

  /** Row y + 1 starts `width` positions after row y. */
  lemma NextRow(y: nat, width: nat)
    ensures (y + 1) * width == y * width + width
  {
  }

  /** The rest of row y from column x (at position p), followed by everything
      from position q on, is the row-major enumeration from cell (x, y); q = p + (width - x) is where row y + 1
      starts. */
  lemma {:induction false} DrawRowThenRest(ts: Tileset, texture: Texture, grid: seq<seq<nat>>,
                                           width: nat, height: nat, x: nat, y: nat, p: nat, q: nat)
    requires ts.columns > 0 && GridCovers(grid, width, height)
    requires x <= width && y < height
    requires p == y * width + x && q == p + (width - x)
    ensures DrawRow(ts, texture, grid, width, height, x, y) + RowMajor(ts, texture, grid, width, height, q)
         == RowMajor(ts, texture, grid, width, height, p)
    decreases width - x
  {
    if x < width {
      RowMajorStep(ts, texture, grid, width, height, x, y, p);
      DrawRowThenRest(ts, texture, grid, width, height, x + 1, y, p + 1, q);
      DrawRowCons(ts, texture, grid, width, height, x, y,
                  RowMajor(ts, texture, grid, width, height, p),
                  RowMajor(ts, texture, grid, width, height, p + 1),
                  RowMajor(ts, texture, grid, width, height, q));
    }
  }

  /** One column of the induction above, for any enumeration: if `here`
      emits cell (x, y) and then continues as `next`, and the rest of the row
      from x + 1 followed by `rest` is `next`, then the row from x followed
      by `rest` is `here`. */
  lemma DrawRowCons(ts: Tileset, texture: Texture, grid: seq<seq<nat>>, width: nat, height: nat,
                    x: nat, y: nat, here: seq<Copy>, next: seq<Copy>, rest: seq<Copy>)
    requires ts.columns > 0 && GridCovers(grid, width, height)
    requires x < width && y < height
    requires here == CellCopies(ts, texture, grid[y][x], x, y) + next
    requires DrawRow(ts, texture, grid, width, height, x + 1, y) + rest == next
    ensures DrawRow(ts, texture, grid, width, height, x, y) + rest == here
  {
    var cell := CellCopies(ts, texture, grid[y][x], x, y);
    var row := DrawRow(ts, texture, grid, width, height, x + 1, y);
    assert DrawRow(ts, texture, grid, width, height, x, y) == cell + row;
    assert (cell + row) + rest == cell + (row + rest);
  }

  /** The nested loops (rows outer, columns inner) visit the cells in
      row-major order: from row y on (position p) they equal the reference
      enumeration from there. */
  lemma {:induction false} DrawRowsIsRowMajor(ts: Tileset, texture: Texture, grid: seq<seq<nat>>,
                                              width: nat, height: nat, y: nat, p: nat)
    requires ts.columns > 0 && GridCovers(grid, width, height)
    requires y <= height && p == y * width
    ensures DrawRows(ts, texture, grid, width, height, y) == RowMajor(ts, texture, grid, width, height, p)
    decreases height - y
  {
    if y == height {
      assert p >= width * height;
    } else {
      NextRow(y, width);
      DrawRowsIsRowMajor(ts, texture, grid, width, height, y + 1, p + width);
      DrawRowThenRest(ts, texture, grid, width, height, 0, y, p, p + width);
    }
  }

  /** The source rectangle of a non-empty cell lies in the tileset image:
      its column is within `columns`, it is aligned to the tile grid, and
      its tile coordinates give back `gid - 1`. */
  lemma SourceInAtlas(ts: Tileset, gid: nat)
    requires gid >= 1 && ts.columns > 0 && ts.tileWidth > 0 && ts.tileHeight > 0
    ensures var r := SourceRect(ts, gid);
      && 0 <= r.x < ts.columns * ts.tileWidth
      && 0 <= r.y
      && r.x % ts.tileWidth == 0 && r.y % ts.tileHeight == 0
      && (r.y / ts.tileHeight) * ts.columns + r.x / ts.tileWidth == gid - 1
      && r.w == ts.tileWidth && r.h == ts.tileHeight
  {
    var col := (gid - 1) % ts.columns;
    var row := (gid - 1) / ts.columns;
    Scaled(col, ts.tileWidth);
    Scaled(row, ts.tileHeight);
    ScaledBelow(col, ts.columns, ts.tileWidth);
  }

  /** Scaling by a positive tile size is undone by division and leaves no
      remainder. */
  lemma Scaled(i: nat, t: nat)
    requires t > 0
    ensures (i * t) / t == i && (i * t) % t == 0
  {
    DivModOfCell(0, i, t);
  }

  /** Scaling preserves `<=`: the first i rows fit in the first n. */
  lemma ScaledAtMost(i: nat, n: nat, t: nat)
    requires i <= n
    ensures i * t <= t * n
  {
    assert (n - i) * t >= 0;
  }

  /** Scaling by a positive tile size keeps a column below the column count. */
  lemma ScaledBelow(i: nat, n: nat, t: nat)
    requires i < n && t > 0
    ensures i * t < n * t
  {
    assert (n - i) * t > 0;
  }

  /** The destination rectangle is cell (x, y)'s square: dividing its corner
      by the tile size gives back the cell. */
  lemma DestinationIsCell(ts: Tileset, x: nat, y: nat)
    requires ts.tileWidth > 0 && ts.tileHeight > 0
    ensures var r := DestRect(ts, x, y);
      && r.x / ts.tileWidth == x && r.y / ts.tileHeight == y
      && r.w == ts.tileWidth && r.h == ts.tileHeight
  {
    Scaled(x, ts.tileWidth);
    Scaled(y, ts.tileHeight);
  }

  /** The reference draw list of a map: each tile layer's row-major
      enumeration, layer after layer. */
  function ReferenceLayers(m: TileMap, layers: seq<Layer>): seq<Copy>
    requires m.texture != Null && Renderable(m)
    requires forall j :: 0 <= j < |layers| && layers[j].TileLayer? ==>
      GridCovers(layers[j].gids, m.tmx.width, m.tmx.height)
    decreases |layers|
  {
    if layers == [] then []
    else
      (match layers[0]
       case TileLayer(grid) => RowMajor(m.tmx.tilesets[0], m.texture, grid, m.tmx.width, m.tmx.height, 0)
       case OtherLayer => [])
      + ReferenceLayers(m, layers[1..])
  }

  lemma {:induction false} DrawLayersIsRowMajor(m: TileMap, layers: seq<Layer>)
    requires m.texture != Null && Renderable(m)
    requires forall j :: 0 <= j < |layers| && layers[j].TileLayer? ==>
      GridCovers(layers[j].gids, m.tmx.width, m.tmx.height)
    ensures DrawLayers(m, layers) == ReferenceLayers(m, layers)
    decreases |layers|
  {
    if layers != [] {
      if layers[0].TileLayer? {
        DrawRowsIsRowMajor(m.tmx.tilesets[0], m.texture, layers[0].gids, m.tmx.width, m.tmx.height, 0, 0);
      }
      DrawLayersIsRowMajor(m, layers[1..]);
    }
  }

  /** `render` draws the tile layers in order, skipping other layers, and
      within each the non-empty cells in row-major order (rows outer,
      columns inner); nothing at all without a texture. */
  lemma RenderIsRowMajor(m: TileMap)
    requires Renderable(m)
    ensures m.texture == Null ==> Render(m) == []
    ensures m.texture != Null ==> Render(m) == ReferenceLayers(m, m.tmx.layers)
  {
    if m.texture != Null {
      DrawLayersIsRowMajor(m, m.tmx.layers);
    }
  }

  /** As written, loading a map without a tileset after a successful load
      fails but keeps the old texture, so the next `render` dereferences a
      tileset 0 that does not exist. */
  lemma StaleTextureWithoutTileset(m: TileMap, parsed: TmxMap, load: string -> Texture)
    requires m.texture != Null && |parsed.tilesets| == 0
    ensures var r := Load(m, parsed, load);
      && !r.0 && r.1.texture != Null && !TextureHasTileset(r.1)
  {
  }

  /** A corrected `load` that also drops the texture when the new map has no
      tileset 0. */
  function LoadFixed(m: TileMap, parsed: TmxMap, load: string -> Texture): (r: (bool, TileMap))
    ensures r.1.tmx == parsed
    ensures r.0 <==> (|parsed.tilesets| > 0 && load(parsed.tilesets[0].imageSource) != Null)
    ensures r.0 <==> r.1.texture != Null
  {
    if |parsed.tilesets| == 0 then (false, TileMap(parsed, Null))
    else
      var texture := load(parsed.tilesets[0].imageSource);
      (texture != Null, TileMap(parsed, texture))
  }

  /** Whatever state it starts from, the corrected load never leaves a
      texture without a tileset 0 behind it. */
  lemma LoadFixedKeepsTileset(m: TileMap, parsed: TmxMap, load: string -> Texture)
    ensures TextureHasTileset(LoadFixed(m, parsed, load).1)
  {
  }
}
