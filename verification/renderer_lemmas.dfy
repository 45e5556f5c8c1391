/** Properties of the tile renderer that relate a whole `render` call to its
    input: which draws come out and in what order, what alpha each one sees,
    and how far each animation state moves. */
module RendererLemmas {
  import opened UInt32
  import opened Animation
  import opened RenderData
  import opened TileRenderer

  /** The alpha a tile is drawn with: its opacity when translucent, full
      otherwise. */
  function EffectiveAlpha(opacity: real): real {
    if opacity < 1.0 then opacity else 1.0
  }

  /** The reference draw list of a tile sequence: one placement per tile that
      passes the guards, in tile order. */
  function ExpectedTiles(data: MapRenderData, textures: seq<Texture>, tiles: seq<RenderTile>): seq<Placement>
    decreases |tiles|
  {
    if tiles == [] then []
    else
      (if Drawn(data, textures, tiles[0])
       then [Placement(textures[tiles[0].tilesetIndex], Destination(tiles[0]), EffectiveAlpha(tiles[0].opacity))]
       else [])
      + ExpectedTiles(data, textures, tiles[1..])
  }

  /** The reference draw list of a layer sequence: visible layers in order. */
  function ExpectedLayers(data: MapRenderData, textures: seq<Texture>, layers: seq<LayerRenderData>): seq<Placement>
    decreases |layers|
  {
    if layers == [] then []
    else
      (if layers[0].visible then ExpectedTiles(data, textures, layers[0].tiles) else [])
      + ExpectedLayers(data, textures, layers[1..])
  }

  /** Running two command sequences one after the other. */
  lemma {:induction false} PlacementsAppend(alphas: AlphaState, c1: seq<Command>, c2: seq<Command>)
    ensures Placements(alphas, c1 + c2) == Placements(alphas, c1) + Placements(AlphaAfter(alphas, c1), c2)
    ensures AlphaAfter(alphas, c1 + c2) == AlphaAfter(AlphaAfter(alphas, c1), c2)
    decreases |c1|
  {
    if c1 != [] {
      assert (c1 + c2)[0] == c1[0];
      assert (c1 + c2)[1..] == c1[1..] + c2;
      match c1[0]
      case SetAlpha(t, a) =>
        PlacementsAppend(alphas[t := a], c1[1..], c2);
      case Draw(t, s, d) =>
        PlacementsAppend(alphas, c1[1..], c2);
    } else {
      assert c1 + c2 == c2;
    }
  }

  /** A single blit, started with every texture at full opacity, draws once
      with the tile's effective alpha and leaves every texture at full
      opacity again. */
  lemma BlitPlacement(alphas: AlphaState, texture: Texture, src: Rect, dest: Rect, opacity: real)
    requires FullyOpaque(alphas)
    ensures Placements(alphas, Blit(texture, src, dest, opacity)) == [Placement(texture, dest, EffectiveAlpha(opacity))]
    ensures FullyOpaque(AlphaAfter(alphas, Blit(texture, src, dest, opacity)))
  {
    var cmds := Blit(texture, src, dest, opacity);
    if opacity < 1.0 {
      var translucent := alphas[texture := opacity];
      assert cmds[1..][1..] == [SetAlpha(texture, 1.0)];
      assert Placements(translucent, cmds[1..][1..]) == [];
      assert AlphaAfter(translucent, cmds[1..][1..]) == translucent[texture := 1.0];
    } else {
      assert AlphaOf(alphas, texture) == 1.0;
    }
  }

  /** The tile loop draws exactly the tiles that pass the guards, in order,
      each with its own effective alpha, and leaves no texture translucent. */
  lemma {:induction false} DrawTilesPlacements(data: MapRenderData, textures: seq<Texture>, lookup: FrameLookup,
                                               deltaTime: U32, states: Store, tiles: seq<RenderTile>, alphas: AlphaState)
    requires TilesDefined(data, textures, lookup, tiles)
    requires FullyOpaque(alphas)
    ensures var r := DrawTiles(data, textures, lookup, deltaTime, states, tiles);
      && Placements(alphas, r.0) == ExpectedTiles(data, textures, tiles)
      && FullyOpaque(AlphaAfter(alphas, r.0))
    decreases |tiles|
  {
    if tiles != [] {
      var tile := tiles[0];
      assert TileDefined(data, textures, lookup, tile);
      var first := DrawTile(data, textures, lookup, deltaTime, states, tile);
      var rest := DrawTiles(data, textures, lookup, deltaTime, first.1, tiles[1..]);
      assert TilesDefined(data, textures, lookup, tiles[1..]) by {
        forall i | 0 <= i < |tiles[1..]|
          ensures TileDefined(data, textures, lookup, tiles[1..][i])
        {
          assert tiles[1..][i] == tiles[i + 1];
        }
      }
      PlacementsAppend(alphas, first.0, rest.0);
      if Drawn(data, textures, tile) {
        BlitPlacement(alphas, textures[tile.tilesetIndex], SourceRect(data, lookup, first.1, tile),
                      Destination(tile), tile.opacity);
      }
      DrawTilesPlacements(data, textures, lookup, deltaTime, first.1, tiles[1..], AlphaAfter(alphas, first.0));
    }
  }

  /** The layer loop: visible layers in order, each with its tiles in order. */
  lemma {:induction false} DrawLayersPlacements(data: MapRenderData, textures: seq<Texture>, lookup: FrameLookup,
                                                deltaTime: U32, states: Store, layers: seq<LayerRenderData>,
                                                alphas: AlphaState)
    requires LayersDefined(data, textures, lookup, layers)
    requires FullyOpaque(alphas)
    ensures var r := DrawLayers(data, textures, lookup, deltaTime, states, layers);
      && Placements(alphas, r.0) == ExpectedLayers(data, textures, layers)
      && FullyOpaque(AlphaAfter(alphas, r.0))
    decreases |layers|
  {
    if layers != [] {
      var first := DrawLayer(data, textures, lookup, deltaTime, states, layers[0]);
      var rest := DrawLayers(data, textures, lookup, deltaTime, first.1, layers[1..]);
      assert LayersDefined(data, textures, lookup, layers[1..]) by {
        forall j | 0 <= j < |layers[1..]| && layers[1..][j].visible
          ensures TilesDefined(data, textures, lookup, layers[1..][j].tiles)
        {
          assert layers[1..][j] == layers[j + 1];
        }
      }
      PlacementsAppend(alphas, first.0, rest.0);
      if layers[0].visible {
        DrawTilesPlacements(data, textures, lookup, deltaTime, states, layers[0].tiles, alphas);
      }
      DrawLayersPlacements(data, textures, lookup, deltaTime, first.1, layers[1..], AlphaAfter(alphas, first.0));
    }
  }

  /** One `render` call draws, in layer order and then tile order, exactly
      the tiles of visible layers that pass the guards, one draw each, with
      the tile's destination and effective alpha; starting from full opacity
      it leaves every texture at full opacity. */
  lemma RenderPlacements(renderer: Renderer, data: MapRenderData, textures: seq<Texture>, deltaTime: U32,
                         lookup: FrameLookup, alphas: AlphaState)
    requires RenderDefined(data, textures, lookup)
    requires FullyOpaque(alphas)
    ensures var f := Render(renderer, data, textures, deltaTime, lookup);
      && Placements(alphas, f.commands) == ExpectedLayers(data, textures, data.layers)
      && FullyOpaque(AlphaAfter(alphas, f.commands))
  {
    DrawLayersPlacements(data, textures, lookup, deltaTime, renderer.states, data.layers, alphas);
  }

  /** 1 when the tile is drawn through the animated branch with key `k`. */
  function TileHits(data: MapRenderData, textures: seq<Texture>, tile: RenderTile, k: Key): nat {
    if Drawn(data, textures, tile) && TakesAnimatedPath(tile) && KeyOf(tile) == k then 1 else 0
  }

  /** How many drawn tiles of the sequence use the animation with key `k`. */
  function Hits(data: MapRenderData, textures: seq<Texture>, tiles: seq<RenderTile>, k: Key): nat
    decreases |tiles|
  {
    if tiles == [] then 0
    else TileHits(data, textures, tiles[0], k) + Hits(data, textures, tiles[1..], k)
  }

  /** How many drawn tiles of the visible layers use the animation `k`. */
  function LayerHits(data: MapRenderData, textures: seq<Texture>, layers: seq<LayerRenderData>, k: Key): nat
    decreases |layers|
  {
    if layers == [] then 0
    else
      (if layers[0].visible then Hits(data, textures, layers[0].tiles, k) else 0)
      + LayerHits(data, textures, layers[1..], k)
  }

  /** `after` is `before` with the state under `k` moved by `deltaTime` n
      times (mod 2^32): present when it was before or n > 0, frame
      untouched. */
  predicate AdvancedBy(before: Store, after: Store, k: Key, deltaTime: U32, n: nat) {
    && (k in after <==> k in before || n > 0)
    && Lookup(after, k).currentFrame == Lookup(before, k).currentFrame
    && Lookup(after, k).elapsedTime == AddTimes(Lookup(before, k).elapsedTime, deltaTime, n)
  }

  /** Moving n1 times and then n2 times is moving n1 + n2 times. */
  lemma AdvancedByCompose(s0: Store, s1: Store, s2: Store, k: Key, deltaTime: U32, n1: nat, n2: nat)
    requires AdvancedBy(s0, s1, k, deltaTime, n1) && AdvancedBy(s1, s2, k, deltaTime, n2)
    ensures AdvancedBy(s0, s2, k, deltaTime, n1 + n2)
  {
    AddTimesSplit(Lookup(s0, k).elapsedTime, deltaTime, n1, n2);
  }

  /** The tile's effect on the state under key `k`: an increment by
      `deltaTime` when the tile is drawn through animation `k`, none
      otherwise. */
  lemma DrawTileAdvance(data: MapRenderData, textures: seq<Texture>, lookup: FrameLookup, deltaTime: U32,
                        states: Store, tile: RenderTile, k: Key)
    requires TileDefined(data, textures, lookup, tile)
    ensures var r := DrawTile(data, textures, lookup, deltaTime, states, tile);
      && (k in r.1 <==> k in states || TileHits(data, textures, tile, k) > 0)
      && Lookup(r.1, k).currentFrame == Lookup(states, k).currentFrame
      && Lookup(r.1, k).elapsedTime
         == AddTimes(Lookup(states, k).elapsedTime, deltaTime, TileHits(data, textures, tile, k))
  {
  }

  /** Over a tile sequence, the state under `k` exists afterwards exactly
      when it existed before or some drawn tile uses it, and it has moved by
      `deltaTime` once per such tile (mod 2^32); its frame is untouched. */
  lemma {:induction false} DrawTilesAdvance(data: MapRenderData, textures: seq<Texture>, lookup: FrameLookup,
                                            deltaTime: U32, states: Store, tiles: seq<RenderTile>, k: Key)
    requires TilesDefined(data, textures, lookup, tiles)
    ensures var r := DrawTiles(data, textures, lookup, deltaTime, states, tiles);
      && (k in r.1 <==> k in states || Hits(data, textures, tiles, k) > 0)
      && Lookup(r.1, k).currentFrame == Lookup(states, k).currentFrame
      && Lookup(r.1, k).elapsedTime
         == AddTimes(Lookup(states, k).elapsedTime, deltaTime, Hits(data, textures, tiles, k))
    decreases |tiles|
  {
    if tiles != [] {
      var first := DrawTile(data, textures, lookup, deltaTime, states, tiles[0]);
      assert TilesDefined(data, textures, lookup, tiles[1..]) by {
        forall i | 0 <= i < |tiles[1..]|
          ensures TileDefined(data, textures, lookup, tiles[1..][i])
        {
          assert tiles[1..][i] == tiles[i + 1];
        }
      }
      var rest := DrawTiles(data, textures, lookup, deltaTime, first.1, tiles[1..]);
      assert DrawTiles(data, textures, lookup, deltaTime, states, tiles) == (first.0 + rest.0, rest.1);
      var here := TileHits(data, textures, tiles[0], k);
      var later := Hits(data, textures, tiles[1..], k);
      assert Hits(data, textures, tiles, k) == here + later;
      DrawTileAdvance(data, textures, lookup, deltaTime, states, tiles[0], k);
      DrawTilesAdvance(data, textures, lookup, deltaTime, first.1, tiles[1..], k);
      AdvancedByCompose(states, first.1, rest.1, k, deltaTime, here, later);
    }
  }

  /** The same over the layer loop, counting tiles of visible layers only. */
  lemma {:induction false} DrawLayersAdvance(data: MapRenderData, textures: seq<Texture>, lookup: FrameLookup,
                                             deltaTime: U32, states: Store, layers: seq<LayerRenderData>, k: Key)
    requires LayersDefined(data, textures, lookup, layers)
    ensures var r := DrawLayers(data, textures, lookup, deltaTime, states, layers);
      && (k in r.1 <==> k in states || LayerHits(data, textures, layers, k) > 0)
      && Lookup(r.1, k).currentFrame == Lookup(states, k).currentFrame
      && Lookup(r.1, k).elapsedTime
         == AddTimes(Lookup(states, k).elapsedTime, deltaTime, LayerHits(data, textures, layers, k))
    decreases |layers|
  {
    if layers != [] {
      var first := DrawLayer(data, textures, lookup, deltaTime, states, layers[0]);
      assert LayersDefined(data, textures, lookup, layers[1..]) by {
        forall j | 0 <= j < |layers[1..]| && layers[1..][j].visible
          ensures TilesDefined(data, textures, lookup, layers[1..][j].tiles)
        {
          assert layers[1..][j] == layers[j + 1];
        }
      }
      var rest := DrawLayers(data, textures, lookup, deltaTime, first.1, layers[1..]);
      assert DrawLayers(data, textures, lookup, deltaTime, states, layers) == (first.0 + rest.0, rest.1);
      var here := if layers[0].visible then Hits(data, textures, layers[0].tiles, k) else 0;
      var later := LayerHits(data, textures, layers[1..], k);
      assert LayerHits(data, textures, layers, k) == here + later;
      if layers[0].visible {
        DrawTilesAdvance(data, textures, lookup, deltaTime, states, layers[0].tiles, k);
      }
      assert AdvancedBy(states, first.1, k, deltaTime, here);
      DrawLayersAdvance(data, textures, lookup, deltaTime, first.1, layers[1..], k);
      AdvancedByCompose(states, first.1, rest.1, k, deltaTime, here, later);
    }
  }

  /** One `render` call moves the state of animation `k` by `deltaTime` once
      for every drawn tile that uses it: an animation shared by n drawn tiles
      advances n * deltaTime per call (mod 2^32). */
  lemma RenderAdvance(renderer: Renderer, data: MapRenderData, textures: seq<Texture>, deltaTime: U32,
                      lookup: FrameLookup, k: Key)
    requires RenderDefined(data, textures, lookup)
    ensures var f := Render(renderer, data, textures, deltaTime, lookup);
      && (k in f.renderer.states <==> k in renderer.states || LayerHits(data, textures, data.layers, k) > 0)
      && Lookup(f.renderer.states, k).currentFrame == Lookup(renderer.states, k).currentFrame
      && Lookup(f.renderer.states, k).elapsedTime
         == AddTimes(Lookup(renderer.states, k).elapsedTime, deltaTime, LayerHits(data, textures, data.layers, k))
      && Lookup(f.renderer.states, k).elapsedTime
         == (Lookup(renderer.states, k).elapsedTime + LayerHits(data, textures, data.layers, k) * deltaTime) % Modulus
  {
    DrawLayersAdvance(data, textures, lookup, deltaTime, renderer.states, data.layers, k);
    AddTimesClosedForm(Lookup(renderer.states, k).elapsedTime, deltaTime, LayerHits(data, textures, data.layers, k));
  }

  /** A one-frame animation lasting 100 ms, used by the tiles below. */
  const Blink: FlatAnimation := FlatAnimation(100, [AnimationFrame(0, 0, 100)])

  /** Two 16x16 animated tiles side by side, both using animation 0 of
      tileset 0. */
  const TwinTiles: MapRenderData := MapRenderData(
    32, 16, 2, 1,
    [TilesetRenderData("tiles", "tiles.png", [Blink])],
    [LayerRenderData("ground", true, [
      RenderTile(0, 0, 16, 16, 0, true, 0, 0, 0, 16, 16, 1.0),
      RenderTile(16, 0, 16, 16, 0, true, 0, 0, 0, 16, 16, 1.0)])])

  /** As written, a 10 ms frame moves an animation shown on two tiles by
      20 ms: the increment sits inside the tile loop. */
  lemma SharedAnimationAdvancesPerTile()
    ensures var lookup: FrameLookup := (anim, t) => 0;
      && RenderDefined(TwinTiles, [Handle(1)], lookup)
      && Lookup(Render(NewRenderer, TwinTiles, [Handle(1)], 10, lookup).renderer.states, PackKey(0, 0)).elapsedTime == 20
  {
    var lookup: FrameLookup := (anim, t) => 0;
    var textures := [Handle(1)];
    var tiles := TwinTiles.layers[0].tiles;
    assert RenderDefined(TwinTiles, textures, lookup) by {
      assert AnimationPlayable(Blink, lookup);
      assert TilesDefined(TwinTiles, textures, lookup, tiles);
    }
    var k := PackKey(0, 0);
    assert tiles[1..][1..] == [];
    assert Hits(TwinTiles, textures, tiles, k) == 2;
    assert LayerHits(TwinTiles, textures, TwinTiles.layers[1..], k) == 0;
    RenderAdvance(NewRenderer, TwinTiles, textures, 10, lookup, k);
  }

  /** A two-frame animation: frame 0 for the first 10 ms of its 20 ms cycle,
      frame 1 (16 pixels to the right in the atlas) for the rest. */
  const Flicker: FlatAnimation := FlatAnimation(20, [AnimationFrame(0, 0, 10), AnimationFrame(16, 0, 20)])

  /** The frame lookup for `Flicker`. */
  function FlickerLookup(anim: FlatAnimation, t: U32): nat {
    if t < 10 then 0 else 1
  }

  /** Two 16x16 tiles side by side, both showing `Flicker`. */
  const FlickerLeft: RenderTile := RenderTile(0, 0, 16, 16, 0, true, 0, 0, 0, 16, 16, 1.0)
  const FlickerRight: RenderTile := RenderTile(16, 0, 16, 16, 0, true, 0, 0, 0, 16, 16, 1.0)
  const TwinFlicker: MapRenderData := MapRenderData(
    32, 16, 2, 1,
    [TilesetRenderData("tiles", "tiles.png", [Flicker])],
    [LayerRenderData("ground", true, [FlickerLeft, FlickerRight])])

  /** `TwinFlicker` with one texture is safe to render. */
  lemma TwinFlickerDefined()
    ensures TileDefined(TwinFlicker, [Handle(1)], FlickerLookup, FlickerLeft)
    ensures TileDefined(TwinFlicker, [Handle(1)], FlickerLookup, FlickerRight)
    ensures TilesDefined(TwinFlicker, [Handle(1)], FlickerLookup, [FlickerRight])
    ensures RenderDefined(TwinFlicker, [Handle(1)], FlickerLookup)
  {
    assert AnimationPlayable(Flicker, FlickerLookup);
  }

  /** The source rectangle `Flicker` shows at a time within its cycle. */
  function FlickerFrame(t: U32): Rect {
    if t < 10 then Rect(0, 0, 16, 16) else Rect(16, 0, 16, 16)
  }

  /** One drawn `Flicker` tile: the shared state moves by `d` and the tile
      shows the frame for the moved state's time in the cycle. */
  lemma FlickerTileStep(tile: RenderTile, states: Store, d: U32)
    requires tile == FlickerLeft || tile == FlickerRight
    ensures TileDefined(TwinFlicker, [Handle(1)], FlickerLookup, tile)
    ensures var r := DrawTile(TwinFlicker, [Handle(1)], FlickerLookup, d, states, tile);
      && PackKey(0, 0) in r.1
      && r.1[PackKey(0, 0)].elapsedTime == Add(Lookup(states, PackKey(0, 0)).elapsedTime, d)
      && r.0 == [Draw(Handle(1), FlickerFrame(r.1[PackKey(0, 0)].elapsedTime % 20), Destination(tile))]
  {
    TwinFlickerDefined();
  }

  /** The tile loop over the two tiles, given each tile's step. */
  lemma TwinLoop(d: U32, s0: Store, s1: Store, s2: Store, c1: seq<Command>, c2: seq<Command>)
    requires DrawTile(TwinFlicker, [Handle(1)], FlickerLookup, d, s0, FlickerLeft) == (c1, s1)
    requires DrawTile(TwinFlicker, [Handle(1)], FlickerLookup, d, s1, FlickerRight) == (c2, s2)
    ensures TilesDefined(TwinFlicker, [Handle(1)], FlickerLookup, TwinFlicker.layers[0].tiles)
    ensures DrawLayers(TwinFlicker, [Handle(1)], FlickerLookup, d, s0, TwinFlicker.layers) == (c1 + c2, s2)
  {
    TwinFlickerDefined();
    var tiles := TwinFlicker.layers[0].tiles;
    assert tiles[1..] == [FlickerRight] && [FlickerRight][1..] == [] && c2 + [] == c2;
    assert (c1 + c2) + [] == c1 + c2;
    assert DrawTiles(TwinFlicker, [Handle(1)], FlickerLookup, d, s1, [FlickerRight]) == (c2, s2);
    assert DrawTiles(TwinFlicker, [Handle(1)], FlickerLookup, d, s0, tiles) == (c1 + c2, s2);
    assert TwinFlicker.layers[1..] == [];
  }

  /** As written, the per-tile increment desynchronises tiles that share an
      animation: in one 10 ms call from a new renderer, the first tile is
      drawn with frame 1 and the second, 10 ms further on, with frame 0. */
  lemma SharedAnimationDesyncs()
    ensures RenderDefined(TwinFlicker, [Handle(1)], FlickerLookup)
    ensures Render(NewRenderer, TwinFlicker, [Handle(1)], 10, FlickerLookup).commands
         == [Draw(Handle(1), Rect(16, 0, 16, 16), Rect(0, 0, 16, 16)),
             Draw(Handle(1), Rect(0, 0, 16, 16), Rect(16, 0, 16, 16))]
  {
    TwinFlickerDefined();
    var first := DrawTile(TwinFlicker, [Handle(1)], FlickerLookup, 10, map[], FlickerLeft);
    FlickerTileStep(FlickerLeft, map[], 10);
    var second := DrawTile(TwinFlicker, [Handle(1)], FlickerLookup, 10, first.1, FlickerRight);
    assert Add(0, 10) == 10 && Add(10, 10) == 20;
    assert first.1[PackKey(0, 0)].elapsedTime == 10;
    assert first.0 == [Draw(Handle(1), Rect(16, 0, 16, 16), Rect(0, 0, 16, 16))];
    FlickerTileStep(FlickerRight, first.1, 10);
    assert Lookup(first.1, PackKey(0, 0)).elapsedTime == 10;
    assert second.1[PackKey(0, 0)].elapsedTime == 20;
    assert second.0 == [Draw(Handle(1), Rect(0, 0, 16, 16), Rect(16, 0, 16, 16))];
    TwinLoop(10, map[], first.1, second.1, first.0, second.0);
  }

  /** With one `update` per call, the same two tiles show the same frame. */
  lemma OncePerFrameKeepsTilesInStep()
    ensures RenderDefined(TwinFlicker, [Handle(1)], FlickerLookup)
    ensures RenderOncePerFrame(NewRenderer, TwinFlicker, [Handle(1)], 10, FlickerLookup).commands
         == [Draw(Handle(1), Rect(0, 0, 16, 16), Rect(0, 0, 16, 16)),
             Draw(Handle(1), Rect(0, 0, 16, 16), Rect(16, 0, 16, 16))]
  {
    TwinFlickerDefined();
    assert Update(map[], 10) == map[];
    var first := DrawTile(TwinFlicker, [Handle(1)], FlickerLookup, 0, map[], FlickerLeft);
    FlickerTileStep(FlickerLeft, map[], 0);
    var second := DrawTile(TwinFlicker, [Handle(1)], FlickerLookup, 0, first.1, FlickerRight);
    FlickerTileStep(FlickerRight, first.1, 0);
    assert first.1[PackKey(0, 0)].elapsedTime == 0;
    assert second.1[PackKey(0, 0)].elapsedTime == 0;
    TwinLoop(0, map[], first.1, second.1, first.0, second.0);
  }

  /** With the increment moved out of the tile loop into one `update` per
      call, every animation already tracked advances by exactly `deltaTime`
      however many tiles show it, and one seen for the first time starts at
      zero. */
  lemma RenderOncePerFrameAdvancesOnce(renderer: Renderer, data: MapRenderData, textures: seq<Texture>,
                                       deltaTime: U32, lookup: FrameLookup, k: Key)
    requires RenderDefined(data, textures, lookup)
    ensures var f := RenderOncePerFrame(renderer, data, textures, deltaTime, lookup);
      && (k in renderer.states ==>
            && k in f.renderer.states
            && f.renderer.states[k].elapsedTime == Add(renderer.states[k].elapsedTime, deltaTime))
      && (k !in renderer.states && k in f.renderer.states ==> f.renderer.states[k].elapsedTime == 0)
  {
    var updated := Update(renderer.states, deltaTime);
    DrawLayersAdvance(data, textures, lookup, 0, updated, data.layers, k);
    var e := Lookup(updated, k).elapsedTime;
    AddTimesClosedForm(e, 0, LayerHits(data, textures, data.layers, k));
  }

  /** After `resetAnimations`, every animation reads as elapsed time zero. */
  lemma ResetThenGetIsInitial(renderer: Renderer, t: U32, a: U32)
    ensures GetState(ResetAnimations(renderer).states, t, a).0.elapsedTime == 0
    ensures |GetState(ResetAnimations(renderer).states, t, a).1| == 1
  {
  }
}
