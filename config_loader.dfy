/**
 * The asset registry read from a game configuration (config_loader.cpp,
 * loadAssetsFromConfig): every `sprites` member becomes an entry of default size,
 * then the `render.rect` of each `entities` definition resizes the entry of the
 * same name, if there is one. An exception ends loading with what was read so far.
 */
module ConfigLoader {
  import opened Wrappers
  import opened JsonValues
  import opened Assets

  /** A registry read up to an exception (`complete == false`) or to the end. */
  datatype Loaded = Loaded(registry: AssetRegistry, complete: bool)

  /** The `sprites` members of a readable configuration (none when it is not an object). */
  function Sprites(config: Option<Json>): seq<(string, Json)>
  {
    if config.Some? then MembersAt(config.value, "sprites") else []
  }

  /** The sprite loop from `acc`: a path that is not a string throws. */
  function AddSprites(ms: seq<(string, Json)>, acc: AssetRegistry): (r: Loaded)
    ensures acc.Keys <= r.registry.Keys
    ensures forall n :: n in r.registry ==>
      (n in acc && r.registry[n] == acc[n])
      || (r.registry[n].width == DefaultAssetSize && r.registry[n].height == DefaultAssetSize)
  {
    if |ms| == 0 then Loaded(acc, true)
    else match GetString(ms[0].1)
      case None => Loaded(acc, false)
      case Some(path) => AddSprites(ms[1..], acc[ms[0].0 := DefaultAssetInfo.(spritePath := path)])
  }

  /** The index of the first sprite whose path is not a string, or the number of sprites. */
  function SpriteStop(ms: seq<(string, Json)>): (n: nat)
    ensures n <= |ms|
    ensures forall k :: 0 <= k < n ==> ms[k].1.JString?
    ensures n < |ms| ==> !ms[n].1.JString?
  {
    if |ms| == 0 || !ms[0].1.JString? then 0 else 1 + SpriteStop(ms[1..])
  }

  /** `entity["render"]["rect"]` when both are objects. */
  function RectOf(entity: Json): (r: Option<Json>)
    ensures r.Some? ==> r.value.JObject? && HasObject(entity, "render")
    ensures !HasObject(entity, "render") ==> r.None?
  {
    if HasObject(entity, "render") && HasObject(Member(entity, "render").value, "rect") then
      Member(Member(entity, "render").value, "rect")
    else None
  }

  /**
   * One pass of the rectangle loop: an existing entry takes the rect's `w`, then its
   * `h`; a dimension that is not a number throws after the earlier one was stored.
   * Only the entry named `key` can change, and never its sprite path.
   */
  function ApplyRect(key: string, entity: Json, reg: AssetRegistry): (r: Loaded)
    ensures r.registry.Keys == reg.Keys
    ensures forall n :: n in reg ==> r.registry[n].spritePath == reg[n].spritePath
    ensures forall n :: n in reg && n != key ==> r.registry[n] == reg[n]
  {
    if RectOf(entity).Some? && key in reg then
      var rect := RectOf(entity).value;
      var w := Member(rect, "w");
      if w.Some? && GetInt(w.value).None? then Loaded(reg, false)
      else
        var reg1 := if w.Some? then reg[key := reg[key].(width := GetInt(w.value).value)] else reg;
        var h := Member(rect, "h");
        if h.Some? && GetInt(h.value).None? then Loaded(reg1, false)
        else Loaded(if h.Some? then reg1[key := reg1[key].(height := GetInt(h.value).value)] else reg1, true)
    else Loaded(reg, true)
  }

  /** The rectangle loop from `acc`, up to the first exception. */
  function ApplyRects(ms: seq<(string, Json)>, acc: AssetRegistry): (r: Loaded)
    ensures r.registry.Keys == acc.Keys
    ensures forall n :: n in acc ==> r.registry[n].spritePath == acc[n].spritePath
  {
    if |ms| == 0 then Loaded(acc, true)
    else
      var step := ApplyRect(ms[0].0, ms[0].1, acc);
      if !step.complete then step else ApplyRects(ms[1..], step.registry)
  }

  /** What loadAssetsFromConfig reads from a configuration (`None`: it cannot be opened or parsed). */
  function LoadConfig(config: Option<Json>): Loaded
  {
    if config.None? then Loaded(map[], false)
    else
      var sprites := AddSprites(Sprites(config), map[]);
      if !sprites.complete then sprites else ApplyRects(Definitions(config), sprites.registry)
  }

  /** `loadAssetsFromConfig`, with the file's content as input. */
  method LoadAssetsFromConfig(config: Option<Json>) returns (registry: AssetRegistry)
    ensures registry == LoadConfig(config).registry
    ensures config.None? ==> registry == map[]
  {
    registry := map[];
    if config.None? {
      return;
    }
    var sprites := MembersAt(config.value, "sprites");
    var i := 0;
    while i < |sprites|
      invariant 0 <= i <= |sprites|
      invariant AddSprites(sprites[i..], registry) == AddSprites(sprites, map[])
    {
      var (key, value) := sprites[i];
      assert sprites[i..][1..] == sprites[i + 1..];
      if !value.JString? {
        // get<std::string> throws; the exception is caught and the registry returned
        return;
      }
      registry := registry[key := DefaultAssetInfo.(spritePath := value.s)];
      i := i + 1;
    }
    var entities := MembersAt(config.value, "entities");
    var k := 0;
    while k < |entities|
      invariant 0 <= k <= |entities|
      invariant ApplyRects(entities[k..], registry) == LoadConfig(config)
    {
      var (key, entity) := entities[k];
      assert entities[k..][1..] == entities[k + 1..];
      if RectOf(entity).Some? {
        var rect := RectOf(entity).value;
        if key in registry {
          if Member(rect, "w").Some? {
            var w := GetInt(Member(rect, "w").value);
            if w.None? {
              return;
            }
            registry := registry[key := registry[key].(width := w.value)];
          }
          if Member(rect, "h").Some? {
            var h := GetInt(Member(rect, "h").value);
            if h.None? {
              return;
            }
            registry := registry[key := registry[key].(height := h.value)];
          }
        }
      }
      k := k + 1;
    }
  }

  // ---------------------------------------------------------------------------
  // Properties

  /**
   * The sprite loop registers exactly the sprites before the first path that is not
   * a string, and completes exactly when there is none.
   */
  lemma {:induction false} AddSpritesKeys(ms: seq<(string, Json)>, acc: AssetRegistry)
    ensures AddSprites(ms, acc).registry.Keys == acc.Keys + set k | 0 <= k < SpriteStop(ms) :: ms[k].0
    ensures AddSprites(ms, acc).complete <==> SpriteStop(ms) == |ms|
  {
    if |ms| > 0 && ms[0].1.JString? {
      var acc' := acc[ms[0].0 := DefaultAssetInfo.(spritePath := ms[0].1.s)];
      AddSpritesKeys(ms[1..], acc');
      var later := set k | 0 <= k < SpriteStop(ms[1..]) :: ms[1..][k].0;
      var all := set k | 0 <= k < SpriteStop(ms) :: ms[k].0;
      assert all == {ms[0].0} + later by {
        forall n | n in all ensures n in {ms[0].0} + later {
          var k :| 0 <= k < SpriteStop(ms) && ms[k].0 == n;
          if k > 0 {
            assert ms[1..][k - 1] == ms[k];
          }
        }
        forall n | n in later ensures n in all {
          var k :| 0 <= k < SpriteStop(ms[1..]) && ms[1..][k].0 == n;
          assert ms[k + 1] == ms[1..][k];
        }
      }
    }
  }

  /** An entry the sprite loop does not name keeps its value. */
  lemma {:induction false} AddSpritesKeepsOthers(ms: seq<(string, Json)>, acc: AssetRegistry, n: string)
    requires n in acc
    requires forall k :: 0 <= k < |ms| ==> ms[k].0 != n
    ensures n in AddSprites(ms, acc).registry && AddSprites(ms, acc).registry[n] == acc[n]
  {
    if |ms| > 0 && ms[0].1.JString? {
      AddSpritesKeepsOthers(ms[1..], acc[ms[0].0 := DefaultAssetInfo.(spritePath := ms[0].1.s)], n);
    }
  }

  /** With distinct names, a registered sprite carries its path and the default 32 by 32 size. */
  lemma {:induction false} AddSpritesValue(ms: seq<(string, Json)>, acc: AssetRegistry, k: nat)
    requires DistinctKeys(ms)
    requires k < SpriteStop(ms)
    ensures ms[k].0 in AddSprites(ms, acc).registry
    ensures AddSprites(ms, acc).registry[ms[k].0] == DefaultAssetInfo.(spritePath := ms[k].1.s)
    ensures DefaultAssetInfo.(spritePath := ms[k].1.s) == AssetInfo(ms[k].1.s, 32, 32)
  {
    var acc' := acc[ms[0].0 := DefaultAssetInfo.(spritePath := ms[0].1.s)];
    if k == 0 {
      forall p | 0 <= p < |ms[1..]| ensures ms[1..][p].0 != ms[0].0 {
        assert ms[1..][p] == ms[p + 1];
      }
      AddSpritesKeepsOthers(ms[1..], acc', ms[0].0);
    } else {
      forall a, b | 0 <= a < b < |ms[1..]| ensures ms[1..][a].0 != ms[1..][b].0 {
        assert ms[1..][a] == ms[a + 1] && ms[1..][b] == ms[b + 1];
      }
      assert ms[1..][k - 1] == ms[k];
      AddSpritesValue(ms[1..], acc', k - 1);
    }
  }

  /**
   * The rectangle loop never adds or removes an entry and never changes a sprite
   * path, and an entry no definition names stays as it was.
   */
  lemma {:induction false} ApplyRectsFrame(ms: seq<(string, Json)>, acc: AssetRegistry)
    ensures ApplyRects(ms, acc).registry.Keys == acc.Keys
    ensures forall n :: n in acc ==> ApplyRects(ms, acc).registry[n].spritePath == acc[n].spritePath
    ensures forall n :: n in acc && (forall k :: 0 <= k < |ms| ==> ms[k].0 != n) ==>
              ApplyRects(ms, acc).registry[n] == acc[n]
  {
    if |ms| > 0 {
      var step := ApplyRect(ms[0].0, ms[0].1, acc);
      if step.complete {
        ApplyRectsFrame(ms[1..], step.registry);
        forall n | n in acc && (forall k :: 0 <= k < |ms| ==> ms[k].0 != n)
          ensures ApplyRects(ms, acc).registry[n] == acc[n]
        {
          assert forall k :: 0 <= k < |ms[1..]| ==> ms[1..][k] == ms[k + 1];
        }
      }
    }
  }

  /** A rectangle loop that runs to the end also gets past each of its prefixes. */
  lemma {:induction false} ApplyRectsPrefix(ms: seq<(string, Json)>, acc: AssetRegistry, i: nat)
    requires i <= |ms| && ApplyRects(ms, acc).complete
    ensures ApplyRects(ms[..i], acc).complete
  {
    if i > 0 {
      var step := ApplyRect(ms[0].0, ms[0].1, acc);
      assert ms[..i][1..] == ms[1..][..i - 1];
      ApplyRectsPrefix(ms[1..], step.registry, i - 1);
    }
  }

  /**
   * Over distinct names, once the rectangle loop has got past definition `k` (an
   * exception in a later definition does not matter), the entry of `k` takes the
   * rect's `w` and `h` where present and keeps its other dimension.
   */
  lemma {:induction false} ApplyRectsEntry(ms: seq<(string, Json)>, acc: AssetRegistry, k: nat)
    requires DistinctKeys(ms)
    requires k < |ms| && ms[k].0 in acc
    requires ApplyRects(ms[..k + 1], acc).complete
    ensures ms[k].0 in ApplyRects(ms, acc).registry
    ensures var r := ApplyRects(ms, acc).registry[ms[k].0];
      var rect := RectOf(ms[k].1);
      var before := acc[ms[k].0];
      && r.spritePath == before.spritePath
      && (rect.Some? && Member(rect.value, "w").Some? ==> Some(r.width) == GetInt(Member(rect.value, "w").value))
      && (rect.Some? && Member(rect.value, "h").Some? ==> Some(r.height) == GetInt(Member(rect.value, "h").value))
      && (rect.None? || Member(rect.value, "w").None? ==> r.width == before.width)
      && (rect.None? || Member(rect.value, "h").None? ==> r.height == before.height)
  {
    var step := ApplyRect(ms[0].0, ms[0].1, acc);
    assert ms[..k + 1][0] == ms[0] && ms[..k + 1][1..] == ms[1..][..k];
    ApplyRectsFrame(ms[1..], step.registry);
    if k == 0 {
      forall p | 0 <= p < |ms[1..]| ensures ms[1..][p].0 != ms[0].0 {
        assert ms[1..][p] == ms[p + 1];
      }
    } else {
      forall a, b | 0 <= a < b < |ms[1..]| ensures ms[1..][a].0 != ms[1..][b].0 {
        assert ms[1..][a] == ms[a + 1] && ms[1..][b] == ms[b + 1];
      }
      assert ms[1..][k - 1] == ms[k];
      assert ms[0].0 != ms[k].0;
      ApplyRectsEntry(ms[1..], step.registry, k - 1);
    }
  }

  /**
   * The registry read from a configuration has exactly the sprites before the first
   * path that is not a string: a render rect never creates an entry, and an
   * unreadable configuration gives an empty registry.
   */
  lemma LoadedKeys(config: Option<Json>)
    ensures LoadConfig(config).registry.Keys == set k | 0 <= k < SpriteStop(Sprites(config)) :: Sprites(config)[k].0
    ensures config.None? ==> LoadConfig(config).registry == map[]
  {
    if config.Some? {
      AddSpritesKeys(Sprites(config), map[]);
      var sprites := AddSprites(Sprites(config), map[]);
      if sprites.complete {
        ApplyRectsFrame(Definitions(config), sprites.registry);
      }
    }
  }

  /**
   * Each registered sprite keeps the path it was read with; when loading stopped at a
   * sprite that is not a string, the rects were never read and every size is 32 by 32.
   */
  lemma LoadedSprite(config: Option<Json>, k: nat)
    requires DistinctKeys(Sprites(config))
    requires k < SpriteStop(Sprites(config))
    ensures Sprites(config)[k].0 in LoadConfig(config).registry
    ensures LoadConfig(config).registry[Sprites(config)[k].0].spritePath == Sprites(config)[k].1.s
    ensures SpriteStop(Sprites(config)) < |Sprites(config)| ==>
      LoadConfig(config).registry[Sprites(config)[k].0] == AssetInfo(Sprites(config)[k].1.s, 32, 32)
  {
    AddSpritesValue(Sprites(config), map[], k);
    AddSpritesKeys(Sprites(config), map[]);
    var sprites := AddSprites(Sprites(config), map[]);
    if sprites.complete {
      ApplyRectsFrame(Definitions(config), sprites.registry);
    }
  }

  /**
   * A fully read configuration with distinct names: each sprite's size is its
   * definition's render rect `w`/`h` where given, otherwise 32.
   */
  lemma LoadedSize(config: Option<Json>, k: nat, d: nat)
    requires DistinctKeys(Sprites(config)) && DistinctKeys(Definitions(config))
    requires LoadConfig(config).complete
    requires k < |Sprites(config)| && d < |Definitions(config)|
    requires Definitions(config)[d].0 == Sprites(config)[k].0
    ensures Sprites(config)[k].0 in LoadConfig(config).registry
    ensures var r := LoadConfig(config).registry[Sprites(config)[k].0];
      var rect := RectOf(Definitions(config)[d].1);
      && (rect.Some? && Member(rect.value, "w").Some? ==> Some(r.width) == GetInt(Member(rect.value, "w").value))
      && (rect.Some? && Member(rect.value, "h").Some? ==> Some(r.height) == GetInt(Member(rect.value, "h").value))
      && (rect.None? || Member(rect.value, "w").None? ==> r.width == 32)
      && (rect.None? || Member(rect.value, "h").None? ==> r.height == 32)
  {
    AddSpritesKeys(Sprites(config), map[]);
    AddSpritesValue(Sprites(config), map[], k);
    ApplyRectsPrefix(Definitions(config), AddSprites(Sprites(config), map[]).registry, d + 1);
    ApplyRectsEntry(Definitions(config), AddSprites(Sprites(config), map[]).registry, d);
  }

  /**
   * A concrete configuration: PLAYER's rect widens it to 64 and keeps the default
   * height, WALL keeps 32 by 32, and ENEMY, defined without a sprite, gets no entry.
   */
  lemma LoadExample()
    ensures var config := JObject([
        ("entities", JObject([
          ("ENEMY", JObject([("render", JObject([("rect", JObject([("h", JInt(10)), ("w", JInt(10))]))]))])),
          ("PLAYER", JObject([("render", JObject([("rect", JObject([("w", JInt(64))]))]))]))])),
        ("sprites", JObject([("PLAYER", JString("player.png")), ("WALL", JString("wall.png"))]))]);
      LoadConfig(Some(config)) == Loaded(map["PLAYER" := AssetInfo("player.png", 64, 32),
                                             "WALL" := AssetInfo("wall.png", 32, 32)], true)
  {
    var enemy := JObject([("render", JObject([("rect", JObject([("h", JInt(10)), ("w", JInt(10))]))]))]);
    var player := JObject([("render", JObject([("rect", JObject([("w", JInt(64))]))]))]);
    var sprites := [("PLAYER", JString("player.png")), ("WALL", JString("wall.png"))];
    var config := JObject([("entities", JObject([("ENEMY", enemy), ("PLAYER", player)])), ("sprites", JObject(sprites))]);
    var loaded := map["PLAYER" := AssetInfo("player.png", 32, 32), "WALL" := AssetInfo("wall.png", 32, 32)];
    LookupAt(config.members, "entities", 0);
    LookupAt(config.members, "sprites", 1);
    assert Sprites(Some(config)) == sprites;
    assert AddSprites(sprites, map[]) == Loaded(loaded, true);
    assert Definitions(Some(config)) == [("ENEMY", enemy), ("PLAYER", player)];
    assert ApplyRect("ENEMY", enemy, loaded) == Loaded(loaded, true);
    assert RectOf(player) == Some(JObject([("w", JInt(64))]));
    assert ApplyRect("PLAYER", player, loaded) == Loaded(loaded["PLAYER" := AssetInfo("player.png", 64, 32)], true);
  }
}
