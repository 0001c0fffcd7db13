/**
 * The editor state of map_editor.hpp and the entity operations of map_editor.cpp:
 * the palette filter of loadAssets, the drop, select, drag and delete steps of
 * handleInput, the repeat-count buttons, loading and saving a level, and the hit
 * test findEntityAt. Mouse and keyboard polling are not modelled: each method is
 * the effect of the event it is named after, with the pointer position (in map
 * coordinates) and whether it lies on the canvas as parameters.
 */
module MapEditorModel {
  import opened Wrappers
  import opened JsonValues
  import opened Text
  import opened Entities
  import opened Assets
  import opened MapDocument
  import opened TypeRefs
  import opened MapSerializer

  /** The canvas size, written as the saved map's width and height. */
  const CanvasWidth: int := 800
  const CanvasHeight: int := 600

  /** The `selectedId` of "nothing selected", also what findEntityAt returns on a miss. */
  const NoSelection: int := -1

  /** The size of the hit box of an entity whose type the registry does not know. */
  const DefaultHitSize: int := 32

  const MinRepeat: int := 1
  const MaxRepeat: int := 10

  /** The names offered in the palette, in display order, when the registry has them. */
  const Placeable: seq<string> := ["PLAYER", "SUOTRON", "ROCKER", "BIT_UNIT", "ZIPP", "MANX", "BOSS", "WALL", "POWER_UP"]

  /** The palette used when the registry has none of the placeable names. */
  const FallbackPalette: seq<string> :=
    ["PLAYER", "SUOTRON", "ROCKER", "WALL", "BIT_UNIT", "BOSS", "MANX", "POWER_UPS", "SHOOTS", "ZIPPER"]

  // ---------------------------------------------------------------------------
  // Palette

  /** The names of `names` that the registry has, in the order of `names`. */
  function PresentIn(names: seq<string>, reg: AssetRegistry): seq<string>
  {
    if |names| == 0 then []
    else PresentIn(names[..|names| - 1], reg) + (if names[|names| - 1] in reg then [names[|names| - 1]] else [])
  }

  function Palette(reg: AssetRegistry): seq<string>
  {
    if PresentIn(Placeable, reg) == [] then FallbackPalette else PresentIn(Placeable, reg)
  }

  /** A name is kept exactly when it is listed and registered, and the kept names keep their order. */
  lemma {:induction false} PresentInCharacterised(names: seq<string>, reg: AssetRegistry)
    ensures forall n :: n in PresentIn(names, reg) <==> n in names && n in reg
    ensures |PresentIn(names, reg)| <= |names|
    ensures names == [] ==> PresentIn(names, reg) == []
    ensures |names| > 0 && names[0] in reg ==> PresentIn(names, reg)[0] == names[0]
  {
    if |names| > 0 {
      var init := names[..|names| - 1];
      PresentInCharacterised(init, reg);
      assert names == init + [names[|names| - 1]];
      if |init| > 0 {
        assert init[0] == names[0];
      }
    }
  }

  /** The positions of `names` whose name the registry has, in increasing order. */
  function RegisteredIndices(names: seq<string>, reg: AssetRegistry): (idx: seq<int>)
    ensures forall i :: 0 <= i < |idx| ==> 0 <= idx[i] < |names| && names[idx[i]] in reg
    ensures forall i, j :: 0 <= i < j < |idx| ==> idx[i] < idx[j]
    ensures forall k :: 0 <= k < |names| && names[k] in reg ==> k in idx
  {
    if |names| == 0 then []
    else
      var init := names[..|names| - 1];
      var before := RegisteredIndices(init, reg);
      assert forall k :: 0 <= k < |init| ==> init[k] == names[k];
      before + (if names[|names| - 1] in reg then [|names| - 1] else [])
  }

  /** The filtered list holds, position by position, the names at the registered indices. */
  lemma {:induction false} PresentInAtIndices(names: seq<string>, reg: AssetRegistry)
    ensures |PresentIn(names, reg)| == |RegisteredIndices(names, reg)|
    ensures forall i :: 0 <= i < |PresentIn(names, reg)| ==>
      PresentIn(names, reg)[i] == names[RegisteredIndices(names, reg)[i]]
  {
    if |names| > 0 {
      var init := names[..|names| - 1];
      var last := names[|names| - 1];
      PresentInAtIndices(init, reg);
      assert forall k :: 0 <= k < |init| ==> init[k] == names[k];
      if last in reg {
        assert PresentIn(names, reg) == PresentIn(init, reg) + [last];
        assert RegisteredIndices(names, reg) == RegisteredIndices(init, reg) + [|names| - 1];
      } else {
        assert PresentIn(names, reg) == PresentIn(init, reg);
        assert RegisteredIndices(names, reg) == RegisteredIndices(init, reg);
      }
    }
  }

  /**
   * The filtered list is the subsequence of `names` at exactly the registered
   * positions, so it keeps their order, and it repeats no name when `names` does not.
   */
  lemma PresentInOrder(names: seq<string>, reg: AssetRegistry)
    ensures |PresentIn(names, reg)| == |RegisteredIndices(names, reg)|
    ensures forall i :: 0 <= i < |PresentIn(names, reg)| ==>
      PresentIn(names, reg)[i] == names[RegisteredIndices(names, reg)[i]]
    ensures (forall a, b :: 0 <= a < b < |names| ==> names[a] != names[b]) ==>
      forall a, b :: 0 <= a < b < |PresentIn(names, reg)| ==> PresentIn(names, reg)[a] != PresentIn(names, reg)[b]
  {
    PresentInAtIndices(names, reg);
    var r := PresentIn(names, reg);
    var idx := RegisteredIndices(names, reg);
    if forall a, b :: 0 <= a < b < |names| ==> names[a] != names[b] {
      forall a, b | 0 <= a < b < |r| ensures r[a] != r[b] {
        assert idx[a] < idx[b] && r[a] == names[idx[a]] && r[b] == names[idx[b]];
      }
    }
  }

  /**
   * The palette is the placeable names the registry has, in the order of the
   * placeable list, or the fallback list when it has none of them; it is never empty.
   */
  lemma PaletteCharacterised(reg: AssetRegistry)
    ensures (forall n :: n in Placeable ==> n !in reg) ==> Palette(reg) == FallbackPalette
    ensures (exists n :: n in Placeable && n in reg) ==> Palette(reg) == PresentIn(Placeable, reg)
    ensures (exists n :: n in Placeable && n in reg) ==>
      forall n :: n in Palette(reg) <==> n in Placeable && n in reg
    ensures |Palette(reg)| > 0
  {
    PresentInCharacterised(Placeable, reg);
    var present := PresentIn(Placeable, reg);
    assert |present| > 0 ==> present[0] in present;
    if exists n :: n in Placeable && n in reg {
      var n :| n in Placeable && n in reg;
      assert n in present;
    }
  }

  // ---------------------------------------------------------------------------
  // Hit test

  /** C++ integer division by two, which truncates toward zero. */
  function HalfTrunc(n: int): (r: int)
    ensures n >= 0 ==> 0 <= n - 2 * r <= 1
    ensures n < 0 ==> -1 <= n - 2 * r <= 0
  {
    if n >= 0 then n / 2 else -((-n) / 2)
  }

  /** The side of an entity's square hit box: the larger registered dimension, or 32. */
  function HitSize(typeName: string, reg: AssetRegistry): (n: int)
    ensures typeName !in reg ==> n == DefaultHitSize
    ensures typeName in reg ==> n >= reg[typeName].width && n >= reg[typeName].height
    ensures typeName in reg ==> n == reg[typeName].width || n == reg[typeName].height
  {
    if typeName in reg then
      (if reg[typeName].width >= reg[typeName].height then reg[typeName].width else reg[typeName].height)
    else DefaultHitSize
  }

  /** The point lies in the entity's box, which starts half a side (rounded toward zero) before its position. */
  predicate Hits(e: EntityData, reg: AssetRegistry, x: real, y: real)
  {
    var size := HitSize(e.typeName, reg);
    var ex := e.x - HalfTrunc(size) as real;
    var ey := e.y - HalfTrunc(size) as real;
    ex <= x < ex + size as real && ey <= y < ey + size as real
  }

  /** The id of the last entity hit, scanning from the back; -1 when none is. */
  function TopmostHit(es: seq<EntityData>, reg: AssetRegistry, x: real, y: real): int
  {
    if |es| == 0 then NoSelection
    else if Hits(es[|es| - 1], reg, x, y) then es[|es| - 1].id
    else TopmostHit(es[..|es| - 1], reg, x, y)
  }

  /**
   * The hit test returns the id of the entity drawn last among those whose box
   * holds the point, and -1 when no box does.
   */
  lemma {:induction false} TopmostHitCharacterised(es: seq<EntityData>, reg: AssetRegistry, x: real, y: real)
    ensures (forall k :: 0 <= k < |es| ==> !Hits(es[k], reg, x, y)) ==> TopmostHit(es, reg, x, y) == NoSelection
    ensures forall k :: 0 <= k < |es| && Hits(es[k], reg, x, y) && (forall j :: k < j < |es| ==> !Hits(es[j], reg, x, y)) ==>
              TopmostHit(es, reg, x, y) == es[k].id
  {
    var none := forall k :: 0 <= k < |es| ==> !Hits(es[k], reg, x, y);
    if none {
      TopmostHitNone(es, reg, x, y);
    }
    forall k | 0 <= k < |es| && Hits(es[k], reg, x, y) && (forall j :: k < j < |es| ==> !Hits(es[j], reg, x, y))
      ensures TopmostHit(es, reg, x, y) == es[k].id
    {
      TopmostHitAt(es, reg, x, y, k);
    }
  }

  /** With no box holding the point, the scan ends without a selection. */
  lemma {:induction false} TopmostHitNone(es: seq<EntityData>, reg: AssetRegistry, x: real, y: real)
    requires forall k :: 0 <= k < |es| ==> !Hits(es[k], reg, x, y)
    ensures TopmostHit(es, reg, x, y) == NoSelection
    decreases |es|
  {
    if |es| > 0 {
      var init := es[..|es| - 1];
      assert !Hits(es[|es| - 1], reg, x, y);
      assert forall k :: 0 <= k < |init| ==> init[k] == es[k];
      TopmostHitNone(init, reg, x, y);
    }
  }

  /** The scan from the back stops at the last entity whose box holds the point. */
  lemma {:induction false} TopmostHitAt(es: seq<EntityData>, reg: AssetRegistry, x: real, y: real, k: nat)
    requires k < |es| && Hits(es[k], reg, x, y)
    requires forall j :: k < j < |es| ==> !Hits(es[j], reg, x, y)
    ensures TopmostHit(es, reg, x, y) == es[k].id
    decreases |es|
  {
    if k < |es| - 1 {
      var init := es[..|es| - 1];
      assert !Hits(es[|es| - 1], reg, x, y);
      assert forall j :: 0 <= j < |init| ==> init[j] == es[j];
      TopmostHitAt(init, reg, x, y, k);
    }
  }

  /**
   * A hit box of positive size holds the entity's own position, and any point it
   * holds lies less than one side away from that position on both axes.
   */
  lemma HitBoxAroundPosition(e: EntityData, reg: AssetRegistry, x: real, y: real)
    ensures HitSize(e.typeName, reg) > 0 ==> Hits(e, reg, e.x, e.y)
    ensures Hits(e, reg, x, y) ==> HitSize(e.typeName, reg) > 0
    ensures Hits(e, reg, x, y) ==>
      var size := HitSize(e.typeName, reg) as real;
      e.x - size < x < e.x + size && e.y - size < y < e.y + size
  {
  }

  /** A box of non-positive size holds no point. */
  lemma EmptyBoxNeverHits(e: EntityData, reg: AssetRegistry, x: real, y: real)
    requires HitSize(e.typeName, reg) <= 0
    ensures !Hits(e, reg, x, y)
  {
  }

  /**
   * An unregistered type has a 32-wide box centred on its position; an odd registered
   * size puts the extra unit after the position, as the truncating division does.
   */
  lemma HitBoxExamples()
    ensures var e := EntityData(5, "ROCK", 100.0, 100.0);
      && Hits(e, map[], 84.0, 84.0) && !Hits(e, map[], 116.0, 100.0) && !Hits(e, map[], 83.5, 100.0)
    ensures var e := EntityData(5, "ROCK", 100.0, 100.0);
      var reg := map["ROCK" := AssetInfo("rock.png", 33, 7)];
      && Hits(e, reg, 116.5, 116.5) && !Hits(e, reg, 83.5, 100.0) && Hits(e, reg, 84.0, 84.0)
  {
  }

  // ---------------------------------------------------------------------------
  // Entity list operations

  /** The position `std::find_if` stops at for the first entity with `id`: `|es|` when there is none. */
  function FirstWithId(es: seq<EntityData>, id: int): (k: nat)
    ensures k <= |es|
    ensures forall j :: 0 <= j < k ==> es[j].id != id
    ensures k < |es| ==> es[k].id == id
  {
    if |es| == 0 || es[0].id == id then 0 else 1 + FirstWithId(es[1..], id)
  }

  /** The list after dragging the entity with `id` to `(x, y)`. */
  function Moved(es: seq<EntityData>, id: int, x: real, y: real): seq<EntityData>
  {
    var k := FirstWithId(es, id);
    if k < |es| then es[k := es[k].(x := x, y := y)] else es
  }

  /** The list after erasing the first entity with `id`. */
  function Removed(es: seq<EntityData>, id: int): (r: seq<EntityData>)
    ensures FirstWithId(es, id) < |es| ==> |r| == |es| - 1
    ensures FirstWithId(es, id) == |es| ==> r == es
  {
    var k := FirstWithId(es, id);
    if k < |es| then es[..k] + es[k + 1..] else es
  }

  /** Each entity has its own id. */
  predicate DistinctIds(es: seq<EntityData>)
  {
    forall a, b :: 0 <= a < b < |es| ==> es[a].id != es[b].id
  }

  /**
   * Dragging moves exactly the first entity with the id, changing only its position;
   * every other entity, and every id and type, stays as it was.
   */
  lemma MovedFrame(es: seq<EntityData>, id: int, x: real, y: real)
    ensures |Moved(es, id, x, y)| == |es|
    ensures forall j :: 0 <= j < |es| ==>
      && Moved(es, id, x, y)[j].id == es[j].id && Moved(es, id, x, y)[j].typeName == es[j].typeName
      && (es[j].id == id && (forall p :: 0 <= p < j ==> es[p].id != id) ==>
            Moved(es, id, x, y)[j].x == x && Moved(es, id, x, y)[j].y == y)
      && (es[j].id != id || (exists p :: 0 <= p < j && es[p].id == id) ==> Moved(es, id, x, y)[j] == es[j])
  {
  }

  /**
   * Deleting erases exactly the first entity with the id, when there is one, and
   * keeps the others in order.
   */
  lemma RemovedCharacterised(es: seq<EntityData>, id: int)
    ensures var k := FirstWithId(es, id);
      && (k == |es| ==> Removed(es, id) == es)
      && (k < |es| ==> |Removed(es, id)| == |es| - 1
                       && (forall j :: 0 <= j < k ==> Removed(es, id)[j] == es[j])
                       && (forall j :: k <= j < |es| - 1 ==> Removed(es, id)[j] == es[j + 1]))
  {
  }

  /** Deleting takes away one copy of the erased entity and nothing else. */
  lemma RemovedMultiset(es: seq<EntityData>, id: int)
    ensures var k := FirstWithId(es, id);
      k < |es| ==> multiset(Removed(es, id)) + multiset{es[k]} == multiset(es)
    ensures forall e :: e in Removed(es, id) ==> e in es
  {
    var k := FirstWithId(es, id);
    if k < |es| {
      assert es == es[..k] + [es[k]] + es[k + 1..];
      assert multiset(es) == multiset(es[..k]) + multiset{es[k]} + multiset(es[k + 1..]);
      assert forall e :: e in Removed(es, id) ==> e in multiset(es);
    }
  }

  /** With distinct ids, no entity with the deleted id remains. */
  lemma RemovedIds(es: seq<EntityData>, id: int)
    requires DistinctIds(es)
    ensures forall j :: 0 <= j < |Removed(es, id)| ==> Removed(es, id)[j].id != id
  {
    var k := FirstWithId(es, id);
    if k < |es| {
      var r := Removed(es, id);
      forall j | 0 <= j < |r| ensures r[j].id != id {
        if j >= k {
          assert r[j] == es[j + 1];
        } else {
          assert r[j] == es[j];
        }
      }
    }
  }

  /** Dragging keeps every id where it was, so distinct ids stay distinct. */
  lemma MovedKeepsDistinct(es: seq<EntityData>, id: int, x: real, y: real)
    requires DistinctIds(es)
    ensures DistinctIds(Moved(es, id, x, y))
  {
    MovedFrame(es, id, x, y);
  }

  /** Deleting one entity keeps the remaining ids distinct. */
  lemma RemovedKeepsDistinct(es: seq<EntityData>, id: int)
    requires DistinctIds(es)
    ensures DistinctIds(Removed(es, id))
  {
    var k := FirstWithId(es, id);
    if k < |es| {
      var r := Removed(es, id);
      RemovedCharacterised(es, id);
      forall a, b | 0 <= a < b < |r| ensures r[a].id != r[b].id {
        var a' := if a < k then a else a + 1;
        var b' := if b < k then b else b + 1;
        assert r[a] == es[a'] && r[b] == es[b'] && a' < b';
      }
    }
  }

  /** The smallest id above every entity's, and at least 0: the loop of the load step. */
  function NextFreeId(es: seq<EntityData>): (n: int)
    ensures n >= 0
    ensures forall k :: 0 <= k < |es| ==> es[k].id < n
    ensures n == 0 || exists k :: 0 <= k < |es| && es[k].id + 1 == n
  {
    if |es| == 0 then 0
    else
      var prev := NextFreeId(es[..|es| - 1]);
      assert forall k :: 0 <= k < |es| - 1 ==> es[..|es| - 1][k] == es[k];
      if es[|es| - 1].id + 1 > prev then es[|es| - 1].id + 1 else prev
  }

  /** The loop of the load step: `nextId = max(nextId, e.id + 1)` over the entities, from 0. */
  method NextIdAfterLoad(es: seq<EntityData>) returns (next: int)
    ensures next == NextFreeId(es)
  {
    next := 0;
    var i := 0;
    while i < |es|
      invariant 0 <= i <= |es|
      invariant next == NextFreeId(es[..i])
    {
      assert es[..i + 1][..i] == es[..i];
      next := if es[i].id + 1 > next then es[i].id + 1 else next;
      i := i + 1;
    }
    assert es[..i] == es;
  }

  // ---------------------------------------------------------------------------
  // Repeat count buttons

  /** The minus button: one less, but never below 1. */
  function DecreasedRepeat(c: int): (r: int)
    ensures r >= MinRepeat
    ensures c > MinRepeat ==> r == c - 1
    ensures c <= MinRepeat ==> r == MinRepeat
  {
    if c - 1 > MinRepeat then c - 1 else MinRepeat
  }

  /** The plus button: one more, but never above 10. */
  function IncreasedRepeat(c: int): (r: int)
    ensures r <= MaxRepeat
    ensures c < MaxRepeat ==> r == c + 1
    ensures c >= MaxRepeat ==> r == MaxRepeat
  {
    if c + 1 < MaxRepeat then c + 1 else MaxRepeat
  }

  /** A count within [1, 10] stays within it whichever button is pressed. */
  lemma RepeatStaysInRange(c: int)
    requires MinRepeat <= c <= MaxRepeat
    ensures MinRepeat <= DecreasedRepeat(c) <= MaxRepeat
    ensures MinRepeat <= IncreasedRepeat(c) <= MaxRepeat
  {
  }

  // ---------------------------------------------------------------------------
  // Saving

  /**
   * The level id taken from the selected background's file name: the number between
   * the first '_' and the first '.', when '_' comes first; 1 when the number does not
   * parse, and the `MapData` default when there is no background or no such pattern.
   */
  function SaveId(background: string): int
  {
    var u := FindChar(background, '_');
    var d := FindChar(background, '.');
    if |background| > 0 && u.Some? && d.Some? && u.value < d.value then
      Stoi(background[u.value + 1..d.value]).GetOr(1)
    else DefaultMap.id
  }

  /** The id extraction of Ctrl+S. */
  method LevelIdOf(background: string) returns (id: int)
    ensures id == SaveId(background)
  {
    id := DefaultMap.id;
    if |background| > 0 {
      var underscorePos := FindChar(background, '_');
      var dotPos := FindChar(background, '.');
      if underscorePos.Some? && dotPos.Some? && underscorePos.value < dotPos.value {
        var number := Stoi(background[underscorePos.value + 1..dotPos.value]);
        // a failing stoi is caught and the id set to 1
        id := if number.Some? then number.value else 1;
      }
    }
  }

  /**
   * With a '_' before the first '.', the level id is what `stoi` reads between them,
   * and 1 when `stoi` throws there (the exception is caught).
   */
  lemma SaveIdBetweenMarks(background: string, u: nat, d: nat)
    requires FindChar(background, '_') == Some(u) && FindChar(background, '.') == Some(d) && u < d
    ensures Stoi(background[u + 1..d]).Some? ==> SaveId(background) == Stoi(background[u + 1..d]).value
    ensures Stoi(background[u + 1..d]).None? ==> SaveId(background) == 1
  {
  }

  /** The map Ctrl+S saves: a default document with the canvas size, the entities and the registry. */
  function SavedMap(entities: seq<EntityData>, registry: AssetRegistry, background: string): (m: MapData)
    ensures m.id == SaveId(background) && m.width == 800 && m.height == 600
    ensures m.entities == entities && m.assets == registry
    ensures m.backgroundName == "" && m.backgroundRepeatCount == 1 && m.scrollSpeed == 2.0
    ensures m.gameConfigPath == DefaultGameConfigPath
  {
    DefaultMap.(id := SaveId(background), width := CanvasWidth, height := CanvasHeight,
                entities := entities, assets := registry)
  }

  function ServerPath(id: int): string
  {
    "maps/level_" + IntToString(id) + "-server.json"
  }

  function ClientPath(id: int): string
  {
    "maps/level_" + IntToString(id) + "-client.json"
  }

  /**
   * A background named `prefix_<n>.<suffix>`, with no '_' or '.' in the prefix, saves
   * as level n.
   */
  lemma SaveIdRecoversNumber(prefix: string, n: int, suffix: string)
    requires forall k :: 0 <= k < |prefix| ==> prefix[k] != '_' && prefix[k] != '.'
    requires MinInt32 <= n <= MaxInt32
    ensures SaveId(prefix + "_" + IntToString(n) + "." + suffix) == n
  {
    var digits := IntToString(n);
    var bg := prefix + "_" + digits + "." + suffix;
    var u := |prefix|;
    var d := u + 1 + |digits|;
    IntToStringChars(n);
    assert forall k :: 0 <= k < u ==> bg[k] == prefix[k];
    assert bg[u] == '_';
    FindCharAt(bg, '_', u);
    assert forall k :: u < k < d ==> bg[k] == digits[k - u - 1];
    assert bg[d] == '.';
    FindCharAt(bg, '.', d);
    assert bg[u + 1..d] == digits;
    SaveIdBetweenMarks(bg, u, d);
    StoiIntToString(n);
  }

  /**
   * A background without a '_', without a '.', or whose first '.' comes before its
   * first '_' leaves the id at its default, 1.
   */
  lemma SaveIdWithoutPattern(background: string)
    requires FindChar(background, '_').None? || FindChar(background, '.').None?
      || FindChar(background, '.').value < FindChar(background, '_').value
    ensures SaveId(background) == 1
  {
  }

  /** A '.' before the first '_' gives the default id even when a number follows the '_'. */
  lemma SaveIdDotFirst()
    ensures SaveId("bg.old_3.png") == 1
  {
    var bg := "bg.old_3.png";
    assert bg[0] == 'b' && bg[1] == 'g' && bg[2] == '.';
    FindCharAt(bg, '.', 2);
    assert forall k :: 0 <= k <= 2 ==> bg[k] != '_';
    SaveIdWithoutPattern(bg);
  }

  // ---------------------------------------------------------------------------
  // The editor

  class MapEditor {
    var screenWidth: int
    var screenHeight: int
    var entities: seq<EntityData>
    var availableAssets: seq<string>
    var assetRegistry: AssetRegistry
    /** The background files whose texture was loaded (the keys of `backgroundTextures`). */
    var loadedBackgrounds: set<string>
    var selectedBackground: string
    var nextId: int
    var selectedId: int
    var draggingAsset: string
    var isDragging: bool
    var backgroundRepeatCount: int

    /** Every entity id is below `nextId`, so the next drop gets a fresh id. */
    ghost predicate IdsBelowNext()
      reads this
    {
      forall k :: 0 <= k < |entities| ==> entities[k].id < nextId
    }

    constructor(width: int, height: int)
      ensures screenWidth == width && screenHeight == height
      ensures entities == [] && availableAssets == [] && assetRegistry == map[] && loadedBackgrounds == {}
      ensures selectedBackground == "" && draggingAsset == "" && !isDragging
      ensures nextId == 0 && selectedId == NoSelection && backgroundRepeatCount == 1
      ensures IdsBelowNext()
    {
      screenWidth, screenHeight := width, height;
      entities, availableAssets, assetRegistry, loadedBackgrounds := [], [], map[], {};
      selectedBackground, draggingAsset, isDragging := "", "", false;
      nextId, selectedId, backgroundRepeatCount := 0, NoSelection, 1;
    }

    /** `getEntities`: a copy of the entity list. */
    function GetEntities(): (r: seq<EntityData>)
      reads this
      ensures IdsBelowNext() ==> forall e :: e in r ==> e.id < nextId
    {
      entities
    }

    /**
     * `loadAssets`: takes the registry and rebuilds the palette. `backgrounds` are the
     * background files whose texture loaded; scanning for them is file I/O.
     */
    method LoadAssets(registry: AssetRegistry, backgrounds: set<string>)
      modifies this`assetRegistry, this`availableAssets, this`loadedBackgrounds
      ensures assetRegistry == registry
      ensures availableAssets == Palette(registry)
      ensures loadedBackgrounds == old(loadedBackgrounds) + backgrounds
    {
      assetRegistry := registry;
      loadedBackgrounds := loadedBackgrounds + backgrounds;
      var palette := [];
      var i := 0;
      while i < |Placeable|
        invariant 0 <= i <= |Placeable|
        invariant palette == PresentIn(Placeable[..i], registry)
      {
        assert Placeable[..i + 1][..i] == Placeable[..i];
        if Placeable[i] in registry {
          palette := palette + [Placeable[i]];
        }
        i := i + 1;
      }
      assert Placeable[..i] == Placeable;
      if palette == [] {
        palette := FallbackPalette;
      }
      availableAssets := palette;
    }

    /** A click on palette item `i`: that asset becomes the one being dragged. */
    method PickPaletteItem(i: nat)
      requires i < |availableAssets|
      modifies this`draggingAsset, this`isDragging
      ensures draggingAsset == availableAssets[i] && isDragging
    {
      draggingAsset := availableAssets[i];
      isDragging := true;
    }

    /**
     * Releasing the mouse button: while dragging, a release on the canvas appends one
     * entity of the dragged type at `(x, y)` with id `nextId` and advances `nextId`;
     * any release while dragging ends the drag.
     */
    method Release(onCanvas: bool, x: real, y: real)
      modifies this`entities, this`nextId, this`isDragging, this`draggingAsset
      ensures old(isDragging) && onCanvas ==>
        entities == old(entities) + [EntityData(old(nextId), old(draggingAsset), x, y)] && nextId == old(nextId) + 1
      ensures !(old(isDragging) && onCanvas) ==> entities == old(entities) && nextId == old(nextId)
      ensures old(isDragging) ==> !isDragging && draggingAsset == ""
      ensures !old(isDragging) ==> !isDragging && draggingAsset == old(draggingAsset)
      ensures old(IdsBelowNext()) ==> IdsBelowNext()
      ensures old(IdsBelowNext()) && DistinctIds(old(entities)) ==> DistinctIds(entities)
    {
      if isDragging {
        if onCanvas {
          entities := entities + [EntityData(nextId, draggingAsset, x, y)];
          nextId := nextId + 1;
        }
        isDragging := false;
        draggingAsset := "";
      }
    }

    /** A click on the canvas while not dragging selects the topmost entity there, or nothing. */
    method ClickSelect(onCanvas: bool, x: real, y: real)
      modifies this`selectedId
      ensures !isDragging && onCanvas ==> selectedId == TopmostHit(entities, assetRegistry, x, y)
      ensures !(!isDragging && onCanvas) ==> selectedId == old(selectedId)
    {
      if !isDragging && onCanvas {
        selectedId := FindEntityAt(x, y);
      }
    }

    /** `findEntityAt`: a scan from the back of the list. */
    method FindEntityAt(x: real, y: real) returns (id: int)
      ensures id == TopmostHit(entities, assetRegistry, x, y)
    {
      var i := |entities|;
      assert entities[..i] == entities;
      while i > 0
        invariant 0 <= i <= |entities|
        invariant TopmostHit(entities[..i], assetRegistry, x, y) == TopmostHit(entities, assetRegistry, x, y)
      {
        var e := entities[i - 1];
        var size := DefaultHitSize;
        if e.typeName in assetRegistry {
          var info := assetRegistry[e.typeName];
          size := if info.width >= info.height then info.width else info.height;
        }
        var ex := e.x - HalfTrunc(size) as real;
        var ey := e.y - HalfTrunc(size) as real;
        if x >= ex && x < ex + size as real && y >= ey && y < ey + size as real {
          return e.id;
        }
        assert entities[..i][..i - 1] == entities[..i - 1];
        i := i - 1;
      }
      assert entities[..0] == [];
      return NoSelection;
    }

    /** The `find_if` for the selected id: its position, or `|entities|` when it is absent. */
    method FindSelected() returns (k: nat)
      ensures k == FirstWithId(entities, selectedId)
    {
      k := 0;
      while k < |entities| && entities[k].id != selectedId
        invariant k <= |entities|
        invariant forall j :: 0 <= j < k ==> entities[j].id != selectedId
      {
        k := k + 1;
      }
    }

    /** Holding the button with a selection drags the selected entity to `(x, y)`. */
    method DragSelected(x: real, y: real)
      modifies this`entities
      ensures selectedId != NoSelection ==> entities == Moved(old(entities), selectedId, x, y)
      ensures selectedId == NoSelection ==> entities == old(entities)
      ensures old(IdsBelowNext()) ==> IdsBelowNext()
      ensures old(DistinctIds(entities)) ==> DistinctIds(entities)
    {
      if DistinctIds(entities) {
        MovedKeepsDistinct(entities, selectedId, x, y);
      }
      if selectedId != NoSelection {
        var k := FindSelected();
        if k < |entities| {
          entities := entities[k := entities[k].(x := x, y := y)];
        }
      }
    }

    /** The delete key with a selection erases the selected entity and clears the selection. */
    method DeleteSelected()
      modifies this`entities, this`selectedId
      ensures old(selectedId) != NoSelection ==> entities == Removed(old(entities), old(selectedId))
      ensures old(selectedId) != NoSelection && FirstWithId(old(entities), old(selectedId)) < |old(entities)| ==>
        selectedId == NoSelection
      ensures old(selectedId) == NoSelection || FirstWithId(old(entities), old(selectedId)) == |old(entities)| ==>
        entities == old(entities) && selectedId == old(selectedId)
      ensures old(IdsBelowNext()) ==> IdsBelowNext()
      ensures old(DistinctIds(entities)) ==> DistinctIds(entities)
    {
      if DistinctIds(entities) {
        RemovedKeepsDistinct(entities, selectedId);
      }
      if selectedId != NoSelection {
        var k := FindSelected();
        if k < |entities| {
          entities := entities[..k] + entities[k + 1..];
          selectedId := NoSelection;
        }
      }
    }

    method RepeatMinus()
      modifies this`backgroundRepeatCount
      ensures backgroundRepeatCount == DecreasedRepeat(old(backgroundRepeatCount))
    {
      backgroundRepeatCount := DecreasedRepeat(backgroundRepeatCount);
    }

    method RepeatPlus()
      modifies this`backgroundRepeatCount
      ensures backgroundRepeatCount == IncreasedRepeat(old(backgroundRepeatCount))
    {
      backgroundRepeatCount := IncreasedRepeat(backgroundRepeatCount);
    }

    /**
     * Ctrl+O on a chosen file: `text` is the file's parsed content (`None` when it
     * cannot be read or parsed, which loadMapFromFile and jsonToMap both turn into a
     * default document). The entities are replaced, `nextId` placed above every id,
     * the background taken when its texture is loaded, and the repeat count taken.
     * A decoded document never carries assets, so the registry is kept.
     */
    method OpenMap(text: Option<Json>, configAt: ConfigFiles)
      modifies this`entities, this`assetRegistry, this`nextId, this`selectedBackground, this`backgroundRepeatCount
      ensures var m := DecodeEditor(text, configAt);
        && entities == m.entities
        && nextId == NextFreeId(m.entities)
        && assetRegistry == old(assetRegistry)
        && backgroundRepeatCount == m.backgroundRepeatCount
        && selectedBackground == (if m.backgroundName != "" && m.backgroundName in loadedBackgrounds
                                  then m.backgroundName else old(selectedBackground))
      ensures IdsBelowNext()
    {
      var m := JsonToMap(text, configAt);
      DecodedHasNoAssets(text, configAt);
      entities := m.entities;
      assetRegistry := if m.assets == map[] then assetRegistry else m.assets;
      nextId := NextIdAfterLoad(m.entities);
      if m.backgroundName != "" && m.backgroundName in loadedBackgrounds {
        selectedBackground := m.backgroundName;
      }
      backgroundRepeatCount := m.backgroundRepeatCount;
    }

    /**
     * Ctrl+S: the map saved, the two paths, and the contents written there by
     * saveServerLevel and saveClientLevel of the serializer.
     */
    method SaveLevels(configAt: ConfigFiles) returns (saved: MapData, serverPath: string, clientPath: string, server: Json, client: Json)
      ensures saved == SavedMap(entities, assetRegistry, selectedBackground)
      ensures serverPath == ServerPath(saved.id) && clientPath == ClientPath(saved.id)
      ensures server == ServerJson(saved, TypeRefsOf(configAt(ServerGameConfig)))
      ensures client == ClientLevelJson(saved)
    {
      var id := LevelIdOf(selectedBackground);
      saved := DefaultMap.(id := id, width := CanvasWidth, height := CanvasHeight, entities := entities, assets := assetRegistry);
      serverPath := "maps/level_" + IntToString(saved.id) + "-server.json";
      clientPath := "maps/level_" + IntToString(saved.id) + "-client.json";
      server := ServerLevelJson(saved, configAt);
      client := ClientLevelJson(saved);
    }
  }
}
