# R-Type map editor: a Dafny model of its map serializer, config loader and editing core

The R-Type map editor places entities (players, enemies, walls and power-ups) on a
canvas. It saves the result in three JSON dialects:

- the **editor** dialect, which it can read back;
- the **server** level, with one `level_data` record per entity;
- the **client** level, a fixed rendering template.

Every numeric `ref` it writes or reads is resolved through the game configuration's
`entities.<name>.type.ref` table. This project models the code and proves what it
does.

| module | file | models |
|---|---|---|
| `Wrappers` | `wrappers.dfy` | `Option`, for results that may be missing or may have thrown |
| `JsonValues` | `json_value.dfy` | the parsed JSON value; `find`/`contains`, `value(key, default)` and `get<T>()` as the code uses them (a throw is `None`) |
| `Text` | `text.dfy` | `std::string` ordering, `find`, `std::stoi` (32-bit range check included) and `std::to_string` |
| `Entities`, `Assets`, `MapDocument` | `entity_data.dfy`, `asset_info.dfy`, `map_data.dfy` | `EntityData`, `AssetInfo` / `AssetRegistry` and `MapData`, with the defaults the structs declare |
| `TypeRefs` | `type_refs.dfy` | `loadTypeRefs` and `invertTypeRefs` |
| `MapSerializer` | `map_serializer.dfy` | `mapToJson`, `jsonToMap`, `saveServerLevel`, `saveClientLevel` |
| `ConfigLoader` | `config_loader.dfy` | `loadAssetsFromConfig` |
| `MapEditorModel` | `map_editor.dfy` | the `MapEditor` class: palette, drop, select, drag, delete, repeat buttons, Ctrl+O, Ctrl+S, `findEntityAt` |

## How the model handles C++ behaviour

**Parsed JSON, not text.** A document is its parsed `Json` value. A file that cannot
be opened or parsed is `None`. Reading a configuration path is a parameter
`configAt: string -> Option<Json>`. Object members keep their iteration order; a
parsed nlohmann object iterates in ascending key order. That order matters: the
loops over `items()` stop at the first member that throws and keep what they have
already done.

**Exceptions become values.** The `try`/`catch` blocks return the state reached
before the throw:
- in `jsonToMap`, the header decoders (`DecodeHeader`, `DecodeMeta`, `DecodeSize`)
  yield `Partial(m, complete)`, and the entity loops keep the entities decoded
  before the first throw; `JsonToMap` returns the resulting `MapData`;
- `loadAssetsFromConfig` yields `Loaded(registry, complete)`;
- a type-ref entry is `RefEntry.Throws`.

**Loops are methods.** Loops in the source are `method`s with `while` loops:
- `LoadTypeRefs`, `OrderedEntries` + `InvertTypeRefs`;
- `ReadWaves` / `ReadLegacy` inside `JsonToMap`;
- `LoadAssetsFromConfig`;
- `NextIdAfterLoad`, `FindEntityAt`, `FindSelected`.

Most methods are proved equal to a recursive specification function, and the
properties the code promises are then lemmas about those functions. `OrderedEntries`
is specified by what it returns: a name-sorted vector holding exactly the table's
pairs. `InvertTypeRefs` is proved equal to `InverseOf`, a definition by the greatest
name per ref rather than a recursion that follows the loop.

**Duplicate refs.** `invertTypeRefs` copies an unordered map into a vector and sorts
it by name. The copy is modelled as picking entries in any order and inserting them
by name. Its result is proved equal to `InverseOf(refs)`, which maps each ref to the
greatest name carrying it. So the result does not depend on the hash order. The log
has one `Duplicate` per name that lost its ref, so it is as long as the number of
overwrites. Each entry pairs two names carrying that ref, the kept one greater than
the discarded one.

**The editor is a class.** `MapEditor` holds the fields `handleInput` updates. Each
block of `handleInput` that is modelled is a method stating the new state. The
invariant `IdsBelowNext` (every id is below `nextId`) is preserved throughout.
`Release`, `DragSelected` and `DeleteSelected` also preserve distinct ids. Mouse
positions arrive already converted to world coordinates, and "the pointer is on the
canvas" is a boolean parameter. `getEntities` returns a
copy in the source; here it is a function returning the entity sequence, a value.

**Naming.** The `EntityData` field `type` is `typeName`, because `type` is a Dafny
keyword. The four-argument constructor is the datatype constructor and
`DefaultEntity` is the default one. `AssetRegistry` is a `map`, so the
`unordered_map` assignment `registry[key] = info` replaces an entry.

Where the system's own documentation and the code disagree, the model follows the
code:
- **Repeat count on load.** The repeat count is documented as at least 1. `jsonToMap`
  and the Ctrl+O handler take the stored `backgroundRepeatCount` unchecked. Only the
  minus and plus buttons clamp it to 1..10.
- **Meta fields.** An absent meta field always keeps its default. A present field is
  read only while no earlier field has thrown. A wrongly-typed `map.width` keeps the
  `id` and `scrollSpeed` already read, but leaves `height`, `backgroundName` and
  `backgroundRepeatCount` at their defaults even when they are stored, and no entity
  is decoded.
- **Client config path.** The client config path is the constant
  `config/game/client-rtype.json`; it is not a parameter.

## Model

| member | source | states |
|---|---|---|
| TypeRefs.StopAt | src/map_serializer.cpp:150-152 | the index of the first definition whose `type.ref` throws; no earlier one throws |
| TypeRefs.EntryOf | src/map_serializer.cpp:150-155 | a definition without a `type` object, or whose `type` has no `ref`, is skipped; a recorded ref is never -1 |
| TypeRefs.Fill | src/map_serializer.cpp:150-157 | the loop only adds names, and every name it adds or overwrites gets a ref other than -1 |
| TypeRefs.LoadTypeRefs | src/map_serializer.cpp:137-163 | the loop computes `TypeRefsOf(config)`; the sentinel -1 is never recorded; an unreadable config gives an empty map |
| TypeRefs.NeverRecordsNoRef | src/map_serializer.cpp:152-155 | a ref of -1 is skipped, so -1 never becomes a value |
| TypeRefs.FillKeys | src/map_serializer.cpp:150-157 | a name is recorded iff it was present before or is a definition before the first throw whose `type` object has a ref other than -1 |
| TypeRefs.FillKeepsUntouched | src/map_serializer.cpp:150-157 | names the loop never visits keep their ref |
| TypeRefs.FillValue | src/map_serializer.cpp:152-154 | each recorded definition maps to its own `type.ref` |
| TypeRefs.TypeRefsCharacterised | src/map_serializer.cpp:137-163 | the loaded table exactly: which names it holds and the ref of each; empty for a missing config; never -1 |
| TypeRefs.InsertByName | src/map_serializer.cpp:168-171 | inserting into a name-sorted vector keeps it sorted and adds exactly one entry |
| TypeRefs.OrderedEntries | src/map_serializer.cpp:168-171 | the copied vector is sorted by name and holds exactly the table's pairs |
| TypeRefs.WinnersStep | src/map_serializer.cpp:173-179 | after each insertion every ref maps to the greatest name seen so far with that ref |
| TypeRefs.WinnersComplete | src/map_serializer.cpp:173-181 | after the whole vector the result is an inverse in which the greatest name wins |
| TypeRefs.InverseOfIsInverse | src/map_serializer.cpp:165-182 | `InverseOf` maps every ref to a name carrying it, and no name carrying it is greater |
| TypeRefs.InverseUnique | src/map_serializer.cpp:165-182 | two maps with that property are equal, so the result does not depend on hash order |
| TypeRefs.InvertTypeRefs | src/map_serializer.cpp:165-182 | the result equals `InverseOf(refs)`; one duplicate message per overwritten entry, naming the kept name (greater) and the discarded one |
| TypeRefs.InverseExample | src/map_serializer.cpp:165-182 | `{A:1, B:1, C:2}` inverts to `{1:B, 2:C}` |
| Text.LessTransitive | src/map_serializer.cpp:169-171 | string `<` is transitive |
| Text.LessTotal | src/map_serializer.cpp:169-171 | two different strings are ordered one way or the other |
| Text.FindChar | src/map_editor.cpp:129-130 | `find` returns the first position of the character, or none when it is absent |
| Text.Stoi | src/map_editor.cpp:133 | a value it returns lies in the 32-bit range (the cases are `StoiCases`) |
| Text.NatToStringDigits | src/map_editor.cpp:138-139 | `to_string` of a natural is a non-empty digit string whose value is the number |
| Text.StoiIntToString | src/map_editor.cpp:132-133 | `stoi(to_string(n)) == n` for every 32-bit `n` |
| Text.StoiCases | src/map_editor.cpp:133 | after leading spaces and one sign: no digit is a throw; otherwise the signed value of the leading digits, and a throw exactly when it leaves the 32-bit range |
| Text.StoiIgnoresRest | src/map_editor.cpp:133 | `stoi` reads only the leading digits and ignores what follows them |
| JsonValues.LookupCharacterised | src/map_serializer.cpp:59-66 | a lookup misses exactly when no member has the key, and a hit is one of the members |
| JsonValues.Trunc | src/config_loader.cpp:44-45 | `get<int>` on a float truncates toward zero |
| JsonValues.ValueInt | src/map_serializer.cpp:61-64 | `value(key, d)` throws on a non-object and yields `d` for an absent key |
| JsonValues.ValueFloat | src/map_serializer.cpp:80-81 | the same for floats |
| JsonValues.ValueString | src/map_serializer.cpp:57 | the same for strings |
| MapSerializer.MetaJson | src/map_serializer.cpp:22-29 | the `map` block carries id, scrollSpeed, width, height, backgroundName and backgroundRepeatCount |
| MapSerializer.WaveJson | src/map_serializer.cpp:35-45 | a wave carries x, y, the type as `name`, and the config ref or else the entity id as `ref` |
| MapSerializer.EditorJson | src/map_serializer.cpp:16-47 | the document carries `game` (default path for an empty one), the `map` block and one wave per entity |
| MapSerializer.MapToJson | src/map_serializer.cpp:15-50 | the encoder's value with refs read from the document's own game config |
| MapSerializer.EditorWaves | src/map_serializer.cpp:16-47 | `waves` is an array with one wave per entity, in order; an empty config path is written as the default |
| MapSerializer.DecodeMeta | src/map_serializer.cpp:59-66 | decoding the `map` block touches only the metadata fields |
| MapSerializer.DecodeSize | src/map_serializer.cpp:67-70 | without a `map` block only width and height are read |
| MapSerializer.DecodeHeader | src/map_serializer.cpp:53-70 | the header never yields entities or assets |
| MapSerializer.DecodeWave | src/map_serializer.cpp:78-92 | a decoded wave takes the sequential id; a non-object wave throws (field rules in `WaveRecordRules`) |
| MapSerializer.ResolveRef | src/map_serializer.cpp:87-89 | a known ref gives one of the registered names; an unknown one gives `UNKNOWN_` followed by the ref's decimal text |
| MapSerializer.WaveRecordRules | src/map_serializer.cpp:78-92 | absent x/y read as 0, present ones as their number; a `name` string is the type verbatim; a record throws exactly when x, y or (without a name) `ref` is present and not a number |
| MapSerializer.NamedWaveAtOrigin | src/map_serializer.cpp:80-85 | a record with only a name string decodes to that type at (0, 0) with the sequential id |
| MapSerializer.DecodeLegacyEntity | src/map_serializer.cpp:96-101 | a non-object record throws; an empty object gives the default entity |
| MapSerializer.LegacyRecordRules | src/map_serializer.cpp:96-101 | each absent field takes its default, each present one its converted value; a record throws exactly when a present field has the wrong kind |
| MapSerializer.LegacyRecordVerbatim | src/map_serializer.cpp:96-101 | a record with an int id, a string type and float x, y is copied verbatim |
| MapSerializer.JsonToMap | src/map_serializer.cpp:52-109 | the decoder's loops compute `DecodeEditor(text, configAt)` |
| MapSerializer.ReadWaves | src/map_serializer.cpp:75-93 | the wave loop computes `DecodeWaves(ws, 0, inverse)` |
| MapSerializer.ReadLegacy | src/map_serializer.cpp:94-103 | the legacy loop computes `DecodeLegacy(es)` |
| MapSerializer.DecodeWavesPrefix | src/map_serializer.cpp:77-93 | wave entities are a prefix decode: ids firstId, firstId+1, … in file order, cut at the first throw |
| MapSerializer.DecodeLegacyPrefix | src/map_serializer.cpp:95-102 | legacy entities are the leading records that decode, in order, each as `DecodeLegacyEntity` gives it; the first failing record ends the list |
| MapSerializer.LegacyDefaults | src/entity_data.hpp:10-13 | an empty legacy record gives the default entity (id 0, empty type, 0, 0) |
| MapSerializer.DecodedHasNoAssets | src/map_serializer.cpp:52-109 | a decoded document never carries assets |
| MapSerializer.WavesTakePrecedence | src/map_serializer.cpp:75-94 | with a `waves` array the `entities` array is ignored |
| MapSerializer.NamelessWaveType | src/map_serializer.cpp:86-90 | without a string `name`, `ref` (default -1) resolves to the greatest name carrying it, else to `UNKNOWN_<ref>`, from which `stoi` recovers the ref |
| MapSerializer.MetaFieldwise | src/map_serializer.cpp:59-66 | with a `map` block read without a throw, each metadata field is its stored value or, when absent, its default |
| MapSerializer.MetaPartial | src/map_serializer.cpp:57-66 | with or without a throw: complete exactly when every read succeeds; a field is its default when absent or when it or an earlier read throws, and otherwise its stored value |
| MapSerializer.MetaThrowExample | src/map_serializer.cpp:52-109 | `{"map":{"id":7,"width":"w","height":5},"waves":[{}]}` decodes to the default map with id 7 and no entities |
| MapSerializer.NoMetaBlock | src/map_serializer.cpp:67-70 | without a `map` block id, scroll speed, background and repeat count keep their defaults |
| MapSerializer.MalformedYieldsDefault | src/map_serializer.hpp:12-22 | an unparsable or non-object document decodes to the default map: 800×600, id 1, speed 2, no entities |
| MapSerializer.LegacyExample | src/map_serializer.cpp:94-103 | `{"entities":[{"id":7,"type":"WALL","x":10,"y":20}]}` decodes to exactly that entity |
| MapSerializer.EncodedWavesDecode | src/map_serializer.cpp:77-93 | decoding the written waves gives back every entity's type and position, renumbered from firstId |
| MapSerializer.EditorRoundTrip | src/map_serializer.cpp:15-109 | decode(encode(m)) keeps all metadata, types and positions; ids become 0..n-1 and assets are dropped |
| MapSerializer.LevelEntry | src/map_serializer.cpp:205-211 | a level record carries the server ref and the position |
| MapSerializer.ServerJson | src/map_serializer.cpp:186-212 | the server level: game, seven systems, empty spawn points and startup, `level_data`, and no editor keys |
| MapSerializer.ServerLevelJson | src/map_serializer.cpp:184-223 | the content written, with refs read from `config/game/rtype.json` |
| MapSerializer.ServerPositionComplete | src/map_serializer.cpp:203-212 | one record per entity with its position; the ref is -1 exactly when the type is unknown |
| MapSerializer.ServerLevelDoesNotRoundTrip | src/map_serializer.cpp:184-212 | reading a server level as an editor document gives a default map without entities |
| MapSerializer.ClientLevelJson | src/map_serializer.cpp:226-259 | the client level: game, fourteen systems, `sprites` `{}` and empty startup; never waves, entities or level_data |
| MapSerializer.ClientIgnoresMap | src/map_serializer.cpp:226-248 | the client level is the same for every map |
| ConfigLoader.SpriteStop | src/config_loader.cpp:29-31 | the index of the first sprite path that is not a string |
| ConfigLoader.AddSprites | src/config_loader.cpp:29-33 | the sprite loop only adds names; every entry it writes has the default size 32×32 |
| ConfigLoader.RectOf | src/config_loader.cpp:39-42 | a rect is found only under a `render` object and is itself an object |
| ConfigLoader.ApplyRects | src/config_loader.cpp:38-50 | the rect loop keeps the set of names and every sprite path |
| ConfigLoader.ApplyRect | src/config_loader.cpp:39-46 | a rect changes only the entry of its own name and never its path or the set of names |
| ConfigLoader.LoadAssetsFromConfig | src/config_loader.cpp:14-59 | the two loops compute `LoadConfig(config)`; an unreadable config gives an empty registry |
| ConfigLoader.AddSpritesKeys | src/config_loader.cpp:28-34 | the sprite loop registers exactly the sprites before the first non-string path |
| ConfigLoader.AddSpritesKeepsOthers | src/config_loader.cpp:29-33 | entries the sprite loop does not visit are kept |
| ConfigLoader.AddSpritesValue | src/asset_info.hpp:11-15 | a registered sprite gets its path and the default size 32×32 |
| ConfigLoader.ApplyRectsFrame | src/config_loader.cpp:37-50 | the rect loop keeps the names and every path, and changes only the entries it visits |
| ConfigLoader.ApplyRectsPrefix | src/config_loader.cpp:37-50 | a rect loop that runs to the end gets past each of its prefixes |
| ConfigLoader.ApplyRectsEntry | src/config_loader.cpp:37-50 | once the rect loop has got past a definition, even if a later one throws, its entry has the rect's `w` and `h` where present and keeps its other dimension |
| ConfigLoader.LoadedKeys | src/config_loader.cpp:15-58 | the registry's names are exactly the sprites read; rects never add one |
| ConfigLoader.LoadedSprite | src/config_loader.cpp:29-33 | each sprite keeps its path; if loading stopped within the sprites, every size stays 32×32 |
| ConfigLoader.LoadedSize | src/config_loader.cpp:37-50 | when the whole load completes, a sprite's size is its rect's `w`/`h`, else 32 |
| ConfigLoader.LoadExample | src/config_loader.cpp:14-59 | a concrete config: PLAYER becomes 64×32, WALL stays 32×32, ENEMY without a sprite is absent |
| MapEditorModel.PresentInCharacterised | src/map_editor.cpp:96-99 | the filtered palette holds exactly the placeable names present in the registry, in their order |
| MapEditorModel.PaletteCharacterised | src/map_editor.cpp:96-103 | the palette is exactly `PresentIn(Placeable, reg)` when some placeable name is registered, the ten-name fallback when none is; never empty |
| MapEditorModel.RegisteredIndices | src/map_editor.cpp:96-99 | the positions of the registered names, strictly increasing, and every registered position among them |
| MapEditorModel.PresentInOrder | src/map_editor.cpp:96-99 | the filtered palette is the subsequence of the placeable list at exactly the registered positions, and repeats no name when the list does not |
| MapEditorModel.MapEditor.LoadAssets | src/map_editor.cpp:30-103 | the registry is replaced, the palette rebuilt from it, and loaded backgrounds accumulate |
| MapEditorModel.HalfTrunc | src/map_editor.cpp:479-480 | `size/2` in C++ integer division truncates toward zero |
| MapEditorModel.HitSize | src/map_editor.cpp:473-477 | the side is the larger of the registered width and height, or 32 for an unregistered type |
| MapEditorModel.HitBoxAroundPosition | src/map_editor.cpp:479-481 | a box of positive size holds its entity's position, and a hit lies less than one side from it on each axis |
| MapEditorModel.TopmostHitCharacterised | src/map_editor.cpp:471-486 | the hit is the id of the last entity whose box contains the point, or -1 when none does |
| MapEditorModel.EmptyBoxNeverHits | src/map_editor.cpp:479-481 | an entity whose size is at most 0 can never be hit |
| MapEditorModel.HitBoxExamples | src/map_editor.cpp:473-482 | an unregistered type has a half-open 32 box centred on its position; an odd registered size (the larger of width and height) puts the extra unit after it |
| MapEditorModel.MapEditor.FindEntityAt | src/map_editor.cpp:471-486 | the reverse scan returns `TopmostHit` |
| MapEditorModel.FirstWithId | src/map_editor.cpp:248-249 | `find_if` gives the first entity with the id, or the end |
| MapEditorModel.MapEditor.FindSelected | src/map_editor.cpp:248-249 | the scan returns `FirstWithId(entities, selectedId)` |
| MapEditorModel.MovedFrame | src/map_editor.cpp:250-253 | dragging moves only the first entity with the id and keeps its id and type |
| MapEditorModel.MapEditor.DragSelected | src/map_editor.cpp:246-254 | with a selection the entities become `Moved`; without one nothing changes; fresh and distinct ids are kept |
| MapEditorModel.RemovedCharacterised | src/map_editor.cpp:258-261 | deleting removes exactly the first entity with the id and keeps the others' order |
| MapEditorModel.RemovedMultiset | src/map_editor.cpp:258-261 | the remaining entities are the old ones minus that one |
| MapEditorModel.RemovedIds | src/map_editor.cpp:257-263 | with distinct ids no entity with the deleted id remains |
| MapEditorModel.Removed | src/map_editor.cpp:258-261 | one entity fewer when the id is found, the same list otherwise |
| MapEditorModel.MovedKeepsDistinct | src/map_editor.cpp:250-253 | dragging keeps ids distinct |
| MapEditorModel.RemovedKeepsDistinct | src/map_editor.cpp:258-261 | deleting keeps the remaining ids distinct |
| MapEditorModel.MapEditor.DeleteSelected | src/map_editor.cpp:257-264 | the entity is removed and the selection cleared only when it was found; fresh and distinct ids are kept |
| MapEditorModel.MapEditor.PickPaletteItem | src/map_editor.cpp:186-192 | clicking a palette item starts dragging that asset |
| MapEditorModel.MapEditor.Release | src/map_editor.cpp:221-234 | a drop on the canvas appends the asset with id `nextId` and bumps it; dragging always ends; fresh and distinct ids are kept |
| MapEditorModel.MapEditor.ClickSelect | src/map_editor.cpp:237-243 | a click on the canvas while not dragging selects `TopmostHit` |
| MapEditorModel.DecreasedRepeat | src/map_editor.cpp:213-215 | the minus button decrements without going below 1 |
| MapEditorModel.IncreasedRepeat | src/map_editor.cpp:216-218 | the plus button increments without going above 10 |
| MapEditorModel.RepeatStaysInRange | src/map_editor.cpp:213-218 | both buttons keep a count in 1..10 in that range |
| MapEditorModel.MapEditor.RepeatMinus | src/map_editor.cpp:213-215 | the count becomes `DecreasedRepeat` of the old one |
| MapEditorModel.MapEditor.RepeatPlus | src/map_editor.cpp:216-218 | the count becomes `IncreasedRepeat` of the old one |
| MapEditorModel.NextFreeId | src/map_editor.cpp:164-165 | the id after loading is above every id, and is 0 or some id + 1 |
| MapEditorModel.NextIdAfterLoad | src/map_editor.cpp:164-165 | the loop computes `NextFreeId` |
| MapEditorModel.MapEditor.OpenMap | src/map_editor.cpp:160-175 | entities replaced, `nextId` above all ids, registry kept, background taken when loaded, repeat count taken |
| MapEditorModel.LevelIdOf | src/map_editor.cpp:128-135 | the map id derived from the background name, as `SaveId` states |
| MapEditorModel.SaveIdRecoversNumber | src/map_editor.cpp:128-134 | `<prefix>_<n>.<suffix>` saves as level n for every 32-bit n |
| MapEditorModel.SaveIdWithoutPattern | src/map_editor.cpp:128-135 | with no '_', no '.', or the first '.' before the first '_', the id stays the default 1 |
| MapEditorModel.SaveIdDotFirst | src/map_editor.cpp:128-135 | `bg.old_3.png`, whose first '.' precedes its first '_', saves with id 1 |
| MapEditorModel.SaveIdBetweenMarks | src/map_editor.cpp:129-133 | with a '_' before the first '.', the id is what `stoi` reads between them, and 1 when it throws |
| MapEditorModel.SavedMap | src/map_editor.cpp:123-135 | the saved map is 800×600 with that id, the entities and the registry; its background name, repeat count, scroll speed and config path are the defaults |
| MapEditorModel.MapEditor.SaveLevels | src/map_editor.cpp:122-147 | Ctrl+S writes the 800×600 map with that id, entities and registry to `maps/level_<id>-server.json` and `-client.json` |
| MapEditorModel.MapEditor.constructor | src/map_editor.hpp:25-52 | the initial editor state: no entities, `nextId` 0, no selection, repeat count 1 |
| MapEditorModel.MapEditor.GetEntities | src/map_editor.hpp:22 | the returned entities all have ids below `nextId` while the invariant holds |

## Left out

- JSON text parsing and printing (`json::parse`, `dump(4)`): documents are parsed values and byte-identical output is not modelled.
- The conversions `get<int>`/`get<float>` are modelled as accepting numbers and booleans; json.hpp is not part of this model.
- Objects are member sequences; a parsed object never repeats a key, and where lemmas need that they require `DistinctKeys`.
- File I/O: opening, reading and writing are left out. A read is `configAt` or the `text` parameter. `saveMapToFile`/`loadMapFromFile` are left out except that an unreadable file decodes as `None`. `create_directories` and the write-success booleans of `saveServerLevel`/`saveClientLevel` are not modelled; those methods return the content written.
- Floating point: coordinates and the scroll speed are `real`, so float rounding and the `(mouse - canvas - scroll) / mapScale` conversion are left out; positions arrive as world coordinates.
- MapEditorModel.NextFreeId: `int` wrap-around of `nextId` and of ids is not modelled; integers are unbounded.
- JsonValues.ValueInt: an out-of-range JSON integer is not truncated to 32 bits.
- raylib (window, textures, drawing, key and mouse state): the pointer's hit on the canvas or a button is a parameter, and texture loading becomes the set `loadedBackgrounds`.
- Background scanning of `assets/sprites/` and the background-selection click (map_editor.cpp:196-206) are left out: they depend on directory listings and textures.
- Scrolling (map_editor.cpp:107-118) and `draw` are left out: they are pure presentation over floats.
- The file dialog of Ctrl+O is left out: OpenMap receives the chosen file's parsed content.
- Standard output and error messages are left out, except the duplicate report of `invertTypeRefs`, which is the `log` result.
- The Ctrl+S handler never writes the editor dialect; the model follows that.
- main.cpp and config_loader.hpp are not part of this model (start-up wiring and a declaration).
