/** The in-memory level document `MapData` and its per-field defaults (map_serializer.hpp). */
module MapDocument {
  import opened Entities
  import opened Assets

  const DefaultGameConfigPath: string := "./assets/configs/rtype.json"

  datatype MapData = MapData(
    gameConfigPath: string,
    id: int,
    scrollSpeed: real,
    width: int,
    height: int,
    backgroundName: string,
    backgroundRepeatCount: int,
    entities: seq<EntityData>,
    assets: AssetRegistry)

  /** A default-constructed `MapData`. */
  const DefaultMap: MapData :=
    MapData(DefaultGameConfigPath, 1, 2.0, 800, 600, "", 1, [], map[])
}
