/** Asset descriptions read from a client configuration (asset_info.hpp). */
module Assets {

  datatype AssetInfo = AssetInfo(spritePath: string, width: int, height: int)

  const DefaultAssetSize: int := 32

  /** The default-constructed `AssetInfo`: no sprite path, 32 by 32. */
  const DefaultAssetInfo: AssetInfo := AssetInfo("", DefaultAssetSize, DefaultAssetSize)

  /** Each asset key names exactly one `AssetInfo`; assigning a key replaces its entry. */
  type AssetRegistry = map<string, AssetInfo>
}
