/** A placed entity of a level (entity_data.hpp). */
module Entities {

  /**
   * `EntityData`: the source's field `type` is spelt `typeName` here because
   * `type` is a Dafny keyword. Coordinates are exact reals.
   * The datatype constructor is the four-argument constructor, which stores its
   * arguments unchanged.
   */
  datatype EntityData = EntityData(id: int, typeName: string, x: real, y: real)

  /** The default-constructed entity: id 0, empty type, at the origin. */
  const DefaultEntity: EntityData := EntityData(0, "", 0.0, 0.0)
}
