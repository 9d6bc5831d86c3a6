/** The fixed logical coordinate space of the map: 9000 x 9000 units, origin at (0, 0). */
module World {

  /** `MAP_WIDTH` and `MAP_HEIGHT`. */
  const MapWidth: int := 9000
  const MapHeight: int := 9000

  /** Side of one grid cell (`gridSize`); it divides both map dimensions. */
  const GridSize: int := 100

  /** The map centre (`mapCenterX`, `mapCenterY`). */
  const MapCenterX: real := MapWidth as real / 2.0
  const MapCenterY: real := MapHeight as real / 2.0
}
