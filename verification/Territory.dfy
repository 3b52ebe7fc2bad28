// Territories: rectangles of tiles, with inclusive limits.

module Territory {
  import opened World

  datatype Territory = Territory(id: int, name: string, minX: int, minY: int, maxX: int, maxY: int) {
    predicate Contains(x: int, y: int) {
      minX <= x <= maxX && minY <= y <= maxY
    }
  }
}
