/** Shared vocabulary of the game: grid points, tile classification, the
    map as a list of tiles, Rust's fixed-width integers, and the
    Option/Result shapes used for the source's `Option` and for panics. */
module Prelude {

  /** Rust `i32`. */
  type Int32 = x: int | -0x8000_0000 <= x < 0x8000_0000

  predicate InInt32(x: int) {
    -0x8000_0000 <= x < 0x8000_0000
  }

  /** A grid point (bracket-lib `Point`, two `i32` coordinates). */
  datatype Point = Point(x: Int32, y: Int32)

  datatype Option<T> = None | Some(value: T)

  /** `Err` stands for a Rust panic or an `Err` return, depending on the member. */
  datatype Result<T, E> = Ok(value: T) | Err(error: E)

  /** Tile classification of one map cell. */
  datatype TileType = Floor | Wall | Exit

  /** The game map, seen only as its flat list of tiles; its width, height
      and index arithmetic belong to a file that is not part of this model. */
  datatype GameMap = GameMap(tiles: seq<TileType>)
}
