/** Map themes: how each tile type is drawn, and which architect builds the
    level. Architects are a closed set of tagged variants. */
module Themes {
  import opened Prelude

  datatype Theme = DungeonTheme | ForestTheme

  datatype Architect = RoomsArchitect | DrunkardsWalkArchitect | CellularAutomataArchitect

  /** The glyph a theme draws for a tile (before code-page 437 conversion). */
  function TileToRender(theme: Theme, tile: TileType): char {
    match theme
    case DungeonTheme =>
      (match tile
       case Floor => '.'
       case Wall => '#'
       case Exit => '>')
    case ForestTheme =>
      (match tile
       case Floor => ';'
       case Wall => '"'
       case Exit => '>')
  }

  /** Reads a glyph back as the tile the theme draws with it, if any. */
  function GlyphToTile(theme: Theme, glyph: char): Option<TileType> {
    if glyph == TileToRender(theme, Floor) then Some(Floor)
    else if glyph == TileToRender(theme, Wall) then Some(Wall)
    else if glyph == TileToRender(theme, Exit) then Some(Exit)
    else None
  }

  /** Within a theme, distinct tiles are drawn with distinct glyphs. */
  lemma RenderInjective(theme: Theme, a: TileType, b: TileType)
    ensures TileToRender(theme, a) == TileToRender(theme, b) <==> a == b
  {
  }

  /** A drawn tile can be read back, and only drawn glyphs read back as tiles. */
  lemma RenderRoundTrip(theme: Theme, tile: TileType, glyph: char)
    ensures GlyphToTile(theme, TileToRender(theme, tile)) == Some(tile)
    ensures GlyphToTile(theme, glyph) == Some(tile) <==> TileToRender(theme, tile) == glyph
  {
  }

  /** The two themes agree exactly on the exit glyph. */
  lemma ThemesShareOnlyExit(tile: TileType)
    ensures TileToRender(DungeonTheme, tile) == TileToRender(ForestTheme, tile) <==> tile == Exit
  {
  }

  /** The architect a theme picks, given the random draw the Forest theme
      makes (the Dungeon theme makes none). */
  function GetArchitect(theme: Theme, draw: int): (a: Architect)
    ensures theme == DungeonTheme ==> a == RoomsArchitect
    ensures theme == ForestTheme ==> a != RoomsArchitect
    ensures theme == ForestTheme ==> (a == DrunkardsWalkArchitect <==> draw == 0)
  {
    match theme
    case DungeonTheme => RoomsArchitect
    case ForestTheme => if draw == 0 then DrunkardsWalkArchitect else CellularAutomataArchitect
  }

  /** Exclusive upper bound of the Forest theme's draw as written: `range(0, 1)`. */
  const ForestDrawBoundAsWritten := 1

  /** Exclusive upper bound that lets the draw reach both arms of the match. */
  const ForestDrawBound := 2

  /** As written, every draw in [0, 1) is 0, so the Forest theme never
      picks the cellular-automata architect. */
  lemma ForestNeverCellularAsWritten(draw: int)
    requires 0 <= draw < ForestDrawBoundAsWritten
    ensures GetArchitect(ForestTheme, draw) == DrunkardsWalkArchitect
  {
  }

  /** With draws in [0, 2), each of the Forest theme's architects is picked
      by exactly one draw. */
  lemma ForestReachesBothArchitects()
    ensures GetArchitect(ForestTheme, 0) == DrunkardsWalkArchitect
    ensures GetArchitect(ForestTheme, ForestDrawBound - 1) == CellularAutomataArchitect
    ensures forall draw :: 0 <= draw < ForestDrawBound ==>
      GetArchitect(ForestTheme, draw) != RoomsArchitect
  {
  }
}
