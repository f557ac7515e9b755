/** The responsive layout policy: how many columns and rows the grid uses (`updateGridDimensions`). */
module Layout {
  import Grid

  datatype Dimensions = Dimensions(columns: int, rows: int)

  /** Half a year per row: the preset for portrait or narrow viewports. */
  const PortraitGrid: Dimensions := Dimensions(26, 180)
  /** A year and a half per row: the preset for wide landscape viewports, also the initial state. */
  const LandscapeGrid: Dimensions := Dimensions(78, 60)

  /** Widest viewport, in CSS pixels, still treated as mobile. */
  const MobileMaxWidth: int := 767

  /** `updateGridDimensions`: portrait or mobile viewports get 26 x 180, all others 78 x 60. */
  function GridDimensions(innerWidth: int, innerHeight: int): (d: Dimensions)
    ensures d == PortraitGrid || d == LandscapeGrid
    ensures d == LandscapeGrid <==> innerHeight <= innerWidth && innerWidth > MobileMaxWidth
  {
    var isPortrait := innerHeight > innerWidth;
    var isMobile := innerWidth <= MobileMaxWidth;
    if isPortrait || isMobile then PortraitGrid else LandscapeGrid
  }

  /** The grid cell, counted row by row, at row `r` and column `c`. */
  function CellIndex(d: Dimensions, r: int, c: int): int
  {
    r * d.columns + c
  }

  /**
   * Whatever the viewport, the chosen grid has exactly one cell per week:
   * auto-placed block `i` lands in row `i / columns`, column `i % columns`,
   * inside the grid, and every cell of the grid holds a block, so no cell
   * is left blank and no block spills into an extra row.
   */
  lemma GridHoldsEveryWeek(innerWidth: int, innerHeight: int)
    ensures var d := GridDimensions(innerWidth, innerHeight);
      d.columns > 0 && d.columns * d.rows == Grid.TotalWeeks
      && (forall i :: 0 <= i < Grid.TotalWeeks ==>
            0 <= i / d.columns < d.rows && CellIndex(d, i / d.columns, i % d.columns) == i)
      && (forall r, c :: 0 <= r < d.rows && 0 <= c < d.columns ==> 0 <= CellIndex(d, r, c) < Grid.TotalWeeks)
  {
    var d := GridDimensions(innerWidth, innerHeight);
    forall r, c | 0 <= r < d.rows && 0 <= c < d.columns
      ensures 0 <= CellIndex(d, r, c) < Grid.TotalWeeks
    {
      assert r * d.columns <= (d.rows - 1) * d.columns;
    }
  }

  /** Making a landscape viewport wider keeps the landscape preset. */
  lemma WideningKeepsLandscape(width: int, height: int, wider: int)
    requires GridDimensions(width, height) == LandscapeGrid
    requires width <= wider
    ensures GridDimensions(wider, height) == LandscapeGrid
  {
  }
}
