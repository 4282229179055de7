/** Grid geometry of the multi live view, over exact reals: the LayoutBuilder sizing
    (rows from the column count, cells dividing the container exactly), the fixed-row
    aspect ratio it replaced, and the pagination-height arithmetic of the paged layout
    with its row-count policies. */
module GridGeometry {
  import opened Text

  /** The slots the grid always draws (`maxCamerasPerPage`). */
  const SlotCount: nat := 20

  /** The preferred height of an `AppBar` without a bottom widget (Flutter's toolbar height). */
  const AppBarHeight: real := 56.0

  /** `(maxCamerasPerPage / columns).ceil()`: the fewest rows that hold every slot. */
  function RowsFor(columns: int): (rows: nat)
    requires columns > 0
    ensures rows * columns >= SlotCount
    ensures (rows - 1) * columns < SlotCount
  {
    var rows := (SlotCount + columns - 1) / columns;
    var rem := (SlotCount + columns - 1) % columns;
    assert rows * columns + rem == SlotCount + columns - 1;
    rows
  }

  /** The sizing a LayoutBuilder computes for its constraints. */
  datatype Geometry = Geometry(columns: int, rows: int, itemWidth: real, itemHeight: real, aspectRatio: Option<real>)

  /** The LayoutBuilder geometry: rows from the column count, cell width and height
      dividing the available box exactly, and their ratio as the child aspect ratio.
      A column count that is not positive gives no grid (Dart throws on the ceiling of
      `20 / 0`); a zero-height box gives no finite aspect ratio. */
  function LayoutGeometry(availableWidth: real, availableHeight: real, columns: int): (g: Option<Geometry>)
    ensures g.Some? <==> columns > 0
    ensures g.Some? ==> g.value.columns == columns
    ensures g.Some? ==> g.value.rows * columns >= SlotCount && (g.value.rows - 1) * columns < SlotCount
    ensures g.Some? ==> g.value.itemWidth * (columns as real) == availableWidth
    ensures g.Some? ==> g.value.itemHeight * (g.value.rows as real) == availableHeight
    ensures g.Some? ==> (g.value.aspectRatio.Some? <==> availableHeight != 0.0)
    ensures g.Some? && g.value.aspectRatio.Some? ==>
      g.value.aspectRatio.value * g.value.itemHeight == g.value.itemWidth
  {
    if columns <= 0 then None
    else
      var rows := RowsFor(columns);
      var itemWidth := availableWidth / (columns as real);
      var itemHeight := availableHeight / (rows as real);
      Some(Geometry(columns, rows, itemWidth, itemHeight,
                    if itemHeight == 0.0 then None else Some(itemWidth / itemHeight)))
  }

  /** The height of the grid's container: the screen less the app bar and the top
      safe-area inset. */
  function BodyHeight(screenHeight: real, safeTop: real): real
  {
    screenHeight - AppBarHeight - safeTop
  }

  /** With the container sized to the body, the cells fill the whole body and the
      whole screen width, with no gap and no overflow. */
  lemma CellsFillBody(screenWidth: real, screenHeight: real, safeTop: real, columns: int)
    requires columns > 0
    ensures var g := LayoutGeometry(screenWidth, BodyHeight(screenHeight, safeTop), columns).value;
      && g.itemHeight * (g.rows as real) + AppBarHeight + safeTop == screenHeight
      && g.itemWidth * (columns as real) == screenWidth
      && g.rows * columns >= SlotCount
  {
  }

  /** The earlier sizing: the child aspect ratio assumes five rows spread over the
      full screen height. */
  const FixedRows: nat := 5

  function FixedRowAspectRatio(screenWidth: real, screenHeight: real, columns: int): real
    requires columns > 0 && screenHeight != 0.0
  {
    (screenWidth / (columns as real)) / (screenHeight / (FixedRows as real))
  }

  /** The height the grid then takes: its cells are `screenWidth / columns` wide, so
      each row is that width divided by the aspect ratio, and it needs `RowsFor(columns)`
      rows for the 20 cells. */
  function FixedRowGridHeight(screenWidth: real, screenHeight: real, columns: int): real
    requires columns > 0 && screenWidth != 0.0 && screenHeight != 0.0
  {
    var cellWidth := screenWidth / (columns as real);
    (RowsFor(columns) as real) * (cellWidth / FixedRowAspectRatio(screenWidth, screenHeight, columns))
  }

  /** Each row of the earlier sizing is a fifth of the screen height. */
  lemma FixedRowHeight(screenWidth: real, screenHeight: real, columns: int)
    requires columns > 0 && screenWidth != 0.0 && screenHeight != 0.0
    ensures FixedRowGridHeight(screenWidth, screenHeight, columns)
         == (RowsFor(columns) as real) * (screenHeight / (FixedRows as real))
  {
    var cellWidth := screenWidth / (columns as real);
    var rowHeight := screenHeight / (FixedRows as real);
    assert cellWidth != 0.0;
    assert rowHeight != 0.0;
    assert cellWidth / (cellWidth / rowHeight) == rowHeight;
  }

  /** The earlier sizing overflows: with four columns or fewer the grid is at least as
      tall as the whole screen, and so taller than the body below the app bar. */
  lemma FixedRowGridOverflows(screenWidth: real, screenHeight: real, safeTop: real, columns: int)
    requires screenWidth > 0.0 && screenHeight > 0.0 && safeTop >= 0.0 && 0 < columns <= 4
    ensures FixedRowGridHeight(screenWidth, screenHeight, columns) >= screenHeight
    ensures FixedRowGridHeight(screenWidth, screenHeight, columns) > BodyHeight(screenHeight, safeTop)
  {
    FixedRowHeight(screenWidth, screenHeight, columns);
    var rows := RowsFor(columns);
    assert rows >= 5;
    assert (rows as real) * (screenHeight / 5.0) >= 5.0 * (screenHeight / 5.0);
  }

  /** A concrete case: a 1200 x 800 screen with the default four columns gets a grid
      800 tall under an 800 - 56 body, and a phone-width screen with two columns a grid
      twice the screen height. */
  lemma FixedRowCounterexample()
    ensures FixedRowGridHeight(1200.0, 800.0, 4) == 800.0 && BodyHeight(800.0, 0.0) == 744.0
    ensures FixedRowGridHeight(400.0, 800.0, 2) == 1600.0
  {
    FixedRowHeight(1200.0, 800.0, 4);
    FixedRowHeight(400.0, 800.0, 2);
    assert RowsFor(4) == 5;
    assert RowsFor(2) == 10;
  }

  // The paged layout's vertical budget.

  /** `paginationControlsHeight`: room for the page controls, only when there is more
      than one page. */
  function PaginationControlsHeight(totalPages: int): (h: real)
    ensures h >= 0.0
    ensures h > 0.0 <==> totalPages > 1
  {
    if totalPages > 1 then 48.0 else 0.0
  }

  /** `availableHeight`: the screen less the app bar, the bottom navigation, both
      safe-area insets and half a pixel against rounding gaps; no pagination term.
      Whatever the pagination height was, this is the earlier available height with
      that term given back and the half pixel taken. */
  function AvailableHeight(screenHeight: real, appBarHeight: real, bottomNavHeight: real,
                           safeTop: real, safeBottom: real): (available: real)
    ensures forall paginationHeight ::
      available == LegacyAvailableHeight(screenHeight, appBarHeight, paginationHeight,
                                         bottomNavHeight, safeTop, safeBottom) + paginationHeight - 0.5
  {
    screenHeight - appBarHeight - bottomNavHeight - safeTop - safeBottom - 0.5
  }

  /** `(_totalPages > 1 ? paginationControlsHeight : 0)`, the one pagination term. */
  function PaginationAllowance(totalPages: int): real
  {
    if totalPages > 1 then PaginationControlsHeight(totalPages) else 0.0
  }

  /** The grid container's height. */
  function GridContainerHeight(availableHeight: real, totalPages: int): (h: real)
    ensures h + PaginationControlsHeight(totalPages) == availableHeight
    ensures totalPages <= 1 ==> h == availableHeight
  {
    availableHeight - PaginationAllowance(totalPages)
  }

  /** `cellHeight`, dividing the same base among the active rows. */
  function CellHeight(availableHeight: real, totalPages: int, activeRowsNeeded: int): (h: real)
    requires activeRowsNeeded > 0
    ensures h * (activeRowsNeeded as real) == GridContainerHeight(availableHeight, totalPages)
  {
    var base := availableHeight - PaginationAllowance(totalPages);
    assert base / (activeRowsNeeded as real) * (activeRowsNeeded as real) == base;
    base / (activeRowsNeeded as real)
  }

  /** The pagination allowance is taken from the screen exactly once: the screen splits
      into chrome, page controls, the half-pixel margin and the grid container; the rows
      of cells fill that container exactly; and with one page the container is the whole
      available height. */
  lemma PaginationSubtractedOnce(screenHeight: real, appBarHeight: real, bottomNavHeight: real,
                                 safeTop: real, safeBottom: real, totalPages: int, rows: int)
    requires rows > 0
    ensures var available := AvailableHeight(screenHeight, appBarHeight, bottomNavHeight, safeTop, safeBottom);
      && GridContainerHeight(available, totalPages) + PaginationControlsHeight(totalPages)
           + appBarHeight + bottomNavHeight + safeTop + safeBottom + 0.5 == screenHeight
      && CellHeight(available, totalPages, rows) * (rows as real) == GridContainerHeight(available, totalPages)
      && (totalPages <= 1 ==> GridContainerHeight(available, totalPages) == available)
  {
    var available := AvailableHeight(screenHeight, appBarHeight, bottomNavHeight, safeTop, safeBottom);
    var base := available - PaginationAllowance(totalPages);
    assert base / (rows as real) * (rows as real) == base;
  }

  /** A concrete case: an 800-high screen under a 56 app bar, two pages, five rows. */
  lemma TwoPageExample()
    ensures AvailableHeight(800.0, 56.0, 0.0, 0.0, 0.0) == 743.5
    ensures GridContainerHeight(743.5, 2) == 695.5
    ensures CellHeight(743.5, 2, 5) == 139.1
  {
  }

  /** The earlier sizing, before the pagination term moved out of `availableHeight`:
      the term was part of the available height and was taken again for the adjusted
      height the cells divide. */
  function LegacyAvailableHeight(screenHeight: real, appBarHeight: real, paginationHeight: real,
                                 bottomNavHeight: real, safeTop: real, safeBottom: real): real
  {
    screenHeight - appBarHeight - paginationHeight - bottomNavHeight - safeTop - safeBottom
  }

  function LegacyCellHeight(legacyAvailable: real, totalPages: int, paginationHeight: real, rows: int): real
    requires rows > 0
  {
    (legacyAvailable - (if totalPages > 1 then paginationHeight else 0.0)) / (rows as real)
  }

  /** The double subtraction: with several pages the legacy rows end exactly one
      pagination height short of the space between chrome and page controls. */
  lemma LegacyDoubleSubtraction(screenHeight: real, appBarHeight: real, paginationHeight: real,
                                bottomNavHeight: real, safeTop: real, safeBottom: real,
                                totalPages: int, rows: int)
    requires rows > 0 && totalPages > 1 && paginationHeight > 0.0
    ensures var legacy := LegacyAvailableHeight(screenHeight, appBarHeight, paginationHeight,
                                                bottomNavHeight, safeTop, safeBottom);
      LegacyCellHeight(legacy, totalPages, paginationHeight, rows) * (rows as real)
        == legacy - paginationHeight
  {
    var legacy := LegacyAvailableHeight(screenHeight, appBarHeight, paginationHeight,
                                        bottomNavHeight, safeTop, safeBottom);
    var base := legacy - paginationHeight;
    assert base / (rows as real) * (rows as real) == base;
  }

  // Row-count policies for `activeRowsNeeded`.

  /** The final policy: always five rows, so the grid fills the screen whatever the
      number of cameras. */
  const ActiveRowsNeeded: nat := 5

  /** The policy before it: the layout's rows when positive, else five. Either way the
      cell height divides by a positive row count. */
  function LayoutActiveRows(layoutRows: int): (rows: int)
    ensures rows > 0
    ensures layoutRows > 0 ==> rows == layoutRows
    ensures layoutRows <= 0 ==> rows == ActiveRowsNeeded
  {
    if layoutRows > 0 then layoutRows else 5
  }

  /** The first policy: `(activeCameraCount / columns).ceil()`, just enough rows for the
      active cameras. A page without active cameras gets no rows at all, so the cell
      height would divide by zero. */
  function OccupancyRows(activeCameraCount: nat, columns: int): (rows: nat)
    requires columns > 0
    ensures rows * columns >= activeCameraCount
    ensures (rows - 1) * columns < activeCameraCount
    ensures rows == 0 <==> activeCameraCount == 0
  {
    var rows := (activeCameraCount + columns - 1) / columns;
    var rem := (activeCameraCount + columns - 1) % columns;
    assert rows * columns + rem == activeCameraCount + columns - 1;
    rows
  }

  /** The occupancy rows never exceed the rows of a full page, and a full page of active
      cameras needs exactly those rows. */
  lemma OccupancyWithinPage(activeCameraCount: nat, columns: int)
    requires columns > 0 && activeCameraCount <= SlotCount
    ensures OccupancyRows(activeCameraCount, columns) <= RowsFor(columns)
    ensures activeCameraCount == SlotCount ==> OccupancyRows(activeCameraCount, columns) == RowsFor(columns)
  {
    var o: int := OccupancyRows(activeCameraCount, columns);
    var r: int := RowsFor(columns);
    FactorLess(o - 1, r, columns);
    if activeCameraCount == SlotCount {
      FactorLess(r - 1, o, columns);
    }
  }

  /** A positive factor preserves strict order in reverse. */
  lemma FactorLess(a: int, b: int, c: int)
    requires c > 0 && a * c < b * c
    ensures a < b
  {
    assert (b - a) * c == b * c - a * c;
  }
}
