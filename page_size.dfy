/**
 * Page sizing (`calculate_movies_needed`): how many poster cards fill the
 * viewport plus one extra row, rounded up to a multiple of five. The viewport
 * headers are given already parsed; `None` stands for a missing header.
 */
module PageSize {
  import opened Wrappers

  const DefaultViewportHeight := 800
  const DefaultViewportWidth := 1200
  /** Bootstrap's md breakpoint, in pixels. */
  const MdBreakpoint := 768
  /** Approximate height of one card, in pixels. */
  const CardHeight := 400

  /** Two cards per row below the md breakpoint, four from it on. */
  function CardsPerRow(width: int): (cards: int)
    ensures cards == 2 || cards == 4
    ensures cards == 2 <==> width < MdBreakpoint
  {
    if width < MdBreakpoint then 2 else 4
  }

  /** `math.ceil(height / 400)`: the fewest rows of cards whose total height reaches `height`. */
  function RowsNeeded(height: int): (rows: int)
    ensures (rows - 1) * CardHeight < height <= rows * CardHeight
  {
    -((-height) / CardHeight)
  }

  /** `math.ceil(total / 5) * 5`: the nearest multiple of five at or above `total`. */
  function RoundUpToFive(total: int): (r: int)
    ensures r % 5 == 0 && total <= r < total + 5
  {
    -((-total) / 5) * 5
  }

  /** The number of cards asked for, with the defaults 800 by 1200 for missing headers. */
  function MoviesNeeded(heightHeader: Option<int>, widthHeader: Option<int>): (n: int)
    ensures var total := (RowsNeeded(heightHeader.GetOr(DefaultViewportHeight)) + 1)
                         * CardsPerRow(widthHeader.GetOr(DefaultViewportWidth));
      n % 5 == 0 && total <= n < total + 5
  {
    var height := heightHeader.GetOr(DefaultViewportHeight);
    var width := widthHeader.GetOr(DefaultViewportWidth);
    var totalCards := (RowsNeeded(height) + 1) * CardsPerRow(width);
    RoundUpToFive(totalCards)
  }

  /** A viewport of non-negative height always asks for at least five cards. */
  lemma AtLeastFive(heightHeader: Option<int>, widthHeader: Option<int>)
    requires heightHeader.GetOr(DefaultViewportHeight) >= 0
    ensures MoviesNeeded(heightHeader, widthHeader) >= 5
  {
  }

  /** Without headers: two rows of four plus one extra row, twelve cards, rounded to fifteen. */
  lemma DefaultPageSize()
    ensures MoviesNeeded(None, None) == 15
  {
  }
}
