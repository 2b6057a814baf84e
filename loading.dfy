/**
 * `src/tui/loading.rs`: the fixed "Loading more emails!" box shown while a
 * page of the inbox is on its way. Its rectangle is constant but for its
 * position, which is centred with the same `u16` subtraction as the popup's
 * and so underflows on a terminal under 22 columns.
 */
module Loading {
  import opened Wrappers
  import opened Popup

  const Message: string := "Loading more emails!"

  /** The message and its two border cells. */
  const BoxWidth: U16 := |Message| + 2

  /** The rectangle `render` clears and draws in, as written. */
  function LoadingAreaAsWritten(area: Rect): (r: Option<Rect>)
    ensures r.None? <==> area.width < BoxWidth
    ensures r.Some? ==> r.value.width == 22 && r.value.height == 3 && r.value.y == area.height / 3
    ensures r.Some? ==> r.value.x + 11 == area.width / 2
  {
    match CenteredXAsWritten(area.width, BoxWidth)
    case None => None
    case Some(x) => Some(Rect(x, area.height / 3, BoxWidth, 3))
  }

  /** The rectangle with the centring corrected: it lies inside any area of at least 22 by 4 cells. */
  function LoadingArea(area: Rect): (r: Rect)
    ensures r.width == 22 && r.height == 3 && r.y == area.height / 3
    ensures area.width < 22 ==> r.x == 0
    ensures 22 <= area.width ==> r.x + r.width <= area.width
    ensures 4 <= area.height ==> r.y + r.height <= area.height
  {
    Rect(CenteredX(area.width, BoxWidth), area.height / 3, BoxWidth, 3)
  }

  /** Where the code does not underflow it draws exactly the corrected rectangle. */
  lemma LoadingAreaAgrees(area: Rect)
    requires 22 <= area.width
    ensures LoadingAreaAsWritten(area) == Some(LoadingArea(area))
  {
  }

  /** A 21-column terminal: 21 / 2 - 11 underflows. */
  lemma LoadingUnderflows(area: Rect)
    requires area.width == 21
    ensures LoadingAreaAsWritten(area).None?
  {
  }
}
