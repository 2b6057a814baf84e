/**
 * `src/tui/popup.rs`: the message box drawn over the inbox. Its geometry is
 * `u16` arithmetic on the terminal area: the width is the message plus its
 * two border cells (at least wide enough for the dismiss hint), cut to
 * `u16`; the box sits a third of the way down and is centred by
 * `area.width / 2 - width / 2`, which underflows on a terminal narrower than
 * the box.
 */
module Popup {
  import opened Wrappers

  const U16Limit: nat := 0x1_0000
  type U16 = n: nat | n < U16Limit

  const DismissMessage: string := "Press Enter to dismiss"

  /** A ratatui `Rect`. */
  datatype Rect = Rect(x: U16, y: U16, width: U16, height: U16)

  datatype Popup = Popup(message: string, dismissable: bool)

  /** `Popup::new`. */
  function New(message: string, dismissable: bool): (r: Popup)
    ensures r.message == message && r.dismissable == dismissable
  {
    Popup(message, dismissable)
  }

  /** `as u16`: keeps the low 16 bits. */
  function AsU16(n: nat): (r: U16)
    ensures n < U16Limit ==> r == n
    ensures (n - r) % U16Limit == 0
  {
    n % U16Limit
  }

  function Max(a: nat, b: nat): nat
  {
    if a >= b then a else b
  }

  /**
   * `message_with_padding`: the message and its two border cells, widened to
   * fit the dismiss hint when the popup is dismissable, then cut to `u16`.
   */
  function Width(p: Popup): (r: U16)
    ensures |p.message| + 2 < U16Limit && !p.dismissable ==> r == |p.message| + 2
    ensures |p.message| + 2 < U16Limit && p.dismissable ==>
      r == Max(|p.message| + 2, |DismissMessage| + 2) && r >= 24
  {
    if p.dismissable then AsU16(Max(|p.message| + 2, |DismissMessage| + 2)) else AsU16(|p.message| + 2)
  }

  /** A message too long for `u16` wraps the width round: 65534 characters give a width of 0. */
  lemma LongMessageWraps(p: Popup)
    requires |p.message| == U16Limit - 2
    ensures Width(p) == 0
  {
  }

  /** Message and hint take two rows inside the border, the message alone one. */
  function Height(p: Popup): (r: U16)
    ensures r == |Lines(p)| + 2
  {
    if p.dismissable then 4 else 3
  }

  /** The lines of the paragraph: the message, then the hint when dismissable. */
  function Lines(p: Popup): (r: seq<string>)
    ensures |r| == 1 || |r| == 2
    ensures |r| == 2 <==> p.dismissable
    ensures r[0] == p.message
    ensures p.dismissable ==> r[1] == DismissMessage
  {
    if p.dismissable then [p.message, DismissMessage] else [p.message]
  }

  /** `area.width / 2 - width / 2` as written: `None` where the `u16` subtraction underflows. */
  function CenteredXAsWritten(areaWidth: U16, width: U16): (r: Option<U16>)
    ensures r.None? <==> areaWidth / 2 < width / 2
    ensures r.Some? ==> r.value + width / 2 == areaWidth / 2
  {
    if areaWidth / 2 >= width / 2 then Some(areaWidth / 2 - width / 2) else None
  }

  /**
   * The centring the code means: the same offset where it does not
   * underflow, and the left edge where the box is wider than the area. A box
   * no wider than the area fits inside it, with left and right margins that
   * differ by at most one cell.
   */
  function CenteredX(areaWidth: U16, width: U16): (r: U16)
    ensures width / 2 <= areaWidth / 2 ==> r + width / 2 == areaWidth / 2
    ensures width / 2 > areaWidth / 2 ==> r == 0
    ensures width <= areaWidth ==> r + width <= areaWidth
    ensures width <= areaWidth ==> -1 <= (areaWidth - r - width) - r <= 1
  {
    if areaWidth / 2 >= width / 2 then areaWidth / 2 - width / 2 else 0
  }

  /** The rectangle `render` clears and draws in, as written. */
  function AreaAsWritten(p: Popup, area: Rect): (r: Option<Rect>)
    ensures r.None? <==> area.width / 2 < Width(p) / 2
  {
    match CenteredXAsWritten(area.width, Width(p))
    case None => None
    case Some(x) => Some(Rect(x, area.height / 3, Width(p), Height(p)))
  }

  /** The rectangle with the centring corrected. */
  function Area(p: Popup, area: Rect): (r: Rect)
    ensures r.width == Width(p) && r.height == Height(p) && r.y == area.height / 3
    ensures r.x == CenteredX(area.width, Width(p))
  {
    Rect(CenteredX(area.width, Width(p)), area.height / 3, Width(p), Height(p))
  }

  /** Where the code does not underflow it draws exactly the corrected rectangle. */
  lemma AreaAgrees(p: Popup, area: Rect)
    requires Width(p) / 2 <= area.width / 2
    ensures AreaAsWritten(p, area) == Some(Area(p, area))
  {
  }

  /**
   * On an area at least as wide as the box and one row taller than it, the
   * box lies inside the area.
   */
  lemma AreaInside(p: Popup, area: Rect)
    requires Width(p) <= area.width && Height(p) + 1 <= area.height
    ensures var r := Area(p, area);
      r.x + r.width <= area.width && r.y + r.height <= area.height
  {
  }

  /** A dismissable popup on a 20-column terminal: 20 / 2 - 24 / 2 underflows. */
  lemma NarrowTerminalUnderflows(p: Popup, area: Rect)
    requires p.dismissable && |p.message| <= 22 && area.width == 20
    ensures AreaAsWritten(p, area).None?
  {
  }
}
