/**
 * What every screen of both front ends shares: terminal key events as
 * `crossterm` delivers them, the round-robin focus of the form widgets, and
 * the `Page`/`Action` a widget hands back to the main loop
 * (`src/tui/mod.rs`).
 */
module Ui {

  /** The key codes the modelled handlers tell apart; every other key is `OtherKey`. */
  datatype KeyCode =
    | Char(c: char)
    | Enter
    | Backspace
    | Delete
    | Tab
    | BackTab
    | Esc
    | Left
    | Right
    | Up
    | Down
    | OtherKey(id: nat)

  datatype Modifier = Shift | Control | Alt | Super | Hyper | Meta

  datatype KeyEvent = KeyEvent(code: KeyCode, modifiers: set<Modifier>)

  /** A terminal event: a key press, or anything else (mouse, resize, focus, paste). */
  datatype Event = Key(key: KeyEvent) | NonKey

  /**
   * What a `tui_textarea` text area does with a key it is handed: its lines
   * before and after. The editing rules are the library's, not modelled here.
   */
  type TextInput = (seq<string>, KeyEvent) -> seq<string>

  /** The screens `src/tui/mod.rs` can go to. */
  datatype Page = InboxPage | ComposePage | ReadingPage

  /** What a widget asks the main loop to do after an event. */
  datatype Action = Quit | Tick | GoTo(page: Page)

  // ---------------------------------------------------------------------------
  // Focus cycling

  /** Tab: `(focused + 1) % n`. */
  function NextFocus(focused: nat, n: nat): (r: nat)
    requires n > 0
    ensures r < n
    ensures focused < n ==> r == if focused == n - 1 then 0 else focused + 1
  {
    (focused + 1) % n
  }

  /** BackTab: `(focused + n - 1) % n`, which the widgets write with the constant `n - 1`. */
  function PrevFocus(focused: nat, n: nat): (r: nat)
    requires n > 0
    ensures r < n
    ensures focused < n ==> r == if focused == 0 then n - 1 else focused - 1
  {
    (focused + n - 1) % n
  }

  /** Tab and BackTab undo each other on every focus inside the cycle. */
  lemma FocusInverse(focused: nat, n: nat)
    requires 0 <= focused < n
    ensures PrevFocus(NextFocus(focused, n), n) == focused
    ensures NextFocus(PrevFocus(focused, n), n) == focused
  {
  }

  // ---------------------------------------------------------------------------
  // Form parts

  /**
   * What the form part at `index` does with a key it is handed, the body being
   * part `bodyPart`: every other part is a one-line widget whose `input` drops
   * Enter, since it holds a single line; the body takes every key, and the
   * one-line widgets every key but Enter, through the text area.
   */
  function PartInput(index: nat, bodyPart: nat, lines: seq<string>, key: KeyEvent, input: TextInput): (r: seq<string>)
    ensures index != bodyPart && key.code.Enter? ==> r == lines
    ensures index == bodyPart || !key.code.Enter? ==> r == input(lines, key)
  {
    if index != bodyPart && key.code.Enter? then lines else input(lines, key)
  }
}
