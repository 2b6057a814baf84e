/**
 * `ectt-oauth/src/tui/help.rs`: the help line under each OAuth client
 * screen. Each action is listed as its keys' text joined by '/', a space and
 * the action's name; the actions are joined by " | ". The text crossterm
 * gives a key code is a parameter.
 */
module Help {
  import opened Ui
  import opened Text
  import Combo

  /** One help entry: the keys that trigger an action and its name. */
  datatype Action = Action(codes: seq<KeyCode>, name: string)

  /** `HelpWidget` holds the actions it lists. */
  datatype HelpWidget = HelpWidget(actions: seq<Action>)

  /** `HelpWidget::new`: the actions, in the order given. */
  function New(actions: seq<Action>): (r: HelpWidget)
    ensures r.actions == actions
  {
    HelpWidget(actions)
  }

  /** One entry's text: it ends with a space and the action's name. */
  function Entry(action: Action, codeText: KeyCode -> string): (r: string)
    ensures |r| >= |action.name| + 1
    ensures r[|r| - |action.name| - 1..] == " " + action.name
    ensures r[..|r| - |action.name| - 1] == Join(Combo.CodeTexts(action.codes, codeText), "/")
  {
    Join(Combo.CodeTexts(action.codes, codeText), "/") + " " + action.name
  }

  /** The entries in action order. */
  function Entries(actions: seq<Action>, codeText: KeyCode -> string): (r: seq<string>)
    ensures |r| == |actions|
    ensures forall i :: 0 <= i < |actions| ==> r[i] == Entry(actions[i], codeText)
  {
    seq(|actions|, i requires 0 <= i < |actions| => Entry(actions[i], codeText))
  }

  /** The text `render` puts in the paragraph; no actions give no text. */
  function HelpText(widget: HelpWidget, codeText: KeyCode -> string): (r: string)
    ensures widget.actions == [] ==> r == ""
    ensures |widget.actions| == 1 ==> r == Entry(widget.actions[0], codeText)
  {
    Join(Entries(widget.actions, codeText), " | ")
  }

  /** A further action adds " | " and its entry after the text of the earlier ones. */
  lemma HelpTextAppend(actions: seq<Action>, action: Action, codeText: KeyCode -> string)
    requires actions != []
    ensures HelpText(New(actions + [action]), codeText)
      == HelpText(New(actions), codeText) + " | " + Entry(action, codeText)
  {
    assert Entries(actions + [action], codeText) == Entries(actions, codeText) + [Entry(action, codeText)];
    JoinAppend(Entries(actions, codeText), [Entry(action, codeText)], " | ");
  }

  /** The text is the entries, in order, and three characters for each " | " between them. */
  lemma HelpTextLength(actions: seq<Action>, codeText: KeyCode -> string)
    requires actions != []
    ensures |HelpText(New(actions), codeText)| == TotalLength(Entries(actions, codeText)) + 3 * (|actions| - 1)
  {
    JoinLength(Entries(actions, codeText), " | ");
  }

  /** The text starts with the first action's entry. */
  lemma HelpTextStartsWithFirst(actions: seq<Action>, codeText: KeyCode -> string)
    requires actions != []
    ensures var t := HelpText(New(actions), codeText);
      var e := Entry(actions[0], codeText);
      |e| <= |t| && t[..|e|] == e
  {
    var es := Entries(actions, codeText);
    if |actions| > 1 {
      assert es == [es[0]] + es[1..];
      JoinAppend([es[0]], es[1..], " | ");
    }
  }
}
