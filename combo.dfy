/**
 * `ectt-oauth/src/tui/combo.rs`: a key combination shown in help lines, built
 * up by value (`new`, then `with_code` and `with_modifier`) and displayed as
 * `[` modifiers codes-joined-by-`+` `]`. The text crossterm gives a key code
 * and a modifier set is a parameter.
 */
module Combo {
  import opened Ui
  import opened Text

  datatype KeyCombo = KeyCombo(codes: seq<KeyCode>, modifiers: set<Modifier>)

  /** `KeyCombo::new`: no codes and no modifiers. */
  function New(): (r: KeyCombo)
    ensures |r.codes| == 0 && r.modifiers == {}
  {
    KeyCombo([], {})
  }

  /** `with_code`: the code goes at the end, after every earlier one. */
  function WithCode(combo: KeyCombo, code: KeyCode): (r: KeyCombo)
    ensures |r.codes| == |combo.codes| + 1 && r.codes[|combo.codes|] == code
    ensures r.codes[..|combo.codes|] == combo.codes
    ensures r.modifiers == combo.modifiers
  {
    combo.(codes := combo.codes + [code])
  }

  /** `with_modifier`: the set union of the modifiers held and the ones given. */
  function WithModifier(combo: KeyCombo, modifiers: set<Modifier>): (r: KeyCombo)
    ensures forall m :: m in r.modifiers <==> m in combo.modifiers || m in modifiers
    ensures r.codes == combo.codes
  {
    combo.(modifiers := combo.modifiers + modifiers)
  }

  /** Adding the same modifiers twice is adding them once. */
  lemma WithModifierIdempotent(combo: KeyCombo, modifiers: set<Modifier>)
    ensures WithModifier(WithModifier(combo, modifiers), modifiers) == WithModifier(combo, modifiers)
  {
    var once := WithModifier(combo, modifiers);
    var twice := WithModifier(once, modifiers);
    assert twice.modifiers == once.modifiers;
  }

  /** The order modifiers are added in does not matter. */
  lemma WithModifierCommutes(combo: KeyCombo, a: set<Modifier>, b: set<Modifier>)
    ensures WithModifier(WithModifier(combo, a), b) == WithModifier(WithModifier(combo, b), a)
  {
    var ab := WithModifier(WithModifier(combo, a), b);
    var ba := WithModifier(WithModifier(combo, b), a);
    assert ab.modifiers == ba.modifiers;
  }

  /** The text of each code, in order. */
  function CodeTexts(codes: seq<KeyCode>, codeText: KeyCode -> string): (r: seq<string>)
    ensures |r| == |codes|
    ensures forall i :: 0 <= i < |codes| ==> r[i] == codeText(codes[i])
  {
    seq(|codes|, i requires 0 <= i < |codes| => codeText(codes[i]))
  }

  /** What `Display::fmt` writes: without codes, just the modifiers between brackets. */
  function Displayed(combo: KeyCombo, codeText: KeyCode -> string, modifiersText: set<Modifier> -> string): (r: string)
    ensures |r| >= 2 && r[0] == '[' && r[|r| - 1] == ']'
    ensures combo.codes == [] ==> r == "[" + modifiersText(combo.modifiers) + "]"
  {
    "[" + modifiersText(combo.modifiers) + Join(CodeTexts(combo.codes, codeText), "+") + "]"
  }

  /** With n codes the text holds the brackets, the modifiers, the codes and n - 1 '+' separators. */
  lemma DisplayedLength(combo: KeyCombo, codeText: KeyCode -> string, modifiersText: set<Modifier> -> string)
    requires combo.codes != []
    ensures |Displayed(combo, codeText, modifiersText)|
      == 2 + |modifiersText(combo.modifiers)| + TotalLength(CodeTexts(combo.codes, codeText)) + (|combo.codes| - 1)
  {
    JoinLength(CodeTexts(combo.codes, codeText), "+");
  }

  /** Adding a code to a combo with codes appends '+' and its text before the ']'. */
  lemma DisplayedWithCode(combo: KeyCombo, code: KeyCode, codeText: KeyCode -> string, modifiersText: set<Modifier> -> string)
    requires combo.codes != []
    ensures var d := Displayed(combo, codeText, modifiersText);
      Displayed(WithCode(combo, code), codeText, modifiersText) == d[..|d| - 1] + "+" + codeText(code) + "]"
  {
    var texts := CodeTexts(combo.codes, codeText);
    assert CodeTexts(combo.codes + [code], codeText) == texts + [codeText(code)];
    JoinAppend(texts, [codeText(code)], "+");
  }

  /**
   * `Display::fmt`: writes '[', the modifiers, each code with a '+' before
   * every one but the first, and ']'.
   */
  method Fmt(combo: KeyCombo, codeText: KeyCode -> string, modifiersText: set<Modifier> -> string) returns (out: string)
    ensures out == Displayed(combo, codeText, modifiersText)
  {
    var prefix := "[" + modifiersText(combo.modifiers);
    out := prefix;
    var first := true;
    ghost var texts := CodeTexts(combo.codes, codeText);
    for i := 0 to |combo.codes|
      invariant first <==> i == 0
      invariant out == prefix + Join(texts[..i], "+")
    {
      assert texts[..i + 1] == texts[..i] + [texts[i]];
      if first {
        first := false;
        out := out + codeText(combo.codes[i]);
        continue;
      }
      JoinAppend(texts[..i], [texts[i]], "+");
      out := out + "+";
      out := out + codeText(combo.codes[i]);
    }
    assert texts[..|combo.codes|] == texts;
    out := out + "]";
  }
}
