/**
 * `src/tui/compose.rs`: the composer's five text areas (To, Cc, Bcc,
 * Subject, body), the comma-separated address lists, and the partial message
 * handed to the SMTP worker.
 */
module Compose {
  import opened Wrappers
  import opened Text
  import opened Ui
  import opened Smtp

  /** The number of parts: To, Cc, Bcc, Subject and the body. */
  const Parts: nat := 5
  const ToPart: nat := 0
  const CcPart: nat := 1
  const BccPart: nat := 2
  const SubjectPart: nat := 3
  const BodyPart: nat := 4

  // ---------------------------------------------------------------------------
  // Address lists

  /** `.map(str::trim)`: every piece with its surrounding whitespace removed. */
  function TrimAll(pieces: seq<string>): (r: seq<string>)
    ensures |r| == |pieces|
    ensures forall i :: 0 <= i < |pieces| ==> r[i] == Trim(pieces[i])
  {
    seq(|pieces|, i requires 0 <= i < |pieces| => Trim(pieces[i]))
  }

  /** Every text is an address. */
  predicate AllAddresses(texts: seq<string>, parse: AddressParser)
  {
    forall i :: 0 <= i < |texts| ==> parse(texts[i]).Ok?
  }

  /** The addresses of the texts, in order. */
  function AddressesOf(texts: seq<string>, parse: AddressParser): seq<Address>
    requires AllAddresses(texts, parse)
  {
    seq(|texts|, i requires 0 <= i < |texts| => parse(texts[i]).value)
  }

  /** The first text that fails to parse fails with exactly this error; every text before it parses. */
  predicate FailsWith(texts: seq<string>, parse: AddressParser, e: AddressError)
  {
    exists i :: 0 <= i < |texts| && parse(texts[i]) == Err(e) && forall j :: 0 <= j < i ==> parse(texts[j]).Ok?
  }

  /** How the three address-list predicates split over the first text and the rest. */
  lemma AddressesCons(texts: seq<string>, parse: AddressParser)
    requires texts != []
    ensures AllAddresses(texts, parse) <==> parse(texts[0]).Ok? && AllAddresses(texts[1..], parse)
    ensures AllAddresses(texts, parse) ==>
      AddressesOf(texts, parse) == [parse(texts[0]).value] + AddressesOf(texts[1..], parse)
    ensures parse(texts[0]).Ok? ==> forall e :: FailsWith(texts[1..], parse, e) ==> FailsWith(texts, parse, e)
  {
    var tail := texts[1..];
    assert forall i :: 0 <= i < |tail| ==> tail[i] == texts[i + 1];
    if parse(texts[0]).Ok? {
      forall e | FailsWith(tail, parse, e)
        ensures FailsWith(texts, parse, e)
      {
        var i :| 0 <= i < |tail| && parse(tail[i]) == Err(e) && forall j :: 0 <= j < i ==> parse(tail[j]).Ok?;
        assert parse(texts[i + 1]) == Err(e);
        forall j | 0 <= j < i + 1 ensures parse(texts[j]).Ok? {
          if j > 0 { assert parse(tail[j - 1]).Ok?; }
        }
      }
    }
  }

  /**
   * `.map(Address::from_str).collect()`: every text parsed, in order; the
   * first text that does not parse decides the error.
   */
  function ParseAll(texts: seq<string>, parse: AddressParser): (r: Result<seq<Address>, AddressError>)
    ensures r.Ok? <==> AllAddresses(texts, parse)
    ensures r.Ok? ==> r.value == AddressesOf(texts, parse)
    ensures r.Err? ==> FailsWith(texts, parse, r.error)
    decreases |texts|
  {
    if texts == [] then Ok([])
    else
      AddressesCons(texts, parse);
      match parse(texts[0])
      case Err(e) => assert FailsWith(texts, parse, e) by { assert parse(texts[0]) == Err(e); } Err(e)
      case Ok(a) =>
        var rest := ParseAll(texts[1..], parse);
        if rest.Err? then Err(rest.error) else Ok([a] + rest.value)
  }

  /**
   * `parse_addresses`: the empty text is the empty list; otherwise every
   * comma-separated piece, trimmed, must be an address, the list holds them
   * in order, and a failure is the error of the first piece that fails.
   */
  function ParseAddresses(s: string, parse: AddressParser): (r: Result<seq<Address>, AddressError>)
    ensures s == [] ==> r == Ok([])
    ensures s != [] ==> (r.Ok? <==> AllAddresses(TrimAll(Split(s, ',')), parse))
    ensures s != [] && r.Ok? ==> r.value == AddressesOf(TrimAll(Split(s, ',')), parse)
    ensures s != [] && r.Err? ==> FailsWith(TrimAll(Split(s, ',')), parse, r.error)
  {
    if s == [] then Ok([]) else ParseAll(TrimAll(Split(s, ',')), parse)
  }

  /** A trailing comma leaves an empty last piece, which is not an address, so the whole list fails. */
  lemma TrailingCommaFails(s: string, parse: AddressParser)
    requires s != [] && s[|s| - 1] == ','
    requires parse("").Err?
    ensures ParseAddresses(s, parse).Err?
  {
    assert s == s[..|s| - 1] + [','];
    SplitSnocSeparator(s[..|s| - 1], ',');
    var pieces := Split(s, ',');
    assert pieces[|pieces| - 1] == [];
    assert TrimAll(pieces)[|pieces| - 1] == "";
  }

  /** Addresses written out with commas between them parse back to the same list. */
  lemma ParseJoined(texts: seq<string>, parse: AddressParser)
    requires texts != [] && Join(texts, ",") != []
    requires forall i :: 0 <= i < |texts| ==> ',' !in texts[i]
    requires forall i :: 0 <= i < |texts| ==> parse(Trim(texts[i])).Ok?
    ensures ParseAddresses(Join(texts, ","), parse).Ok?
    ensures ParseAddresses(Join(texts, ","), parse).value
      == seq(|texts|, i requires 0 <= i < |texts| => parse(Trim(texts[i])).value)
  {
    SplitJoin(texts, ',');
    var trimmed := TrimAll(texts);
    assert TrimAll(Split(Join(texts, ","), ',')) == trimmed;
    assert AllAddresses(trimmed, parse) by {
      forall i | 0 <= i < |trimmed| ensures parse(trimmed[i]).Ok? {
        assert trimmed[i] == Trim(texts[i]);
      }
    }
    var want := seq(|texts|, i requires 0 <= i < |texts| => parse(Trim(texts[i])).value);
    var got := AddressesOf(trimmed, parse);
    assert |got| == |want|;
    forall i | 0 <= i < |got|
      ensures got[i] == want[i]
    {
      assert trimmed[i] == Trim(texts[i]);
    }
    assert got == want;
  }

  // ---------------------------------------------------------------------------
  // The partial message

  /** `lines().get(0)`: a text area's first line, if it has one. */
  function FirstLine(lines: seq<string>): Option<string>
  {
    if lines == [] then None else Some(lines[0])
  }

  /** An optional address list: absent is empty, present must parse. */
  function ParseOptionalList(line: Option<string>, parse: AddressParser): (r: Result<seq<Address>, AddressError>)
    ensures line.None? ==> r == Ok([])
    ensures line.Some? ==> r == ParseAddresses(line.value, parse)
  {
    match line
    case None => Ok([])
    case Some(l) => ParseAddresses(l, parse)
  }

  /**
   * `get_partial_message`: To is the first line of its area parsed as one
   * address (an empty line is not special-cased, so it must parse too); Cc
   * and Bcc are address lists from their first lines; Subject and body are
   * only the first line of their areas. The first field that fails, in the
   * order To, Cc, Bcc, gives the error.
   */
  function PartialMessageOf(parts: seq<seq<string>>, parse: AddressParser): (r: Result<PartialMessage, AddressError>)
    requires |parts| == Parts
    ensures FirstLine(parts[ToPart]).Some? && parse(parts[ToPart][0]).Err? ==> r == Err(parse(parts[ToPart][0]).error)
    ensures (FirstLine(parts[ToPart]).Some? ==> parse(parts[ToPart][0]).Ok?)
      && ParseOptionalList(FirstLine(parts[CcPart]), parse).Err?
      ==> r == Err(ParseOptionalList(FirstLine(parts[CcPart]), parse).error)
    ensures (FirstLine(parts[ToPart]).Some? ==> parse(parts[ToPart][0]).Ok?)
      && ParseOptionalList(FirstLine(parts[CcPart]), parse).Ok?
      && ParseOptionalList(FirstLine(parts[BccPart]), parse).Err?
      ==> r == Err(ParseOptionalList(FirstLine(parts[BccPart]), parse).error)
    ensures r.Ok? <==>
      && (FirstLine(parts[ToPart]).Some? ==> parse(parts[ToPart][0]).Ok?)
      && ParseOptionalList(FirstLine(parts[CcPart]), parse).Ok?
      && ParseOptionalList(FirstLine(parts[BccPart]), parse).Ok?
    ensures r.Ok? ==>
      && (r.value.to.Some? <==> parts[ToPart] != [])
      && (r.value.to.Some? ==> r.value.to.value == parse(parts[ToPart][0]).value)
      && r.value.cc == ParseOptionalList(FirstLine(parts[CcPart]), parse).value
      && r.value.bcc == ParseOptionalList(FirstLine(parts[BccPart]), parse).value
      && r.value.subject == FirstLine(parts[SubjectPart])
      && r.value.body == FirstLine(parts[BodyPart])
  {
    var to: Result<Option<Address>, AddressError> :=
      match FirstLine(parts[ToPart])
      case None => Ok(None)
      case Some(l) => (match parse(l) case Ok(a) => Ok(Some(a)) case Err(e) => Err(e));
    if to.Err? then Err(to.error)
    else
      var cc := ParseOptionalList(FirstLine(parts[CcPart]), parse);
      if cc.Err? then Err(cc.error)
      else
        var bcc := ParseOptionalList(FirstLine(parts[BccPart]), parse);
        if bcc.Err? then Err(bcc.error)
        else Ok(PartialMessage(to.value, cc.value, bcc.value, FirstLine(parts[SubjectPart]), FirstLine(parts[BodyPart])))
  }

  // ---------------------------------------------------------------------------
  // The widget

  class ComposeWidget {
    /** 0: To, 1: Cc, 2: Bcc, 3: Subject, 4: body. */
    var focused: nat
    /** The lines of each part's text area, in focus order. */
    var parts: seq<seq<string>>
    /** Whether each part is drawn in the focused style. */
    const highlighted: array<bool>

    predicate Valid()
      reads this, highlighted
    {
      highlighted.Length == Parts && |parts| == Parts && focused < Parts
    }

    /** `ComposeWidget::default`: five empty one-line areas, focus on To, no part styled as focused yet. */
    constructor ()
      ensures Valid() && fresh(highlighted)
      ensures focused == ToPart
      ensures parts == seq(Parts, _ => [""])
      ensures forall i :: 0 <= i < Parts ==> !highlighted[i]
    {
      focused := ToPart;
      parts := seq(Parts, _ => [""]);
      highlighted := new bool[Parts](_ => false);
    }

    /** `get_partial_message` on the widget's current text. */
    function GetPartialMessage(parse: AddressParser): (r: Result<PartialMessage, AddressError>)
      requires |parts| == Parts
      reads this
      ensures r == PartialMessageOf(parts, parse)
      ensures r.Ok? ==> r.value.subject == FirstLine(parts[SubjectPart]) && r.value.body == FirstLine(parts[BodyPart])
    {
      PartialMessageOf(parts, parse)
    }

    /** `update_focused`: exactly the part at `focused` is in the focused style. */
    method UpdateFocused()
      requires Valid()
      modifies highlighted
      ensures forall i :: 0 <= i < Parts ==> highlighted[i] == (i == focused)
    {
      for idx := 0 to Parts
        invariant forall i :: 0 <= i < idx ==> highlighted[i] == (i == focused)
      {
        highlighted[idx] := idx == focused;
      }
    }

    /**
     * `handle_event`: Esc goes back to the inbox; Tab and BackTab move the
     * focus round the five parts; any other key goes to the focused part
     * and changes only that part. Every event but Esc gives `Tick`.
     */
    method HandleEvent(event: Event, input: TextInput) returns (action: Action)
      requires Valid()
      modifies this, highlighted
      ensures Valid()
      ensures action == (if event.Key? && event.key.code.Esc? then GoTo(InboxPage) else Tick)
      ensures event.Key? && event.key.code.Tab? ==> focused == NextFocus(old(focused), Parts)
      ensures event.Key? && event.key.code.BackTab? ==> focused == PrevFocus(old(focused), Parts)
      ensures event.Key? && (event.key.code.Tab? || event.key.code.BackTab?) ==>
        parts == old(parts) && forall i :: 0 <= i < Parts ==> highlighted[i] == (i == focused)
      ensures !event.Key? || event.key.code.Esc? ==>
        focused == old(focused) && parts == old(parts) && highlighted[..] == old(highlighted[..])
      ensures event.Key? && !(event.key.code.Esc? || event.key.code.Tab? || event.key.code.BackTab?) ==>
        && focused == old(focused)
        && parts == old(parts)[focused := PartInput(focused, BodyPart, old(parts)[focused], event.key, input)]
        && highlighted[..] == old(highlighted[..])
    {
      if event.NonKey? {
        return Tick;
      }
      var key := event.key;
      match key.code
      case Esc =>
        action := GoTo(InboxPage);
      case Tab =>
        focused := NextFocus(focused, Parts);
        UpdateFocused();
        action := Tick;
      case BackTab =>
        focused := PrevFocus(focused, Parts);
        UpdateFocused();
        action := Tick;
      case _ =>
        parts := parts[focused := PartInput(focused, BodyPart, parts[focused], key, input)];
        action := Tick;
    }
  }
}
