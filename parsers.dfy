/**
 * The field classifier: the metadata common to every question item, the six
 * kind-specific item parsers and the fallback, each a `test`/`parse` pair,
 * and their fixed order of precedence.
 */
module Parsers {
  import opened Wrappers
  import opened Strings
  import opened Dom
  import opened DataParams

  /**
   * What the model takes from outside: `JSON.parse`, the `outerHTML`
   * serialisation of an element, and the resolved `action` URL of a form.
   */
  datatype Host = Host(
    jsonParse: string -> Option<Json>,
    outerHtml: Node -> string,
    formAction: Node -> string)

  // The fixed selectors.
  const HeadingSel := AttrIs("role", "heading")
  const DataParamsSel := HasAttr("data-params")
  const YearTextInputSel := Both(Tag("input"), Both(AttrIs("type", "text"), AttrIs("aria-label", "Year")))
  const MonthInputSel := Both(Tag("input"), AttrIs("aria-label", "Month"))
  const DayInputSel := Both(Tag("input"), AttrIs("aria-label", "Day of the month"))
  const YearInputSel := Both(Tag("input"), AttrIs("aria-label", "Year"))
  const HourInputSel := Both(Tag("input"), AttrIs("aria-label", "Hour"))
  const ListboxSel := AttrIs("role", "listbox")
  const EntryHiddenInputSel := Both(Tag("input"), Both(AttrIs("type", "hidden"), AttrContains("name", "entry")))
  const OptionSel := AttrIs("role", "option")
  const TextInputSel := Both(Tag("input"), AttrIs("type", "text"))
  const TextareaSel := Tag("textarea")
  const RadiogroupSel := AttrIs("role", "radiogroup")
  const RadioSel := AttrIs("role", "radio")
  const OtherInputSel := Both(Tag("input"), Both(AttrIs("type", "text"), AttrIs("aria-label", "Other response")))

  /** The fields every descriptor carries. */
  datatype Metadata = Metadata(question: string, rawDataParams: Option<string>, parsedDataParams: Json)

  /** A `{min, max}` pair; `min` is `null` when the input carries no `min` attribute. */
  datatype Range = Range(min: Option<string>, max: string)

  datatype DropdownOption = DropdownOption(caption: string, value: Option<string>)

  /**
   * One radio choice; `otherInput` is `Some(inputFieldId)` exactly on the
   * synthetic "Other" choice, which also carries `inputType: "text"`.
   */
  datatype RadioOption = RadioOption(caption: Option<string>, value: Option<string>, selected: bool, otherInput: Option<Option<string>>)

  /** The kind-specific part of a field descriptor. */
  datatype Payload =
    | DatePayload(month: Range, day: Range, year: Range)
    | TimePayload(hour: Range, minute: Range, period: seq<string>)
    | RadioPayload(fieldId: Option<string>, radioOptions: seq<RadioOption>, hasOtherOption: bool)
    | DropdownPayload(fieldId: Option<string>, options: seq<DropdownOption>)
    | TextPayload(fieldId: Option<string>)
    | TextareaPayload(fieldId: Option<string>)
    | UnknownPayload(rawHtml: string)
  {
    /** The parser that builds descriptors of this shape. */
    function ParserKind(): Kind {
      match this
      case DatePayload(_, _, _) => DateKind
      case TimePayload(_, _, _) => TimeKind
      case RadioPayload(_, _, _) => RadioKind
      case DropdownPayload(_, _) => DropdownKind
      case TextPayload(_) => TextKind
      case TextareaPayload(_) => TextareaKind
      case UnknownPayload(_) => FallbackKind
    }

    /** The descriptor's `type` tag. */
    function Type(): string {
      TypeOf(ParserKind())
    }

    /** The descriptor's `inputType` tag; the unknown descriptor has none. */
    function InputType(): Option<string> {
      match this
      case DatePayload(_, _, _) => Some("date")
      case TimePayload(_, _, _) => Some("time")
      case RadioPayload(_, _, _) => Some("radio")
      case DropdownPayload(_, _) => Some("select")
      case TextPayload(_) => Some("text")
      case TextareaPayload(_) => Some("textarea")
      case UnknownPayload(_) => None
    }
  }

  /** A field descriptor: the common metadata spread into the kind-specific object. */
  datatype Field = Field(meta: Metadata, payload: Payload)

  // ---------------------------------------------------------------------------
  // Common metadata

  /**
   * `parseMetadata`: the trimmed text of the first heading (or "Unnamed"),
   * the `data-params` text of the first descendant that has one, and its
   * normalised parse when that text is present and non-empty (else `null`).
   */
  function ParseMetadata(host: Host, el: Node): (m: Metadata)
    ensures QuerySelector(el, HeadingSel).None? ==> m.question == "Unnamed"
    ensures QuerySelector(el, HeadingSel).Some? ==>
      m.question == Trim(TextContent(QuerySelector(el, HeadingSel).value))
    ensures m.rawDataParams.Some? <==> QuerySelector(el, DataParamsSel).Some?
    ensures m.rawDataParams.Some? ==>
      m.rawDataParams == GetAttribute(QuerySelector(el, DataParamsSel).value, "data-params")
    ensures m.rawDataParams.None? || m.rawDataParams == Some("") ==> m.parsedDataParams == JNull
    ensures m.rawDataParams.Some? && m.rawDataParams.value != "" ==>
      m.parsedDataParams == ParseDataParams(host.jsonParse, m.rawDataParams.value)
  {
    var heading := QuerySelector(el, HeadingSel);
    var question := if heading.Some? then Trim(TextContent(heading.value)) else "Unnamed";
    var holder := QuerySelector(el, DataParamsSel);
    var raw := if holder.Some? then GetAttribute(holder.value, "data-params") else None;
    assert holder.Some? ==> Matches(holder.value, DataParamsSel) by {
      if holder.Some? { QuerySelectorFinds(el, DataParamsSel); }
    }
    var parsed := if raw.Some? && raw.value != "" then ParseDataParams(host.jsonParse, raw.value) else JNull;
    Metadata(question, raw, parsed)
  }

  /** The question label neither starts nor ends with whitespace. */
  lemma QuestionIsTrimmed(host: Host, el: Node)
    ensures var q := ParseMetadata(host, el).question;
      q == [] || (!IsWhitespace(q[0]) && !IsWhitespace(q[|q| - 1]))
  {
    assert !IsWhitespace('U') && !IsWhitespace('d');
  }

  /** `rawDataParams` is present exactly when some proper descendant carries `data-params`. */
  lemma RawDataParamsPresence(host: Host, el: Node)
    ensures ParseMetadata(host, el).rawDataParams.Some? <==>
      exists d :: d in Descendants(el) && Matches(d, DataParamsSel)
  {
    QuerySelectorFinds(el, DataParamsSel);
  }

  // ---------------------------------------------------------------------------
  // The item parsers

  /** `fieldId` from an optional control: its `name` property, or `null` without a control. */
  function FieldIdOf(control: Option<Node>): (r: Option<string>)
    ensures r.Some? <==> control.Some?
  {
    if control.Some? then Some(NameProperty(control.value)) else None
  }

  /**
   * Date: each `min` is the found input's `min` attribute (`null` when it has
   * none) and defaults only when that input is absent; the maxima are fixed.
   */
  function ParseDate(el: Node): (p: Payload)
    ensures p.DatePayload?
    ensures p.month.max == "12" && p.day.max == "31" && p.year.max == "2100"
    ensures var m := QuerySelector(el, MonthInputSel);
      p.month.min == if m.Some? then GetAttribute(m.value, "min") else Some("1")
    ensures var d := QuerySelector(el, DayInputSel);
      p.day.min == if d.Some? then GetAttribute(d.value, "min") else Some("1")
    ensures var y := QuerySelector(el, YearInputSel);
      p.year.min == if y.Some? then GetAttribute(y.value, "min") else Some("1900")
  {
    var month := QuerySelector(el, MonthInputSel);
    var day := QuerySelector(el, DayInputSel);
    var year := QuerySelector(el, YearInputSel);
    DatePayload(
      Range(if month.Some? then GetAttribute(month.value, "min") else Some("1"), "12"),
      Range(if day.Some? then GetAttribute(day.value, "min") else Some("1"), "31"),
      Range(if year.Some? then GetAttribute(year.value, "min") else Some("1900"), "2100"))
  }

  /** The fixed time metadata: hour 1 to 12, minute 0 to 59, period AM or PM. */
  const FixedTime := TimePayload(Range(Some("1"), "12"), Range(Some("0"), "59"), ["AM", "PM"])

  /** Time: the metadata is the same constant for every element; nothing is read from the markup. */
  function ParseTime(el: Node): (p: Payload)
    ensures p == FixedTime
  {
    FixedTime
  }

  /** One ordinary radio choice, from a `role="radio"` element. */
  function RadioChoice(radio: Node): RadioOption {
    RadioOption(GetAttribute(radio, "aria-label"), GetAttribute(radio, "data-value"),
                GetAttribute(radio, "aria-checked") == Some("true"), None)
  }

  /** The synthetic "Other" choice, pointing at the free-text input. */
  function OtherChoice(input: Node): RadioOption {
    RadioOption(Some("Other"), Some("__other_option__"), false, Some(GetAttribute(input, "name")))
  }

  /**
   * Radio: one choice per `role="radio"` descendant in document order,
   * selected exactly when `aria-checked` is "true", then one synthetic
   * "Other" choice exactly when an "Other response" text input exists.
   */
  function ParseRadio(el: Node): (p: Payload)
    ensures p.RadioPayload?
    ensures p.fieldId.Some? <==> QuerySelector(el, EntryHiddenInputSel).Some?
    ensures p.fieldId.Some? ==> p.fieldId.value == NameProperty(QuerySelector(el, EntryHiddenInputSel).value)
    ensures var radios, other := QuerySelectorAll(el, RadioSel), QuerySelector(el, OtherInputSel);
      && |p.radioOptions| == |radios| + (if other.Some? then 1 else 0)
      && (forall i :: 0 <= i < |radios| ==>
            && p.radioOptions[i].caption == GetAttribute(radios[i], "aria-label")
            && p.radioOptions[i].value == GetAttribute(radios[i], "data-value")
            && (p.radioOptions[i].selected <==> GetAttribute(radios[i], "aria-checked") == Some("true"))
            && p.radioOptions[i].otherInput.None?)
      && (other.Some? ==> p.radioOptions[|radios|] == OtherChoice(other.value))
      && (p.hasOtherOption <==> other.Some?)
  {
    var radios := QuerySelectorAll(el, RadioSel);
    var choices := seq(|radios|, i requires 0 <= i < |radios| => RadioChoice(radios[i]));
    var other := QuerySelector(el, OtherInputSel);
    var options := if other.Some? then choices + [OtherChoice(other.value)] else choices;
    RadioPayload(FieldIdOf(QuerySelector(el, EntryHiddenInputSel)), options, other.Some?)
  }

  /** The number of synthetic "Other" choices among `opts`. */
  function OtherCount(opts: seq<RadioOption>): nat {
    if opts == [] then 0 else (if opts[0].otherInput.Some? then 1 else 0) + OtherCount(opts[1..])
  }

  lemma {:induction false} OtherCountAppend(a: seq<RadioOption>, b: seq<RadioOption>)
    ensures OtherCount(a + b) == OtherCount(a) + OtherCount(b)
  {
    if a == [] {
      assert a + b == b;
    } else {
      assert (a + b)[1..] == a[1..] + b;
      OtherCountAppend(a[1..], b);
    }
  }

  lemma {:induction false} OtherCountNone(a: seq<RadioOption>)
    requires forall i :: 0 <= i < |a| ==> a[i].otherInput.None?
    ensures OtherCount(a) == 0
  {
    if a != [] {
      OtherCountNone(a[1..]);
    }
  }

  /**
   * A radio descriptor holds exactly one synthetic "Other" choice when it
   * flags `hasOtherOption`, and none otherwise; it is always the last one.
   */
  lemma RadioOtherChoiceIsUnique(el: Node)
    ensures var p := ParseRadio(el);
      && OtherCount(p.radioOptions) == (if p.hasOtherOption then 1 else 0)
      && (p.hasOtherOption ==> p.radioOptions[|p.radioOptions| - 1].otherInput.Some?)
  {
    var p := ParseRadio(el);
    var n := |QuerySelectorAll(el, RadioSel)|;
    var choices := p.radioOptions[..n];
    OtherCountNone(choices);
    if p.hasOtherOption {
      assert p.radioOptions == choices + [p.radioOptions[n]];
      OtherCountAppend(choices, [p.radioOptions[n]]);
      assert OtherCount([p.radioOptions[n]]) == 1;
    } else {
      assert p.radioOptions == choices;
    }
  }

  /** One dropdown option, from a `role="option"` element. */
  function DropdownChoice(option: Node): DropdownOption {
    DropdownOption(Trim(TextContent(option)), GetAttribute(option, "data-value"))
  }

  /**
   * Dropdown: one `{caption, value}` per `role="option"` descendant in document
   * order, the caption being the option's trimmed text.
   */
  function ParseDropdown(el: Node): (p: Payload)
    ensures p.DropdownPayload?
    ensures p.fieldId.Some? <==> QuerySelector(el, EntryHiddenInputSel).Some?
    ensures p.fieldId.Some? ==> p.fieldId.value == NameProperty(QuerySelector(el, EntryHiddenInputSel).value)
    ensures var opts := QuerySelectorAll(el, OptionSel);
      && |p.options| == |opts|
      && forall i :: 0 <= i < |opts| ==>
           && p.options[i].caption == Trim(TextContent(opts[i]))
           && p.options[i].value == GetAttribute(opts[i], "data-value")
  {
    var opts := QuerySelectorAll(el, OptionSel);
    DropdownPayload(FieldIdOf(QuerySelector(el, EntryHiddenInputSel)),
                    seq(|opts|, i requires 0 <= i < |opts| => DropdownChoice(opts[i])))
  }

  /** Text: the `name` of the first text input, or `null` without one. */
  function ParseText(el: Node): (p: Payload)
    ensures p.TextPayload?
    ensures p.fieldId.Some? <==> QuerySelector(el, TextInputSel).Some?
    ensures p.fieldId.Some? ==> p.fieldId.value == NameProperty(QuerySelector(el, TextInputSel).value)
  {
    TextPayload(FieldIdOf(QuerySelector(el, TextInputSel)))
  }

  /** Textarea: the `name` of the first textarea, or `null` without one. */
  function ParseTextarea(el: Node): (p: Payload)
    ensures p.TextareaPayload?
    ensures p.fieldId.Some? <==> QuerySelector(el, TextareaSel).Some?
    ensures p.fieldId.Some? ==> p.fieldId.value == NameProperty(QuerySelector(el, TextareaSel).value)
  {
    TextareaPayload(FieldIdOf(QuerySelector(el, TextareaSel)))
  }

  /** Fallback: type "unknown", no `inputType`, and the element's `outerHTML`. */
  function ParseUnknown(host: Host, el: Node): (p: Payload)
    ensures p.ParserKind() == FallbackKind && p.InputType().None?
    ensures p.UnknownPayload? && p.rawHtml == host.outerHtml(el)
  {
    UnknownPayload(host.outerHtml(el))
  }

  // ---------------------------------------------------------------------------
  // The ItemParser pairs and their order

  /** The seven item parsers. */
  datatype Kind = DateKind | TimeKind | RadioKind | DropdownKind | TextKind | TextareaKind | FallbackKind

  /** The `parsers` list, by precedence; the fallback is tried after it. */
  const ParserOrder: seq<Kind> := [DateKind, TimeKind, RadioKind, DropdownKind, TextKind, TextareaKind]

  /** The `test` of each parser: the presence of its marker descendant; the fallback's always holds. */
  predicate Test(k: Kind, el: Node) {
    match k
    case DateKind => QuerySelector(el, YearTextInputSel).Some?
    case TimeKind => QuerySelector(el, HourInputSel).Some?
    case RadioKind => QuerySelector(el, RadiogroupSel).Some?
    case DropdownKind => QuerySelector(el, ListboxSel).Some?
    case TextKind => QuerySelector(el, TextInputSel).Some?
    case TextareaKind => QuerySelector(el, TextareaSel).Some?
    case FallbackKind => true
  }

  /** The selector whose presence each parser's `test` looks for; the fallback looks for none. */
  function Marker(k: Kind): Option<Selector> {
    match k
    case DateKind => Some(YearTextInputSel)
    case TimeKind => Some(HourInputSel)
    case RadioKind => Some(RadiogroupSel)
    case DropdownKind => Some(ListboxSel)
    case TextKind => Some(TextInputSel)
    case TextareaKind => Some(TextareaSel)
    case FallbackKind => None
  }

  /**
   * Each of the six tests holds exactly when some proper descendant matches
   * its marker selector; the fallback's test holds for every element.
   */
  lemma TestIsMarkerPresence(k: Kind, el: Node)
    ensures Marker(k).None? <==> k == FallbackKind
    ensures Marker(k).None? ==> Test(k, el)
    ensures Marker(k).Some? ==>
      (Test(k, el) <==> exists d :: d in Descendants(el) && Matches(d, Marker(k).value))
  {
    if Marker(k).Some? {
      QuerySelectorFinds(el, Marker(k).value);
    }
  }

  /** The kind-specific part that each parser's `parse` builds. */
  function ParsePayload(host: Host, k: Kind, el: Node): Payload {
    match k
    case DateKind => ParseDate(el)
    case TimeKind => ParseTime(el)
    case RadioKind => ParseRadio(el)
    case DropdownKind => ParseDropdown(el)
    case TextKind => ParseText(el)
    case TextareaKind => ParseTextarea(el)
    case FallbackKind => ParseUnknown(host, el)
  }

  /** The `inputType` tag each parser produces; the fallback produces none. */
  function InputTypeOf(k: Kind): Option<string> {
    match k
    case DateKind => Some("date")
    case TimeKind => Some("time")
    case RadioKind => Some("radio")
    case DropdownKind => Some("select")
    case TextKind => Some("text")
    case TextareaKind => Some("textarea")
    case FallbackKind => None
  }

  /**
   * Every parser builds a descriptor of its own shape, so with its own
   * `type` and `inputType` tags.
   */
  lemma ParsePayloadKind(host: Host, k: Kind, el: Node)
    ensures ParsePayload(host, k, el).ParserKind() == k
    ensures ParsePayload(host, k, el).Type() == TypeOf(k)
    ensures ParsePayload(host, k, el).InputType() == InputTypeOf(k)
  {
  }

  /** The `parse` of each parser: the common metadata spread into the kind-specific part. */
  function Parse(host: Host, k: Kind, el: Node): Field {
    Field(ParseMetadata(host, el), ParsePayload(host, k, el))
  }

  /** The `type` tag each parser produces. */
  function TypeOf(k: Kind): string {
    match k
    case DateKind => "date"
    case TimeKind => "time"
    case RadioKind => "radio"
    case DropdownKind => "dropdown"
    case TextKind => "text"
    case TextareaKind => "textarea"
    case FallbackKind => "unknown"
  }

  /** The position of a parser in `ParserOrder`; the fallback comes after all of them. */
  function Rank(k: Kind): (r: nat)
    ensures r <= |ParserOrder|
    ensures k == FallbackKind <==> r == |ParserOrder|
    ensures r < |ParserOrder| ==> ParserOrder[r] == k
  {
    match k
    case DateKind => 0
    case TimeKind => 1
    case RadioKind => 2
    case DropdownKind => 3
    case TextKind => 4
    case TextareaKind => 5
    case FallbackKind => 6
  }

  /** The position of the first of `ks` whose test holds, or `|ks|` when none does. */
  function FirstPassing(ks: seq<Kind>, el: Node): (i: nat)
    ensures i <= |ks|
    ensures i < |ks| ==> Test(ks[i], el)
    ensures forall j :: 0 <= j < i ==> !Test(ks[j], el)
  {
    if ks == [] then 0
    else if Test(ks[0], el) then 0
    else 1 + FirstPassing(ks[1..], el)
  }

  /**
   * The dispatcher: the parser chosen for `el` is one whose test holds and
   * every parser before it fails its test; the fallback is chosen exactly
   * when every test fails.
   */
  function Dispatch(el: Node): (k: Kind)
    ensures Test(k, el)
    ensures forall j :: 0 <= j < Rank(k) ==> !Test(ParserOrder[j], el)
    ensures k == FallbackKind <==> forall j :: 0 <= j < |ParserOrder| ==> !Test(ParserOrder[j], el)
  {
    var i := FirstPassing(ParserOrder, el);
    if i < |ParserOrder| then
      assert Rank(ParserOrder[i]) == i;
      ParserOrder[i]
    else FallbackKind
  }

  /** The descriptor the dispatcher yields for one item element. */
  function Classification(host: Host, el: Node): Field {
    Parse(host, Dispatch(el), el)
  }

  /**
   * The `type` value is compared ignoring ASCII case, so an item whose only
   * control is `<input type="TEXT">` passes the text test.
   */
  lemma TextTestIgnoresTypeCase()
    ensures Test(TextKind, Element("div", map["role" := "listitem"],
                                   [Element("input", map["type" := "TEXT", "name" := "x"], [])]))
  {
  }

  // ---------------------------------------------------------------------------
  // Precedence

  /** Dispatch picks the parser at position `i` when its test holds and every earlier test fails. */
  lemma DispatchIsFirstMatch(el: Node, i: nat)
    requires i < |ParserOrder| && Test(ParserOrder[i], el)
    requires forall j :: 0 <= j < i ==> !Test(ParserOrder[j], el)
    ensures Dispatch(el) == ParserOrder[i]
  {
    var k := Dispatch(el);
    assert Rank(k) < |ParserOrder| ==> Test(ParserOrder[Rank(k)], el);
  }

  /**
   * An item holding both a radio group and a text input is never a text
   * field; it is a radio field unless a Year text input or an Hour input
   * (tested earlier) is also there.
   */
  lemma RadioBeforeText(el: Node)
    requires Test(RadioKind, el) && Test(TextKind, el)
    ensures Dispatch(el) in {DateKind, TimeKind, RadioKind}
    ensures !Test(DateKind, el) && !Test(TimeKind, el) ==> Dispatch(el) == RadioKind
  {
    assert ParserOrder[2] == RadioKind;
    if !Test(DateKind, el) && !Test(TimeKind, el) {
      DispatchIsFirstMatch(el, 2);
    }
  }

  /**
   * An item holding an Hour input and a listbox (the AM/PM selector) is a
   * time field, not a dropdown, unless a Year text input makes it a date.
   */
  lemma TimeBeforeDropdown(el: Node)
    requires Test(TimeKind, el) && Test(DropdownKind, el)
    ensures Dispatch(el) in {DateKind, TimeKind}
    ensures !Test(DateKind, el) ==> Dispatch(el) == TimeKind
  {
    assert ParserOrder[1] == TimeKind;
    if !Test(DateKind, el) {
      DispatchIsFirstMatch(el, 1);
    }
  }

  /**
   * Once an item is classified as a date, its year input exists, so the
   * year minimum is that input's `min` attribute and never the "1900" default.
   */
  lemma DateYearMinFromInput(host: Host, el: Node)
    requires Dispatch(el) == DateKind
    ensures QuerySelector(el, YearInputSel).Some?
    ensures Classification(host, el).payload.year.min == GetAttribute(QuerySelector(el, YearInputSel).value, "min")
  {
    QuerySelectorFinds(el, YearTextInputSel);
    var y := QuerySelector(el, YearTextInputSel).value;
    assert Matches(y, YearInputSel);
    QuerySelectorFinds(el, YearInputSel);
  }

  /**
   * The descriptor of an item carries the common metadata, and its `type` is
   * "unknown" exactly when no parser of the list accepts the item.
   */
  lemma UnknownExactlyWhenNoTestHolds(host: Host, el: Node)
    ensures Classification(host, el).meta == ParseMetadata(host, el)
    ensures Classification(host, el).payload.Type() == "unknown" <==>
      forall j :: 0 <= j < |ParserOrder| ==> !Test(ParserOrder[j], el)
  {
    var k := Dispatch(el);
    ParsePayloadKind(host, k, el);
    if k != FallbackKind {
      assert TypeOf(k)[0] != 'u';
    }
  }
}
