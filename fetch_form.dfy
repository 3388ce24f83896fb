/**
 * The form assembler: given the parsed document, find the form, classify every
 * question item of the document in order, and collect the form's hidden inputs.
 */
module FetchForm {
  import opened Wrappers
  import opened Dom
  import opened Parsers

  const FormSel := Tag("form")
  const ListItemSel := AttrIs("role", "listitem")
  const HiddenInputSel := Both(Tag("input"), AttrIs("type", "hidden"))

  /** One hidden input of the form: its `name` and `value` properties. */
  datatype HiddenField = HiddenField(name: string, value: string)

  function HiddenFieldOf(input: Node): HiddenField {
    HiddenField(NameProperty(input), ValueProperty(input))
  }

  /** The `formStructure` object, built empty and then filled in place. */
  class FormStructure {
    var action: string
    var fields: seq<Field>
    var hiddenFields: seq<HiddenField>

    constructor (action: string)
      ensures this.action == action && fields == [] && hiddenFields == []
    {
      this.action := action;
      fields := [];
      hiddenFields := [];
    }

    /** `hiddenFields.push(entry)`. */
    method PushHidden(entry: HiddenField)
      modifies this
      ensures hiddenFields == old(hiddenFields) + [entry]
      ensures action == old(action) && fields == old(fields)
    {
      hiddenFields := hiddenFields + [entry];
    }
  }

  /**
   * The dispatch loop for one item: try the parsers in order and return the
   * result of the first whose test holds, else the fallback's.
   */
  method Classify(host: Host, item: Node) returns (f: Field)
    ensures f == Classification(host, item)
  {
    for i := 0 to |ParserOrder|
      invariant forall j :: 0 <= j < i ==> !Test(ParserOrder[j], item)
    {
      var parser := ParserOrder[i];
      if Test(parser, item) {
        DispatchIsFirstMatch(item, i);
        f := Parse(host, parser, item);
        return;
      }
    }
    f := Parse(host, FallbackKind, item);
  }

  /** The descriptors `listItems.map(...)` yields: one per item, in order. */
  function Classifications(host: Host, items: seq<Node>): (r: seq<Field>)
    ensures |r| == |items|
  {
    seq(|items|, i requires 0 <= i < |items| => Classification(host, items[i]))
  }

  /** Extending a prefix of `expected` by its next element gives the next prefix. */
  lemma ExtendPrefix<T>(done: seq<T>, expected: seq<T>, i: nat, next: T)
    requires i < |expected| && done == expected[..i] && next == expected[i]
    ensures done + [next] == expected[..i + 1]
  {
  }

  /** `listItems.map(...)`: the dispatch loop applied to every item, in order. */
  method ClassifyAll(host: Host, items: seq<Node>) returns (parsed: seq<Field>)
    ensures parsed == Classifications(host, items)
  {
    ghost var expected := Classifications(host, items);
    parsed := [];
    for i := 0 to |items|
      invariant parsed == expected[..i]
    {
      var f := Classify(host, items[i]);
      ExtendPrefix(parsed, expected, i, f);
      parsed := parsed + [f];
    }
    assert expected[..|items|] == expected;
  }

  /** `hiddenInputs.forEach(...)`: push one `{name, value}` per hidden input, in order. */
  method CollectHidden(structure: FormStructure, hidden: seq<Node>)
    modifies structure
    ensures structure.hiddenFields == old(structure.hiddenFields) + seq(|hidden|, i requires 0 <= i < |hidden| => HiddenFieldOf(hidden[i]))
    ensures structure.action == old(structure.action) && structure.fields == old(structure.fields)
  {
    ghost var before := structure.hiddenFields;
    for i := 0 to |hidden|
      invariant structure.action == old(structure.action) && structure.fields == old(structure.fields)
      invariant structure.hiddenFields == before + seq(i, j requires 0 <= j < i => HiddenFieldOf(hidden[j]))
    {
      structure.PushHidden(HiddenFieldOf(hidden[i]));
    }
  }

  /**
   * `fetchForm` once the document exists: nothing when there is no form;
   * otherwise the form's action, one descriptor per `role="listitem"`
   * element of the whole document in document order, and one `{name,
   * value}` per hidden input inside the form, in document order.
   * `document` is the Document node, whose child is the document element
   * (`<html>`): the queries search its proper descendants only.
   */
  method Assemble(host: Host, document: Node) returns (form: Option<FormStructure>)
    ensures form.None? <==> QuerySelector(document, FormSel).None?
    ensures form.Some? ==>
      var formElement := QuerySelector(document, FormSel).value;
      var items := QuerySelectorAll(document, ListItemSel);
      var hidden := QuerySelectorAll(formElement, HiddenInputSel);
      && fresh(form.value)
      && form.value.action == host.formAction(formElement)
      && form.value.fields == Classifications(host, items)
      && |form.value.hiddenFields| == |hidden|
      && (forall i :: 0 <= i < |hidden| ==> form.value.hiddenFields[i] == HiddenFieldOf(hidden[i]))
  {
    var formElement := QuerySelector(document, FormSel);
    if formElement.None? {
      return None;
    }
    var structure := new FormStructure(host.formAction(formElement.value));
    var parsed := ClassifyAll(host, QuerySelectorAll(document, ListItemSel));
    structure.fields := parsed;
    CollectHidden(structure, QuerySelectorAll(formElement.value, HiddenInputSel));
    return Some(structure);
  }
}
