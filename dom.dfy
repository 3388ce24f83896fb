/**
 * The already-parsed HTML document the parser walks, the handful of fixed CSS
 * selectors it uses, and the DOM queries `querySelector`, `querySelectorAll`
 * and `textContent` over it.
 */
module Dom {
  import opened Wrappers
  import opened Strings

  /**
   * A node of the document tree: an element (lower-case tag name, attribute
   * map, children in document order) or a text node.
   */
  datatype Node =
    | Element(tag: string, attrs: map<string, string>, children: seq<Node>)
    | TextNode(data: string)

  /** `getAttribute(name)`: the attribute's value, or `null` when it is absent. */
  function GetAttribute(n: Node, name: string): Option<string> {
    if n.Element? && name in n.attrs then Some(n.attrs[name]) else None
  }

  /** The reflected `name` property of a form control: the attribute, or "" when absent. */
  function NameProperty(n: Node): string {
    if n.Element? && "name" in n.attrs then n.attrs["name"] else ""
  }

  /** The `value` property of a hidden input: the attribute, or "" when absent. */
  function ValueProperty(n: Node): string {
    if n.Element? && "value" in n.attrs then n.attrs["value"] else ""
  }

  /** The selector forms the parser uses: a type selector, `[a="v"]`, `[a]`, `[a*="v"]`, and compounds. */
  datatype Selector =
    | Tag(name: string)
    | AttrIs(attr: string, value: string)
    | HasAttr(attr: string)
    | AttrContains(attr: string, part: string)
    | Both(left: Selector, right: Selector)

  /**
   * Whether an attribute selector compares the value of attribute `a` ASCII
   * case-insensitively on an HTML element. Of the attributes the parser
   * selects on, only `type` is on the HTML Standard's list of such attributes.
   */
  predicate ValueIgnoresCase(a: string) {
    a == "type"
  }

  /** `[a="v"]` on the attribute value `actual`. */
  predicate ValueEquals(a: string, actual: string, v: string) {
    if ValueIgnoresCase(a) then AsciiLower(actual) == AsciiLower(v) else actual == v
  }

  /** Whether node `n` matches `sel`; only elements match. `[a*=""]` matches nothing. */
  predicate Matches(n: Node, sel: Selector) {
    n.Element? &&
    match sel
    case Tag(name) => n.tag == name
    case AttrIs(a, v) => a in n.attrs && ValueEquals(a, n.attrs[a], v)
    case HasAttr(a) => a in n.attrs
    case AttrContains(a, part) => a in n.attrs && |part| > 0 && Contains(n.attrs[a], part)
    case Both(l, r) => Matches(n, l) && Matches(n, r)
  }

  /** The proper descendants of `n`, in document (pre-)order. */
  function Descendants(n: Node): seq<Node>
    decreases n, 1
  {
    match n
    case TextNode(_) => []
    case Element(_, _, cs) => DescendantsOf(cs)
  }

  /** The nodes of the forest `cs`, each followed by its descendants, in document order. */
  function DescendantsOf(cs: seq<Node>): seq<Node>
    decreases cs, 0
  {
    if cs == [] then [] else [cs[0]] + Descendants(cs[0]) + DescendantsOf(cs[1..])
  }

  /** The nodes of `ns` that match `sel`, in their order. */
  function Filter(ns: seq<Node>, sel: Selector): (r: seq<Node>)
    ensures |r| <= |ns|
  {
    if ns == [] then []
    else (if Matches(ns[0], sel) then [ns[0]] else []) + Filter(ns[1..], sel)
  }

  /** `Filter` keeps exactly the matching nodes. */
  lemma {:induction false} FilterMembers(ns: seq<Node>, sel: Selector)
    ensures forall x :: x in Filter(ns, sel) <==> x in ns && Matches(x, sel)
  {
    if ns != [] {
      FilterMembers(ns[1..], sel);
      assert ns == [ns[0]] + ns[1..];
    }
  }

  /** `el.querySelectorAll(sel)`: every matching proper descendant, in document order. */
  function QuerySelectorAll(el: Node, sel: Selector): seq<Node> {
    Filter(Descendants(el), sel)
  }

  /** `querySelectorAll` lists exactly the matching proper descendants. */
  lemma QuerySelectorAllMembers(el: Node, sel: Selector)
    ensures forall x :: x in QuerySelectorAll(el, sel) <==> x in Descendants(el) && Matches(x, sel)
  {
    FilterMembers(Descendants(el), sel);
  }

  /**
   * `el.querySelector(sel)`: a depth-first search of the children of `el`
   * that stops at the first matching node.
   */
  function QuerySelector(el: Node, sel: Selector): Option<Node>
    decreases el, 1
  {
    match el
    case TextNode(_) => None
    case Element(_, _, cs) => QuerySelectorIn(cs, sel)
  }

  /** The first node of the forest `cs`, in document order, that matches `sel`. */
  function QuerySelectorIn(cs: seq<Node>, sel: Selector): Option<Node>
    decreases cs, 0
  {
    if cs == [] then None
    else if Matches(cs[0], sel) then Some(cs[0])
    else match QuerySelector(cs[0], sel)
      case Some(m) => Some(m)
      case None => QuerySelectorIn(cs[1..], sel)
  }

  /** The first element of a list, as `Array.prototype.at(0)` would give it. */
  function First(ns: seq<Node>): Option<Node> {
    if ns == [] then None else Some(ns[0])
  }

  /** Filtering distributes over concatenation. */
  lemma {:induction false} FilterAppend(a: seq<Node>, b: seq<Node>, sel: Selector)
    ensures Filter(a + b, sel) == Filter(a, sel) + Filter(b, sel)
  {
    if a == [] {
      assert a + b == b;
    } else {
      var head := if Matches(a[0], sel) then [a[0]] else [];
      assert (a + b)[0] == a[0];
      assert (a + b)[1..] == a[1..] + b;
      FilterAppend(a[1..], b, sel);
      calc {
        Filter(a + b, sel);
        head + Filter(a[1..] + b, sel);
        head + (Filter(a[1..], sel) + Filter(b, sel));
        (head + Filter(a[1..], sel)) + Filter(b, sel);
      }
    }
  }

  /**
   * The search `querySelector` finds exactly the first node that
   * `querySelectorAll` lists: the first matching proper descendant.
   */
  lemma {:induction false} QuerySelectorIsFirst(el: Node, sel: Selector)
    ensures QuerySelector(el, sel) == First(QuerySelectorAll(el, sel))
    decreases el, 1
  {
    match el
    case TextNode(_) =>
    case Element(_, _, cs) => QuerySelectorInIsFirst(cs, sel);
  }

  lemma {:induction false} QuerySelectorInIsFirst(cs: seq<Node>, sel: Selector)
    ensures QuerySelectorIn(cs, sel) == First(Filter(DescendantsOf(cs), sel))
    decreases cs, 0
  {
    if cs != [] {
      var head, below, rest := cs[0], Descendants(cs[0]), DescendantsOf(cs[1..]);
      FilterAppend([head] + below, rest, sel);
      FilterAppend([head], below, sel);
      QuerySelectorIsFirst(head, sel);
      QuerySelectorInIsFirst(cs[1..], sel);
    }
  }

  /** `querySelector` finds something exactly when some proper descendant matches. */
  lemma QuerySelectorFinds(el: Node, sel: Selector)
    ensures QuerySelector(el, sel).Some? <==> exists x :: x in Descendants(el) && Matches(x, sel)
    ensures QuerySelector(el, sel).Some? ==>
      QuerySelector(el, sel).value in Descendants(el) && Matches(QuerySelector(el, sel).value, sel)
  {
    QuerySelectorIsFirst(el, sel);
    QuerySelectorAllMembers(el, sel);
    var all := QuerySelectorAll(el, sel);
    if all != [] {
      assert all[0] in all;
    }
  }

  /** `textContent`: the data of every text node below `n`, concatenated in document order. */
  function TextContent(n: Node): string
    decreases n, 1
  {
    match n
    case TextNode(d) => d
    case Element(_, _, cs) => TextContentOf(cs)
  }

  function TextContentOf(cs: seq<Node>): string
    decreases cs, 0
  {
    if cs == [] then "" else TextContent(cs[0]) + TextContentOf(cs[1..])
  }

  /** The data of the text nodes among `ns`, concatenated in order. */
  function TextData(ns: seq<Node>): string {
    if ns == [] then "" else (if ns[0].TextNode? then ns[0].data else "") + TextData(ns[1..])
  }

  lemma TextDataAppend(a: seq<Node>, b: seq<Node>)
    ensures TextData(a + b) == TextData(a) + TextData(b)
  {
    if a == [] {
      assert a + b == b;
    } else {
      assert (a + b)[1..] == a[1..] + b;
      TextDataAppend(a[1..], b);
    }
  }

  /**
   * The recursive `textContent` of an element agrees with the flat reading:
   * the text nodes among its descendants, in document order.
   */
  lemma {:induction false} TextContentIsTextDescendants(n: Node)
    requires n.Element?
    ensures TextContent(n) == TextData(Descendants(n))
  {
    TextContentOfIsTextData(n.children);
  }

  lemma {:induction false} TextContentOfIsTextData(cs: seq<Node>)
    ensures TextContentOf(cs) == TextData(DescendantsOf(cs))
    decreases cs
  {
    if cs != [] {
      var head := cs[0];
      TextDataAppend([head] + Descendants(head), DescendantsOf(cs[1..]));
      TextDataAppend([head], Descendants(head));
      TextContentOfIsTextData(cs[1..]);
      match head
      case TextNode(_) =>
      case Element(_, _, hs) => TextContentOfIsTextData(hs);
    }
  }
}
