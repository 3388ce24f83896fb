/**
 * The `data-params` normaliser: five ordered textual rewrites that turn the
 * near-JSON text Google Forms stores in a `data-params` attribute into text
 * for `JSON.parse`, and the call itself, whose failure is absorbed as `null`.
 * None of the rewrites knows about quoted strings.
 */
module DataParams {
  import opened Wrappers
  import opened Strings

  /** A value produced by `JSON.parse`. */
  datatype Json =
    | JNull
    | JBool(b: bool)
    | JNumber(n: real)
    | JString(s: string)
    | JArray(items: seq<Json>)
    | JObject(members: seq<(string, Json)>)

  /** The HTML entity for a double quote. */
  const Entity: string := "&quot;"

  /** An encoded quote starts at position `i` of `s`. */
  predicate EntityAt(s: string, i: nat) {
    i + 6 <= |s| && s[i..i + 6] == Entity
  }

  lemma EntityParts()
    ensures Entity == [('&')] + "quot;"
  {
  }

  /** No encoded quote occurs anywhere in `s`. */
  predicate NoEntity(s: string) {
    forall i :: 0 <= i < |s| ==> !EntityAt(s, i)
  }

  // ---------------------------------------------------------------------------
  // Step 1: .replace(/&quot;/g, '"')

  /** Every `&quot;`, found left to right without overlap, becomes `"`. */
  function DecodeQuotes(s: string): string
    decreases |s|
  {
    if s == [] then []
    else if EntityAt(s, 0) then "\"" + DecodeQuotes(s[6..])
    else [s[0]] + DecodeQuotes(s[1..])
  }

  /** A quote-free prefix of the output was copied unchanged from the input. */
  lemma {:induction false} DecodeQuotesCopiesPrefix(t: string, k: nat)
    requires k <= |DecodeQuotes(t)|
    requires forall j :: 0 <= j < k ==> DecodeQuotes(t)[j] != '"'
    ensures k <= |t| && t[..k] == DecodeQuotes(t)[..k]
    decreases |t|
  {
    if k > 0 && t != [] {
      assert DecodeQuotes(t)[0] != '"';
      if !EntityAt(t, 0) {
        var r := DecodeQuotes(t[1..]);
        assert DecodeQuotes(t) == [t[0]] + r;
        forall j | 0 <= j < k - 1 ensures r[j] != '"' {
          assert r[j] == DecodeQuotes(t)[j + 1];
        }
        DecodeQuotesCopiesPrefix(t[1..], k - 1);
        assert t[..k] == [t[0]] + t[1..][..k - 1];
      }
    }
  }

  /** Putting `c` in front of an entity-free `x` adds no entity unless `x` continues `c` into one. */
  lemma NoEntityCons(c: char, x: string)
    requires NoEntity(x)
    requires c == '&' ==> !(|x| >= 5 && x[..5] == "quot;")
    ensures NoEntity([c] + x)
  {
    var s := [c] + x;
    if |x| >= 5 {
      assert s[..6][0] == c && s[..6][1..] == x[..5];
      assert Entity[0] == '&' && Entity[1..] == "quot;";
    }
    assert !EntityAt(s, 0);
    forall i | 0 <= i < |s| ensures !EntityAt(s, i) {
      if EntityAt(s, i) {
        if i > 0 {
          assert s[i..i + 6] == x[i - 1..i + 5];
          assert EntityAt(x, i - 1);
        }
      }
    }
  }

  /** After step 1 no `&quot;` is left: the replacement never builds a new one. */
  lemma {:induction false} DecodeQuotesLeavesNoEntity(s: string)
    ensures NoEntity(DecodeQuotes(s))
    decreases |s|
  {
    if s != [] {
      if EntityAt(s, 0) {
        DecodeQuotesLeavesNoEntity(s[6..]);
        NoEntityCons('"', DecodeQuotes(s[6..]));
      } else {
        var t := s[1..];
        var r := DecodeQuotes(t);
        DecodeQuotesLeavesNoEntity(t);
        if s[0] == '&' && |r| >= 5 && r[..5] == "quot;" {
          DecodeQuotesCopiesPrefix(t, 5);
          assert false;
        }
        NoEntityCons(s[0], r);
      }
    }
  }

  /** On text without an encoded quote, step 1 changes nothing. */
  lemma {:induction false} DecodeQuotesKeepsPlainText(s: string)
    requires NoEntity(s)
    ensures DecodeQuotes(s) == s
    decreases |s|
  {
    if s != [] {
      assert !EntityAt(s, 0);
      forall i | 0 <= i < |s[1..]| ensures !EntityAt(s[1..], i) {
        if EntityAt(s[1..], i) {
          assert s[1..][i..i + 6] == s[i + 1..i + 7];
          assert EntityAt(s, i + 1);
        }
      }
      DecodeQuotesKeepsPlainText(s[1..]);
    }
  }

  /** Step 1 is idempotent. */
  lemma DecodeQuotesIdempotent(s: string)
    ensures DecodeQuotes(DecodeQuotes(s)) == DecodeQuotes(s)
  {
    DecodeQuotesLeavesNoEntity(s);
    DecodeQuotesKeepsPlainText(DecodeQuotes(s));
  }

  // ---------------------------------------------------------------------------
  // Step 2: .replace(/^%.@\.\[/, "[[")

  /**
   * `s` starts with `%`, one non-line-terminator character, `@`, `.`, `[`.
   * Without the `u` flag the regular expression runs over UTF-16 code units,
   * so its `.` consumes only the first half of a character outside the Basic
   * Multilingual Plane and the `@` then fails against the second half.
   */
  predicate HasCustomPrefix(s: string) {
    && |s| >= 5 && s[0] == '%' && s[1] <= '\U{FFFF}' && !IsLineTerminator(s[1])
    && s[2] == '@' && s[3] == '.' && s[4] == '['
  }

  /** Replaces the five-character custom prefix, when present, with `[[`. */
  function StripCustomPrefix(s: string): (r: string)
    ensures r != s <==> HasCustomPrefix(s)
    ensures HasCustomPrefix(s) ==> r == "[[" + s[5..]
  {
    if HasCustomPrefix(s) then "[[" + s[5..] else s
  }

  /** A character outside the Basic Multilingual Plane after `%` is two code units: no match. */
  lemma StripCustomPrefixKeepsAstral()
    ensures StripCustomPrefix("%\U{1F600}@.[1]") == "%\U{1F600}@.[1]"
    ensures StripCustomPrefix("%x@.[1]") == "[[1]"
  {
  }

  // ---------------------------------------------------------------------------
  // Step 3: .replace(/\]$/, "]")

  /** Replaces a final `]` by `]`: the identity. */
  function EnsureClosingBracket(s: string): (r: string)
    ensures r == s
  {
    if |s| > 0 && s[|s| - 1] == ']' then
      assert s == s[..|s| - 1] + "]";
      s[..|s| - 1] + "]"
    else s
  }

  // ---------------------------------------------------------------------------
  // Step 4: .replace(/,(\s*[}\]])/g, "$1")

  /** The next character of `t` that is not whitespace is `}` or `]`. */
  predicate ClosesNext(t: string) {
    var n := LeadingWhitespace(t);
    n < |t| && (t[n] == '}' || t[n] == ']')
  }

  /**
   * The global replacement as a left-to-right scan: a match is a comma, the
   * whitespace run after it and the closing bracket; it is replaced by the
   * whitespace and the bracket (`$1`) and scanning resumes after the bracket.
   */
  function RemoveTrailingCommas(s: string): string
    decreases |s|
  {
    if s == [] then []
    else if s[0] == ',' && ClosesNext(s[1..]) then
      var m := LeadingWhitespace(s[1..]) + 2;
      s[1..m] + RemoveTrailingCommas(s[m..])
    else [s[0]] + RemoveTrailingCommas(s[1..])
  }

  /** Character by character: drop each comma whose next non-whitespace character is `}` or `]`. */
  function DropClosingCommas(s: string): string
    decreases |s|
  {
    if s == [] then []
    else if s[0] == ',' && ClosesNext(s[1..]) then DropClosingCommas(s[1..])
    else [s[0]] + DropClosingCommas(s[1..])
  }

  /** Step 4 keeps a leading character other than a comma. */
  lemma DropClosingCommasKeepsNonComma(t: string)
    requires t != [] && t[0] != ','
    ensures DropClosingCommas(t) == [t[0]] + DropClosingCommas(t[1..])
  {
  }

  /** Step 4 copies a comma-free prefix unchanged. */
  lemma {:induction false} DropClosingCommasSkipsCommaFree(t: string, k: nat)
    requires k <= |t|
    requires forall j :: 0 <= j < k ==> t[j] != ','
    ensures DropClosingCommas(t) == t[..k] + DropClosingCommas(t[k..])
    decreases k
  {
    if k > 0 {
      DropClosingCommasSkipsCommaFree(t, k - 1);
      var v := t[k - 1..];
      DropClosingCommasKeepsNonComma(v);
      assert v[1..] == t[k..];
      assert t[..k - 1] + [t[k - 1]] == t[..k];
    }
  }

  /**
   * Step 4 deletes exactly the commas whose next non-whitespace character is
   * `}` or `]` and keeps every other character, in order, quoted or not.
   */
  lemma {:induction false} RemoveTrailingCommasDropsClosingCommas(s: string)
    ensures RemoveTrailingCommas(s) == DropClosingCommas(s)
    decreases |s|
  {
    if s != [] {
      if s[0] == ',' && ClosesNext(s[1..]) {
        var t := s[1..];
        var m := LeadingWhitespace(t) + 2;
        assert !IsWhitespace(',');
        forall j | 0 <= j < m - 1 ensures t[j] != ',' {
          if j < m - 2 {
            assert IsWhitespace(t[j]);
          }
        }
        DropClosingCommasSkipsCommaFree(t, m - 1);
        assert t[..m - 1] == s[1..m] && t[m - 1..] == s[m..];
        RemoveTrailingCommasDropsClosingCommas(s[m..]);
      } else {
        RemoveTrailingCommasDropsClosingCommas(s[1..]);
      }
    }
  }

  // ---------------------------------------------------------------------------
  // Step 5: .replace(/,(?=\s*[,}\]])/g, "null")

  /** The next character of `t` that is not whitespace is `,`, `}` or `]`. */
  predicate ElidedNext(t: string) {
    var n := LeadingWhitespace(t);
    n < |t| && (t[n] == ',' || t[n] == '}' || t[n] == ']')
  }

  /** Every comma of `s` is followed, past whitespace, by something other than `,`, `}`, `]`. */
  predicate NoElidedComma(s: string) {
    forall i :: 0 <= i < |s| && s[i] == ',' ==> !ElidedNext(s[i + 1..])
  }

  /**
   * Each comma whose lookahead sees `,`, `}` or `]` past whitespace is itself
   * replaced by the four characters `null`; every other character is kept.
   */
  function NullElidedEntries(s: string): string
    decreases |s|
  {
    if s == [] then []
    else if s[0] == ',' && ElidedNext(s[1..]) then "null" + NullElidedEntries(s[1..])
    else [s[0]] + NullElidedEntries(s[1..])
  }

  lemma NoElidedCommaCons(c: char, x: string)
    requires NoElidedComma(x)
    requires c == ',' ==> !ElidedNext(x)
    ensures NoElidedComma([c] + x)
  {
    var s := [c] + x;
    forall i | 0 <= i < |s| && s[i] == ',' ensures !ElidedNext(s[i + 1..]) {
      if i > 0 {
        assert s[i + 1..] == x[i..];
      } else {
        assert s[1..] == x;
      }
    }
  }

  /** A whitespace character in front changes neither lookahead test. */
  lemma LookaheadSkipsWhitespace(c: char, x: string)
    requires IsWhitespace(c)
    ensures LeadingWhitespace([c] + x) == LeadingWhitespace(x) + 1
    ensures ClosesNext([c] + x) == ClosesNext(x)
    ensures ElidedNext([c] + x) == ElidedNext(x)
  {
    assert ([c] + x)[1..] == x;
  }

  /** Step 5 does not create an elided entry in front of its own output. */
  lemma {:induction false} NullElidedEntriesKeepsLookahead(t: string)
    requires !ElidedNext(t)
    ensures !ElidedNext(NullElidedEntries(t))
    decreases |t|
  {
    if t != [] {
      var r := NullElidedEntries(t[1..]);
      assert !IsWhitespace(',');
      assert NullElidedEntries(t) == [t[0]] + r;
      if IsWhitespace(t[0]) {
        LookaheadSkipsWhitespace(t[0], t[1..]);
        assert t == [t[0]] + t[1..];
        NullElidedEntriesKeepsLookahead(t[1..]);
        LookaheadSkipsWhitespace(t[0], r);
      } else {
        assert LeadingWhitespace(t) == 0;
        assert LeadingWhitespace([t[0]] + r) == 0;
      }
    }
  }

  /** After step 5 no comma is followed, past whitespace, by `,`, `}` or `]`. */
  lemma {:induction false} NullElidedEntriesLeavesNone(s: string)
    ensures NoElidedComma(NullElidedEntries(s))
    decreases |s|
  {
    if s != [] {
      var r := NullElidedEntries(s[1..]);
      NullElidedEntriesLeavesNone(s[1..]);
      if s[0] == ',' && ElidedNext(s[1..]) {
        assert "null" + r == [('n')] + ([('u')] + ([('l')] + ([('l')] + r)));
        NoElidedCommaCons('l', r);
        NoElidedCommaCons('l', [('l')] + r);
        NoElidedCommaCons('u', [('l')] + ([('l')] + r));
        NoElidedCommaCons('n', [('u')] + ([('l')] + ([('l')] + r)));
      } else {
        if s[0] == ',' {
          NullElidedEntriesKeepsLookahead(s[1..]);
        }
        NoElidedCommaCons(s[0], r);
      }
    }
  }

  /** On text without an elided entry, step 5 changes nothing. */
  lemma {:induction false} NullElidedEntriesKeepsComplete(s: string)
    requires NoElidedComma(s)
    ensures NullElidedEntries(s) == s
    decreases |s|
  {
    if s != [] {
      assert s[0] == ',' ==> !ElidedNext(s[1..]);
      forall i | 0 <= i < |s[1..]| && s[1..][i] == ',' ensures !ElidedNext(s[1..][i + 1..]) {
        assert s[1..][i + 1..] == s[i + 2..];
      }
      NullElidedEntriesKeepsComplete(s[1..]);
    }
  }

  /** Step 5 is idempotent. */
  lemma NullElidedEntriesIdempotent(s: string)
    ensures NullElidedEntries(NullElidedEntries(s)) == NullElidedEntries(s)
  {
    NullElidedEntriesLeavesNone(s);
    NullElidedEntriesKeepsComplete(NullElidedEntries(s));
  }

  /**
   * The comma itself becomes `null`, so an elided array entry does not turn
   * into a `null` element: `[1,,2]` becomes `[1null,2]`.
   */
  lemma NullElidedEntriesOnElidedEntry()
    ensures NullElidedEntries("[1,,2]") == "[1null,2]"
  {
    assert !IsWhitespace(',') && !IsWhitespace('2') && !IsWhitespace(']');
    assert NullElidedEntries("2]") == "2]";
    assert NullElidedEntries(",2]") == ",2]";
    assert NullElidedEntries(",,2]") == "null,2]";
  }

  // ---------------------------------------------------------------------------
  // The pipeline and the parse

  /** The five rewrites, in their order. */
  function CleanParams(s: string): string {
    NullElidedEntries(RemoveTrailingCommas(EnsureClosingBracket(StripCustomPrefix(DecodeQuotes(s)))))
  }

  /**
   * `parseDataParams`: the parse of the cleaned text, or `null` when
   * `JSON.parse` rejects it; it never fails.
   */
  function ParseDataParams(jsonParse: string -> Option<Json>, raw: string): (r: Json)
    ensures jsonParse(CleanParams(raw)).None? ==> r == JNull
    ensures jsonParse(CleanParams(raw)).Some? ==> r == jsonParse(CleanParams(raw)).value
  {
    match jsonParse(CleanParams(raw))
    case Some(v) => v
    case None => JNull
  }

  /**
   * An elision right after `[` loses a position instead: `[,,2]` is cleaned
   * to `[null,2]`, valid JSON with one entry fewer than the source text had.
   */
  lemma CleanParamsOnLeadingElision()
    ensures CleanParams("[,,2]") == "[null,2]"
  {
    assert !HasCustomPrefix("[,,2]");
    assert !IsWhitespace(',') && !IsWhitespace('2') && !IsWhitespace(']');
    assert RemoveTrailingCommas("[,,2]") == "[,,2]";
    assert NullElidedEntries(",2]") == ",2]";
  }

  // ---------------------------------------------------------------------------
  // No rewrite after step 1 brings an encoded quote back

  lemma NoEntitySuffix(s: string, k: nat)
    requires NoEntity(s) && k <= |s|
    ensures NoEntity(s[k..])
  {
    forall i | 0 <= i < |s[k..]| ensures !EntityAt(s[k..], i) {
      if EntityAt(s[k..], i) {
        assert s[k..][i..i + 6] == s[k + i..k + i + 6];
        assert EntityAt(s, k + i);
      }
    }
  }

  lemma StripCustomPrefixKeepsNoEntity(s: string)
    requires NoEntity(s)
    ensures NoEntity(StripCustomPrefix(s))
  {
    if HasCustomPrefix(s) {
      NoEntitySuffix(s, 5);
      NoEntityCons('[', s[5..]);
      NoEntityCons('[', [('[')] + s[5..]);
      assert "[[" + s[5..] == [('[')] + ([('[')] + s[5..]);
    }
  }

  /** When step 4 drops a leading comma, what it emits first is whitespace or a closing bracket. */
  lemma DropClosingCommasHead(t: string)
    requires t != [] && t[0] == ',' && ClosesNext(t[1..])
    ensures var r := DropClosingCommas(t);
      r != [] && (IsWhitespace(r[0]) || r[0] == '}' || r[0] == ']')
  {
    var u := t[1..];
    var m := LeadingWhitespace(u);
    assert !IsWhitespace(',');
    forall j | 0 <= j < m + 1 ensures u[j] != ',' {
      if j < m {
        assert IsWhitespace(u[j]);
      }
    }
    DropClosingCommasSkipsCommaFree(u, m + 1);
    assert DropClosingCommas(t) == DropClosingCommas(u);
    if m > 0 {
      assert IsWhitespace(u[0]);
    }
  }

  /** A character of `quot;`, the part of the entity after its `&`. */
  predicate IsEntityTail(c: char) {
    c == 'q' || c == 'u' || c == 'o' || c == 't' || c == ';'
  }

  lemma EntityTailIsSolid(c: char)
    requires IsEntityTail(c)
    ensures !IsWhitespace(c) && c != '}' && c != ']'
  {
  }

  /** When step 4's output starts with a character of `quot;`, that character was copied, not a comma dropped. */
  lemma DropClosingCommasKeepsHead(t: string)
    requires DropClosingCommas(t) != [] && IsEntityTail(DropClosingCommas(t)[0])
    ensures t != [] && DropClosingCommas(t) == [t[0]] + DropClosingCommas(t[1..])
  {
    EntityTailIsSolid(DropClosingCommas(t)[0]);
    if t[0] == ',' && ClosesNext(t[1..]) {
      DropClosingCommasHead(t);
      assert false;
    }
  }

  /** A prefix of step 4's output made of characters of `quot;` was copied unchanged. */
  lemma {:induction false} DropClosingCommasCopiesPrefix(t: string, k: nat)
    requires k <= |DropClosingCommas(t)|
    requires forall j :: 0 <= j < k ==> IsEntityTail(DropClosingCommas(t)[j])
    ensures k <= |t| && t[..k] == DropClosingCommas(t)[..k]
    decreases |t|
  {
    if k > 0 {
      DropClosingCommasKeepsHead(t);
      var r := DropClosingCommas(t[1..]);
      forall j | 0 <= j < k - 1 ensures IsEntityTail(r[j]) {
        assert r[j] == DropClosingCommas(t)[j + 1];
      }
      DropClosingCommasCopiesPrefix(t[1..], k - 1);
      calc {
        t[..k];
        [t[0]] + t[1..][..k - 1];
        [t[0]] + r[..k - 1];
        ([t[0]] + r)[..k];
      }
    }
  }

  /** An `&` followed by step 4's output `quot;` was an encoded quote already. */
  lemma DropClosingCommasEntityAhead(s: string)
    requires s != [] && s[0] == '&'
    requires var r := DropClosingCommas(s[1..]); |r| >= 5 && r[..5] == "quot;"
    ensures EntityAt(s, 0)
  {
    var t := s[1..];
    var r := DropClosingCommas(t);
    forall j | 0 <= j < 5 ensures IsEntityTail(r[j]) {
      assert r[j] == "quot;"[j];
    }
    DropClosingCommasCopiesPrefix(t, 5);
    assert s[..6] == [s[0]] + t[..5];
    EntityParts();
  }

  lemma {:induction false} DropClosingCommasKeepsNoEntity(s: string)
    requires NoEntity(s)
    ensures NoEntity(DropClosingCommas(s))
    decreases |s|
  {
    if s != [] {
      var t := s[1..];
      var r := DropClosingCommas(t);
      NoEntitySuffix(s, 1);
      DropClosingCommasKeepsNoEntity(t);
      if s[0] == ',' && ClosesNext(t) {
        assert DropClosingCommas(s) == r;
      } else {
        assert DropClosingCommas(s) == [s[0]] + r;
        if s[0] == '&' && |r| >= 5 && r[..5] == "quot;" {
          DropClosingCommasEntityAhead(s);
          assert false;
        }
        NoEntityCons(s[0], r);
      }
    }
  }

  /** A prefix of step 5's output made of characters of `quot;` was copied unchanged. */
  lemma {:induction false} NullElidedEntriesCopiesPrefix(t: string, k: nat)
    requires k <= |NullElidedEntries(t)|
    requires forall j :: 0 <= j < k ==> IsEntityTail(NullElidedEntries(t)[j])
    ensures k <= |t| && t[..k] == NullElidedEntries(t)[..k]
    decreases |t|
  {
    if k > 0 && t != [] {
      assert IsEntityTail(NullElidedEntries(t)[0]);
      if !(t[0] == ',' && ElidedNext(t[1..])) {
        var r := NullElidedEntries(t[1..]);
        assert NullElidedEntries(t) == [t[0]] + r;
        forall j | 0 <= j < k - 1 ensures IsEntityTail(r[j]) {
          assert r[j] == NullElidedEntries(t)[j + 1];
        }
        NullElidedEntriesCopiesPrefix(t[1..], k - 1);
        calc {
          t[..k];
          [t[0]] + t[1..][..k - 1];
          [t[0]] + r[..k - 1];
          ([t[0]] + r)[..k];
        }
      }
    }
  }

  /** An `&` followed by step 5's output `quot;` was an encoded quote already. */
  lemma NullElidedEntriesEntityAhead(s: string)
    requires s != [] && s[0] == '&'
    requires var r := NullElidedEntries(s[1..]); |r| >= 5 && r[..5] == "quot;"
    ensures EntityAt(s, 0)
  {
    var t := s[1..];
    var r := NullElidedEntries(t);
    forall j | 0 <= j < 5 ensures IsEntityTail(r[j]) {
      assert r[j] == "quot;"[j];
    }
    NullElidedEntriesCopiesPrefix(t, 5);
    assert s[..6] == [s[0]] + t[..5];
    EntityParts();
  }

  lemma {:induction false} NullElidedEntriesKeepsNoEntity(s: string)
    requires NoEntity(s)
    ensures NoEntity(NullElidedEntries(s))
    decreases |s|
  {
    if s != [] {
      var t := s[1..];
      var r := NullElidedEntries(t);
      NoEntitySuffix(s, 1);
      NullElidedEntriesKeepsNoEntity(t);
      if s[0] == ',' && ElidedNext(t) {
        NoEntityCons('l', r);
        NoEntityCons('l', [('l')] + r);
        NoEntityCons('u', [('l')] + ([('l')] + r));
        NoEntityCons('n', [('u')] + ([('l')] + ([('l')] + r)));
        assert "null" + r == [('n')] + ([('u')] + ([('l')] + ([('l')] + r)));
      } else {
        assert NullElidedEntries(s) == [s[0]] + r;
        if s[0] == '&' && |r| >= 5 && r[..5] == "quot;" {
          NullElidedEntriesEntityAhead(s);
          assert false;
        }
        NoEntityCons(s[0], r);
      }
    }
  }

  /**
   * The text handed to `JSON.parse` holds no encoded quote and no elided
   * entry: each rewrite after the first keeps the first property, and the
   * last establishes the second.
   */
  lemma CleanParamsIsDecoded(s: string)
    ensures NoEntity(CleanParams(s))
    ensures NoElidedComma(CleanParams(s))
  {
    var s1 := DecodeQuotes(s);
    var s2 := StripCustomPrefix(s1);
    var s4 := RemoveTrailingCommas(EnsureClosingBracket(s2));
    DecodeQuotesLeavesNoEntity(s);
    StripCustomPrefixKeepsNoEntity(s1);
    RemoveTrailingCommasDropsClosingCommas(s2);
    DropClosingCommasKeepsNoEntity(s2);
    NullElidedEntriesKeepsNoEntity(s4);
    NullElidedEntriesLeavesNone(s4);
  }
}
