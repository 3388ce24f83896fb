# google-form-converter, modelled in Dafny

The converter turns a Google Form page into a JSON description of its
questions. Once the page is a document tree, three pieces do the work, and
this project models all three:

- **The `data-params` normaliser** (`parseDataParams`). Google Forms stores a
  near-JSON text in each question's `data-params` attribute. The normaliser
  applies five ordered regular-expression rewrites and then calls
  `JSON.parse`. Any failure gives `null`.
  - Each rewrite is a total function on strings, written character by
    character as its regular expression reads (`DataParams`).
  - None of the rewrites knows about quoted strings.
  - A Dafny `char` is a Unicode scalar value, while the regular expressions
    (which have no `u` flag) run over UTF-16 code units. Only the `.` of
    step 2 can tell the difference, and `DataParams.HasCustomPrefix` accounts
    for it: a character outside the Basic Multilingual Plane after `%` is
    two code units, so the prefix does not match.
  - Step 3 (`/\]$/` to `"]"`) is the identity.
  - Step 5 replaces the comma itself with `null`, so `[1,,2]` becomes
    `[1null,2]` (`DataParams.NullElidedEntriesOnElidedEntry`). The comment
    beside it (parsers.js:12) says it fills empty entries with null; it
    does not. A standard `JSON.parse` rejects `[1null,2]`, so a
    `data-params` text with an elided entry usually ends as `null`. When the
    elision directly follows `[`, as in `[,,2]`, the cleaned text is
    `[null,2]`, which parses with one entry lost
    (`DataParams.CleanParamsOnLeadingElision`). The model keeps
    the rewrite as written.
- **The field classifier** (`Parsers`). It is built from:
  - `parseMetadata`, which extracts the label and the metadata common to
    every question;
  - seven item parsers (date, time, radio, dropdown, text, textarea and the
    fallback), each a `test`/`parse` pair;
  - the ordered `parsers` list, in which the first parser whose test holds
    wins.
- **The form assembler** (`FetchForm`). It is the part of `fetchForm` that
  runs once the document exists:
  - with no `form` element it builds nothing;
  - otherwise it creates the `formStructure` object and fills it in place;
  - it classifies every `role="listitem"` element of the whole document in
    document order;
  - it pushes one `{name, value}` per hidden input of the form.

Supporting modules:

- `Strings`: the ECMAScript whitespace set behind `\s` and `trim()`, and `trim()` itself.
- `Dom`: the document as a tree of elements and text nodes, with the fixed
  selector forms the code uses. It also gives `querySelector`,
  `querySelectorAll` and `textContent` over that tree.
- `Wrappers`: `Option`.

`fetchForm.js` carries inlined copies of the normaliser, `parseMetadata` and
the parsers. They match `parsers.js` line for line, apart from comments and
layout. The model defines them once, from `parsers.js`. The assembler is
taken from `fetchForm.js`.

Three things come from outside and are fields of `Parsers.Host`:

- `JSON.parse`, as `string -> Option<Json>`, where `None` is a thrown
  `SyntaxError`;
- `outerHTML`;
- the resolved URL of `formElement.action`.

A few names differ from the JavaScript:

- The descriptor key `label` is called `caption`, because `label` is a
  Dafny keyword.
- A descriptor is a `Field`: the spread `...metadata` as `meta`, plus the
  kind-specific `payload`.
- The radio options are `radioOptions`.

Each date minimum is the `min` attribute of the Month, Day or Year input
that was found, which may be `null`. The defaults 1, 1 and 1900 apply only
when that input is missing (parsers.js:83-91). Once an item is classified
as a date, its Year input always exists, so the year minimum is never
the "1900" default; it is whatever `min` that input carries
(`Parsers.DateYearMinFromInput`).

## Model

| member | source | states |
|---|---|---|
| Strings.LeadingWhitespace | parsers.js:11 | the `\s*` run: its length is within the string, every character in it is whitespace, and the next character (if any) is not |
| Strings.Trim | parsers.js:30 | `trim()` gives the infix left after removing a whitespace run at each end: everything removed is whitespace, and the result neither starts nor ends with whitespace |
| Strings.TrimIdempotent | parsers.js:30 | trimming a trimmed string changes nothing |
| Dom.QuerySelectorAllMembers | parsers.js:132 | `querySelectorAll` lists exactly the proper descendants that match the selector |
| Dom.FilterMembers | parsers.js:196 | filtering a node list keeps exactly its matching nodes |
| Dom.FilterAppend | parsers.js:132 | filtering distributes over concatenation, so document order is kept |
| Dom.QuerySelectorIsFirst | parsers.js:28 | the depth-first `querySelector` search returns exactly the first node `querySelectorAll` lists, or none when that list is empty |
| Dom.QuerySelectorFinds | parsers.js:34-36 | `querySelector` finds a node exactly when some proper descendant matches, and the node it finds is a matching descendant |
| Dom.TextContentIsTextDescendants | parsers.js:30 | the recursive `textContent` of an element equals the data of its text-node descendants, concatenated in document order |
| DataParams.DecodeQuotesLeavesNoEntity | parsers.js:8 | after step 1 no `&quot;` occurs anywhere; the left-to-right replacement never builds a new one |
| DataParams.DecodeQuotesKeepsPlainText | parsers.js:8 | on text without `&quot;`, step 1 changes nothing |
| DataParams.DecodeQuotesIdempotent | parsers.js:8 | applying step 1 twice is the same as applying it once |
| DataParams.StripCustomPrefix | parsers.js:9 | the string changes exactly when it starts with `%`, one character that is a single UTF-16 code unit and not a line terminator, `@`, `.`, `[`; those five characters then become `[[` and the rest is unchanged |
| DataParams.StripCustomPrefixKeepsAstral | parsers.js:9 | the `.` of the prefix matches one UTF-16 code unit: after `%`, a character outside the Basic Multilingual Plane leaves the string unchanged, while a one-unit character lets the prefix be replaced |
| DataParams.EnsureClosingBracket | parsers.js:10 | step 3 maps every string to itself |
| DataParams.RemoveTrailingCommasDropsClosingCommas | parsers.js:11 | the regex scan of step 4 equals the character-by-character filter: it deletes exactly the commas whose next non-whitespace character is `}` or `]`, and keeps every other character in order, inside quoted strings too |
| DataParams.NullElidedEntriesLeavesNone | parsers.js:12 | after step 5 no comma is followed, past whitespace, by `,`, `}` or `]` |
| DataParams.NullElidedEntriesKeepsComplete | parsers.js:12 | on text where no comma is followed by `,`, `}` or `]`, step 5 changes nothing |
| DataParams.NullElidedEntriesIdempotent | parsers.js:12 | applying step 5 twice is the same as applying it once |
| DataParams.NullElidedEntriesOnElidedEntry | parsers.js:12 | `[1,,2]` becomes `[1null,2]`: the comma itself is replaced, not an entry inserted |
| DataParams.CleanParamsOnLeadingElision | parsers.js:7-12 | an elision right after `[` loses a position: `[,,2]` is cleaned to `[null,2]` |
| DataParams.StripCustomPrefixKeepsNoEntity | parsers.js:9 | step 2 does not create a `&quot;` |
| DataParams.DropClosingCommasKeepsNoEntity | parsers.js:11 | step 4 does not bring a `&quot;` back by deleting a comma between `&` and `quot;` |
| DataParams.NullElidedEntriesKeepsNoEntity | parsers.js:12 | step 5 does not create a `&quot;` |
| DataParams.CleanParamsIsDecoded | parsers.js:7-12 | the text handed to `JSON.parse` holds no `&quot;` and no comma followed, past whitespace, by `,`, `}` or `]` |
| DataParams.ParseDataParams | parsers.js:3-23 | never fails: the parse of the cleaned text when `JSON.parse` accepts it, and `null` when it throws |
| Parsers.ParseMetadata | parsers.js:26-49 | `question` is the trimmed text of the first heading, or "Unnamed" without one. `rawDataParams` is present exactly when a descendant carries `data-params`, and is the attribute of the first such descendant. `parsedDataParams` is `null` when the raw text is absent or empty, and `parseDataParams(raw)` otherwise |
| Parsers.QuestionIsTrimmed | parsers.js:28-31 | the question label neither starts nor ends with whitespace |
| Parsers.RawDataParamsPresence | parsers.js:34-36 | `rawDataParams` is present exactly when some proper descendant carries a `data-params` attribute |
| Parsers.FieldIdOf | parsers.js:131 | `fieldId` is present exactly when the control was found |
| Parsers.ParseDate | parsers.js:69-96 | a date descriptor; the maxima are always 12, 31 and 2100; each minimum is the found input's `min` attribute (possibly `null`) and defaults to 1, 1 or 1900 only when that input is absent |
| Parsers.DateYearMinFromInput | parsers.js:65-93 | an item dispatched to the date parser has a Year input, so its year minimum is that input's `min` attribute and never the default |
| Parsers.ParseTime | parsers.js:103-119 | the time descriptor is the same constant for every element: hour 1 to 12, minute 0 to 59, period AM/PM |
| Parsers.ParseRadio | parsers.js:189-226 | `fieldId` is present exactly when a hidden `entry` input exists, and is then the first one's `name` property. There is one option per `role="radio"` descendant, in order, with its label and value, selected exactly when `aria-checked` is "true". When an "Other response" input exists, exactly one final "Other" option carrying that input's name is appended. `hasOtherOption` holds exactly when that input exists |
| Parsers.RadioOtherChoiceIsUnique | parsers.js:204-224 | a radio descriptor holds one synthetic "Other" option when `hasOtherOption` holds and none otherwise, and that option is the last |
| Parsers.ParseDropdown | parsers.js:126-146 | `fieldId` is present exactly when a hidden `entry` input exists, and is then the first one's `name` property; there is one `{label, value}` per `role="option"` descendant, in order, the label being its trimmed text |
| Parsers.ParseText | parsers.js:153-164 | `fieldId` is present exactly when a text input exists, and is then the first one's name |
| Parsers.ParseTextarea | parsers.js:171-182 | `fieldId` is present exactly when a textarea exists, and is then the first one's name |
| Parsers.ParseUnknown | parsers.js:233-241 | the fallback descriptor has type "unknown", no `inputType`, and `rawHTML` equal to the element's `outerHTML` |
| Parsers.TestIsMarkerPresence | parsers.js:67-232 | `Parsers.Test` models the seven `test` lambdas (parsers.js:67-68, 102, 125, 152, 170, 188, 232): each of the six holds exactly when some proper descendant matches its marker selector (Year text input, Hour input, listbox, text input, textarea, radio group), and the fallback's holds for every element |
| Parsers.TextTestIgnoresTypeCase | parsers.js:152 | `[type="text"]` compares the value ignoring ASCII case, as selectors do for `type` on HTML elements: `<input type="TEXT">` passes the text test |
| Parsers.ParsePayloadKind | parsers.js:77-241 | each parser's descriptor has its own `type`/`inputType` tags (`Parsers.TypeOf`, `Parsers.InputTypeOf`): date/date, time/time, radio/radio, dropdown/select, text/text, textarea/textarea (parsers.js:79-80, 111-112, 221-222, 142-143, 161-162, 179-180), and unknown with no `inputType` for the fallback (parsers.js:238) |
| Parsers.Rank | parsers.js:244-251 | the position of each parser in the `parsers` list; the fallback comes after all six |
| Parsers.FirstPassing | fetchForm.js:278-283 | the index of the first parser whose test holds, and every earlier test fails; the length of the list when none holds |
| Parsers.Dispatch | fetchForm.js:277-285 | with `Parsers.Test` as the tests: the chosen parser's test holds and every parser before it fails; the fallback is chosen exactly when all six tests fail |
| Parsers.DispatchIsFirstMatch | fetchForm.js:278-283 | when parser `i` passes and every earlier parser fails, `i` is the one chosen |
| Parsers.RadioBeforeText | fetchForm.js:264-271 | an item with both a radio group and a text input is never a text field; it is a radio field unless a Year text input or an Hour input is also present |
| Parsers.TimeBeforeDropdown | fetchForm.js:264-271 | an item with both an Hour input and a listbox is a time field, not a dropdown, unless a Year text input is also present |
| Parsers.UnknownExactlyWhenNoTestHolds | fetchForm.js:277-285 | every descriptor carries the `parseMetadata` fields, and its type is "unknown" exactly when none of the six tests holds |
| FetchForm.FormStructure.constructor | fetchForm.js:21-25 | a new `formStructure` holds the form's action and empty `fields` and `hiddenFields` |
| FetchForm.FormStructure.PushHidden | fetchForm.js:293 | `hiddenFields.push` appends one entry and changes nothing else |
| FetchForm.Classify | fetchForm.js:278-284 | the dispatch loop with its early return gives the descriptor of the first parser whose test holds, or the fallback's |
| FetchForm.Classifications | fetchForm.js:277-285 | one descriptor per item |
| FetchForm.ClassifyAll | fetchForm.js:277-285 | `listItems.map(...)`: the i-th result is the classification of the i-th item |
| FetchForm.CollectHidden | fetchForm.js:291-294 | appends one `{name, value}` per hidden input, in order (`FetchForm.HiddenFieldOf` of the input: its reflected `name` and `value` properties, `Dom.NameProperty` and `Dom.ValueProperty`, each the attribute or "" when it is absent), and leaves `action` and `fields` unchanged |
| FetchForm.Assemble | fetchForm.js:15-294 | there is no result exactly when the document has no `form`. Otherwise the result is a new object with the form's action. Its `fields` has one descriptor per `role="listitem"` element of the whole document, the i-th being that element's classification. Its `hiddenFields` has one `{name, value}` per hidden input inside the form, in document order |

## Left out

- The network fetch, the status check, the thrown HTTP error and the async
  `try`/`catch` around the whole function (fetchForm.js:4-11, 300-302). These are I/O.
- The hard-coded URL call (fetchForm.js:305-307) and the module exports
  (parsers.js:253-254).
- HTML parsing by JSDOM (fetchForm.js:12-13). The model starts from an
  already-built tree of elements and text nodes.
  - Comment and other node types are not represented.
  - Tag and attribute names are taken as already lower-cased.
  - Attribute values are compared exactly, except `type`, which is compared
    ignoring ASCII case (`Dom.ValueIgnoresCase`). The HTML Standard lists more
    attributes compared that way, but the parser selects on none of them.
- Console diagnostics and the `JSON.stringify` printing of the result
  (fetchForm.js:296-299, parsers.js:18-20, 234). They are output only. The
  model's result is the `formStructure` object itself.
- `JSON.parse`, `outerHTML` and the URL resolution behind `formElement.action`.
  They are parameters (`Parsers.Host`) with no interpretation. The model
  proves what the cleaned text looks like, not what `JSON.parse` makes of it.
- `textContent` is defined concretely as the data of the text-node
  descendants in document order. It is not kept abstract.
- The general CSS selector engine. Only the fixed selector forms the code
  uses are modelled: a type selector, `[a="v"]`, `[a]`, `[a*="v"]`, and their
  compounds.
- Whitespace is the fixed ECMAScript WhiteSpace and LineTerminator set,
  written out as characters. Membership of the Unicode category Zs is taken
  as of Unicode's current table.
- The `name` field of `ItemParser` (parsers.js:58). Nothing reads it.
- The unused Hour, Minute and listbox lookups in the time parser
  (parsers.js:105-107). They have no effect on the result.
- The `inputType: "text"` key of the synthetic "Other" radio option is implied
  by `otherInput` being present rather than stored.
