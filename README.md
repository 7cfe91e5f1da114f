# A verified model of the `ini` line scanner

The Go package `ini` parses INI text in a single pass over its lines. It
reports three kinds of events to a caller-supplied `Handler`:

- whole-line comments (a trimmed line starting with `;`);
- section headers (`[name]`, with whitespace in the name normalised);
- key/value groups.

A key/value group is built as follows:

- a `key = value` line starts a group, or adds a value when the key is
  the one already pending;
- an indented line without `=` adds another value to the pending key;
- a bare key without `=` is a key with the single value `""`.

The scanner holds back one pending key so that these lines can collect
into one event. Three malformed line shapes stop the scan with a
`SyntaxError`:

- an unclosed header;
- an empty or bracketed section name;
- an empty key.

A callback that returns an error also stops the scan.

The model has four modules.

- `Text` (text.dfy) defines the string primitives the scanner uses:
  - `unicode.IsSpace`, `strings.TrimSpace`, `strings.Fields` and
    `strings.Join`;
  - `strings.Index` for one character and `strings.ContainsAny`;
  - decimal printing;
  - `cleanKey`, with the facts that it normalises (`IsNormal`), is
    idempotent and keeps the fields.
- `Ini` (ini.dfy) holds the data model and the scanner itself:
  - the data model: `Location`, `Event`, `SyntaxError`, the message
    constants and `Handler`. A `Handler` has optional callbacks; an absent
    one accepts its event.
  - the scanner as a pure step function `Step` over a `ScanState`. The
    state holds the location and the pending key, its origin and its
    values. `Scan` is the left fold of `Step`, and `ScanAll` adds the
    final flush.
  - `Deliver`/`Observe`, which say what a handler sees: every event up to
    and including the first one it refuses.
  - the imperative `Parse` method. It mirrors ini.go's loop: the same
    local variables and the `emit` closure as `Emit`. There is one method
    each for the header, no-'=' and key=value blocks; blank and comment
    lines are handled inline in `ScanLine`. `Parse` is proved equal to
    `Observe(h, ScanAll(lines))`.
- `IniProperties` (properties.dfy) proves what the package's
  documentation promises about the resulting stream:
  - each event is traced back to the raw line at its location;
  - events come in strictly increasing line order;
  - each event carries the last section header before it;
  - key and section names are non-empty and normalised, and every key
    has at least one value;
  - a syntax error is explained by its own line alone, in any state, and
    nothing after it is looked at;
  - a bare key, `key=` and `key =` give the same stream when the key
    line ends the input and the key is not the one already pending;
  - when no line repeats the pending key with another `key=value` line,
    "" only ever occurs as the single value of a key;
  - a blank input gives nothing;
  - a handler with no callbacks sees everything.
- `IniExamples` (examples.dfy) states, as lemmas about `ScanAll`:
  - every syntax-error case of the package's test file;
  - its parse cases, except the "LLVMBuild.txt" input (see "## Left out");
  - small inputs on which the package documentation overstates what the
    scanner does (see "## Findings").

The comment text passed to the handler is the raw line, with its leading
whitespace. The documentation of `Handler.Comment` (ini.go:30-31) says
that leading and trailing whitespace are removed, but the code passes the
untrimmed line (ini.go:181). The model follows the code. The `Comments`
example pins this down: the line `" ; blah"` is delivered with its
leading space.

## Model

| member | source | states |
|---|---|---|
| Text.CleanKey | ini.go:248-250 | the normalised key is empty exactly when the key is all whitespace |
| Text.CleanKeyNormal | ini.go:248-250 | a normalised key holds no whitespace except single inner ASCII spaces |
| Text.CleanKeyFields | ini.go:248-250 | normalising keeps the whitespace-separated fields of the key |
| Text.CleanKeyIdempotent | ini.go:248-250 | normalising a normalised key changes nothing |
| Text.FieldsOfJoin | ini.go:249 | splitting words joined by single spaces gives back the words |
| Text.TrimSpace | ini.go:172 | the trimmed line is empty exactly when the line is all whitespace, and otherwise starts and ends with a non-space character |
| Text.TrimSpaceOf | ini.go:172 | any span with only whitespace outside it and non-space characters at its ends is what trimming returns |
| Text.Fields | ini.go:249 | every field is a non-empty run of non-space characters; there are no fields exactly when the text is all whitespace |
| Text.IndexOf | ini.go:203 | the position of the first '=' or -1 exactly when there is none |
| Text.ContainsAny | ini.go:192 | true exactly when some character of the name is a bracket |
| Text.DecimalRoundTrip | ini.go:81 | the printed line number reads back as the line number |
| Ini.ErrorMessage | ini.go:80-86 | the message is "line ", the decimal line number, ": " and the description, then ": " and the key exactly when the key is non-empty |
| Ini.Handler.Dispatch | ini.go:45-64 | the answer is that of the callback for the event's kind when it is present, and acceptance when it is absent |
| Ini.Step | ini.go:169-240 | every line advances the line number by one; a syntax error is reported at the line's own location |
| Ini.HeaderLine | ini.go:187-201 | a header keeps the line number and reports its errors at that line |
| Ini.NoEqualsLine | ini.go:203-225 | a line without '=' never stops the scan and moves to its own location |
| Ini.PairLine | ini.go:227-240 | a key=value line moves to its own location, or stops there with the empty-key error |
| Ini.IsIndented | ini.go:176 | an indented line is non-empty and its first character is whitespace, one of the characters trimming removes |
| Ini.Scan | ini.go:169-244 | the left fold of `Step` over the lines from the initial state; a running scan has counted every line, and a syntax error names one of them |
| Ini.ScanAll | ini.go:169-245 | the left fold of `Step`, then the final flush: it fails exactly when the fold does, the flush adds at most the one pending group to the released events, and a failure names one of the lines |
| Ini.Deliver | ini.go:25-28 | all events are accepted exactly when every callback accepts; otherwise the first refusal is reported with its error |
| Ini.Observe | ini.go:98-101 | the handler sees a prefix of the stream: all of it with the scan's own outcome, or everything up to the first refused event with that refusal |
| Ini.ScanExtends | ini.go:169-241 | more input only extends the released events, and a failed scan stays failed |
| Ini.ScanAllExtends | ini.go:169-245 | the whole stream starts with the events of any prefix, and a prefix that fails decides the whole result |
| Ini.Emit | ini.go:161-167 | the pending key, if any, is delivered as one key/value event, and nothing is delivered when no key is pending |
| Ini.ScanLine | ini.go:170-240 | the handler receives the events of `Step` on this line and the new locals are `Step`'s state; a syntax error comes before any of the line's events, and a refusal ends the line at the refused event |
| Ini.ScanHeader | ini.go:187-201 | the handler receives the events of `HeaderLine` and the new locals are its state, or the header's syntax error is reported before any event |
| Ini.ScanNoEquals | ini.go:203-225 | the handler receives the events of `NoEqualsLine` (none for a continuation) and the new locals are its state |
| Ini.ScanPair | ini.go:227-240 | the handler receives the events of `PairLine` and the new locals are its state, or the empty-key error is reported before any event |
| Ini.Parse | ini.go:153-246 | the events the handler receives and the outcome are those of the pure scan of the lines as the handler observes it |
| IniProperties.BlankLine | ini.go:172-175 | a blank line releases nothing and changes only the line number |
| IniProperties.Continuation | ini.go:205-213 | an indented line without '=' while a key is pending adds its trimmed text as a value, replacing a lone "" |
| IniProperties.BareKey | ini.go:215-224 | an unindented line without '=', or any such line when no key is pending, releases the pending group and then the bare key with the value "" |
| IniProperties.KeyValueLine | ini.go:227-240 | a value for the pending key is appended; a different key releases the pending group and starts a new one at this line |
| IniProperties.StopExplained | ini.go:187-230 | a syntax error is one of the three malformed shapes of its line and is reported at that line |
| IniProperties.BadLineStops | ini.go:187-231 | a malformed line stops the scan with its error in every state |
| IniProperties.StepShape | ini.go:169-240 | every non-stopping line is quiet, emits one event of its own after the pending group, or begins a new key |
| IniProperties.SectionedAt | ini.go:34-36 | every event carries the name of the last section header before it |
| IniProperties.ScanConsistent | ini.go:153-241 | after any input the scanner's invariant holds: a well-formed stream so far, a pending key exactly when it has values, and an error explained by its line |
| IniProperties.StreamWellFormed | ini.go:34-42 | every event comes from the line at its location, in line order, and carries the current section; keys and section names are non-empty and normalised; every key has at least one value |
| IniProperties.FinalTrace | ini.go:245 | the final flush keeps the stream well-formed |
| IniProperties.EventNormal | ini.go:39-42 | an event a line produces has a non-empty normalised name and at least one value |
| IniProperties.ErrorLocality | ini.go:98-101 | a syntax error is explained by the line it names and carries the current section; it is the stop of the running scan of the lines before it, whose events are exactly the events of the result, so the pending key is never flushed; lines after it change nothing |
| IniProperties.FailedStays | ini.go:189-230 | after a syntax error more input changes nothing |
| IniProperties.BlankInput | ini.go:172-175 | an input of blank lines produces no events |
| IniProperties.NilHandlerSeesAll | ini.go:45-64 | a handler without callbacks receives every event, and the outcome is the scan's own |
| IniProperties.BareKeyEquivalence | ini.go:139-145 | when the key line ends the input and the key is not pending, `foo`, `foo=` and `foo =` give the same whole stream: the pending group, then the key with the single value "" |
| IniProperties.StepNoEmptyAmongMany | ini.go:203-240 | a line that does not repeat the pending key keeps the pending values free of "" among several values, and releases only keys whose values are of that kind |
| IniProperties.ScanNoEmptyAmongMany | ini.go:169-241 | when no line repeats the pending key, every released key with several values has no "" among them, and neither have the pending values |
| IniProperties.MultiValueNoEmpty | ini.go:146-147 | when no line repeats the pending key, no key of the whole stream has "" among several values |
| IniProperties.EqualsAt | ini.go:203-232 | in `foo=` and `foo =` the only '=' ends the trimmed line, and the text before it normalises to the key |
| IniExamples.EmptyInput | ini_test.go:39 | the empty input produces no events |
| IniExamples.Whitespace | ini_test.go:40 | whitespace-only lines produce no events |
| IniExamples.Comments | ini_test.go:42-45 | two comments at lines 2 and 3, each carrying its raw line |
| IniExamples.Sections | ini_test.go:47-51 | three headers at lines 2, 3 and 5, the last with its whitespace normalised, each located in the previous section |
| IniExamples.BareKeys | ini_test.go:53-56 | two bare keys at lines 3 and 4 with the value "" |
| IniExamples.SingleKeys | ini_test.go:58-61 | `a` = 45 at line 1 and `b` = 29 at line 2 |
| IniExamples.MultiValueBlank | ini_test.go:63-65 | the empty first value is replaced by the continuation values |
| IniExamples.MultiValueNonblank | ini_test.go:66-68 | continuation values follow a non-empty first value |
| IniExamples.MultiValueSkip | ini_test.go:69-71 | a blank line does not end a value list |
| IniExamples.MixedValueBlank | ini_test.go:72-76 | an indented line attaches to the pending key; `c=` and bare `d` are new keys |
| IniExamples.MixedValueIndent | ini_test.go:77-81 | an indented line with '=' begins a new key |
| IniExamples.NormalizeKeys | ini_test.go:83-85 | the key is normalised to "a long key" and the value keeps its inner whitespace |
| IniExamples.UnclosedHeaderError | ini_test.go:169 | `[bad` fails at line 1 with the unclosed-header message and the key "bad" |
| IniExamples.TrailingBracketError | ini_test.go:170 | `[bad name]]` fails with the invalid-section message and the name "bad name]" |
| IniExamples.LeadingBracketError | ini_test.go:171 | `[[bad name]` fails with the invalid-section message and the name "[bad name" |
| IniExamples.MissingKeyError | ini_test.go:172-173 | `= missing key`, with or without surrounding whitespace, fails with the empty-key message and no key |
| IniExamples.SampleFile | ini_test.go:87-94 | the "sample.ini" input gives its comment at line 1 with the raw text, the header `quoted_fields` at line 3, and two keys at lines 4 and 5 whose quoted values lose only the surrounding whitespace |
| IniExamples.RepeatedEmptyValue | ini.go:233-240 | a repeated `a=` after `a=x` gives the one key `a` with the values "x" and "" |
| IniExamples.BareAfterSameKey | ini.go:215-224 | a bare `a` after `a=x` releases `a` with ["x"] and then a second `a` with [""] |
| IniExamples.BareKeyNotEquivalent | ini.go:139-145 | after `a=x`, the lines `a` and `a=` give different streams |
| IniExamples.IndentedAfterBareKey | ini.go:205-224 | after a bare `a`, the indented ` b` is the bare key `b` at line 2, not a value of `a` |
| IniExamples.IndentedAfterEmptyValue | ini.go:205-213 | after `a=`, the indented ` b` replaces the empty value, giving `a` with ["b"] |
| IniExamples.BareKeyNotEquivalentIndented | ini.go:139-145 | followed by the indented ` b`, the lines `a` and `a=` give different streams |

## Left out

- Reading and splitting the input. `bufio.Scanner` is not part of this
  model, and neither is the read error checked at ini.go:242-244. `Parse`
  takes the input already split into lines, without their line
  terminators.
- Callbacks are total functions from their arguments to an optional
  error. Side effects, panics and a callback that looks at shared state
  are not modelled.
- Strings are sequences of Unicode code points, not UTF-8 bytes.
  ini.go's byte tests `clean[0]` and `text[0]` agree with a code-point
  test for the ASCII characters they compare against.
- Invalid UTF-8 is not modelled.
- `Location.line` is an unbounded natural number. The wrap-around of Go's
  `int` after 2^63 - 1 lines is not modelled.
- The `*SyntaxError` pointer and Go's `error` interface are left out. A
  syntax error is a value of `Ini.SyntaxError`, and `Ini.ErrorMessage` is
  its `Error` text.
- The "LLVMBuild.txt" parse case of the test file (ini_test.go:95-118,
  with its input at ini_test.go:264-319) is not stated as an example, and
  neither is the stream of `ExampleParse` (ini_test.go:189-261). Each line
  of a literal input needs its own small lemmas about trimming and
  normalising that literal, so an input of dozens of lines costs more
  proof than it adds. Their line shapes are all covered by the other
  examples and by the general lemmas.
- IniProperties.BareKeyEquivalence covers only a key line that ends the
  input. When another line follows, `foo` and `foo=` can differ: an
  indented line is a value of `foo=` but a new key after `foo`, a
  `foo=x` line adds to `foo=` but is a new key after `foo`, and a syntax
  error drops a pending `foo=` that a bare `foo` has already released.
  The first of these is stated as `IniExamples.BareKeyNotEquivalentIndented`.
- IniProperties.MultiValueNoEmpty is proved only for inputs in which no
  `key=value` line repeats the pending key. On other inputs it may or may
  not hold: `a=1` then `a=2` gives `a` with ["1", "2"], but a repeated
  `key=` line does add "" among several values
  (`IniExamples.RepeatedEmptyValue`).
- The syntax-error examples state the error the scan ends with (its
  location, description and key). The formatted message text of those
  cases is not stated line by line; `Ini.ErrorMessage` states its layout
  for every error.

## Findings

The model keeps the code's behaviour. The documentation of ini.go
(ini.go:135-147) states two consequences of its rules that the code does
not keep in every input. The corrected members state the documented
property for the inputs where it holds.

| source | as written | input that shows it | evidently intended | confidence | as-written member | corrected member |
|---|---|---|---|---|---|---|
| ini.go:146-147 | a repeated `key=` line appends "" to the pending key (ini.go:233-240), so a multi-valued key can have "" as one of its values | `["a=x", "a="]` gives `a` with ["x", ""] | "" occurs only as the sole value of a key; this holds when no `key=value` line repeats the pending key | medium; not executed | IniExamples.RepeatedEmptyValue | IniProperties.MultiValueNoEmpty |
| ini.go:139-144 | a bare `foo` after a pending `foo` releases a second `foo` event (ini.go:215-224), while `foo=` adds a value to the pending one | `["a=x", "a"]` and `["a=x", "a="]` give different streams | `foo`, `foo=` and `foo =` are equivalent; this holds when the key line ends the input and `foo` is not the pending key | medium; not executed | IniExamples.BareKeyNotEquivalent | IniProperties.BareKeyEquivalence |
| ini.go:139-144 | a bare `foo` never becomes pending (ini.go:215-224), so an indented line after it is a new bare key, while after `foo=` it is the value (ini.go:205-213) | `["a", " b"]` and `["a=", " b"]` give different streams | `foo`, `foo=` and `foo =` are equivalent; this holds when the key line ends the input and `foo` is not the pending key | medium; not executed | IniExamples.BareKeyNotEquivalentIndented | IniProperties.BareKeyEquivalence |
