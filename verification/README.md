# XScanner in Dafny

XScanner is a positional text scanner. It keeps a cursor over an immutable text and can test or consume options at the cursor:

- a string literal;
- an anchored regular expression;
- a registered *type*, meaning a user function that scans on a duplicate scanner;
- an *enum* `[key, substitute]`, which matches like its key and yields the substitute.

The scanner also keeps:

- `pos`, `lastPos` and `lastMatch`;
- a one-slot undo record;
- named pointers;
- registries of types and macros;
- a free-form `data` store.

The repository holds two independent implementations, modelled here as two modules:

| module | file | implementation |
|---|---|---|
| `TsScanner` | `ts_scanner.dfy` | `src/index.ts`, the typed class. It has output-type (`normal` / `full` / `advanced`) and comparison-mode (`normal` / `insensitive`) registries, `removeType` / `removeMacro`, and the `AdvancedScannerOutput` chain. |
| `JsScanner` | `js_scanner.dfy` | `index.js`, the untyped class that `test.js` exercises. It has `caseInsensitive` / `complexOutput` flags, records with a `value` field, `#getValue` / `#getMatchedText`, and a macro runner that restores settings. |

Shared pieces:

- `outcomes.dfy` (`Outcomes`): `Option`, `Result`, and `Step`. A `Step` is the outcome of a method: `Done(out, after)` or `Threw(error, after)`. A JavaScript exception does not roll back what the method already did, so a thrown step still carries the scanner as the exception left it.
- `js_values.dfy` (`JsValues`): the JavaScript values that flow through the scanner, with `Boolean(v)`, `v == null`, `??`, `.length` and `slice`.
- `matching.dfy` (`Matching`): lower-casing, `startsWith`, anchoring, the `i` and `y` flags, and the regular-expression engine. The engine is an uninterpreted function. Its match is somewhere in the text, and it starts the text only when the pattern pins it there: the pattern is sticky, or it starts with a `^` that binds the whole pattern and has no `m` flag. Whether `^` binds the whole pattern depends on a top-level `|`, which a small lexer over the source finds.
- `cursor.dfy` (`Cursor`): the `{ pos, lastPos, lastMatch }` record both scanners store, and the clamp every move applies.

How the model is built:

- A scanner is an immutable datatype. Every mutator returns the scanner as the method leaves it.
- Type and macro functions are registered as `Function` values, meaning values for which `typeof v === 'function'` holds.
- These functions run through the uninterpreted `typeFn` / `macroFn` of an `Env` parameter.
- A type function receives the duplicate scanner, so the caller's state cannot change until the commit step.

## Model

| member | source | states |
|---|---|---|
| JsValues.Coalesce | index.js:353 | `a ?? b` is `b` exactly when `a` is null or undefined, and `a` otherwise |
| JsValues.ReadLength | index.js:111-114 | reading `.length` gives a string's length, and throws exactly for null and undefined |
| JsValues.SliceFrom | index.js:389 | `slice(start)` is a suffix of the text, and the suffix from `start` when `start` is in range |
| JsValues.SliceTo | index.js:158 | `slice(0, end)` is a prefix of the text, and the first `end` characters when there are that many |
| Matching.Lower | src/index.ts:157-162 | lower-casing keeps the length and works character by character |
| Matching.LowerKeepsPrefix | src/index.ts:157-162 | a literal that matches case-sensitively also matches case-insensitively |
| Matching.Anchored | src/index.ts:487-489 | the anchored source starts with `^`; it is the original source when that already starts with `^`, and `^` + source otherwise; and it has a top-level alternation bar exactly when the original has one |
| Matching.WithIgnoreCase | src/index.ts:163-166 | the flags gain `i` when it is missing, and are unchanged when it is present |
| Matching.PinnedMatchIsPrefix | src/index.ts:147 | a match of a pattern pinned to the start of the text is a prefix of the text |
| Matching.AlternationUnpinsAnchor | src/index.ts:487-489 | in ^a&#124;b the bar is at the top level, so the `^` does not pin the pattern to the start |
| Matching.Sticky | src/index.ts:492 | the corrected flags contain `y`, keep every flag given, and pin every pattern to the start of the text |
| TsScanner.Advanced.Then | src/index.ts:89-91 | `then` is present exactly when the output matched, and is the parent scanner |
| TsScanner.SetOutputType | src/index.ts:230-236 | `normal`, `full` and `advanced` select their own output type and change nothing else; any other name throws and changes nothing |
| TsScanner.SetComparisonMode | src/index.ts:240-246 | `normal` and `insensitive` select their own mode and change nothing else; any other mode throws and changes nothing |
| TsScanner.OutputTypeName | src/index.ts:227-229 | the `outputType` getter returns one of the three registered names |
| TsScanner.ComparisonModeName | src/index.ts:237-239 | the `comparisonMode` getter returns one of the two registered names |
| TsScanner.OutputTypeRoundTrip | src/index.ts:227-236 | after an accepted `outputType = name` the getter returns `name`, and setting the current name changes nothing |
| TsScanner.ComparisonModeRoundTrip | src/index.ts:237-246 | after an accepted `comparisonMode = mode` the getter returns `mode`, and setting the current mode changes nothing |
| TsScanner.MovePosition | src/index.ts:347-360 | the old state goes to the undo slot, `lastPos` becomes the old `pos`, and `pos + n` is clamped into `[0, len]` in each of the three cases; nothing else changes, and the positions stay inside the text |
| TsScanner.SetPosition | src/index.ts:362-375 | as `movePosition`, with `n` clamped as an absolute position |
| TsScanner.Reset | src/index.ts:377-395 | `pos`, `lastPos`, `lastMatch` and the undo slot are always zeroed; a partial reset keeps everything else, and a full reset gives the freshly constructed scanner |
| TsScanner.UpdateMatch | src/index.ts:397-402 | a match moves the cursor by its length and becomes `lastMatch`; a null or undefined match throws and changes nothing |
| TsScanner.Commit | src/index.ts:397-402 | committing text that fits in the remainder moves `pos` by its length, exactly past it when it is the text at the cursor; only the cursor fields and the undo slot change |
| TsScanner.Undo | src/index.ts:404-418 | undo restores the slot's `pos` and `lastPos` and its `lastMatch` as read through the misspelled record; it stores the current state under `lastmMatch` |
| TsScanner.UndoAfterMove | src/index.ts:404-418 | one undo after a move restores the cursor state from before the move |
| TsScanner.UndoOnFreshScanner | src/index.ts:126 | undo on a new scanner leaves the cursor state as it was |
| TsScanner.UndoTwice | src/index.ts:404-418 | a second undo restores `pos` and `lastPos` but sets `lastMatch` to undefined, so it does not round-trip |
| TsScanner.UndoFixed | src/index.ts:404-418 | the corrected undo swaps the slot with the current state, storing `lastMatch` under its own name |
| TsScanner.UndoFixedTwice | src/index.ts:404-418 | with the corrected undo, two undos in a row restore the scanner exactly |
| TsScanner.Duplicate | src/index.ts:420-437 | the copy has the same text, cursor, pointers, registries, data and modes, with a fresh undo slot |
| TsScanner.SavePointer | src/index.ts:259-273 | the pointer now maps to the current state, other pointers are kept, and nothing else changes |
| TsScanner.LoadPointer | src/index.ts:275-291 | the undo slot is overwritten even when the name is unknown; an unknown name throws, and a known one restores the saved state |
| TsScanner.LoadAfterSave | src/index.ts:259-291 | save, move, then load returns to the saved cursor state |
| TsScanner.AddType | src/index.ts:293-304 | a non-function throws and changes nothing; otherwise the name maps to the function and the other types are kept |
| TsScanner.RemoveType | src/index.ts:306-317 | an unknown name throws; otherwise exactly that name is removed |
| TsScanner.RemoveTypeUndoesAdd | src/index.ts:293-317 | removing a type just added leaves the other types as they were, and restores the scanner when the name was new |
| TsScanner.AddMacro | src/index.ts:319-330 | a non-function throws and changes nothing; otherwise the name maps to the function and the other macros are kept |
| TsScanner.RemoveMacro | src/index.ts:332-343 | an unknown name throws; otherwise exactly that name is removed |
| TsScanner.RemoveMacroUndoesAdd | src/index.ts:319-343 | removing a macro just added leaves the other macros as they were, and restores the scanner when the name was new |
| TsScanner.Do | src/index.ts:710-718 | an unknown macro throws; a known one's effect is whatever the macro did to the scanner, which keeps the text and keeps every position inside it |
| TsScanner.DoRunsAddedMacro | src/index.ts:319-330 | after `addMacro(name, fn)`, `do(name)` runs `fn` on the scanner itself |
| TsScanner.CompareString | src/index.ts:139-162 | the literal comparator matches iff the remainder (lower-cased in insensitive mode) starts with the literal, and consumes the original-case slice of the literal's length |
| TsScanner.CompareRegex | src/index.ts:146-176 | the pattern comparator matches iff the engine finds a non-empty match; the matched text is the engine's, found inside the text, and a prefix of the text when the pattern is pinned to the start |
| TsScanner.Normalize | src/index.ts:720-780 | on failure every field but `matched` is null; on success the result is the supplied one, or `textMatched` when that is undefined |
| TsScanner.Renormalize | src/index.ts:611-621 | normalizing a normalized record again changes nothing |
| TsScanner.NormalOutputFrom | src/index.ts:720-739 | the normal output is null on failure, and otherwise the supplied result or, when that is undefined, the matched text |
| TsScanner.OutputFrom | src/index.ts:761-780 | normal output is the result, full output is the record, and advanced output wraps the record with `then` present iff matched |
| TsScanner.CheckStringData | src/index.ts:439-448 | an empty literal never matches; a match reports type `string`, the literal, and the consumed slice as result and `textMatched`; a failure is the null record |
| TsScanner.CheckString | src/index.ts:450-459 | the result is non-null iff the literal matches, it is then the consumed slice, and the scanner is not changed |
| TsScanner.ScanString | src/index.ts:461-476 | a match advances over the consumed slice and returns it; a miss returns null and changes nothing |
| TsScanner.CheckRegexData | src/index.ts:478-500 | the empty pattern never matches; otherwise the `^`-prefixed pattern matches iff the mode's comparator finds a non-empty match, the record carries the engine's text, and that text starts the remainder when the `^` pins it |
| TsScanner.CheckRegex | src/index.ts:502-524 | the result is non-null iff the pattern matches; it is then the engine's non-empty match within the remainder, at the cursor when the `^` pins it; the scanner is not changed |
| TsScanner.ScanRegex | src/index.ts:526-541 | a match advances over the matched text and returns it; a miss returns null and changes nothing |
| TsScanner.ScanRegexSkipsText | src/index.ts:526-541 | with an engine that finds `"b"` at index 1 of `"xb"` for ^a&#124;b, scanRegex(/a&#124;b/) returns `"b"` and moves `pos` over the `"x"` |
| TsScanner.CheckRegexDataFixed | src/index.ts:478-500 | with the pattern compiled sticky, a match is always a non-empty prefix of the remainder |
| TsScanner.ScanRegexFixed | src/index.ts:526-541 | the corrected `scanRegex` moves `pos` exactly past the text it returns |
| TsScanner.CheckTypeData | src/index.ts:673-682 | an unknown type throws; otherwise the record reports `type:<name>` and the function's `textMatched`, run on a duplicate |
| TsScanner.CheckType | src/index.ts:684-693 | an unknown type throws; otherwise the result is the type's `textMatched` or null, and the scanner is not changed |
| TsScanner.ScanType | src/index.ts:695-708 | an unknown type throws; a miss changes nothing; a match advances over `textMatched`; only the cursor fields and the undo slot can change |
| TsScanner.CheckOption | src/index.ts:546-598 | strings and patterns go to their checks; `[name]` runs the type; an enum key that is an enum throws; an enum throws when its key throws, matches iff its key matches, carries the key's `textMatched` and has the substitute as result; a type name that is not a string throws; any other shape fails |
| TsScanner.Resolve | src/index.ts:543-609 | with no options the record is `{matched: false}`; otherwise the record is normalized and is the null record when every option missed |
| TsScanner.ResolveFirstDecisive | src/index.ts:600-606 | the first option that does not miss decides the outcome of the whole list |
| TsScanner.ResolveMatchedIff | src/index.ts:600-609 | the list matches iff some option matches after all earlier ones missed, and fails iff every option missed |
| TsScanner.FirstMatchWins | src/index.ts:600-606 | options after a matching prefix are never consulted |
| TsScanner.Check | src/index.ts:611-621 | the scanner is not changed, a throw is the dispatcher's, and the output renders the resolved record |
| TsScanner.Scan | src/index.ts:623-641 | a failure renders the null record and changes nothing; a match advances over `textMatched` and renders the record with the moved scanner as parent |
| TsScanner.ScanLiteralAdvancesOverText | src/index.ts:623-641 | scanning a matching literal or pattern moves `pos` by the length of the matched text, exactly over the text at the cursor for a literal or a pinned pattern |
| TsScanner.CheckEnum | src/index.ts:643-650 | the result is null on a miss, and otherwise the substitute, or the matched text when the substitute is undefined; the scanner is not changed |
| TsScanner.ScanEnum | src/index.ts:652-671 | an enum key throws before matching; a miss changes nothing; a match advances over the key's text and returns the substitute, even a null one, or the matched text when the substitute is undefined |
| TsScanner.ScanEnumIsScanOfEnum | src/index.ts:652-671 | `scanEnum(key, value)` has the same effect, throw and result as `scan([key, value])` in the normal output type, for every substitute including undefined |
| TsScanner.ScanStringIsScan | src/index.ts:461-476 | `scanString(s)` has the same effect and result as `scan(s)` in the normal output type |
| TsScanner.ScanRegexIsScan | src/index.ts:526-541 | `scanRegex(r)` has the same effect and result as `scan(r)` in the normal output type |
| TsScanner.ScanTypeIsScan | src/index.ts:695-708 | `scanType(name)` has the same effect, throw and result as `scan([name])` in the normal output type |
| JsScanner.SetCaseInsensitive | index.js:26 | the flag becomes `Boolean(option)` and nothing else changes |
| JsScanner.SetComplexOutput | index.js:27 | the flag becomes `Boolean(option)` and nothing else changes |
| JsScanner.MovePosition | index.js:73-81 | the old state goes to the undo slot, `lastPos` becomes the old `pos`, and `pos + n` is clamped into `[0, len]`; nothing else changes |
| JsScanner.SetPosition | index.js:83-91 | as `movePosition`, with `n` clamped as an absolute position |
| JsScanner.Reset | index.js:93-109 | the cursor is zeroed; a partial reset keeps the undo slot and everything else, and a full reset gives a fresh scanner whose undo slot has `lastMatch` 0 |
| JsScanner.UpdateMatch | index.js:111-114 | a match moves the cursor by its length and becomes `lastMatch`; a null or undefined match throws and changes nothing |
| JsScanner.Commit | index.js:111-114 | committing text that fits in the remainder moves `pos` by its length, exactly past it when it is the text at the cursor; only the cursor fields and the undo slot change |
| JsScanner.Undo | index.js:116-128 | undo exchanges the current state with the undo slot |
| JsScanner.UndoTwice | index.js:116-128 | two undos in a row restore the scanner |
| JsScanner.UndoAfterMove | index.js:116-128 | one undo after a move restores the cursor state from before the move |
| JsScanner.UndoOnFreshScanner | index.js:23 | undo on a new scanner leaves `(0, 0, null)` |
| JsScanner.UndoAfterFullReset | index.js:107 | undo after a full reset leaves `(0, 0, 0)`, not `(0, 0, null)` |
| JsScanner.Duplicate | index.js:130-148 | the copy has the same text, cursor, pointers, registries and flags, but a fresh undo slot and an empty `data` |
| JsScanner.SavePointer | index.js:35-41 | the current state is stored under the name and returned; nothing else changes |
| JsScanner.LoadPointer | index.js:43-55 | the undo slot is overwritten even when the name is unknown; an unknown name throws, and a known one restores the saved state |
| JsScanner.LoadAfterSave | index.js:35-55 | save, move, then load returns to the saved cursor state |
| JsScanner.AddType | index.js:57-63 | a non-function throws and changes nothing; otherwise the name maps to the function and the other types are kept |
| JsScanner.CheckTypeRunsAddedType | index.js:57-63 | after `addType(name, fn)`, `checkType(name)` finds the name and runs `fn` on a duplicate |
| JsScanner.AddMacro | index.js:65-71 | a non-function throws and changes nothing; otherwise the name maps to the function and the other macros are kept |
| JsScanner.DoRunsAddedMacro | index.js:65-71 | after `addMacro(name, fn)`, `do(name)` runs `fn` and leaves the cursor where `fn` left it |
| JsScanner.Do | index.js:362-386 | an unknown macro throws; after a known one both flags and the undo slot are as before, and everything else is as the macro left it |
| JsScanner.CheckString | index.js:150-159 | the result is non-null iff the literal is non-empty and the remainder starts with it (lower-cased when case-insensitive), and it is then the remainder's first `len(s)` characters |
| JsScanner.ScanString | index.js:161-167 | a match advances over the returned slice; a miss returns null and changes nothing |
| JsScanner.ScanStringIsScan | index.js:161-167 | `scanString(s)` has the same effect and result as `scan(s)` in simple output |
| JsScanner.CheckRegex | index.js:169-183 | the result is non-null iff the pattern is not `(?:)` and the engine finds a non-empty match for the `^`-prefixed pattern; it is the engine's match within the remainder, at the cursor when the `^` pins it |
| JsScanner.ScanRegex | index.js:185-191 | a match advances over the returned text; a miss returns null and changes nothing |
| JsScanner.ScanRegexIsScan | index.js:185-191 | `scanRegex(r)` has the same effect and result as `scan(r)` in simple output |
| JsScanner.ScanRegexSkipsText | index.js:169-191 | with an engine that finds `"b"` at index 1 of `"xb"` for ^a&#124;b, scanRegex(/a&#124;b/) returns `"b"` and moves `pos` over the `"x"` |
| JsScanner.CheckRegexFixed | index.js:169-183 | with the pattern compiled sticky, a non-null result is always a non-empty prefix of the remainder |
| JsScanner.ScanRegexFixed | index.js:185-191 | the corrected `scanRegex` moves `pos` exactly past the text it returns |
| JsScanner.CheckType | index.js:304-313 | an unknown or non-string name throws; a falsy return from the type becomes null |
| JsScanner.ScanType | index.js:315-336 | an unknown name throws; a falsy return gives null and no movement; a truthy return advances by the duplicate's `lastMatch` and returns the type's value |
| JsScanner.ScanTypeCommitsDuplicateMatch | index.js:326-336 | a type that scanned text on its duplicate moves the caller over that same text |
| JsScanner.CheckOption | index.js:195-239 | string and pattern records report their check; an enum key that is an enum throws; an enum throws when its key throws, matches iff its key does and carries the key's text as `textMatched`; `[name]` throws for an unregistered name and otherwise reports the type's value, matched iff it is truthy; other shapes fail |
| JsScanner.Resolve | index.js:193-251 | no options throws; a failure is the nulled record; when every option misses the result is a failure |
| JsScanner.ResolveFirstDecisive | index.js:241-244 | the first option that does not miss decides the outcome of the whole list |
| JsScanner.ResolveMatchedIff | index.js:241-250 | the list matches iff some option matches after all earlier ones missed, and fails iff every option missed |
| JsScanner.FirstMatchWins | index.js:241-244 | options after a matching prefix are never consulted |
| JsScanner.GetValue | index.js:338-350 | the value `check` reports is nullish exactly when the record's value is, and is that value otherwise |
| JsScanner.GetMatchedText | index.js:352-360 | the matched text is a string or nullish: an enum's `textMatched` string, or a plain record's string value, and null for a failure |
| JsScanner.CheckOutput | index.js:253-264 | simple output is the value; a complex record keeps the value and is reported as a failure iff it missed or its value is nullish |
| JsScanner.ScanOutput | index.js:276-282 | simple output is the value; a complex record is a failure iff it missed |
| JsScanner.Check | index.js:253-264 | the throw is the dispatcher's; simple output is the record's value; complex output is the record, turned into a failure when its value is nullish; a miss gives null or the nulled record |
| JsScanner.Scan | index.js:266-283 | the throw is the dispatcher's; the scanner advances over the record's matched text when it is a string; a miss changes nothing |
| JsScanner.CheckAndScanAgree | index.js:253-283 | `check` and `scan` give the same output unless an option matched with a nullish value, which only `check` reports as a failure in complex output; without an enum, `scan` advances over the string `check` returns |
| JsScanner.ScanTypeDivergesFromScan | index.js:326-336 | a type that scans text on its duplicate and returns `true` moves the cursor under `scanType(name)`, while `scan([name])` leaves the scanner unchanged |
| JsScanner.ScanTypeOptionFixed | index.js:266-283 | the corrected `scan([name])` moves the cursor as `scanType(name)` does, gives its result in simple output, and agrees with `scan([name])` when the type returns the text it scanned |
| JsScanner.ScanEnumOfLiteral | index.js:219-226 | scanning `[p, value]` with a matching literal or pattern `p` returns `value`, even null, and moves `pos` by the length of `p`'s text, exactly over the text at the cursor for a literal or a pinned pattern |
| JsScanner.CheckEnum | index.js:285-288 | simple output gives the substitute iff `check(key)` is truthy; complex output always gives the substitute |
| JsScanner.CheckEnumComplexIgnoresMatch | index.js:285-288 | in complex output a key that does not match still yields the substitute |
| JsScanner.CheckEnumFixed | index.js:285-288 | the corrected `checkEnum` gives the substitute exactly when the key matches, and agrees with the original in simple output |
| JsScanner.ScanEnum | index.js:290-302 | an enum key throws before matching; in simple output a matching string advances and yields the substitute, and a miss changes nothing; complex output reaches a NaN position |
| JsScanner.ScanEnumComplexLosesPosition | index.js:297-299 | in complex output a matching key (`"Hello"` on `"Hello, World"`) reaches the NaN position |
| JsScanner.ScanEnumFixed | index.js:290-302 | the corrected `scanEnum` agrees with the original in simple output, and in either output advances over a matching literal or pattern and returns the substitute |

## Left out

- The `toString` renderers of both scanner classes and of the advanced output. They format diagnostics only.
- Pattern syntax. The engine is an uninterpreted function, and the only law it obeys is about where a match can be: inside the text, and at its start when the pattern is sticky or starts with a `^` that binds the whole pattern and has no `m` flag. The lexer that finds a top-level `|` follows groups, character classes and escapes only.
- `deepCopy` in the typed `duplicate`. The `deep_copy` module is not part of this model, and an immutable value needs no copy.
- Adding output types or comparison modes. The `outputTypes` and `comparisonModes` getters (src/index.ts:218-223) return the private registries by reference, so a caller can add an entry and then select it. The model keeps the three output types and two modes the constructor registers, as enumerations.
- The bodies of user type and macro functions. They are uninterpreted, and they neither throw nor keep references to the scanner. A typed macro is constrained only as the class constrains it: the text has no setter, and the public mutators keep positions inside the text.
- Aliasing. The JavaScript `savePointer` returns the stored object itself, and the public fields of `index.js` are writable from outside. The model has values, not references.
- Names that collide with `Object.prototype` keys, such as `"toString" in {}`. Registries are plain maps.
- Matching.Lower: lower-cases ASCII letters only and keeps the length. JavaScript `toLowerCase` can change the length of some non-ASCII strings.
- TsScanner.UpdateMatch: where the source would store NaN in `pos` and carry on, the model stops with `PositionNotANumber` and leaves the scanner unchanged.
- JsScanner.UpdateMatch: as above, the NaN position becomes a `PositionNotANumber` outcome.
- JsScanner.ScanEnum: in complex output the source returns the substitute with `pos` set to NaN. The model reports `PositionNotANumber` instead of carrying NaN on.
- JsScanner.GetValue: `#getValue` walks `.value` links through nested objects, and `#getMatchedText` walks `textMatched ?? value`. No modelled value has those properties, so both walks stop after one step.
- JsScanner.CheckType: names are `Value`s, and only a string name can be registered. JavaScript would coerce a number name to a string key.
- The `typeof name !== 'string'` guards of the typed pointer and registry methods. The model takes `string` names, so those calls cannot be written.
- UTF-16 positions. A Dafny `string` is a sequence of Unicode scalar values, while JavaScript's `.length`, `slice` and the scanner's positions count UTF-16 code units. For text with characters outside the Basic Multilingual Plane (emoji, for example) the model's lengths, positions and clamps differ from the source's.
- Positions are integers. Fractional or NaN arguments to `movePosition` / `setPosition` are not modelled.
- `scannedText`, the `data` getter and the other read-only getters. Only `unscannedText` is used, as `Unscanned`.
- The test suites. They informed the expected behaviour but are not modelled.

## Findings

| source | as written | input that shows it | evidently intended | confidence | as-written member | corrected member |
|---|---|---|---|---|---|---|
| src/index.ts:404-418 | undo stores the current `lastMatch` under the key `lastmMatch`, so the next undo reads `lastMatch` as undefined | any scanner whose `lastMatch` is not undefined: `undoLastMovement()` twice | undo is a swap, and two undos restore the scanner | not executed | TsScanner.UndoTwice | TsScanner.UndoFixedTwice |
| index.js:285-288 | `checkEnum` tests the truthiness of `check(key)`, which is always a record object in complex output | `"Hello, World"`, `setComplexOutput(true)`, `checkEnum("wrong", "greeting")` returns `"greeting"` | the substitute only when the key matches | not executed | JsScanner.CheckEnumComplexIgnoresMatch | JsScanner.CheckEnumFixed |
| src/index.ts:487-489 | `^` is put in front of the source, but it binds only the first alternative of a top-level alternation bar, so the match can start after the cursor and `scanRegex` then skips the text before it | `"xb"`, scanRegex(/a&#124;b/): ^a&#124;b matches `"b"` at index 1; `pos` becomes 1 and the `"x"` is skipped | the match starts at the cursor, for example by compiling the pattern with the sticky flag `y` | not executed | TsScanner.ScanRegexSkipsText | TsScanner.ScanRegexFixed |
| index.js:175 | as in the typed class, the `^` put in front of the source binds only the first alternative of a top-level alternation bar | `"xb"`, scanRegex(/a&#124;b/) returns `"b"` and moves `pos` to 1 | the match starts at the cursor | not executed | JsScanner.ScanRegexSkipsText | JsScanner.ScanRegexFixed |
| index.js:326-336 | `scanType` advances over the duplicate's `lastMatch`, while `scan([name])` advances over the type's return value read through `#getMatchedText`, which is undefined for a non-string | a type `sc => Boolean(sc.scanString("Hello"))` on `"Hello, World"`: `scanType` moves `pos` to 5, `scan([name])` leaves it at 0 | `scanType(name)` and `scan([name])` move the cursor alike | not executed | JsScanner.ScanTypeDivergesFromScan | JsScanner.ScanTypeOptionFixed |
| index.js:290-302 | `scanEnum` passes the complex-output record to `updateMatch`; a record has no `length`, so `pos` becomes NaN | `"Hello, World"`, `setComplexOutput(true)`, `scanEnum("Hello", "greeting")` | advance over the matched `"Hello"` and return `"greeting"`, as in simple output | not executed | JsScanner.ScanEnumComplexLosesPosition | JsScanner.ScanEnumFixed |
