# FoodJournal core, modelled in Dafny

FoodJournal is a Backbone "todos" app turned into a food journal. Each entry line is
free text such as `rice 2x 400`. The line goes through `chewFood`, which pulls out a
*count* token (`2x` or `x2`) and a *calorie* token (a digit run) and leaves the food
name. Entries are kept in an ordered collection. The footer shows the calorie total of
the entries that are not done: `parseInt(cal) * parseInt(count)`, summed.

This project models that core:

- `Text` holds the string primitives: ASCII whitespace, `_.str.splice` and
  `String.prototype.trim`.
- `Patterns` holds leftmost-match scanners for the three fixed regular expressions:
  `/([0-9]x)|(x[0-9])/`, `/([0-9]+)/` and the prototype's `/ [0-9]+$/`.
- `Extraction` holds the logic shared by `chewFood` in `todos.js` and in
  `LineParser/main2.js`, as a pure function `Extract` and lemmas about it.
- `JsParseInt` holds JavaScript's `parseInt` without a radix argument. It skips
  whitespace, reads a sign, switches to radix 16 after `0x` and reads the longest digit
  run. `NaN` is `None`.
- `TodoApp` covers `todos.js`: `chewFood` as an imperative method, the Todo record with
  its defaults and `initialize`, and the collection helpers `done`, `remaining`,
  `nextOrder`, `comparator` and `sum`. The class `TodoList` is the collection. Its
  methods are `Sum`, `Toggle`, `ToggleAllComplete`, `ClearCompleted` and the creation
  step of `createOnEnter`.
- `LineParser` covers `LineParser/main2.js`: `chewFood`, the prefix-expansion loop, the
  choice between the sample list and the argument, and the parse loop.
- `LineParserPrototype` covers `LineParser/main.js`, an earlier prototype with an
  end-anchored calorie pattern and no trimming.

These points about the code are proved about the model:

- The count token is exactly one digit and an `x`. In `12x` the token is `2x`
  (`Extraction.TwelveX`).
- Removal trims only the ends of the string. Doubled interior spaces stay
  (`Extraction.InteriorSpacesKept`).
- Running the extraction again on the food can find another token
  (`Extraction.ReExtractionFindsMore`). Extraction is therefore not idempotent.
- A not-done item whose `cal` or `count` `parseInt` cannot read makes the total `NaN`,
  not 0 (`TodoApp.TotalNaNIff`). `parseInt` cannot read a text when no digit follows
  the leading whitespace and one sign, as in an `x2` count
  (`TodoApp.XCountMakesTotalNaN`), or when `0x` has no hexadecimal digit after it, as in
  a `0x` count (`JsParseInt.NaNIff`, `TodoApp.CountTextParses`).
- Deleting the last entry lets its `order` be handed out again
  (`TodoApp.NextOrderReusedAfterDeletingLast`).
- A line with no digit run left once the count token is removed (e.g. `eggs 2x`)
  cannot be created. `createOnEnter` reads `z.cal.value` without a guard, and that
  access throws. The model states this as a precondition of
  `TodoApp.TodoList.CreateOnEnter`.

## Model

| member | source | states |
|---|---|---|
| `Text.Splice` | todos.js:280 | splicing out `n` characters at offset `i` keeps the `i` characters before and shifts the rest down by `n`; the length drops by `n` |
| `Text.TrimStart` | todos.js:280 | the leading whitespace is dropped and nothing else: the result is a suffix, what was cut is all whitespace, and the result does not start with whitespace |
| `Text.TrimEnd` | todos.js:280 | the trailing whitespace is dropped and nothing else: the result is a prefix, what was cut is all whitespace, and the result does not end with whitespace |
| `Text.Trim` | todos.js:280 | the result is no longer than the input and has no whitespace at either end |
| `Text.TrimExact` | todos.js:288 | `trim` removes exactly the whitespace around a core whose ends are not whitespace; the core, interior whitespace included, is kept |
| `Text.TrimIdempotent` | todos.js:280 | trimming twice is trimming once |
| `Text.TrimEmptyIff` | todos.js:288 | a string trims to nothing exactly when it is all whitespace |
| `Patterns.FindCount` | todos.js:251 | the offset returned is where the count pattern matches and no offset before it matches; `None` exactly when it matches nowhere |
| `Patterns.FindDigits` | todos.js:252 | the run returned is non-empty, all digits, maximal (no digit follows it) and leftmost (no digit before it); `None` exactly when there is no digit |
| `Patterns.FindTrailingNumber` | LineParser/main.js:2 | the offset returned holds a space followed by digits to the end of the string; `None` exactly when there is no such offset |
| `Patterns.TrailingNumberUnique` | LineParser/main.js:2 | the end-anchored pattern can match at one offset at most |
| `Extraction.CountToken` | todos.js:275-279 | the count match is two characters of the line at the leftmost offset where the count pattern matches, and absent exactly when the pattern matches nowhere |
| `Extraction.CalToken` | todos.js:283-287 | the calorie match is the leftmost maximal digit run, absent exactly when there is no digit |
| `Extraction.Excise` | todos.js:280 | with no match the string is untouched; with a match the result is at least the match's length shorter and has no whitespace at either end |
| `Extraction.AfterCount` | todos.js:275-281 | with no count token the line is untouched; otherwise the line after count removal is at least two characters shorter and trimmed |
| `Extraction.Extract` | todos.js:272-293 | `chewFood` as one function (the same steps as LineParser/main2.js:17-32): a line in which neither token is found is returned as the food exactly; its other properties are the lemmas below |
| `Extraction.CountTokenAt` | todos.js:275-279 | the count match is determined by the leftmost matching offset |
| `Extraction.CalTokenAt` | todos.js:283-287 | the calorie match is determined by the leftmost digit and the maximal run from it |
| `Extraction.CountIsLeftmostPair` | todos.js:275-279 | the count token is absent iff the pattern matches nowhere; otherwise it has length 2, is digit+`x` or `x`+digit, is the line's text at its offset, and is leftmost |
| `Extraction.CountRemovalByOffset` | todos.js:280 | after count removal the line is `trim(s[..i] + s[i+2..])` for the match offset `i`, whatever text recurs elsewhere; with no count the line is untouched |
| `Extraction.CalIsLeftmostRunAfterCount` | todos.js:283-290 | the calorie token is the leftmost maximal digit run of the string after count removal, with its offset into that string; the food is that string with the run spliced out and trimmed, or the string itself when there is no digit |
| `Extraction.UntouchedWithoutTokens` | todos.js:273-276 | a line with neither token gives no count match, no calorie and the line itself, untrimmed, as food |
| `Extraction.TrimmedWhenTokenFound` | todos.js:288-290 | once either token was found, the food has no whitespace at either end |
| `Extraction.FoodLength` | todos.js:272-293 | the food is at most the line's length minus the lengths of the tokens found |
| `Extraction.TwelveX` | todos.js:251 | `12x` gives count `2x` at offset 1, calorie `1` at offset 0 of the shortened string, and empty food |
| `Extraction.HamCountStep` | todos.js:277-281 | on `ham 2x eggs`, the count `2x` at offset 4 is cut out and the line is trimmed to `ham  eggs` |
| `Extraction.InteriorSpacesKept` | todos.js:280 | `ham 2x eggs` gives food `ham  eggs`: the two interior spaces are not collapsed |
| `Extraction.CountDigitIsNoCalorie` | todos.js:283 | the calorie pattern runs only after count removal: `eggs 2x` gives count `2x`, no calorie and food `eggs` |
| `Extraction.ReExtractionFindsMore` | todos.js:283-288 | `1 2` gives food `2`, and extracting from `2` finds a calorie again |
| `JsParseInt.DecimalPrefix` | todos.js:82 | a leading decimal run followed by a non-digit parses to its decimal value, except for `0` followed by `x` or `X` |
| `JsParseInt.NegatedDecimal` | todos.js:82 | a minus sign then digits parses to the negated value |
| `JsParseInt.ParseDecimalString` | todos.js:82 | round trip: `parseInt` of the decimal rendering of `n` is `n`, and of `-` plus that rendering is `-n` |
| `JsParseInt.NoLeadingDigit` | todos.js:82 | a text starting with something other than whitespace, a sign or a digit parses to `NaN` |
| `JsParseInt.NaNCases` | todos.js:82 | the empty string and `0x` parse to `NaN` |
| `JsParseInt.ParseInt` | todos.js:82 | `parseInt` without a radix: skip whitespace, take one sign, read radix 16 after `0x`/`0X` and decimal otherwise, `NaN` when no digit is read. The value of a decimal number is stated by `DecimalPrefix`, `NegatedDecimal` and `ParseDecimalString`. The structure and the `NaN` cases are stated by `Decompose`, `SignAndSpaceSkipped`, `SignThenNoDigit` and `NaNIff`. The hexadecimal value is given by the definition and by the example `HexExamples` only |
| `JsParseInt.HexExamples` | todos.js:82 | after `0x` or `0X` the digits are read in radix 16: `0x1f` is 31 and `-0X10` is -16 |
| `JsParseInt.Decompose` | todos.js:82 | every text splits into leading whitespace, an optional `+` or `-`, and a rest that, when there is no sign, starts with neither whitespace nor a sign |
| `JsParseInt.SignAndSpaceSkipped` | todos.js:82 | leading whitespace and a `+` are skipped (`parseInt(w + "+" + t) == parseInt(t)`), and a `-` negates the value read |
| `JsParseInt.SignThenNoDigit` | todos.js:82 | after the sign no whitespace and no second sign is accepted: the result is `NaN` |
| `JsParseInt.NaNIff` | todos.js:82 | on an unsigned text the result is `NaN` exactly when no decimal digit starts it, or, after `0x`/`0X`, exactly when no hexadecimal digit follows |
| `TodoApp.ChewFood` | todos.js:272-293 | the count is the default (value `1x`, no offset) exactly when the line has no count token, otherwise the leftmost match; calorie and food are those of the shared extraction |
| `TodoApp.Defaults` | todos.js:16-25 | a new Todo starts with the default title, the next order, not done, and empty food, count and cal |
| `TodoApp.Initialize` | todos.js:28-32 | after `initialize` every Todo has a non-empty title: an empty title becomes the default `empty todo...`, a non-empty title is kept, and nothing else changes |
| `TodoApp.NewTodo` | todos.js:325-330 | a created Todo has the attributes passed, the next order, is not done, and keeps its title unless that is empty, in which case it gets the default title |
| `TodoApp.Done` | todos.js:55-57 | an item is in `done()` exactly when it is in the collection and done |
| `TodoApp.Without` | todos.js:60-62 | an item is in `without(s, xs)` exactly when it is in `s` and not in `xs` |
| `TodoApp.RemainingIsNotDone` | todos.js:60-62 | `remaining()`, computed as the collection minus `done()`, equals filtering on `!done` |
| `TodoApp.DoneRemainingPartition` | todos.js:55-62 | `done()` holds only done items and `remaining()` only not-done ones; each item is in exactly one; together they hold each item as often as the collection; both keep the collection's order |
| `TodoApp.Remaining` | todos.js:60-62 | `remaining()` is the collection without the items of `done()`; what that means is stated by DoneRemainingPartition and RemainingIsNotDone |
| `TodoApp.Comparator` | todos.js:72-74 | the sort key is the `order` attribute. SortedByOrder, the class invariant of `TodoList`, says the orders strictly increase along the collection, so no two items share one. It and the lemmas below are stated through this key |
| `TodoApp.SubsequenceSorted` | todos.js:71-74 | an order-preserving selection of a list with strictly increasing orders has strictly increasing orders and draws from the list |
| `TodoApp.NextOrderExceeds` | todos.js:66-74 | in a list with strictly increasing orders, `nextOrder()` exceeds every order present, and it is 1 on the empty list |
| `TodoApp.AppendLargerKeepsSorted` | todos.js:66-74 | appending a Todo at `nextOrder()` keeps the orders strictly increasing |
| `TodoApp.NextOrderAfterDelete` | todos.js:66-69 | deleting any item but the last leaves `nextOrder()` unchanged, so the deleted order is not reused |
| `TodoApp.NextOrderReusedAfterDeletingLast` | todos.js:66-69 | in a collection that meets the class invariant (orders strictly increasing), deleting the last item makes `nextOrder()` at most the deleted order |
| `TodoApp.NextOrder` | todos.js:66-69 | 1 for an empty collection, otherwise one past the last item's order; its properties are NextOrderExceeds, NextOrderAfterDelete and NextOrderReusedAfterDeletingLast |
| `TodoApp.Term` | todos.js:82 | one item's `parseInt(cal) * parseInt(count)`, `NaN` when either reads as `NaN` |
| `TodoApp.Contribution` | todos.js:81-83 | what one item adds to `sum()`: nothing when it is done, its term otherwise |
| `TodoApp.Total` | todos.js:78-86 | `sum()` as a left fold over the collection; its properties are the Total lemmas around it and `TodoList.Sum` is proved equal to it |
| `TodoApp.TotalAppend` | todos.js:78-86 | the total of a concatenation is the sum of the totals, `NaN` absorbing |
| `TodoApp.TotalNaNIff` | todos.js:78-86 | the total is `NaN` exactly when some not-done item has an unparseable cal or count |
| `TodoApp.ToggleContribution` | todos.js:35-37 | the total equals the total with item `k` marked done plus item `k`'s contribution, so toggling removes or restores exactly its `cal * count` term |
| `TodoApp.TotalOfRemaining` | todos.js:78-86 | done items add nothing: the total equals the total over `remaining()` |
| `TodoApp.TotalAllDone` | todos.js:341-344 | when every item is done (as after toggle-all on) the total is 0 |
| `TodoApp.XCountMakesTotalNaN` | todos.js:82 | one not-done item whose count starts with `x` (such as `x2`) makes the total `NaN` |
| `TodoApp.CountTextParses` | todos.js:82 | a count token reads as its digit when it is digit+`x` with a digit other than 0, and as `NaN` when it is `x`+digit or `0x` |
| `TodoApp.CalTextParses` | todos.js:82 | a calorie token, a non-empty digit run, reads as its decimal value |
| `TodoApp.CreatedTodoParses` | todos.js:322-330 | the cal of a created Todo parses to its decimal value; its count parses as CountTextParses says; the default `1x` parses to 1 |
| `TodoApp.DefaultCountParses` | todos.js:273 | the default count `1x` of a line without a count token reads as 1 |
| `TodoApp.TodoList.Sum` | todos.js:78-86 | the loop's accumulated result is the total of the collection |
| `TodoApp.TodoList.Toggle` | todos.js:35-37 | only item `k`'s done flag flips; the orders stay strictly increasing |
| `TodoApp.TodoList.ToggleAllComplete` | todos.js:341-344 | every item's done flag becomes the checkbox state and nothing else changes |
| `TodoApp.TodoList.ClearCompleted` | todos.js:336-339 | the collection becomes `remaining()`; the orders stay strictly increasing |
| `TodoApp.TodoList.CreateOnEnter` | todos.js:319-330 | a non-Enter key or an empty line changes nothing; otherwise one Todo is appended with the line as title, the parsed food, cal text and count text, at an order above every existing one; the orders stay strictly increasing |
| `LineParser.ChewFood` | LineParser/main2.js:17-32 | the result is the shared extraction; no count is reported exactly when the line has no count token (no default) |
| `LineParser.Prefixes` | LineParser/main2.js:45-51 | for an argument of `n` characters the items are its `n` non-empty prefixes, shortest first |
| `LineParser.Items` | LineParser/main2.js:34-53 | with no argument the items are the five sample lines of main2.js:36-42 (the constant `Samples`); with one they are its prefixes |
| `LineParser.ChewAll` | LineParser/main2.js:55 | every item is parsed, in order |
| `LineParser.SampleCantaloupe` | LineParser/main2.js:37 | `cantoloupe` is returned unchanged with neither token |
| `LineParser.GrapesCountStep` | LineParser/main2.js:20-24 | `grapes 100` has no count token, so the line is not changed before the calorie step |
| `LineParser.SampleGrapes` | LineParser/main2.js:38 | `grapes 100` gives calorie `100` and food `grapes` |
| `LineParser.GranolaCountStep` | LineParser/main2.js:20-24 | on `granola bars x2`, the count `x2` at offset 13 is cut out and the line is trimmed to `granola bars` |
| `LineParser.SampleGranola` | LineParser/main2.js:39 | `granola bars x2` gives count `x2`, no calorie, and food `granola bars` |
| `LineParser.RiceCountStep` | LineParser/main2.js:20-24 | on `rice 2x 400`, the count `2x` at offset 5 is cut out, leaving `rice  400` |
| `LineParser.SampleRice` | LineParser/main2.js:40 | `rice 2x 400` gives count `2x`, calorie `400`, food `rice` |
| `LineParser.MilkCountStep` | LineParser/main2.js:20-24 | on `milk 100 2x`, the count `2x` at offset 9 is cut out and the line is trimmed to `milk 100` |
| `LineParser.SampleMilk` | LineParser/main2.js:41 | `milk 100 2x` gives count `2x`, calorie `100`, food `milk`, because the count is removed before digits are scanned |
| `LineParserPrototype.TrailingCal` | LineParser/main.js:2 | the calorie match is a space and digits ending the line, absent exactly when the line does not end that way |
| `LineParserPrototype.RemainderDropsTwo` | LineParser/main.js:12-15 | the remainder exists exactly when a count does; it is the line minus the two token characters, untrimmed, of length `|item| - 2` |
| `LineParserPrototype.CalIsSpacedTrailingNumber` | LineParser/main.js:13-18 | a calorie exists exactly when the line ends in a space and one or more digits; its value starts with that space, and its offset is into the original line |
| `LineParserPrototype.CalIgnoresCountRemoval` | LineParser/main.js:12-13 | the calorie is matched on the original line: `tea 2x5` has none, although its remainder `tea 5` would match |
| `LineParserPrototype.TeaCountStep` | LineParser/main.js:12-15 | on `tea 2x5` the count `2x` is found at offset 4 and the remainder is `tea 5` |
| `LineParserPrototype.CalOffsetInLine` | LineParser/main.js:13 | in `tea 2x 12` the calorie ` 12` is reported at offset 6 of the line as typed |
| `LineParserPrototype.ChewPrototype` | LineParser/main.js:10-20 | the body of the `forEach` callback: count match and end-anchored calorie match on the original line, remainder only with a count; its properties are the lemmas around it |
| `LineParserPrototype.TrailingCalAt` | LineParser/main.js:2 | the calorie match is determined by the one offset where the pattern matches |
| `LineParserPrototype.SampleCantaloupe` | LineParser/main.js:4 | `cantoloupe`: no count, no remainder, no calorie |
| `LineParserPrototype.SampleGrapes` | LineParser/main.js:5 | `grapes 100`: calorie ` 100` (with its space), no count |
| `LineParserPrototype.SampleGranola` | LineParser/main.js:6 | `granola bars x2`: count `x2`, remainder `granola bars `, no calorie |
| `LineParserPrototype.SampleRice` | LineParser/main.js:7 | `rice 2x 400`: remainder `rice  400`, count `2x`, calorie ` 400` at offset 7 |

## Left out

- Views, templates, jQuery and DOM manipulation, and event wiring in `todos.js` are left out, apart from the creation step of `createOnEnter`. So are title editing, single-item deletion through the view, and `render`. These are UI. Single deletion appears only in `TodoApp.NextOrderAfterDelete` and `TodoApp.NextOrderReusedAfterDeletingLast`, as removal from the sequence.
- `moveCaret` and `placeholderTextbox` are left out: they use browser selection and DOM APIs.
- LocalStorage persistence (`fetch`, `save`, `destroy`) is left out. The collection is an in-memory sequence, and `save({done: ...})` is modelled as the in-memory update alone.
- `console.log` output, `process.argv` reading and the underscore mixin setup are left out. `argv` is a parameter of `LineParser.Items`, and the printed values are what the model returns.
- Commented-out code is left out.
- JavaScript number arithmetic is left out. `sum()` is exact integer arithmetic here, so float rounding of huge values and `-0` are not modelled. `NaN` is `None`.
- Strings are sequences of Unicode scalar values, not of UTF-16 code units as in JavaScript. For text outside the Basic Multilingual Plane, the `index` and `length` of a `Patterns.Match`, the offsets `_.str.splice` works on, and the number of prefixes `LineParser.Prefixes` produces (JavaScript yields one per code unit, including one that ends inside a surrogate pair) differ from the source.
- Whitespace is ASCII only: space, tab, LF, VT, FF and CR. The Unicode whitespace that `trim` and `parseInt` also skip is not modelled.
- The general regular-expression engine is left out. Only the three fixed patterns are hand-coded.
- `LineParserPrototype.ChewPrototype`: LineParser/main.js:15 lacks the closing parenthesis of its `console.log` call, so the script as written is a syntax error and prints nothing. The model supplies the parenthesis and describes what the evidently intended script would print.
- `Text.Splice`: JavaScript's clamping of an out-of-range offset or length is not modelled. Every call site passes a match that lies inside the string.
- `TodoApp.TodoList.Toggle`: a Todo is a value, not a Backbone model object, so `toggle` is addressed by position in the collection. Object identity and aliasing of Todo models are not modelled.
- `TodoApp.TodoList.CreateOnEnter`: Backbone's insertion at the comparator's sorted position is modelled as appending. The new order exceeds every existing one, so the two coincide. The exception thrown when the line has no digit run left once the count token is removed (e.g. `eggs 2x`) is a precondition, not an error result.
- `parseInt`'s explicit radix argument is not modelled. The source never passes one.
