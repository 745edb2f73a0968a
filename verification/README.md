# Paginated changelog feed: a Dafny model

This project models the feed renderer of a small changelog page (`script.js`).
The page loads a list of weeks once. It renders them eight at a time into a
container, and renders the next eight whenever an intersection observer reports
that the loading indicator (the sentinel) is visible. It also models
`escapeHtml`, the helper that escapes user text before it goes into markup.

The renderer's global state (`allWeeks`, `displayedWeeks`, `observer`, and the
indicator's `hidden` class) is one immutable record, `Feed.Page`. Each operation
that changes it is a pure step function:

- `Feed.Init` is `init` once the fetch has produced an outcome.
- `Feed.Batch` is `renderNextBatch`.
- `Feed.Step` is one call of the observer callback.
- `Feed.Run` delivers a sequence of signals to the callback, one at a time.

The DOM is abstracted to the list of the container's children. A rendered week
is a `WeekSection` holding the week's index in the list. The empty message and
the error message are their own items. Setting `innerHTML` replaces the whole
list, while `appendChild` appends to it. `disconnects` counts the calls made to
`observer.disconnect()`.

`Feed.Valid` is the state invariant. It says the cursor stays within the list.
It says the container holds exactly the sections of weeks `0 .. cursor-1`, in
order, or else one of the two notices. It also says the observer is
disconnected at most once, and only when the feed is complete.

Whether an observer exists does not track whether weeks remain. With one to eight weeks, `init` renders every week before the
observer exists, so `renderNextBatch` finds no observer to disconnect.
`setupIntersectionObserver` then shows the indicator again and leaves an
observer connected. The callback's guard keeps that observer inert
(`FeedProperties.InitSmall`). The indicator also stays visible for good, although every week is
displayed; "## Findings" records this, with `Feed.InitSetupFirst` as the
corrected order. The rest of the model keeps the order the code has.

Module `Escape` gives the result of `escapeHtml` without modelling the DOM. A
text node is serialized as the HTML Living Standard prescribes (section 13.3,
"Serializing HTML fragments", escaping a string outside attribute mode).
`&`, U+00A0, `<` and `>` become `&amp;`, `&nbsp;`, `&lt;` and `&gt;`. Double
and single quotes are left as they are. The code does not escape quotes, and
the model follows the code. `Escape.Unescape` is the partner definition: it
decodes the references the escapers emit. Module `Markup` models the one place
where escaped text goes into an attribute value, the href of a repository link.

## Model

| member | source | states |
|---|---|---|
| Feed.Batch | script.js:29-44 | the week list is unchanged, and the container gains exactly the sections of the weeks between the old and the new cursor, in index order |
| Feed.Init | script.js:8-25 | a failure changes only the container; a missing or empty week list sets up nothing; otherwise the first batch is appended and the observer is left observing with the indicator shown (whole-load properties: FeedProperties.PageLoad, FeedProperties.PageLoadValid) |
| Feed.SetupObserver | script.js:90-103 | the indicator is shown again and a fresh observer observes it; weeks, cursor, container and disconnect count are untouched (used by FeedProperties.InitSmall and FeedProperties.InitLarge) |
| Feed.Run | script.js:94-97 | delivering any signals keeps the week list, never moves the cursor back or past the end, and only appends to the container (exact window: FeedProperties.RunPreservesValid) |
| Feed.Step | script.js:94-97 | one intersection signal either changes nothing or runs exactly one batch |
| FeedProperties.BatchWindow | script.js:29-44 | a batch moves the cursor to min(cursor + 8, N); from cursor 0 and an empty container it renders exactly the first min(N, 8) weeks |
| FeedProperties.BatchAdvances | script.js:29-44 | from a cursor within the list, a batch keeps the cursor between its old value and N, moves it forward by at most 8, and strictly forward whenever weeks remain |
| FeedProperties.BatchCompletion | script.js:46-50 | a batch that reaches the end hides the indicator and calls disconnect exactly when an observer handle exists; any other batch leaves the indicator, observer and disconnect count alone |
| FeedProperties.BatchPreservesValid | script.js:27-51 | a batch from a valid state keeps the container equal to the first `cursor` weeks, each once and in order |
| FeedProperties.StepGuard | script.js:94-97 | the callback changes the state only for an intersecting signal, while weeks remain and the observer observes, and then it runs exactly one batch |
| FeedProperties.StepPreservesValid | script.js:94-97 | every signal keeps the state invariant |
| FeedProperties.RunPreservesValid | script.js:29-44 | any sequence of signals keeps the invariant, keeps the week list, never moves the cursor back, and only appends the weeks between the old and the new cursor |
| FeedProperties.RunDisconnects | script.js:47-49 | an observer that observes while weeks remain is disconnected by the batch that renders the last week, and not before |
| FeedProperties.CompletedIgnoresSignals | script.js:95 | once the cursor is at the end, any number of signals changes nothing and fires no batch |
| FeedProperties.RunBatches | script.js:94-96 | after b effective signals the cursor is min(cursor + 8b, N); b never exceeds the ceiling of the remaining weeks over 8, and the end is reached exactly when b reaches it |
| FeedProperties.EnoughSignalsComplete | script.js:94-96 | as many intersecting signals as the remaining batches, delivered while observing, complete the feed |
| FeedProperties.InitFailure | script.js:21-24 | a failed fetch or decode leaves only the error message, with no weeks, no batch and no observer |
| FeedProperties.InitEmpty | script.js:12-17 | a missing or empty weeks field shows only the empty message, with no batch, no observer, and the indicator as it was |
| FeedProperties.InitSmall | script.js:19-20 | with 1 to 8 weeks, init renders all of them, shows the indicator again and leaves a connected observer never disconnected, which no later signal can make render |
| FeedProperties.InitLarge | script.js:19-20 | with more than 8 weeks, init renders the first 8, shows the indicator and leaves the observer observing |
| FeedProperties.PageLoad | script.js:8-25 | over a whole page load with N >= 1 weeks, b batches (init's included) render min(8b, N) weeks in order; at most ceil(N/8) batches ever run; the feed is complete exactly when ceil(N/8) have run; disconnect is called once if N > 8 and the feed completed, and never otherwise |
| Feed.InitSetupFirst | script.js:19-20 | corrected init that sets up the observer before the first batch: when that batch renders every week, the indicator ends hidden and the observer disconnected |
| FeedProperties.IndicatorStaysVisible | script.js:19-20 | as written, with 1 to 8 weeks every week is displayed after init, yet the indicator is visible after any number of signals |
| FeedProperties.SetupFirstHidesIndicator | script.js:46-50 | with the corrected init, for every feed with weeks and any signals, the container is the first `cursor` weeks in order, and the indicator is hidden, and the observer disconnected, exactly when every week is displayed |
| FeedProperties.RunIndicator | script.js:46-50 | from a valid state with the indicator shown, signals keep it shown while weeks remain |
| FeedProperties.PageLoadValid | script.js:8-25 | every state a page load reaches, on any fetch outcome and any signals, satisfies the invariant |
| Escape.EscapeText | script.js:117-121 | escaped text contains no raw `<`, `>` or U+00A0 and is at least as long as the input |
| Escape.EscapeHtml | script.js:117-121 | an absent field escapes to the empty string; a present one to text without raw `<` or `>` |
| Escape.EscapeTextAppend | script.js:117-121 | escaping distributes over concatenation, one character at a time |
| Escape.EscapedAmpersands | script.js:117-121 | every `&` in escaped text begins `&amp;`, `&nbsp;`, `&lt;` or `&gt;` |
| Escape.UnescapeEscapeText | script.js:117-121 | decoding escaped text gives back the input |
| Escape.PlainTextUnchanged | script.js:117-121 | text with no `&`, `<`, `>` or U+00A0 is serialized unchanged, so double and single quotes are not escaped |
| Escape.EscapeAttribute | script.js:75 | attribute escaping leaves no raw `"`, `<` or `>` in the value |
| Escape.UnescapeEscapeAttribute | script.js:75 | decoding an attribute-escaped value gives back the input |
| Markup.HrefAsWritten | script.js:75 | the source's attribute is `href="` + value + `"`, and the value holds no raw `<` or `>` (but may hold `"`; read-back: Markup.HrefAsWrittenWithoutQuotes, Markup.HrefAsWrittenBreaksOut) |
| Markup.Href | script.js:75 | the corrected attribute is `href="` + value + `"`, and the value holds no raw `"`, `<` or `>` (read-back: Markup.HrefRoundTrip) |
| Markup.HrefAsWrittenWithoutQuotes | script.js:75 | the source's href is read back as the url whenever the url holds no `"` |
| Markup.HrefAsWrittenBreaksOut | script.js:75 | for a url `a"b` where `a` holds no quote, the source's href is read back as `a` alone |
| Markup.HrefRoundTrip | script.js:75 | with attribute escaping, the modelled parser reads back every url exactly, quotes included; an absent url gives an empty target |

## Left out

- `fetch` and `response.json()` (network I/O and JSON parsing) are an input. `Feed.Outcome` is either a failure or a document whose `weeks` field is absent or present. `data.weeks || []` is modelled as "absent means empty".
- `createWeekElement` (the HTML template and its date formatting with `toLocaleDateString`) is locale-dependent markup glue. A rendered week is represented by its index.
- The model assumes `createWeekElement` never throws. The feed's JSON shape is trusted: every week has an `entries` array. Every week that `merge_changelog.py` creates or merges into has one. A week without `entries` would throw in the middle of a batch, and that is not modelled.
- The `requestAnimationFrame` fade-in is cosmetic and depends on timing.
- `IntersectionObserver` internals, `rootMargin` and event dispatch are left out. A notification is a `Signal` that carries the first entry's `isIntersecting`. It reaches the callback only while the observer is observing.
- `console.error`, the `DOMContentLoaded` wiring, and the text of the empty and error messages are left out.
- The page markup is not part of this model. The container is taken as empty before `init`. Whether the indicator starts hidden is a parameter of `Feed.Start`.
- `escapeHtml` is modelled on its result, not on the DOM. JavaScript strings are UTF-16. Dafny characters are Unicode scalar values, so lone surrogates are not modelled. Non-string values that the setter would convert with ToString are not modelled either.
- `Escape.Unescape` decodes only the five references the escapers emit. A full HTML character-reference decoder is not part of this model.
- The code keeps neither of two rules a reader might expect, and the model follows the code. First, whether an observer exists does not track whether weeks remain (see `FeedProperties.InitSmall`). Second, quotes are not escaped (see `Escape.PlainTextUnchanged`).
- The model assumes nothing in `init` after the week list is read can throw, apart from the `createWeekElement` case above. In particular, a browser without `IntersectionObserver` would throw at script.js:94 after the first batch was appended and the indicator shown. The catch would then replace the batch with the error message and leave the indicator visible. That path is not modelled.
- Markup.ParsedHref: does not model the HTML parser's input-stream preprocessing. A browser turns CR and CRLF into LF, and turns U+0000 in a double-quoted attribute value into U+FFFD. So in a browser, `Markup.HrefRoundTrip` and `Markup.HrefAsWrittenWithoutQuotes` hold only for urls that contain no CR and no U+0000. URL parsing of the href value is not modelled either.

## Findings

| source | as written | input that shows it | evidently intended | confidence | as-written member | corrected member |
|---|---|---|---|---|---|---|
| script.js:75 | the repository link's url goes through the text escaper and is placed inside a double-quoted href; the text escaper leaves `"` alone | url `x" onclick="y` | the link target is the whole url, and no part of the url becomes markup, since all user text is meant to be escaped against injection | medium, not executed | Markup.HrefAsWrittenBreaksOut | Markup.HrefRoundTrip |
| script.js:19-20 | the first batch runs before the observer is set up, and setup shows the indicator again | a feed of 1 to 8 weeks | the loading indicator is hidden once all weeks are displayed, as the comment at script.js:46 says | medium, not executed | FeedProperties.IndicatorStaysVisible | FeedProperties.SetupFirstHidesIndicator |
