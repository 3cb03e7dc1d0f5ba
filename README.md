# logsh logger override, modelled in Dafny

This project models the formatting core of `src/logger-override.ts`. That file
redirects the console's `debug`, `info`, `warn` and `error` entry points to one
formatter. The formatter writes lines of this form:

    <timestamp> <level padded to 6> <trace padded to the widest trace so far> <content>

The model covers the part of that file that computes text:

- **Colour table and `wrap`** (module `Ansi`). This is the fixed severity-to-colour
  table. `RESET` is the fallback for any other name. `wrap` puts a colour code
  before a text and the reset code after it.
- **File-name prettifier** (`ValueRenderer.FilenamePrettier`). This is the counted
  loop that camel-cases the dot-segments of a stack token. It drops the last
  segment. Upper-casing an empty middle segment throws a TypeError, and the model
  keeps that throw as `Result.Throws`.
- **Error rendering** (`ValueRenderer.RenderErrorTrace`). This is the loop over at
  most five `file:line` tokens of an error's stack. Each token becomes `name(line)`.
  The entries are reversed and joined with `.`. The result is wrapped in red
  `[Trace: …]`, or `[Trace: unknown]` when there are no tokens, and is followed by
  a space and the message.
- **The value renderer `shorten`** (`ValueRenderer.Shorten`). It dispatches on
  null, undefined, text, Error and everything else. The serialised form is
  abstracted.
- **The breadcrumb tracer** (`Logger.Formatter.Tracer`, specified in `Tracing`). It
  takes frames 3..5 of the parsed stack and reverses them. Each frame becomes
  `stem(line)`. A stem equal to the remembered one becomes `&`. A frame without a
  file becomes `null`, and a missing line becomes `??`. The tracer also raises the
  process-wide trace column width to the breadcrumb's length.
- **Line assembly** (`Logger.Formatter.Log`). It pads the level to 6 columns and
  the trace to the column width. It joins the rendered arguments with spaces and
  turns them red for `ERROR`. The four segments are joined with single spaces.

Each loop in the source is a `method`. Each method is proved equal to a
specification function (`PrettyFilename`, `ErrorTrace`, `Shorten`, `Breadcrumb`,
`Line`). The lemmas about those functions state what the code promises. The
trace column width is the field `traceMaxLength` of class `Logger.Formatter`.
It starts at 0 and every tracer call sets it to `max(old, |breadcrumb|)`.

Inputs that come from outside the file are parameters:

- the parsed stack frames (`seq<Frame>`);
- the regex matches of an error's stack (`seq<string>`);
- the outcome of `JSON.stringify` (`Json`);
- the timestamp text.

Notable behaviours of the code, which the model keeps:

- A stack token with an empty middle segment, such as `a..ts:1`, makes
  `filenamePrettier` throw: it upper-cases the first character of an empty
  string. The throw leaves `shorten` and `logger`, so no line is produced, and
  the trace width has already been updated by then. `Formatter.Log` returns
  `Throws` in that case.
- The trace name of a frame is the base name's text before its first `.`, so
  `a.test.ts` gives `a` (`Tracing.FileStem`).
- The remembered name starts as `""`. So a first frame whose stem is empty, as for
  a file named `.env`, already collapses to `&` (`Tracing.EmptyStemCollapses`).
- A stack token without a dot, such as `loader:1105`, is returned by the
  prettifier with its `:line` suffix. It renders as `loader:1105(1105)`
  (`ValueRenderer.PrettyTraceToken`).
- An argument whose serialisation is `undefined` (a function, for example) comes
  back from `shorten` as `undefined`. `Array.prototype.join` shows it as an empty
  string (`Logger.JoinText`). With a truthy limit, reading `.length` of
  `undefined` throws inside the `try` block, so the result is `[Circular Object]`.

## Model

| member | source | states |
|---|---|---|
| `Text.Split` | src/logger-override.ts:67 | `split` on a one-character separator always gives at least one piece |
| `Text.SplitPieces` | src/logger-override.ts:67 | no piece contains the separator; pieces = separators + 1; a single piece exactly when the separator is absent |
| `Text.JoinSplit` | src/logger-override.ts:67 | joining the pieces of a split with the separator gives back the input |
| `Text.Join` | src/logger-override.ts:146 | `join`: the pieces with the separator between neighbours, `""` for none; `SplitJoin` and `JoinSplit` state it as the inverse of `Split` |
| `Text.SplitJoin` | src/logger-override.ts:146 | splitting a join of separator-free pieces gives back the pieces, and the join holds exactly `k - 1` separators |
| `Text.SplitLastPiece` | src/logger-override.ts:98-101 | the last `:`-piece of `a:b`, where `b` has no colon, is `b` |
| `Text.PadEnd` | src/logger-override.ts:156-157 | `padEnd` result has length `max(n, |s|)`, starts with `s` and is spaces after it |
| `Text.Reverse` | src/logger-override.ts:107 | `reverse` keeps the length and puts element `k` at `|s| - 1 - k` |
| `Text.FirstDigitRun` | src/logger-override.ts:102-103 | `lastSegment.match(/([0-9]+)/g)?.[0] ?? ""`: the first maximal digit run, or `""`; characterised by `FirstDigitRunSpec` |
| `Text.FirstDigitRunSpec` | src/logger-override.ts:102-103 | the first digit-run match is all digits, empty exactly when there is no digit, and otherwise a maximal run starting at the first digit |
| `Text.NatToString` | src/logger-override.ts:144 | a line number prints as a non-empty string of digits |
| `Text.NatToStringRoundTrip` | src/logger-override.ts:144 | reading the printed line number back gives the number |
| `Text.Basename` | src/logger-override.ts:135 | a base name contains no `/` |
| `Text.BasenameOfJoin` | src/logger-override.ts:135 | the base name of `dir/file` is `file` |
| `Ansi.GetColorCodeByLevel` | src/logger-override.ts:48-63 | DEBUG→MAGENTA, INFO→CYAN, WARN→YELLOW, ERROR→RED, SYSTEM→BLUE, and RESET exactly for every other name |
| `Ansi.ColorTableInjective` | src/logger-override.ts:48-63 | distinct known levels get distinct colours |
| `Ansi.Wrap` | src/logger-override.ts:40-42 | the wrapped text is the colour code, then the content, then RESET, with lengths adding up |
| `Ansi.WrapInjective` | src/logger-override.ts:40-42 | the content can be recovered from the wrapped text |
| `ValueRenderer.ToUpper` | src/logger-override.ts:74 | lower-case ASCII letters move to upper case; every other character stays unchanged |
| `ValueRenderer.Capitalize` | src/logger-override.ts:74 | only the first character of a segment is upper-cased; the rest stays as is |
| `ValueRenderer.CamelTail` | src/logger-override.ts:69-77 | the loop body for `i > 0`: the concatenated capitalised segments, throwing on an empty one; characterised by `CamelTailSpec` |
| `ValueRenderer.CamelTailSpec` | src/logger-override.ts:69-77 | the camel-casing loop succeeds exactly when no segment is empty, and then gives the concatenated capitalised segments |
| `ValueRenderer.CamelTailThrows` | src/logger-override.ts:74 | an empty segment makes upper-casing throw |
| `ValueRenderer.PrettyFilename` | src/logger-override.ts:65-79 | `filenamePrettier`: the name unchanged without a dot, otherwise the first segment then the camel tail of the middle segments; characterised by `PrettyFilenameSpec` |
| `ValueRenderer.PrettyFilenameSpec` | src/logger-override.ts:65-79 | a dot-free name is returned as is; a dotted name throws exactly when a middle segment is empty, and otherwise is the first segment plus the capitalised middle segments, with the last segment dropped |
| `ValueRenderer.FilenamePrettier` | src/logger-override.ts:65-79 | the counted loop computes `PrettyFilename`, including its throw |
| `ValueRenderer.LineOf` | src/logger-override.ts:98-103 | the line of a token: the first digit run of its last `:`-piece; `LineOfTraceToken` gives it for matched tokens |
| `ValueRenderer.TraceText` | src/logger-override.ts:96-104 | one trace entry: the prettified token, then its line in parentheses; `TraceTextOfToken` states it for matched tokens |
| `ValueRenderer.TraceTexts` | src/logger-override.ts:94-105 | the entries of the push loop in match order, throwing with the first token that fails; characterised by `TraceTextsSpec` |
| `ValueRenderer.TraceEntries` | src/logger-override.ts:93-107 | the entries of the first five matches, reversed; characterised by `TraceEntriesSpec` |
| `ValueRenderer.TracePrefix` | src/logger-override.ts:108 | the red `[Trace: …]` label, holding the entries joined with `.`, or `unknown` for none; see `ErrorTraceShape` |
| `ValueRenderer.ErrorTrace` | src/logger-override.ts:90-109 | an Error's rendering: the trace label, a space and the message, or the prettifier's throw; see `TraceEntriesSpec`, `ErrorTraceShape` and `ErrorTraceUsesFirstFive` |
| `ValueRenderer.ShownTokens` | src/logger-override.ts:93 | only the first `min(n, 5)` matches are used |
| `ValueRenderer.TraceTextsSpec` | src/logger-override.ts:94-105 | the push loop succeeds exactly when every token prettifies, and then holds each token's entry in match order |
| `ValueRenderer.TraceEntriesSpec` | src/logger-override.ts:93-107 | the trace has `min(n, 5)` entries, last match first, and throws exactly when one of the first five tokens fails to prettify |
| `ValueRenderer.ErrorTraceShape` | src/logger-override.ts:108 | with no matches the prefix is `[Trace: unknown]`; a rendering always starts with RED + `[Trace: ` and ends with `" " + message` |
| `ValueRenderer.ErrorTraceUsesFirstFive` | src/logger-override.ts:93 | matches after the fifth never change the rendering |
| `ValueRenderer.LineOfTraceToken` | src/logger-override.ts:98-103 | for a token of the shape `[.a-zA-Z0-9]+:[0-9]+`, the line is the digits after the colon |
| `ValueRenderer.PrettyTraceToken` | src/logger-override.ts:97-99 | for such a token, the `:line` suffix never changes how a dotted name prettifies, since it sits in the dropped last segment; a dot-free name keeps its `:line` suffix |
| `ValueRenderer.TraceTextOfToken` | src/logger-override.ts:96-104 | a token renders as the prettified file name followed by `(line)` |
| `ValueRenderer.TraceTextOfFile` | src/logger-override.ts:96-104 | `stem.ext:N` renders as `stem(N)` |
| `ValueRenderer.TraceTextOfDottedFile` | src/logger-override.ts:96-104 | `a.b.ext:N` renders as `aB(N)`, with the second segment capitalised |
| `ValueRenderer.RenderErrorTrace` | src/logger-override.ts:90-109 | the `for…of` loop with push and reverse computes `ErrorTrace`, including its throw |
| `ValueRenderer.Serialize` | src/logger-override.ts:112-120 | the `try` block over the abstract serialisation: compact text, the pretty text after a newline when a truthy limit is exceeded, `[Circular Object]` on a throw; see `ShortenSpec` |
| `ValueRenderer.Shorten` | src/logger-override.ts:81-120 | `shorten`: dispatch on null, undefined, string, Error and everything else; characterised by `ShortenSpec` |
| `ValueRenderer.ShortenSpec` | src/logger-override.ts:81-120 | null→`null`, undefined→`undefined`, text unchanged for any limit; only Errors can throw; `undefined` exactly for an unserialisable value under a falsy limit; cyclic→`[Circular Object]`; the pretty form after a newline when the limit is truthy and the compact text is longer than it, otherwise the compact text |
| `ValueRenderer.ShortenValue` | src/logger-override.ts:81-120 | the dispatching method computes `Shorten` |
| `Tracing.Window` | src/logger-override.ts:127 | the window has `max(0, min(n, 6) - 3)` frames, which are frames 3, 4, 5 in order |
| `Tracing.FileStem` | src/logger-override.ts:135-137 | the name shown for a frame is the base name's text before its first `.`: a prefix of the base name, followed there by `.` or its end, and free of `.` |
| `Tracing.LineLabel` | src/logger-override.ts:144 | the line label is `??` for a missing line number and the number's decimal digits otherwise; it contains no `.` |
| `Tracing.TokenFor` | src/logger-override.ts:132-144 | the `map` callback's result for one frame under a remembered name: `null`, or the stem (or `&` when it equals the remembered name) with its line label |
| `Tracing.NextRemembered` | src/logger-override.ts:139-143 | the callback's update of `lastSegmentTrace` for one frame |
| `Tracing.Remembered` | src/logger-override.ts:128-143 | `lastSegmentTrace` after a run of frames, starting from the given name; `RememberedSnoc` characterises it |
| `Tracing.Tokens` | src/logger-override.ts:129-145 | one token per frame |
| `Tracing.Breadcrumb` | src/logger-override.ts:127-146 | `tracer`'s text: the tokens of the reversed window joined with `.`; characterised by `BreadcrumbShape`, `BreadcrumbOrder` and `TokensAt` |
| `Tracing.RememberedSnoc` | src/logger-override.ts:139-143 | the remembered name is the stem of the latest frame that has a file; a frame without a file leaves it unchanged |
| `Tracing.TokensAt` | src/logger-override.ts:131-145 | token `i` depends only on frame `i` and the name remembered from the frames before it |
| `Tracing.NullToken` | src/logger-override.ts:133 | a frame renders `null` exactly when it has no file name |
| `Tracing.NullTokens` | src/logger-override.ts:133 | in a breadcrumb, the `null` tokens are exactly the frames without a file |
| `Tracing.CollapseAcrossNull` | src/logger-override.ts:133-143 | frames A, null, A render as `A(..)`, `null`, `&(..)` |
| `Tracing.EmptyStemCollapses` | src/logger-override.ts:128-142 | a first frame with an empty stem renders as `&(..)` |
| `Tracing.TokenForHasNoDot` | src/logger-override.ts:133-144 | no token contains the joining `.` |
| `Tracing.BreadcrumbShape` | src/logger-override.ts:127-146 | at most 3 tokens; none when the stack has at most 3 frames; the breadcrumb has exactly `k - 1` dots and splits back into its tokens |
| `Tracing.BreadcrumbOrder` | src/logger-override.ts:127-130 | for any window of `w` frames, token `k` renders frame `3 + w - 1 - k` (reversed order) |
| `Logger.JoinText` | src/logger-override.ts:159 | how `join` shows a rendered argument: an `undefined` result becomes `""` |
| `Logger.RenderAll` | src/logger-override.ts:159 | `arg.map((argument) => shorten(argument))`, throwing with the first argument that throws; characterised by `RenderAllSpec` |
| `Logger.Content` | src/logger-override.ts:159-160 | the content segment: the rendered arguments joined with spaces, wrapped in red for ERROR; characterised by `ContentSpec` |
| `Logger.LevelSegment` | src/logger-override.ts:156 | the level padded to 6 columns in its colour; see `LevelSegmentWidth` |
| `Logger.TraceSegment` | src/logger-override.ts:157 | the breadcrumb padded to the column width in yellow; see `LineLayout` |
| `Logger.Line` | src/logger-override.ts:152-162 | the whole line, or the content's throw; characterised by `LineLayout`, `ContentOffset` and `LineAlignment` |
| `Logger.RenderAllSpec` | src/logger-override.ts:159 | rendering the arguments succeeds exactly when no argument throws, and gives each argument's text in place |
| `Logger.ContentSpec` | src/logger-override.ts:159-160 | the content is the rendered arguments joined by spaces, wrapped in red exactly for ERROR |
| `Logger.LevelSegmentWidth` | src/logger-override.ts:156 | the padded level has length `max(6, |level|)`, which is exactly 6 for each of the five known levels |
| `Logger.LineLayout` | src/logger-override.ts:152-162 | the line exists exactly when the content does; it is timestamp, level, trace and content separated by single spaces; the padded trace is exactly the column width |
| `Logger.ContentOffset` | src/logger-override.ts:162 | the line starts with the timestamp, and the content starts after the level segment, the trace padded to the column width, and three spaces |
| `Logger.LineAlignment` | src/logger-override.ts:156-162 | two lines at one width, with timestamps of equal length and known levels, start their content at the same column |
| `Logger.LineThrowsOnlyForErrors` | src/logger-override.ts:159 | a line whose arguments include no Error is always produced |
| `Logger.Formatter.constructor` | src/logger-override.ts:5 | the trace column width starts at 0 |
| `Logger.Formatter.Tracer` | src/logger-override.ts:123-150 | the `map` with its mutable remembered name computes `Breadcrumb(frames)`; the width becomes `max(old, |breadcrumb|)`, so it never decreases and always fits the breadcrumb |
| `Logger.Formatter.Log` | src/logger-override.ts:152-162 | the width is updated first; the result is `Line(...)` with the new width, or a throw |
| `Logger.WidthAcrossCalls` | src/logger-override.ts:148-157 | over two calls the width is first the first breadcrumb's length, then the larger of the two lengths, so it never shrinks |

## Left out

- Installing the formatter on `console.debug/info/warn/error`, the unused `wlog`, and the final `console.log` write (src/logger-override.ts:44-46, 165, 173-178). These are side effects on host globals. `Formatter.Log` returns the line instead of writing it.
- Capturing the stack with `new Error()` and `ErrorStackParser.parse` (src/logger-override.ts:124-125). This is a foreign library. The parsed frames are a parameter.
- The regex scan of an error's stack (src/logger-override.ts:92). The matches are a parameter. The lemmas about tokens assume the matched shape `[.a-zA-Z0-9]+:[0-9]+` (`IsTraceToken`).
- `JSON.stringify` (src/logger-override.ts:113-115). It is abstracted as `Json`: compact and pretty texts, `undefined`, or a throw. `logger` itself never passes a limit.
- The luxon timestamp (src/logger-override.ts:155). It depends on the clock, so it is a string parameter.
- The ANSI constants other than the five level colours and RESET, and `rgbANSI` (src/logger-override.ts:9-38). The file never uses them. The escape syntax is not reasoned about.
- ValueRenderer.ToUpper: upper-cases ASCII letters only. The tokens it sees come from a `[.a-zA-Z0-9]` match, so no other letters occur.
- Text.Basename: follows POSIX `path.basename`, so it drops trailing `/` and keeps the text after the last `/`. Windows separators are not modelled.
- Lengths count characters, not UTF-16 code units. Padding and the width can differ from the original for characters outside the Basic Multilingual Plane.
- The null check in `wrap` (`colorCode ?? ""`) is not modelled. Every caller passes a colour string.
- Errors whose `message` is not a string are not modelled.
