/**
 * The value renderer (`shorten`) and its error-trace branch, with the
 * file-name prettifier it uses on every `file:line` token of an error's
 * stack.
 */
module ValueRenderer {
  import opened Wrappers
  import opened Text
  import opened Ansi

  /** At most this many stack tokens are shown for an error. */
  const ERROR_TRACE_SIZE := 5

  /** The placeholder for a value whose serialisation fails. */
  const CIRCULAR := "[Circular Object]"

  // ---------------------------------------------------------------------------
  // filenamePrettier

  /** `toUpperCase` on one character; the tokens it meets are ASCII. */
  function ToUpper(c: char): (u: char)
    ensures 'a' <= c <= 'z' ==> u as int == c as int - 32
    ensures !('a' <= c <= 'z') ==> u == c
  {
    if 'a' <= c <= 'z' then (c as int - 32) as char else c
  }

  /** `segment[0].toUpperCase() + segment.slice(1)` on a non-empty segment. */
  function Capitalize(segment: string): (r: string)
    requires segment != ""
    ensures |r| == |segment| && r[0] == ToUpper(segment[0]) && r[1..] == segment[1..]
  {
    [ToUpper(segment[0])] + segment[1..]
  }

  /** Each segment capitalised. */
  function CapitalizeAll(segs: seq<string>): (r: seq<string>)
    requires forall i :: 0 <= i < |segs| ==> segs[i] != ""
    ensures |r| == |segs|
    ensures forall i :: 0 <= i < |segs| ==> r[i] == Capitalize(segs[i])
  {
    if |segs| == 0 then [] else CapitalizeAll(segs[..|segs| - 1]) + [Capitalize(Last(segs))]
  }

  /**
   * The concatenation of the capitalised segments, appended left to right as
   * the prettifier's loop does; an empty segment throws.
   */
  function CamelTail(segs: seq<string>): Result<string>
  {
    if |segs| == 0 then Ok("")
    else match CamelTail(segs[..|segs| - 1])
      case Throws => Throws
      case Ok(t) =>
        if Last(segs) == "" then Throws else Ok(t + Capitalize(Last(segs)))
  }

  /**
   * `filenamePrettier(full)`: a name without `.` is returned as it is;
   * otherwise every dot-segment but the last is kept, the first verbatim and
   * each later one capitalised, and the pieces are concatenated.
   */
  function PrettyFilename(full: string): Result<string>
  {
    var segs := Split(full, '.');
    if |segs| == 1 then Ok(full)
    else match CamelTail(segs[1..|segs| - 1])
      case Throws => Throws
      case Ok(t) => Ok(segs[0] + t)
  }

  /** CamelTail succeeds exactly when no segment is empty, and then concatenates the capitalised segments. */
  lemma {:induction false} CamelTailSpec(segs: seq<string>)
    ensures CamelTail(segs).Ok? <==> forall i :: 0 <= i < |segs| ==> segs[i] != ""
    ensures CamelTail(segs).Ok? ==> CamelTail(segs).value == Join(CapitalizeAll(segs), "")
  {
    if |segs| > 0 {
      var init := segs[..|segs| - 1];
      CamelTailSpec(init);
      assert (forall i :: 0 <= i < |segs| ==> segs[i] != "") <==>
        (forall i :: 0 <= i < |init| ==> init[i] != "") && Last(segs) != "";
      if CamelTail(segs).Ok? {
        JoinAppend(CapitalizeAll(init), Capitalize(Last(segs)));
      }
    }
  }

  /** Appending one piece to a concatenation. */
  lemma {:induction false} JoinAppend(segs: seq<string>, x: string)
    ensures Join(segs + [x], "") == Join(segs, "") + x
  {
    if |segs| == 1 {
      assert (segs + [x])[1..] == [x];
    } else if |segs| > 1 {
      JoinAppend(segs[1..], x);
      assert (segs + [x])[1..] == segs[1..] + [x];
    }
  }

  /**
   * The prettifier's contract: a dot-free name comes back unchanged; a
   * dotted one throws exactly when some segment strictly between the first
   * and the last is empty, and otherwise gives the first segment followed by
   * the capitalised middle segments.
   */
  lemma PrettyFilenameSpec(full: string)
    ensures '.' !in full ==> PrettyFilename(full) == Ok(full)
    ensures '.' in full <==> |Split(full, '.')| > 1
    ensures var segs := Split(full, '.');
      |segs| > 1 ==>
        && (PrettyFilename(full).Ok? <==> forall i :: 1 <= i < |segs| - 1 ==> segs[i] != "")
        && (PrettyFilename(full).Ok? ==>
              PrettyFilename(full).value == segs[0] + Join(CapitalizeAll(segs[1..|segs| - 1]), ""))
  {
    SplitPieces(full, '.');
    var segs := Split(full, '.');
    if |segs| > 1 {
      var mid := segs[1..|segs| - 1];
      CamelTailSpec(mid);
      assert forall i :: 1 <= i < |segs| - 1 ==> segs[i] == mid[i - 1];
    }
  }

  /** One more segment of the loop: CamelTail over `segs[1..i + 1]` extends the one over `segs[1..i]`. */
  lemma CamelTailStep(segs: seq<string>, i: nat)
    requires 1 <= i < |segs|
    ensures CamelTail(segs[1..i + 1]) ==
      match CamelTail(segs[1..i])
      case Throws => Throws
      case Ok(t) => if segs[i] == "" then Throws else Ok(t + Capitalize(segs[i]))
  {
    assert segs[1..i + 1][..i - 1] == segs[1..i];
  }

  /** An empty segment anywhere makes CamelTail throw. */
  lemma CamelTailThrows(segs: seq<string>, j: nat)
    requires j < |segs| && segs[j] == ""
    ensures CamelTail(segs) == Throws
  {
    CamelTailSpec(segs);
    assert !(forall i :: 0 <= i < |segs| ==> segs[i] != "");
  }

  /** `filenamePrettier`, with its counted loop over the dot-segments. */
  method FilenamePrettier(fullFilename: string) returns (r: Result<string>)
    ensures r == PrettyFilename(fullFilename)
  {
    var segments := Split(fullFilename, '.');
    if |segments| == 1 {
      return Ok(fullFilename);
    }
    var filename := "";
    for i := 0 to |segments| - 1
      invariant i == 0 ==> filename == ""
      invariant i > 0 ==> CamelTail(segments[1..i]).Ok?
      invariant i > 0 ==> filename == segments[0] + CamelTail(segments[1..i]).value
    {
      var segment := segments[i];
      if i > 0 {
        if segment == "" {
          CamelTailThrows(segments[1..|segments| - 1], i - 1);
          return Throws;
        }
        CamelTailStep(segments, i);
        segment := Capitalize(segment);
        ghost var t := CamelTail(segments[1..i]).value;
        assert filename + segment == segments[0] + (t + segment);
      } else {
        assert CamelTail(segments[1..1]) == Ok("");
        assert segments[0] == segments[0] + "";
      }
      filename := filename + segment;
    }
    r := Ok(filename);
  }

  // ---------------------------------------------------------------------------
  // The Error branch of shorten

  /** Characters of the stack pattern `[.a-zA-Z0-9]`. */
  predicate IsFileChar(c: char)
  {
    c == '.' || 'a' <= c <= 'z' || 'A' <= c <= 'Z' || '0' <= c <= '9'
  }

  /** `name + ":" + digits` matches `[.a-zA-Z0-9]+:[0-9]+`. */
  predicate IsTraceToken(name: string, digits: string)
  {
    && |name| > 0 && (forall i :: 0 <= i < |name| ==> IsFileChar(name[i]))
    && |digits| > 0 && AllDigits(digits)
  }

  /** The line text of a token: the first digit run after its last `:`. */
  function LineOf(token: string): string
  {
    FirstDigitRun(Last(Split(token, ':')))
  }

  /** One entry of the trace: the prettified token and its line in parentheses. */
  function TraceText(token: string): Result<string>
  {
    match PrettyFilename(token)
    case Throws => Throws
    case Ok(f) => Ok(f + "(" + LineOf(token) + ")")
  }

  /** The trace entries in match order, as the loop pushes them; the first failure propagates. */
  function TraceTexts(tokens: seq<string>): Result<seq<string>>
  {
    if |tokens| == 0 then Ok([])
    else match TraceTexts(tokens[..|tokens| - 1])
      case Throws => Throws
      case Ok(ts) =>
        match TraceText(Last(tokens))
        case Throws => Throws
        case Ok(t) => Ok(ts + [t])
  }

  /** The tokens an error trace shows: the first five matches. */
  function ShownTokens(matches: seq<string>): (used: seq<string>)
    ensures |used| == Min(|matches|, ERROR_TRACE_SIZE)
    ensures used == matches[..|used|]
  {
    matches[..Min(|matches|, ERROR_TRACE_SIZE)]
  }

  /** The bracketed trace prefix around the joined entries, "unknown" when there are none. */
  function TracePrefix(entries: seq<string>): string
  {
    Wrap("[Trace: " + (if |entries| > 0 then Join(entries, ".") else "unknown") + "]", RED)
  }

  /** The entries an error trace shows, last match first. */
  function TraceEntries(matches: seq<string>): Result<seq<string>>
  {
    match TraceTexts(ShownTokens(matches))
    case Throws => Throws
    case Ok(texts) => Ok(Reverse(texts))
  }

  /** The Error rendering: the trace prefix, a space, and the message. */
  function ErrorTrace(matches: seq<string>, message: string): Result<string>
  {
    match TraceEntries(matches)
    case Throws => Throws
    case Ok(entries) => Ok(TracePrefix(entries) + " " + message)
  }

  /** TraceTexts succeeds when every token prettifies, and then renders each token in place. */
  lemma {:induction false} TraceTextsSpec(tokens: seq<string>)
    ensures TraceTexts(tokens).Ok? <==> forall i :: 0 <= i < |tokens| ==> PrettyFilename(tokens[i]).Ok?
    ensures TraceTexts(tokens).Ok? ==>
      && |TraceTexts(tokens).value| == |tokens|
      && forall i :: 0 <= i < |tokens| ==> TraceTexts(tokens).value[i] == TraceText(tokens[i]).value
  {
    if |tokens| > 0 {
      var init := tokens[..|tokens| - 1];
      TraceTextsSpec(init);
      assert forall i :: 0 <= i < |init| ==> init[i] == tokens[i];
    }
  }

  /**
   * The trace shows at most five entries: it throws exactly when one of the
   * first five tokens cannot be prettified, and otherwise holds the rendered
   * first five tokens, last match first.
   */
  lemma TraceEntriesSpec(matches: seq<string>)
    ensures var used := ShownTokens(matches);
      TraceEntries(matches).Ok? <==> forall i :: 0 <= i < |used| ==> PrettyFilename(used[i]).Ok?
    ensures TraceEntries(matches).Ok? ==>
      var entries := TraceEntries(matches).value;
      && |entries| == Min(|matches|, ERROR_TRACE_SIZE)
      && forall k :: 0 <= k < |entries| ==> entries[k] == TraceText(matches[|entries| - 1 - k]).value
  {
    var used := ShownTokens(matches);
    TraceTextsSpec(used);
  }

  /**
   * The error rendering is the red `[Trace: …]` prefix, a space and the
   * message; with no matched tokens the prefix reads `[Trace: unknown]`.
   */
  lemma ErrorTraceShape(matches: seq<string>, message: string)
    ensures |matches| == 0 ==> ErrorTrace(matches, message) == Ok(Wrap("[Trace: unknown]", RED) + " " + message)
    ensures ErrorTrace(matches, message).Ok? ==>
      var r := ErrorTrace(matches, message).value;
      && |r| > |message|
      && r[..|RED| + 8] == RED + "[Trace: "
      && r[|r| - |message| - 1..] == " " + message
  {
    if |matches| == 0 {
      assert ShownTokens(matches) == [];
      assert TraceEntries(matches) == Ok([]);
      assert "[Trace: " + "unknown" + "]" == "[Trace: unknown]";
      assert TracePrefix([]) == Wrap("[Trace: unknown]", RED);
    }
    if ErrorTrace(matches, message).Ok? {
      var entries := TraceEntries(matches).value;
      var body := "[Trace: " + (if |entries| > 0 then Join(entries, ".") else "unknown") + "]";
      var r := ErrorTrace(matches, message).value;
      assert r == RED + body + RESET + " " + message;
      assert r[..|RED| + 8] == (RED + body)[..|RED| + 8];
      assert r[|r| - |message| - 1..] == " " + message;
    }
  }

  /** Matches after the fifth never affect the rendering. */
  lemma ErrorTraceUsesFirstFive(m1: seq<string>, m2: seq<string>, message: string)
    requires |m1| >= ERROR_TRACE_SIZE && |m2| >= ERROR_TRACE_SIZE
    requires m1[..ERROR_TRACE_SIZE] == m2[..ERROR_TRACE_SIZE]
    ensures ErrorTrace(m1, message) == ErrorTrace(m2, message)
  {
    assert ShownTokens(m1) == ShownTokens(m2);
  }

  /** For a token of the stack pattern, the line is the digits after the colon. */
  lemma LineOfTraceToken(name: string, digits: string)
    requires IsTraceToken(name, digits)
    ensures LineOf(name + ":" + digits) == digits
  {
    assert ':' !in digits;
    SplitLastPiece(name, ':', digits);
    FirstDigitRunOfDigits(digits);
  }

  /**
   * For a token of the stack pattern the prettifier sees the name's
   * extension as the last segment, so a dotted name loses its extension
   * and the `:line` suffix; a dot-free name keeps both.
   */
  lemma PrettyTraceToken(name: string, digits: string)
    requires IsTraceToken(name, digits)
    ensures '.' in name ==> PrettyFilename(name + ":" + digits) == PrettyFilename(name)
    ensures '.' !in name ==> PrettyFilename(name + ":" + digits) == Ok(name + ":" + digits)
  {
    var suffix := ":" + digits;
    assert '.' !in suffix;
    SplitAppend(name, suffix, '.');
    SplitPieces(name, '.');
    SplitPieces(name + suffix, '.');
    assert name + ":" + digits == name + suffix;
  }

  /** The rendered entry of a stack-pattern token: file name, then the line in parentheses. */
  lemma TraceTextOfToken(name: string, digits: string)
    requires IsTraceToken(name, digits)
    ensures '.' in name ==>
      TraceText(name + ":" + digits) ==
        match PrettyFilename(name)
        case Throws => Throws
        case Ok(f) => Ok(f + "(" + digits + ")")
    ensures '.' !in name ==> TraceText(name + ":" + digits) == Ok(name + ":" + digits + "(" + digits + ")")
  {
    LineOfTraceToken(name, digits);
    PrettyTraceToken(name, digits);
  }

  /** The Error branch of `shorten`, with its `for…of` loop pushing one entry per token. */
  method RenderErrorTrace(matched: seq<string>, message: string) returns (r: Result<string>)
    ensures r == ErrorTrace(matched, message)
  {
    var matchedTraces := ShownTokens(matched);
    var traceTexts: seq<string> := [];
    for i := 0 to |matchedTraces|
      invariant TraceTexts(matchedTraces[..i]) == Ok(traceTexts)
    {
      var trace := matchedTraces[i];
      assert matchedTraces[..i + 1][..i] == matchedTraces[..i];
      var filename := FilenamePrettier(trace);
      if filename.Throws? {
        TraceTextsSpec(matchedTraces);
        return Throws;
      }
      var line := LineOf(trace);
      traceTexts := traceTexts + [filename.value + "(" + line + ")"];
    }
    assert matchedTraces[..|matchedTraces|] == matchedTraces;
    traceTexts := Reverse(traceTexts);
    r := Ok(TracePrefix(traceTexts) + " " + message);
  }

  // ---------------------------------------------------------------------------
  // shorten

  /**
   * What `JSON.stringify` does with a value: produce its compact text (the
   * four-space indented text then exists too), return `undefined` (functions,
   * symbols), or throw (a cyclic structure).
   */
  datatype Json = Serialized(compact: string, pretty: string) | NoJson | Cyclic

  /**
   * A logged argument, by the branch `shorten` takes: an Error carries the
   * `file:line` matches of its stack (none when the stack is absent) and
   * its message.
   */
  datatype Value =
    | Null
    | Undefined
    | Str(s: string)
    | ErrorObject(matches: seq<string>, message: string)
    | Other(json: Json)

  /** Whether the new-line limit is truthy: present and not zero. */
  predicate Truthy(limit: Option<int>)
  {
    limit.Some? && limit.value != 0
  }

  /**
   * The `try` block of `shorten`. A failed serialisation is caught; so is
   * reading `.length` of `undefined` when the limit is truthy. With a falsy
   * limit an unserialisable value comes back as `undefined` (None).
   */
  function Serialize(json: Json, limit: Option<int>): Option<string>
  {
    match json
    case Cyclic => Some(CIRCULAR)
    case NoJson => if Truthy(limit) then Some(CIRCULAR) else None
    case Serialized(compact, pretty) =>
      if Truthy(limit) && |compact| > limit.value then Some("\n" + pretty) else Some(compact)
  }

  /** `shorten(value, newLineLimit)`. */
  function Shorten(value: Value, limit: Option<int>): Result<Option<string>>
  {
    match value
    case Null => Ok(Some("null"))
    case Undefined => Ok(Some("undefined"))
    case Str(s) => Ok(Some(s))
    case ErrorObject(matches, message) =>
      (match ErrorTrace(matches, message)
       case Throws => Throws
       case Ok(text) => Ok(Some(text)))
    case Other(json) => Ok(Serialize(json, limit))
  }

  /**
   * The renderer's contract: `null` and `undefined` print their names, text
   * is returned as it is whatever the limit, an Error is rendered as its
   * trace and message, and anything else is serialised. Only the Error
   * branch can throw; the result is `undefined` exactly for an
   * unserialisable value under a falsy limit; a cyclic value shows the
   * placeholder; the multi-line form is chosen when the limit is truthy and
   * the compact text is longer than it, the compact text otherwise.
   */
  lemma ShortenSpec(value: Value, limit: Option<int>)
    ensures value == Null ==> Shorten(value, limit) == Ok(Some("null"))
    ensures value == Undefined ==> Shorten(value, limit) == Ok(Some("undefined"))
    ensures value.Str? ==> Shorten(value, limit) == Ok(Some(value.s))
    ensures value.ErrorObject? ==>
      Shorten(value, limit).Ok? == ErrorTrace(value.matches, value.message).Ok?
    ensures Shorten(value, limit).Throws? ==> value.ErrorObject?
    ensures Shorten(value, limit) == Ok(None) <==> value == Other(NoJson) && !Truthy(limit)
    ensures value == Other(Cyclic) ==> Shorten(value, limit) == Ok(Some(CIRCULAR))
    ensures value.Other? && value.json.Serialized? ==>
      var json := value.json;
      && (Truthy(limit) && |json.compact| > limit.value ==> Shorten(value, limit) == Ok(Some("\n" + json.pretty)))
      && (!Truthy(limit) || |json.compact| <= limit.value ==> Shorten(value, limit) == Ok(Some(json.compact)))
  {
  }

  /** `shorten`, dispatching to the error-trace loop for Errors. */
  method ShortenValue(value: Value, limit: Option<int>) returns (r: Result<Option<string>>)
    ensures r == Shorten(value, limit)
  {
    match value {
      case Null => r := Ok(Some("null"));
      case Undefined => r := Ok(Some("undefined"));
      case Str(s) => r := Ok(Some(s));
      case ErrorObject(matches, message) =>
        var text := RenderErrorTrace(matches, message);
        r := if text.Ok? then Ok(Some(text.value)) else Throws;
      case Other(json) => r := Ok(Serialize(json, limit));
    }
  }

  /** A stack token `stem.ext:line` renders as `stem(line)`. */
  lemma TraceTextOfFile(stem: string, ext: string, digits: string)
    requires '.' !in stem && '.' !in ext
    requires IsTraceToken(stem + "." + ext, digits)
    ensures TraceText(stem + "." + ext + ":" + digits) == Ok(stem + "(" + digits + ")")
  {
    var name := stem + "." + ext;
    assert name[|stem|] == '.';
    TraceTextOfToken(name, digits);
    SplitAtFirst(stem, '.', ext);
    SplitWithout(ext, '.');
    assert Split(name, '.') == [stem, ext];
    assert [stem, ext][1..1] == [];
    assert PrettyFilename(name) == Ok(stem + "");
    assert stem + "" == stem;
  }

  /** A stack token `a.b.ext:line` renders as `aB(line)`, the second segment capitalised. */
  lemma TraceTextOfDottedFile(a: string, b: string, ext: string, digits: string)
    requires '.' !in a && '.' !in b && '.' !in ext && b != ""
    requires IsTraceToken(a + "." + b + "." + ext, digits)
    ensures TraceText(a + "." + b + "." + ext + ":" + digits) == Ok(a + Capitalize(b) + "(" + digits + ")")
  {
    var name := a + "." + b + "." + ext;
    TraceTextOfToken(name, digits);
    assert name == a + "." + (b + "." + ext);
    SplitAtFirst(a, '.', b + "." + ext);
    SplitAtFirst(b, '.', ext);
    SplitWithout(ext, '.');
    assert Split(name, '.') == [a, b, ext];
    assert [a, b, ext][1..2] == [b];
    assert [b][..0] == [];
    assert name[|a|] == '.';
    var cb := Capitalize(b);
    assert "" + cb == cb;
    assert CamelTail([b]) == Ok(cb);
    assert PrettyFilename(name) == Ok(a + cb);
  }
}
