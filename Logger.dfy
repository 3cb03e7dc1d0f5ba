/**
 * The formatter: the process-wide trace column width, the tracer that
 * widens it, and the assembly of one output line from the timestamp,
 * level, trace and content segments.
 */
module Logger {
  import opened Wrappers
  import opened Text
  import opened Ansi
  import opened ValueRenderer
  import opened Tracing

  /** Width the level name is padded to. */
  const LEVEL_WIDTH := 6

  /** How `Array.prototype.join` shows an element: `undefined` as "". */
  function JoinText(rendered: Option<string>): string
  {
    match rendered
    case None => ""
    case Some(s) => s
  }

  /** Every argument rendered with `shorten` and no limit; the first throw propagates. */
  function RenderAll(args: seq<Value>): Result<seq<string>>
  {
    if |args| == 0 then Ok([])
    else match RenderAll(args[..|args| - 1])
      case Throws => Throws
      case Ok(texts) =>
        match Shorten(Last(args), None)
        case Throws => Throws
        case Ok(text) => Ok(texts + [JoinText(text)])
  }

  /**
   * The rendering of the arguments exists exactly when no argument throws,
   * and then renders each argument in place.
   */
  lemma {:induction false} RenderAllSpec(args: seq<Value>)
    ensures RenderAll(args).Ok? <==> forall i :: 0 <= i < |args| ==> Shorten(args[i], None).Ok?
    ensures RenderAll(args).Ok? ==>
      && |RenderAll(args).value| == |args|
      && forall i :: 0 <= i < |args| ==> RenderAll(args).value[i] == JoinText(Shorten(args[i], None).value)
  {
    if |args| > 0 {
      var init := args[..|args| - 1];
      RenderAllSpec(init);
      assert forall i :: 0 <= i < |init| ==> init[i] == args[i];
    }
  }

  /** The content segment: the rendered arguments joined by spaces, all in red for ERROR. */
  function Content(level: string, args: seq<Value>): Result<string>
  {
    match RenderAll(args)
    case Throws => Throws
    case Ok(texts) =>
      var joined := Join(texts, " ");
      Ok(if level == "ERROR" then Wrap(joined, RED) else joined)
  }

  /** The level name padded to six columns, in the level's colour. */
  function LevelSegment(level: string): string
  {
    Wrap(PadEnd(level, LEVEL_WIDTH), GetColorCodeByLevel(level))
  }

  /** The breadcrumb padded to the column width, in yellow. */
  function TraceSegment(crumb: string, width: nat): string
  {
    Wrap(PadEnd(crumb, width), YELLOW)
  }

  /** The four segments separated by single spaces. */
  function Line(level: string, time: string, crumb: string, width: nat, args: seq<Value>): Result<string>
  {
    match Content(level, args)
    case Throws => Throws
    case Ok(content) => Ok(time + " " + LevelSegment(level) + " " + TraceSegment(crumb, width) + " " + content)
  }

  /** The padded level is `max(6, |level|)` wide, so exactly six columns for every known level. */
  lemma LevelSegmentWidth(level: string)
    ensures var padded := PadEnd(level, LEVEL_WIDTH);
      && |padded| == Max(LEVEL_WIDTH, |level|)
      && padded[..|level|] == level
      && LevelSegment(level) == GetColorCodeByLevel(level) + padded + RESET
    ensures IsKnownLevel(level) ==> |PadEnd(level, LEVEL_WIDTH)| == LEVEL_WIDTH
  {
  }

  /** The content exists exactly when no argument throws; it is in red exactly for ERROR. */
  lemma ContentSpec(level: string, args: seq<Value>)
    ensures Content(level, args).Ok? <==> forall i :: 0 <= i < |args| ==> Shorten(args[i], None).Ok?
    ensures Content(level, args).Ok? ==>
      var joined := Join(RenderAll(args).value, " ");
      Content(level, args).value == if level == "ERROR" then Wrap(joined, RED) else joined
  {
    RenderAllSpec(args);
  }

  /**
   * The line's layout: it exists exactly when the content does, and then it
   * is the timestamp, the level segment, the trace segment and the content
   * separated by single spaces, where the trace segment is the breadcrumb
   * padded to exactly the column width, in yellow.
   */
  lemma LineLayout(level: string, time: string, crumb: string, width: nat, args: seq<Value>)
    requires |crumb| <= width
    ensures Line(level, time, crumb, width, args).Ok? <==> Content(level, args).Ok?
    ensures Line(level, time, crumb, width, args).Ok? ==>
      Line(level, time, crumb, width, args).value ==
        time + " " + LevelSegment(level) + " " + TraceSegment(crumb, width) + " " + Content(level, args).value
    ensures TraceSegment(crumb, width) == YELLOW + PadEnd(crumb, width) + RESET
    ensures |PadEnd(crumb, width)| == width && PadEnd(crumb, width)[..|crumb|] == crumb
  {
  }

  /**
   * Where the content starts: after the timestamp, the level segment, the
   * padded trace segment and three spaces.
   */
  lemma ContentOffset(level: string, time: string, crumb: string, width: nat, args: seq<Value>)
    requires |crumb| <= width
    ensures Line(level, time, crumb, width, args).Ok? ==>
      var line := Line(level, time, crumb, width, args).value;
      var off := |time| + |LevelSegment(level)| + |YELLOW| + width + |RESET| + 3;
      && |line| == off + |Content(level, args).value|
      && line[..|time|] == time
      && line[off..] == Content(level, args).value
  {
  }

  /**
   * The columns line up: two lines at the same width, with timestamps of
   * equal length and known levels, start their content at the same offset.
   */
  lemma LineAlignment(level1: string, time1: string, crumb1: string, args1: seq<Value>,
                      level2: string, time2: string, crumb2: string, args2: seq<Value>, width: nat)
    requires IsKnownLevel(level1) && IsKnownLevel(level2) && |time1| == |time2|
    requires |crumb1| <= width && |crumb2| <= width
    ensures var off := |time1| + |LevelSegment(level1)| + |YELLOW| + width + |RESET| + 3;
      && off == |time2| + |LevelSegment(level2)| + |YELLOW| + width + |RESET| + 3
      && (Line(level1, time1, crumb1, width, args1).Ok? ==>
            Line(level1, time1, crumb1, width, args1).value[off..] == Content(level1, args1).value)
      && (Line(level2, time2, crumb2, width, args2).Ok? ==>
            Line(level2, time2, crumb2, width, args2).value[off..] == Content(level2, args2).value)
  {
  }

  /** A value that only throws makes the whole line throw; no other value does. */
  lemma LineThrowsOnlyForErrors(level: string, time: string, crumb: string, width: nat, args: seq<Value>)
    requires forall i :: 0 <= i < |args| ==> !args[i].ErrorObject?
    ensures Line(level, time, crumb, width, args).Ok?
  {
    RenderAllSpec(args);
    forall i | 0 <= i < |args| ensures Shorten(args[i], None).Ok? {
      ShortenSpec(args[i], None);
    }
  }

  /** Moving one element across a concatenation. */
  lemma AppendOne<T>(a: seq<T>, x: T, b: seq<T>)
    ensures (a + [x]) + b == a + ([x] + b)
  {
  }

  /** The process-wide formatter state: the trace column width. */
  class Formatter {
    /** The longest breadcrumb seen so far; it starts at zero and never shrinks. */
    var traceMaxLength: nat

    constructor ()
      ensures traceMaxLength == 0
    {
      traceMaxLength := 0;
    }

    /** `tracer`: render the breadcrumb of `frames` and widen the column to fit it. */
    method Tracer(frames: seq<Frame>) returns (crumb: string)
      modifies this
      ensures crumb == Breadcrumb(frames)
      ensures traceMaxLength == Max(old(traceMaxLength), |crumb|)
      ensures traceMaxLength >= old(traceMaxLength) && traceMaxLength >= |crumb|
    {
      var sliced := Reverse(Window(frames));
      var lastSegmentTrace := "";
      var tokens: seq<string> := [];
      for i := 0 to |sliced|
        invariant tokens + Tokens(sliced[i..], lastSegmentTrace) == Tokens(sliced, "")
        invariant traceMaxLength == old(traceMaxLength)
      {
        var entry := sliced[i];
        ghost var remembered := lastSegmentTrace;
        TokensFrom(sliced, i, remembered);
        var token: string;
        match entry.fileName {
          case None =>
            token := "null";
          case Some(rawFilename) =>
            var filename := FileStem(rawFilename);
            if filename == lastSegmentTrace {
              filename := "&";
            } else {
              lastSegmentTrace := filename;
            }
            token := filename + "(" + LineLabel(entry.lineNumber) + ")";
        }
        assert token == TokenFor(entry, remembered);
        assert lastSegmentTrace == NextRemembered(entry, remembered);
        AppendOne(tokens, token, Tokens(sliced[i + 1..], lastSegmentTrace));
        tokens := tokens + [token];
      }
      assert sliced[|sliced|..] == [];
      assert tokens == Tokens(sliced, "");
      crumb := Join(tokens, ".");
      traceMaxLength := Max(traceMaxLength, |crumb|);
    }

    /**
     * `logger(level, ...args)`: the line that would be written. The width is
     * updated before the arguments are rendered, so it grows even when an
     * argument throws.
     */
    method Log(level: string, time: string, frames: seq<Frame>, args: seq<Value>) returns (line: Result<string>)
      modifies this
      ensures traceMaxLength == Max(old(traceMaxLength), |Breadcrumb(frames)|)
      ensures line == Line(level, time, Breadcrumb(frames), traceMaxLength, args)
    {
      var levelColorCode := GetColorCodeByLevel(level);
      var levelSegment := Wrap(PadEnd(level, LEVEL_WIDTH), levelColorCode);
      var crumb := Tracer(frames);
      var traceSegment := Wrap(PadEnd(crumb, traceMaxLength), YELLOW);
      var texts: seq<string> := [];
      for i := 0 to |args|
        invariant RenderAll(args[..i]) == Ok(texts)
        invariant traceMaxLength == Max(old(traceMaxLength), |crumb|)
      {
        assert args[..i + 1][..i] == args[..i];
        var rendered := ShortenValue(args[i], None);
        if rendered.Throws? {
          RenderAllSpec(args);
          assert args[i] == args[..|args|][i];
          return Throws;
        }
        texts := texts + [JoinText(rendered.value)];
      }
      assert args[..|args|] == args;
      var contentSegment := Join(texts, " ");
      if level == "ERROR" {
        contentSegment := Wrap(contentSegment, RED);
      }
      line := Ok(time + " " + levelSegment + " " + traceSegment + " " + contentSegment);
    }
  }

  /**
   * Two calls in one process: the width after the first is that breadcrumb's
   * length, and after the second it is the larger of the two, so the padded
   * trace columns of consecutive lines never narrow.
   */
  method WidthAcrossCalls(first: seq<Frame>, second: seq<Frame>) returns (w1: nat, w2: nat)
    ensures w1 == |Breadcrumb(first)|
    ensures w2 == Max(|Breadcrumb(first)|, |Breadcrumb(second)|)
    ensures w1 <= w2
  {
    var formatter := new Formatter();
    var crumb := formatter.Tracer(first);
    w1 := formatter.traceMaxLength;
    crumb := formatter.Tracer(second);
    w2 := formatter.traceMaxLength;
  }
}
