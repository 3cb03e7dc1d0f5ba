/**
 * The call-site breadcrumb: frames 3..5 of the parsed stack, outermost
 * first, each shown as `name(line)` with a repeated name collapsed to `&`.
 */
module Tracing {
  import opened Wrappers
  import opened Text

  /** Innermost frames that belong to the logger itself. */
  const SKIPPED_FRAMES := 3

  /** Frames shown in a breadcrumb. */
  const TRACE_SEGMENT_SIZE := 3

  /** A parsed stack frame; either part may be missing. */
  datatype Frame = Frame(fileName: Option<string>, lineNumber: Option<nat>)

  /** `parsed.slice(3, 3 + TRACE_SEGMENT_SIZE)`. */
  function Window(frames: seq<Frame>): (w: seq<Frame>)
    ensures |w| == Max(0, Min(|frames|, SKIPPED_FRAMES + TRACE_SEGMENT_SIZE) - SKIPPED_FRAMES)
    ensures forall i :: 0 <= i < |w| ==> w[i] == frames[SKIPPED_FRAMES + i]
  {
    if |frames| <= SKIPPED_FRAMES then []
    else frames[SKIPPED_FRAMES..Min(|frames|, SKIPPED_FRAMES + TRACE_SEGMENT_SIZE)]
  }

  /** The part of a file's base name before its first `.`. */
  function FileStem(path: string): (name: string)
    ensures '.' !in name
    ensures var base := Basename(path);
      && |name| <= |base| && name == base[..|name|]
      && (|name| < |base| ==> base[|name|] == '.')
  {
    SplitPieces(Basename(path), '.');
    FirstPiece(Basename(path), '.');
    Split(Basename(path), '.')[0]
  }

  /** The line number as text, `??` when it is missing. */
  function LineLabel(line: Option<nat>): (r: string)
    ensures '.' !in r
    ensures line.None? ==> r == "??"
    ensures line.Some? ==> r == NatToString(line.value) && AllDigits(r)
  {
    match line
    case None => "??"
    case Some(n) =>
      var digits := NatToString(n);
      assert forall i :: 0 <= i < |digits| ==> digits[i] != '.';
      digits
  }

  /** The token a frame renders as when `last` is the remembered name. */
  function TokenFor(frame: Frame, last: string): string
  {
    match frame.fileName
    case None => "null"
    case Some(path) =>
      var name := FileStem(path);
      (if name == last then "&" else name) + "(" + LineLabel(frame.lineNumber) + ")"
  }

  /** The remembered name after a frame: it changes only when a named frame does not collapse. */
  function NextRemembered(frame: Frame, last: string): string
  {
    match frame.fileName
    case None => last
    case Some(path) => if FileStem(path) == last then last else FileStem(path)
  }

  /** The remembered name after a run of frames. */
  function Remembered(frames: seq<Frame>, last: string): string
  {
    if |frames| == 0 then last else Remembered(frames[1..], NextRemembered(frames[0], last))
  }

  /** The tokens of a run of frames, threading the remembered name as the `map` callback does. */
  function Tokens(frames: seq<Frame>, last: string): (r: seq<string>)
    ensures |r| == |frames|
  {
    if |frames| == 0 then []
    else [TokenFor(frames[0], last)] + Tokens(frames[1..], NextRemembered(frames[0], last))
  }

  /** Rendering a run of frames from position `i` on: the token of frame `i`, then the rest. */
  lemma TokensFrom(frames: seq<Frame>, i: nat, last: string)
    requires i < |frames|
    ensures Tokens(frames[i..], last) ==
      [TokenFor(frames[i], last)] + Tokens(frames[i + 1..], NextRemembered(frames[i], last))
  {
    assert frames[i..][1..] == frames[i + 1..];
  }

  /** The breadcrumb of a parsed stack. */
  function Breadcrumb(frames: seq<Frame>): string
  {
    Join(Tokens(Reverse(Window(frames)), ""), ".")
  }

  /**
   * The remembered name is the stem of the latest frame that has a file
   * name: a named frame sets it, a frame without a file name leaves it.
   */
  lemma {:induction false} RememberedSnoc(frames: seq<Frame>, f: Frame, last: string)
    ensures Remembered(frames + [f], last) ==
      match f.fileName
      case None => Remembered(frames, last)
      case Some(path) => FileStem(path)
  {
    if |frames| == 0 {
      assert Remembered([f], last) == NextRemembered(f, last);
    } else {
      assert (frames + [f])[1..] == frames[1..] + [f];
      RememberedSnoc(frames[1..], f, NextRemembered(frames[0], last));
    }
  }

  /** Each token depends only on its frame and the name remembered from the frames before it. */
  lemma {:induction false} TokensAt(frames: seq<Frame>, last: string, i: nat)
    requires i < |frames|
    ensures Tokens(frames, last)[i] == TokenFor(frames[i], Remembered(frames[..i], last))
  {
    if i > 0 {
      TokensAt(frames[1..], NextRemembered(frames[0], last), i - 1);
      assert frames[..i][1..] == frames[1..][..i - 1];
    }
  }

  /** A frame renders `null` exactly when it has no file name. */
  lemma NullToken(frame: Frame, last: string)
    ensures TokenFor(frame, last) == "null" <==> frame.fileName.None?
  {
    var t := TokenFor(frame, last);
    if frame.fileName.Some? {
      assert t[|t| - 1] == ')';
      assert "null"[3] == 'l';
    }
  }

  /** In a breadcrumb, the `null` tokens are exactly the frames without a file. */
  lemma NullTokens(frames: seq<Frame>, last: string, i: nat)
    requires i < |frames|
    ensures Tokens(frames, last)[i] == "null" <==> frames[i].fileName.None?
  {
    TokensAt(frames, last, i);
    NullToken(frames[i], Remembered(frames[..i], last));
  }

  /** A name repeated across a frame without a file still collapses: A, null, A gives `A(..).null.&(..)`. */
  lemma CollapseAcrossNull(a: string, la: Option<nat>, ln: Option<nat>, b: string, lb: Option<nat>)
    requires FileStem(a) == FileStem(b) && FileStem(a) != ""
    ensures Tokens([Frame(Some(a), la), Frame(None, ln), Frame(Some(b), lb)], "") ==
      [FileStem(a) + "(" + LineLabel(la) + ")", "null", "&(" + LineLabel(lb) + ")"]
  {
    var fs := [Frame(Some(a), la), Frame(None, ln), Frame(Some(b), lb)];
    var name := FileStem(a);
    assert fs[1..] == [Frame(None, ln), Frame(Some(b), lb)];
    assert fs[1..][1..] == [Frame(Some(b), lb)];
    assert NextRemembered(fs[0], "") == name;
    assert Tokens(fs[1..][1..], name) == [TokenFor(Frame(Some(b), lb), name)];
    assert "&" + "(" + LineLabel(lb) + ")" == "&(" + LineLabel(lb) + ")";
  }

  /** The remembered name starts out empty, so a first frame whose stem is empty already collapses. */
  lemma EmptyStemCollapses(path: string, line: Option<nat>)
    requires FileStem(path) == ""
    ensures Tokens([Frame(Some(path), line)], "") == ["&(" + LineLabel(line) + ")"]
  {
    assert "&" + "(" + LineLabel(line) + ")" == "&(" + LineLabel(line) + ")";
  }

  /** No token contains the `.` that joins them. */
  lemma TokenForHasNoDot(frame: Frame, last: string)
    ensures '.' !in TokenFor(frame, last)
  {
  }

  /**
   * The breadcrumb's shape: one token per frame of the window (at most
   * three), every token dot-free, so the text holds exactly `k - 1` dots and
   * splitting it at `.` gives back the tokens; no window gives "".
   */
  lemma BreadcrumbShape(frames: seq<Frame>)
    ensures var tokens := Tokens(Reverse(Window(frames)), "");
      && |tokens| <= TRACE_SEGMENT_SIZE
      && (|tokens| == 0 <==> |frames| <= SKIPPED_FRAMES)
      && (|tokens| == 0 ==> Breadcrumb(frames) == "")
      && (|tokens| > 0 ==> Split(Breadcrumb(frames), '.') == tokens)
      && (|tokens| > 0 ==> Count(Breadcrumb(frames), '.') == |tokens| - 1)
  {
    var rev := Reverse(Window(frames));
    var tokens := Tokens(rev, "");
    forall i | 0 <= i < |tokens| ensures '.' !in tokens[i] {
      TokensAt(rev, "", i);
      TokenForHasNoDot(rev[i], Remembered(rev[..i], ""));
    }
    if |tokens| > 0 {
      SplitJoin(tokens, '.');
    }
  }

  /**
   * The breadcrumb lists the window outermost first: token `k` renders the
   * window's frame counted `k` from its far end.
   */
  lemma BreadcrumbOrder(frames: seq<Frame>, k: nat)
    requires k < |Window(frames)|
    ensures var rev := Reverse(Window(frames));
      Tokens(rev, "")[k] == TokenFor(frames[SKIPPED_FRAMES + |Window(frames)| - 1 - k], Remembered(rev[..k], ""))
  {
    TokensAt(Reverse(Window(frames)), "", k);
  }
}
