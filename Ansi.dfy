/** The ANSI colour constants, the level-to-colour table and `wrap`. */
module Ansi {
  import opened Text

  const RESET := "\U{1b}[0m"
  const RED := "\U{1b}[31m"
  const YELLOW := "\U{1b}[33m"
  const BLUE := "\U{1b}[34m"
  const MAGENTA := "\U{1b}[35m"
  const CYAN := "\U{1b}[36m"

  /** The five severity names the logger knows. */
  predicate IsKnownLevel(level: string)
  {
    level == "DEBUG" || level == "INFO" || level == "WARN" || level == "ERROR" || level == "SYSTEM"
  }

  /** The colour shown for a severity; any other name gets the reset code. */
  function GetColorCodeByLevel(level: string): (code: string)
    ensures level == "DEBUG" ==> code == MAGENTA
    ensures level == "INFO" ==> code == CYAN
    ensures level == "WARN" ==> code == YELLOW
    ensures level == "ERROR" ==> code == RED
    ensures level == "SYSTEM" ==> code == BLUE
    ensures code == RESET <==> !IsKnownLevel(level)
  {
    match level
    case "DEBUG" => MAGENTA
    case "INFO" => CYAN
    case "WARN" => YELLOW
    case "ERROR" => RED
    case "SYSTEM" => BLUE
    case _ => RESET
  }

  /** `content` framed by `colorCode` and the reset code. */
  function Wrap(content: string, colorCode: string): (r: string)
    ensures |r| == |colorCode| + |content| + |RESET|
    ensures r[..|colorCode|] == colorCode
    ensures r[|colorCode|..|colorCode| + |content|] == content
    ensures r[|r| - |RESET|..] == RESET
  {
    colorCode + content + RESET
  }

  /** Distinct levels get distinct colours, so the colour tells the level apart. */
  lemma ColorTableInjective(a: string, b: string)
    requires IsKnownLevel(a) && IsKnownLevel(b) && a != b
    ensures GetColorCodeByLevel(a) != GetColorCodeByLevel(b)
  {
    var codes := [MAGENTA, CYAN, YELLOW, RED, BLUE];
    assert forall i, j :: 0 <= i < j < 5 ==> codes[i][3] != codes[j][3];
  }

  /** The frame of a wrapped text determines the text: unwrapping is the inverse of `Wrap`. */
  lemma WrapInjective(x: string, y: string, code: string)
    requires Wrap(x, code) == Wrap(y, code)
    ensures x == y
  {
    assert |x| == |y|;
    assert x == Wrap(x, code)[|code|..|code| + |x|];
  }
}
