/**
 * The JavaScript string operations the logger relies on, stated over
 * `seq<char>`: `split` and `join` on one-character separators, `padEnd`
 * with spaces, `reverse`, a digit-run match, number-to-text conversion
 * and a POSIX `basename`.
 */
module Text {

  function Max(a: int, b: int): int { if a < b then b else a }

  function Min(a: int, b: int): int { if a < b then a else b }

  /** Number of occurrences of `c` in `s`. */
  function Count(s: string, c: char): nat
  {
    if |s| == 0 then 0 else (if s[0] == c then 1 else 0) + Count(s[1..], c)
  }

  /** `s.split(c)`: the pieces between the occurrences of `c`; "" splits into [""]. */
  function Split(s: string, c: char): (r: seq<string>)
    ensures |r| >= 1
  {
    if |s| == 0 then [""]
    else
      var rest := Split(s[1..], c);
      if s[0] == c then [""] + rest else [[s[0]] + rest[0]] + rest[1..]
  }

  /** `segs.join(sep)`; an empty array joins to "". */
  function Join(segs: seq<string>, sep: string): string
  {
    if |segs| == 0 then ""
    else if |segs| == 1 then segs[0]
    else segs[0] + sep + Join(segs[1..], sep)
  }

  function Last<T>(s: seq<T>): T
    requires |s| > 0
  {
    s[|s| - 1]
  }

  /** The first piece of a split is the text before the first separator. */
  lemma {:induction false} FirstPiece(s: string, c: char)
    ensures var p := Split(s, c)[0];
      && |p| <= |s| && p == s[..|p|]
      && (|p| < |s| ==> s[|p|] == c)
  {
    if |s| > 0 && s[0] != c {
      FirstPiece(s[1..], c);
    }
  }

  /** No piece of a split contains the separator, and there is one piece more than separators. */
  lemma {:induction false} SplitPieces(s: string, c: char)
    ensures forall i :: 0 <= i < |Split(s, c)| ==> c !in Split(s, c)[i]
    ensures |Split(s, c)| == Count(s, c) + 1
    ensures |Split(s, c)| == 1 <==> c !in s
  {
    if |s| > 0 {
      SplitPieces(s[1..], c);
      assert s == [s[0]] + s[1..];
    }
  }

  /** Joining the pieces of a split with the separator gives back the string. */
  lemma {:induction false} JoinSplit(s: string, c: char)
    ensures Join(Split(s, c), [c]) == s
  {
    if |s| > 0 {
      JoinSplit(s[1..], c);
      var rest := Split(s[1..], c);
      if s[0] != c && |rest| > 1 {
        assert ([[s[0]] + rest[0]] + rest[1..])[1..] == rest[1..];
        assert Join(rest, [c]) == rest[0] + [c] + Join(rest[1..], [c]);
      }
    }
  }

  /** A string without the separator splits into itself alone. */
  lemma {:induction false} SplitWithout(s: string, c: char)
    requires c !in s
    ensures Split(s, c) == [s]
  {
    if |s| > 0 {
      SplitWithout(s[1..], c);
      assert s == [s[0]] + s[1..];
    }
  }

  /** The first separator ends the first piece. */
  lemma {:induction false} SplitAtFirst(a: string, c: char, b: string)
    requires c !in a
    ensures Split(a + [c] + b, c) == [a] + Split(b, c)
  {
    if |a| == 0 {
      assert a + [c] + b == [c] + b;
      assert ([c] + b)[1..] == b;
    } else {
      assert (a + [c] + b)[1..] == a[1..] + [c] + b;
      SplitAtFirst(a[1..], c, b);
      assert [a[0]] + a[1..] == a;
    }
  }

  /** Splitting a join of separator-free pieces gives back the pieces. */
  lemma {:induction false} SplitJoin(segs: seq<string>, c: char)
    requires |segs| >= 1
    requires forall i :: 0 <= i < |segs| ==> c !in segs[i]
    ensures Split(Join(segs, [c]), c) == segs
    ensures Count(Join(segs, [c]), c) == |segs| - 1
  {
    if |segs| == 1 {
      SplitWithout(segs[0], c);
    } else {
      SplitJoin(segs[1..], c);
      SplitAtFirst(segs[0], c, Join(segs[1..], [c]));
      assert [segs[0]] + segs[1..] == segs;
    }
    SplitPieces(Join(segs, [c]), c);
  }

  /** One step of a split: a leading character either ends the first piece or extends it. */
  lemma SplitCons(x: char, s: string, c: char)
    ensures Split([x] + s, c) ==
      if x == c then [""] + Split(s, c) else [[x] + Split(s, c)[0]] + Split(s, c)[1..]
  {
    assert ([x] + s)[1..] == s;
  }

  /** Extending the first piece commutes with extending the last one. */
  lemma ExtendFirstAndLast(h: string, p: seq<string>, t: string)
    requires |p| >= 1
    ensures var a := [h + p[0]] + p[1..];
      var q := p[..|p| - 1] + [Last(p) + t];
      [h + q[0]] + q[1..] == a[..|a| - 1] + [Last(a) + t]
  {
    var a := [h + p[0]] + p[1..];
    var q := p[..|p| - 1] + [Last(p) + t];
    if |p| == 1 {
      assert a == [h + p[0]] && q == [p[0] + t];
      assert h + (p[0] + t) == (h + p[0]) + t;
    } else {
      var mid := p[1..|p| - 1];
      assert p[..|p| - 1] == [p[0]] + mid;
      assert p[1..] == mid + [Last(p)];
      assert q == [p[0]] + (mid + [Last(p) + t]);
      assert a == [h + p[0]] + mid + [Last(p)];
      assert a[..|a| - 1] == [h + p[0]] + mid;
    }
  }

  /** Text appended after the last separator extends only the last piece. */
  lemma {:induction false} SplitAppend(s: string, t: string, c: char)
    requires c !in t
    ensures var p := Split(s, c);
      Split(s + t, c) == p[..|p| - 1] + [Last(p) + t]
  {
    if |s| == 0 {
      SplitWithout(t, c);
      assert s + t == t;
    } else {
      var x, rest := s[0], s[1..];
      assert s == [x] + rest;
      assert s + t == [x] + (rest + t);
      SplitAppend(rest, t, c);
      SplitCons(x, rest, c);
      SplitCons(x, rest + t, c);
      if x != c {
        ExtendFirstAndLast([x], Split(rest, c), t);
      }
    }
  }

  /** The split of `a + [c] + b` ends with `b` when `b` is separator-free. */
  lemma SplitLastPiece(a: string, c: char, b: string)
    requires c !in b
    ensures Last(Split(a + [c] + b, c)) == b
  {
    SplitAppend(a + [c], b, c);
    SplitEndsWithSeparator(a, c);
  }

  /** After a trailing separator the last piece is empty. */
  lemma {:induction false} SplitEndsWithSeparator(a: string, c: char)
    ensures Last(Split(a + [c], c)) == ""
  {
    if |a| == 0 {
      assert a + [c] == [c];
      assert [c][1..] == "";
    } else {
      assert (a + [c])[1..] == a[1..] + [c];
      SplitEndsWithSeparator(a[1..], c);
    }
  }

  /** `s.padEnd(n, " ")`: `s` followed by spaces up to length `n`; never shortens. */
  function PadEnd(s: string, n: int): (r: string)
    ensures |r| == Max(n, |s|)
    ensures r[..|s|] == s
    ensures forall i :: |s| <= i < |r| ==> r[i] == ' '
    decreases n - |s|
  {
    if n <= |s| then s else PadEnd(s + " ", n)
  }

  /** `a.reverse()` on an array, as a value. */
  function Reverse<T>(s: seq<T>): (r: seq<T>)
    ensures |r| == |s|
    ensures forall k :: 0 <= k < |s| ==> r[k] == s[|s| - 1 - k]
  {
    if |s| == 0 then [] else Reverse(s[1..]) + [s[0]]
  }

  predicate IsDigit(c: char) { '0' <= c <= '9' }

  predicate AllDigits(s: string) { forall i :: 0 <= i < |s| ==> IsDigit(s[i]) }

  /** The longest prefix of `s` made of digits. */
  function DigitPrefix(s: string): (r: string)
    ensures |r| <= |s| && r == s[..|r|] && AllDigits(r)
    ensures |r| < |s| ==> !IsDigit(s[|r|])
  {
    if |s| == 0 || !IsDigit(s[0]) then "" else [s[0]] + DigitPrefix(s[1..])
  }

  /** `s.match(/([0-9]+)/g)?.[0] ?? ""`: the first run of digits in `s`, or "" when there is none. */
  function FirstDigitRun(s: string): string
  {
    if |s| == 0 then ""
    else if IsDigit(s[0]) then DigitPrefix(s)
    else FirstDigitRun(s[1..])
  }

  /** `r` occurs in `s` at `k`, no digit comes before `k`, and no digit follows `r`. */
  ghost predicate RunAt(s: string, k: int, r: string)
  {
    && 0 <= k <= |s| - |r|
    && (forall i :: 0 <= i < k ==> !IsDigit(s[i]))
    && s[k..k + |r|] == r
    && (k + |r| < |s| ==> !IsDigit(s[k + |r|]))
  }

  /**
   * The first digit run is a maximal run of digits that starts at the first
   * digit of `s`; it is empty exactly when `s` has no digit.
   */
  lemma {:induction false} FirstDigitRunSpec(s: string)
    ensures var r := FirstDigitRun(s);
      && AllDigits(r)
      && (r == "" <==> forall i :: 0 <= i < |s| ==> !IsDigit(s[i]))
      && (r != "" ==> exists k :: RunAt(s, k, r))
  {
    if |s| > 0 {
      if IsDigit(s[0]) {
        var r := DigitPrefix(s);
        assert s[0..0 + |r|] == r;
        assert RunAt(s, 0, r);
      } else {
        FirstDigitRunSpec(s[1..]);
        var r := FirstDigitRun(s);
        if r != "" {
          var k :| RunAt(s[1..], k, r);
          assert s[k + 1..k + 1 + |r|] == s[1..][k..k + |r|];
          assert forall i :: 0 <= i < k + 1 ==> !IsDigit(s[i]) by {
            forall i | 0 <= i < k + 1 ensures !IsDigit(s[i]) {
              if i > 0 { assert s[i] == s[1..][i - 1]; }
            }
          }
          assert RunAt(s, k + 1, r);
        } else {
          assert forall i :: 0 <= i < |s| ==> !IsDigit(s[i]) by {
            forall i | 0 <= i < |s| ensures !IsDigit(s[i]) {
              if i > 0 { assert s[i] == s[1..][i - 1]; }
            }
          }
        }
      }
    }
  }

  /** A string of digits is its own first digit run. */
  lemma {:induction false} FirstDigitRunOfDigits(s: string)
    requires AllDigits(s)
    ensures FirstDigitRun(s) == s
  {
  }

  function DigitChar(d: nat): (c: char)
    requires d < 10
    ensures IsDigit(c)
  {
    "0123456789"[d]
  }

  /** The value of a string of decimal digits. */
  function DigitsValue(s: string): nat
    requires AllDigits(s)
  {
    if |s| == 0 then 0 else 10 * DigitsValue(s[..|s| - 1]) + (Last(s) - '0') as nat
  }

  /** `String(n)` for a non-negative integer: its decimal digits. */
  function NatToString(n: nat): (r: string)
    ensures |r| >= 1 && AllDigits(r)
  {
    if n < 10 then [DigitChar(n)] else NatToString(n / 10) + [DigitChar(n % 10)]
  }

  /** Reading back the decimal text of `n` gives `n`. */
  lemma {:induction false} NatToStringRoundTrip(n: nat)
    ensures DigitsValue(NatToString(n)) == n
  {
    var r := NatToString(n);
    if n < 10 {
      assert r[..0] == "";
    } else {
      NatToStringRoundTrip(n / 10);
      assert r[..|r| - 1] == NatToString(n / 10);
    }
  }

  /** `s` with every trailing `c` removed. */
  function TrimEnd(s: string, c: char): (r: string)
    ensures |r| <= |s| && r == s[..|r|]
    ensures |r| == 0 || Last(r) != c
    ensures forall i :: |r| <= i < |s| ==> s[i] == c
  {
    if |s| == 0 || Last(s) != c then s else TrimEnd(s[..|s| - 1], c)
  }

  /** POSIX `path.basename(p)`: the last `/`-separated piece, after dropping trailing slashes. */
  function Basename(p: string): (r: string)
    ensures '/' !in r
  {
    var pieces := Split(TrimEnd(p, '/'), '/');
    SplitPieces(TrimEnd(p, '/'), '/');
    Last(pieces)
  }

  /** The basename of `dir/file` is `file` when `file` is a non-empty name without `/`. */
  lemma BasenameOfJoin(dir: string, file: string)
    requires file != [] && '/' !in file
    ensures Basename(dir + "/" + file) == file
  {
    var p := dir + "/" + file;
    assert Last(p) == Last(file);
    assert TrimEnd(p, '/') == p;
    SplitLastPiece(dir, '/', file);
  }
}
