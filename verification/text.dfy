/** String utilities shared by the model: whitespace trimming in the
    JavaScript and Python flavours, newline splitting and joining, prefix
    truncation and decimal rendering. */
module Text {

  /** Characters that JavaScript's `String.prototype.trim` removes: the
      WhiteSpace and LineTerminator productions of ECMAScript. */
  predicate IsJsSpace(c: char) {
    var n := c as int;
    || (0x09 <= n <= 0x0D)
    || n == 0x20 || n == 0xA0 || n == 0x1680
    || (0x2000 <= n <= 0x200A)
    || n == 0x2028 || n == 0x2029 || n == 0x202F || n == 0x205F
    || n == 0x3000 || n == 0xFEFF
  }

  /** Characters that Python's `str.strip()` removes (`str.isspace`). */
  predicate IsPySpace(c: char) {
    var n := c as int;
    || (0x09 <= n <= 0x0D)
    || (0x1C <= n <= 0x20)
    || n == 0x85 || n == 0xA0 || n == 0x1680
    || (0x2000 <= n <= 0x200A)
    || n == 0x2028 || n == 0x2029 || n == 0x202F || n == 0x205F
    || n == 0x3000
  }

  ghost predicate AllSpace(s: string, isSpace: char -> bool) {
    forall i :: 0 <= i < |s| ==> isSpace(s[i])
  }

  /** `s` without its leading whitespace. */
  function TrimStart(s: string, isSpace: char -> bool): (r: string)
    ensures |r| <= |s| && r == s[|s| - |r|..]
    ensures r == [] || !isSpace(r[0])
  {
    if |s| > 0 && isSpace(s[0]) then TrimStart(s[1..], isSpace) else s
  }

  /** What `TrimStart` removes is whitespace. */
  lemma {:induction false} TrimStartSpaces(s: string, isSpace: char -> bool)
    ensures AllSpace(s[..|s| - |TrimStart(s, isSpace)|], isSpace)
    decreases |s|
  {
    if |s| > 0 && isSpace(s[0]) {
      var r := TrimStart(s[1..], isSpace);
      TrimStartSpaces(s[1..], isSpace);
      assert s[..|s| - |r|] == [s[0]] + s[1..][..|s| - 1 - |r|];
    }
  }

  /** `s` without its trailing whitespace. */
  function TrimEnd(s: string, isSpace: char -> bool): (r: string)
    ensures |r| <= |s| && r == s[..|r|]
    ensures r == [] || !isSpace(r[|r| - 1])
  {
    if |s| > 0 && isSpace(s[|s| - 1]) then TrimEnd(s[..|s| - 1], isSpace) else s
  }

  /** What `TrimEnd` removes is whitespace. */
  lemma {:induction false} TrimEndSpaces(s: string, isSpace: char -> bool)
    ensures AllSpace(s[|TrimEnd(s, isSpace)|..], isSpace)
    decreases |s|
  {
    if |s| > 0 && isSpace(s[|s| - 1]) {
      var r := TrimEnd(s[..|s| - 1], isSpace);
      TrimEndSpaces(s[..|s| - 1], isSpace);
      assert s[|r|..] == s[..|s| - 1][|r|..] + [s[|s| - 1]];
    }
  }

  /** `s` without whitespace at either end: it is empty exactly when `s` is
      all whitespace, otherwise it starts and ends with a non-space; it is a
      prefix of `s` without its leading whitespace, itself a suffix of `s`,
      and what is cut off at either end is whitespace. */
  function Strip(s: string, isSpace: char -> bool): (r: string)
    ensures r == [] <==> AllSpace(s, isSpace)
    ensures r != [] ==> !isSpace(r[0]) && !isSpace(r[|r| - 1])
    ensures |r| <= |TrimStart(s, isSpace)| && r == TrimStart(s, isSpace)[..|r|]
    ensures AllSpace(s[..|s| - |TrimStart(s, isSpace)|], isSpace)
    ensures AllSpace(TrimStart(s, isSpace)[|r|..], isSpace)
  {
    var t := TrimStart(s, isSpace);
    var r := TrimEnd(t, isSpace);
    StripEmpty(s, isSpace);
    TrimStartSpaces(s, isSpace);
    TrimEndSpaces(t, isSpace);
    assert r != [] ==> r[0] == t[0];
    r
  }

  lemma StripEmpty(s: string, isSpace: char -> bool)
    ensures TrimEnd(TrimStart(s, isSpace), isSpace) == [] <==> AllSpace(s, isSpace)
  {
    var t := TrimStart(s, isSpace);
    var r := TrimEnd(t, isSpace);
    var k := |s| - |t|;
    if r == [] {
      TrimStartSpaces(s, isSpace);
      TrimEndSpaces(t, isSpace);
      assert t[|r|..] == t;
      forall i | 0 <= i < |s|
        ensures isSpace(s[i])
      {
        if i < k {
          assert s[..k][i] == s[i];
        } else {
          assert t[i - k] == s[i];
        }
      }
    } else {
      assert s[k] == r[0];
    }
  }

  /** Text that neither starts nor ends with whitespace is left as it is. */
  lemma StripClean(s: string, isSpace: char -> bool)
    requires s == [] || (!isSpace(s[0]) && !isSpace(s[|s| - 1]))
    ensures Strip(s, isSpace) == s
  {
    assert TrimStart(s, isSpace) == s;
    assert TrimEnd(s, isSpace) == s;
  }

  function JsTrim(s: string): string {
    Strip(s, IsJsSpace)
  }

  function PyStrip(s: string): string {
    Strip(s, IsPySpace)
  }

  /** The first `n` elements of `s`, or all of `s` when it is shorter:
      JavaScript's `substring(0, n)` and Python's `s[:n]`. */
  function Take<T>(s: seq<T>, n: nat): (r: seq<T>)
    ensures |r| <= n && |r| <= |s| && r == s[..|r|]
    ensures |s| <= n ==> r == s
    ensures |s| > n ==> |r| == n
  {
    if |s| <= n then s else s[..n]
  }

  /** The pieces of `s` between newline characters, as JavaScript's
      `split('\n')` and Python's `split("\n")` return them. */
  function Split(s: string): (parts: seq<string>)
    ensures |parts| >= 1
    ensures forall i :: 0 <= i < |parts| ==> '\n' !in parts[i]
    decreases |s|
  {
    if |s| == 0 then
      [""]
    else
      var rest := Split(s[1..]);
      if s[0] == '\n' then
        [""] + rest
      else
        assert forall i :: 1 <= i < |rest| ==> rest[1..][i - 1] == rest[i];
        [[s[0]] + rest[0]] + rest[1..]
  }

  /** The pieces joined with one newline between neighbours. */
  function JoinLines(parts: seq<string>): string {
    if |parts| == 0 then ""
    else if |parts| == 1 then parts[0]
    else parts[0] + "\n" + JoinLines(parts[1..])
  }

  ghost predicate NoNewlines(parts: seq<string>) {
    forall i :: 0 <= i < |parts| ==> '\n' !in parts[i]
  }

  /** Splitting and joining lose nothing: every string is the join of its
      pieces. */
  lemma {:induction false} JoinSplit(s: string)
    ensures JoinLines(Split(s)) == s
    decreases |s|
  {
    if |s| > 0 {
      var rest := Split(s[1..]);
      JoinSplit(s[1..]);
      if s[0] == '\n' {
        assert Split(s) == [""] + rest;
        assert (["" ] + rest)[1..] == rest;
      } else {
        var parts := Split(s);
        assert parts == [[s[0]] + rest[0]] + rest[1..];
        if |rest| == 1 {
          assert parts == [[s[0]] + rest[0]];
        } else {
          assert parts[1..] == rest[1..];
          assert JoinLines(rest) == rest[0] + "\n" + JoinLines(rest[1..]);
        }
      }
    }
  }

  /** A string without newlines is a single piece. */
  lemma {:induction false} SplitSingle(a: string)
    requires '\n' !in a
    ensures Split(a) == [a]
    decreases |a|
  {
    if |a| > 0 {
      SplitSingle(a[1..]);
      assert [a[0]] + a[1..] == a;
    }
  }

  /** A leading newline-free piece followed by a newline splits off as the
      first piece. */
  lemma {:induction false} SplitCons(a: string, b: string)
    requires '\n' !in a
    ensures Split(a + "\n" + b) == [a] + Split(b)
    decreases |a|
  {
    var s := a + "\n" + b;
    if |a| == 0 {
      assert s[1..] == b;
    } else {
      assert s[1..] == a[1..] + "\n" + b;
      SplitCons(a[1..], b);
      assert [a[0]] + a[1..] == a;
    }
  }

  /** Joining newline-free pieces and splitting again gives the pieces
      back. */
  lemma {:induction false} SplitJoin(parts: seq<string>)
    requires |parts| >= 1 && NoNewlines(parts)
    ensures Split(JoinLines(parts)) == parts
    decreases |parts|
  {
    if |parts| == 1 {
      SplitSingle(parts[0]);
    } else {
      SplitCons(parts[0], JoinLines(parts[1..]));
      SplitJoin(parts[1..]);
    }
  }

  /** Joining distributes over concatenation, with one newline at the seam. */
  lemma {:induction false} JoinAppend(x: seq<string>, y: seq<string>)
    requires |x| >= 1 && |y| >= 1
    ensures JoinLines(x + y) == JoinLines(x) + "\n" + JoinLines(y)
    decreases |x|
  {
    if |x| == 1 {
      assert (x + y)[1..] == y;
    } else {
      assert (x + y)[1..] == x[1..] + y;
      JoinAppend(x[1..], y);
    }
  }

  /** Text appended after the last piece extends that piece. */
  lemma {:induction false} JoinExtendLast(x: seq<string>, last: string, extra: string)
    ensures JoinLines(x + [last]) + extra == JoinLines(x + [last + extra])
  {
    if |x| == 0 {
      assert x + [last] == [last];
      assert x + [last + extra] == [last + extra];
    } else {
      JoinAppend(x, [last]);
      JoinAppend(x, [last + extra]);
    }
  }

  predicate IsDigit(c: char) {
    '0' <= c <= '9'
  }

  /** The decimal numeral of `n`, as JavaScript prints a non-negative
      integer. */
  function Decimal(n: nat): (r: string)
    ensures |r| >= 1
    ensures forall i :: 0 <= i < |r| ==> IsDigit(r[i])
  {
    var d := [(('0' as int) + n % 10) as char];
    if n < 10 then d else Decimal(n / 10) + d
  }

  /** The value of a numeral made of decimal digits. */
  function DecimalValue(s: string): nat
    requires forall i :: 0 <= i < |s| ==> IsDigit(s[i])
  {
    if |s| == 0 then 0
    else
      assert IsDigit(s[|s| - 1]);
      10 * DecimalValue(s[..|s| - 1]) + (s[|s| - 1] as int - '0' as int)
  }

  /** Reading the numeral back gives the number. */
  lemma {:induction false} DecimalRoundTrip(n: nat)
    ensures DecimalValue(Decimal(n)) == n
  {
    if n >= 10 {
      var r := Decimal(n);
      assert r[..|r| - 1] == Decimal(n / 10);
      DecimalRoundTrip(n / 10);
    }
  }
}
