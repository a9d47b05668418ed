/** Strings as the line-based readers and printers see them. */
module Text {

  /** Unicode `White_Space`. */
  predicate IsWhitespace(c: char)
  {
    || '\U{0009}' <= c <= '\U{000D}' || c == ' ' || c == '\U{0085}' || c == '\U{00A0}' || c == '\U{1680}'
    || '\U{2000}' <= c <= '\U{200A}' || c == '\U{2028}' || c == '\U{2029}' || c == '\U{202F}' || c == '\U{205F}'
    || c == '\U{3000}'
  }

  predicate OneLine(s: string)
  {
    '\n' !in s
  }

  /** A number as it is printed. */
  function Decimal(n: nat): (r: string)
    ensures OneLine(r)
  {
    var digit := ['0' + (n % 10) as char];
    assert digit[0] != '\n';
    if n < 10 then digit else Decimal(n / 10) + digit
  }

  /** `s` cut at every newline; there is always at least one piece. */
  function Split(s: string): (lines: seq<string>)
    ensures lines != []
    ensures forall i :: 0 <= i < |lines| ==> OneLine(lines[i])
  {
    if s == "" then [""]
    else
      var rest := Split(s[1..]);
      if s[0] == '\n' then [""] + rest else [[s[0]] + rest[0]] + rest[1..]
  }

  function Join(lines: seq<string>): string
  {
    if lines == [] then ""
    else if |lines| == 1 then lines[0]
    else lines[0] + "\n" + Join(lines[1..])
  }

  /** `str::lines`: a trailing newline opens no further line. */
  function Lines(s: string): seq<string>
  {
    var lines := Split(s);
    if lines[|lines| - 1] == "" then lines[..|lines| - 1] else lines
  }

  function TrimStart(s: string): (r: string)
    ensures |r| <= |s|
    ensures r != "" ==> !IsWhitespace(r[0])
  {
    if s != "" && IsWhitespace(s[0]) then TrimStart(s[1..]) else s
  }

  /** Only whitespace goes. */
  lemma {:induction false} TrimStartCuts(s: string)
    ensures TrimStart(s) == s[|s| - |TrimStart(s)|..]
    ensures forall i :: 0 <= i < |s| - |TrimStart(s)| ==> IsWhitespace(s[i])
  {
    if s != "" && IsWhitespace(s[0]) {
      TrimStartCuts(s[1..]);
      assert forall i :: 1 <= i < |s| ==> s[i] == s[1..][i - 1];
    }
  }

  function TrimEnd(s: string): string
  {
    if s != "" && IsWhitespace(s[|s| - 1]) then TrimEnd(s[..|s| - 1]) else s
  }

  /** Only whitespace goes. */
  lemma {:induction false} TrimEndCuts(s: string)
    ensures var r := TrimEnd(s);
            && |r| <= |s| && r == s[..|r|] && (r != "" ==> !IsWhitespace(r[|r| - 1]))
            && forall i :: |r| <= i < |s| ==> IsWhitespace(s[i])
  {
    if s != "" && IsWhitespace(s[|s| - 1]) {
      TrimEndCuts(s[..|s| - 1]);
    }
  }

  function Trim(s: string): string
  {
    TrimEnd(TrimStart(s))
  }

  /** ASCII letters only. */
  function Lower(s: string): string
  {
    if s == "" then ""
    else [if 'A' <= s[0] <= 'Z' then s[0] - 'A' + 'a' else s[0]] + Lower(s[1..])
  }

  lemma {:induction false} SplitConcat(a: string, b: string)
    ensures Split(a + "\n" + b) == Split(a) + Split(b)
  {
    var whole := a + "\n" + b;
    if a == "" {
      assert whole[1..] == b;
    } else {
      assert whole[1..] == a[1..] + "\n" + b && whole[0] == a[0];
      SplitConcat(a[1..], b);
    }
  }

  lemma {:induction false} SplitOneLine(s: string)
    requires OneLine(s)
    ensures Split(s) == [s]
  {
    if s != "" {
      SplitOneLine(s[1..]);
      assert [s[0]] + s[1..] == s;
    }
  }
}
