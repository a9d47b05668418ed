/** What each kind of line looks like, spelled out: the scanner reads a line as a fence, a heading, a rule, a
    list item and so on exactly when it has that form. */
module LineForms {
  import opened Wrappers
  import opened Text
  import opened Sequences
  import opened TrimmedLines
  import opened Headings

  // ----- Repetitions

  function Times(c: char, n: nat): (r: string)
    ensures |r| == n && forall i :: 0 <= i < n ==> r[i] == c
  {
    seq(n, _ => c)
  }

  lemma {:induction false} RunOfTimes(c: char, n: nat, rest: string)
    requires rest == "" || rest[0] != c
    ensures Run(Times(c, n) + rest, c) == n && (Times(c, n) + rest)[n..] == rest
  {
    if n == 0 {
      assert Times(c, 0) + rest == rest;
    } else {
      TimesCons(c, n, rest);
      RunOfTimes(c, n - 1, rest);
    }
    assert (Times(c, n) + rest)[n..] == rest;
  }

  lemma TimesCons(c: char, n: nat, rest: string)
    requires n > 0
    ensures (Times(c, n) + rest)[0] == c && (Times(c, n) + rest)[1..] == Times(c, n - 1) + rest
  {
    assert Times(c, n)[1..] == Times(c, n - 1);
    TailOfConcat(Times(c, n), rest);
  }

  lemma {:induction false} RunInFront(s: string, c: char)
    ensures s == Times(c, Run(s, c)) + s[Run(s, c)..]
  {
  }

  predicate OccursAt(s: string, part: string, i: nat)
  {
    i + |part| <= |s| && s[i..i + |part|] == part
  }

  ghost predicate Occurs(s: string, part: string)
  {
    exists i: nat :: OccursAt(s, part, i)
  }

  lemma {:induction false} OccursIff(s: string, part: string)
    ensures Contains(s, part) <==> Occurs(s, part)
  {
    if part <= s {
      assert OccursAt(s, part, 0);
    } else if s == "" {
      assert !OccursAt(s, part, 0);
    } else {
      OccursIff(s[1..], part);
      OccursLater(s, part);
    }
  }

  lemma OccursLater(s: string, part: string)
    requires s != "" && !(part <= s)
    ensures Occurs(s, part) <==> Occurs(s[1..], part)
  {
    var rest := s[1..];
    if i: nat :| OccursAt(s, part, i) {
      assert i > 0;
      assert rest[i - 1..i - 1 + |part|] == s[i..i + |part|];
      assert OccursAt(rest, part, i - 1);
    }
    if i: nat :| OccursAt(rest, part, i) {
      assert s[i + 1..i + 1 + |part|] == rest[i..i + |part|];
      assert OccursAt(s, part, i + 1);
    }
  }

  // ----- Indentation

  /** At most three spaces, then `rest`, which starts with neither a space nor a tab. */
  ghost predicate Indented(line: string, rest: string)
  {
    (rest == "" || (rest[0] != ' ' && rest[0] != '\t')) && exists k: nat :: k <= 3 && IsIndentedBy(line, rest, k)
  }

  predicate IsIndentedBy(line: string, rest: string, k: nat)
  {
    line == Times(' ', k) + rest
  }

  lemma IndentedIff(line: string, rest: string)
    ensures BlockIndent(line) == Some(rest) <==> Indented(line, rest)
  {
    if BlockIndent(line) == Some(rest) {
      RunInFront(line, ' ');
      assert IsIndentedBy(line, rest, Run(line, ' '));
    }
    if Indented(line, rest) {
      var k: nat :| k <= 3 && IsIndentedBy(line, rest, k);
      RunOfTimes(' ', k, rest);
    }
  }

  /** A line is a block with that indentation, or no block at all. */
  lemma IndentIff(line: string, rest: string)
    ensures Read(line).indent.Some? <==> exists r :: Indented(line, r)
    ensures Indented(line, rest) ==> Read(line).indent == Some(|line| - |rest|)
  {
    IndentedIff(line, rest);
    if BlockIndent(line).Some? {
      IndentedIff(line, BlockIndent(line).value);
    }
    if r :| Indented(line, r) {
      IndentedIff(line, r);
    }
  }

  /** And a line that is no block opens nothing and is no heading, rule, list item, quote or definition. */
  lemma NoBlock(line: string)
    requires forall rest :: !Indented(line, rest)
    ensures var l := Read(line);
            && l.indent.None? && l.opens.None? && l.comment.None? && !l.link && l.atx.None? && l.setext.None?
            && !l.rule && l.item.None? && !l.quote
  {
    if BlockIndent(line).Some? {
      IndentedIff(line, BlockIndent(line).value);
    }
  }

  // ----- Blank lines and comments

  lemma BlankIff(line: string)
    ensures Read(line).trimmed == Trim(line) && (Read(line).blank <==> White(line))
  {
    BlankMeansWhite(line);
  }

  /** A comment opens with `<!--` and goes on past its line when no `-->` follows there. */
  lemma CommentIff(line: string, rest: string)
    requires Indented(line, rest)
    ensures Read(line).comment.Some? <==> "<!--" <= rest
    ensures "<!--" <= rest ==> (Read(line).comment.value <==> !Occurs(rest[4..], "-->"))
  {
    IndentedIff(line, rest);
    if "<!--" <= rest {
      OccursIff(rest[4..], "-->");
    }
  }

  lemma EndsCommentIff(line: string)
    ensures Read(line).endsComment <==> Occurs(line, "-->")
  {
    OccursIff(line, "-->");
  }

  // ----- Fences

  /** At least three backticks or tildes; behind backticks there is no other backtick. */
  ghost predicate IsFence(rest: string, marker: char, n: nat)
  {
    n >= 3 && (marker == '`' || marker == '~') && exists info: string :: IsFenceWith(rest, marker, n, info)
  }

  predicate IsFenceWith(rest: string, marker: char, n: nat, info: string)
  {
    && rest == Times(marker, n) + info && (info == "" || info[0] != marker)
    && (marker == '`' ==> '`' !in info)
  }

  lemma FenceIff(line: string, rest: string, marker: char, n: nat)
    requires Indented(line, rest)
    ensures Read(line).opens == Some(Fence(marker, n)) <==> IsFence(rest, marker, n)
  {
    IndentedIff(line, rest);
    if OpensFence(line) == Some(Fence(marker, n)) {
      FenceIsSpelled(line, rest, marker, n);
    }
    if IsFence(rest, marker, n) {
      var info :| IsFenceWith(rest, marker, n, info);
      SpelledIsFence(line, rest, marker, n, info);
    }
  }

  lemma FenceIsSpelled(line: string, rest: string, marker: char, n: nat)
    requires BlockIndent(line) == Some(rest) && OpensFence(line) == Some(Fence(marker, n))
    ensures IsFence(rest, marker, n)
  {
    RunInFront(rest, marker);
    var info := rest[n..];
    assert info == "" || info[0] == rest[n];
    assert IsFenceWith(rest, marker, n, info);
  }

  lemma SpelledIsFence(line: string, rest: string, marker: char, n: nat, info: string)
    requires BlockIndent(line) == Some(rest) && n >= 3 && (marker == '`' || marker == '~')
    requires IsFenceWith(rest, marker, n, info)
    ensures OpensFence(line) == Some(Fence(marker, n))
  {
    RunOfTimes(marker, n, info);
    assert rest[0] == marker;
  }

  ghost predicate RunAndWhite(s: string, c: char, n: nat, w: string)
  {
    White(w) && s == Times(c, n) + w
  }

  /** The same marker, at least as often, and nothing but whitespace behind it. */
  lemma ClosesIff(line: string, rest: string, fence: Fence)
    requires Indented(line, rest) && fence.length > 0 && !IsWhitespace(fence.marker)
    ensures Read(line).closes(fence) <==>
            exists n: nat, w: string :: fence.length <= n && RunAndWhite(rest, fence.marker, n, w)
  {
    IndentedIff(line, rest);
    if ClosesFence(line, fence) {
      CloserIsSpelled(line, rest, fence);
    }
    if n: nat, w: string :| fence.length <= n && RunAndWhite(rest, fence.marker, n, w) {
      SpelledIsCloser(line, rest, fence, n, w);
    }
  }

  lemma CloserIsSpelled(line: string, rest: string, fence: Fence)
    requires BlockIndent(line) == Some(rest) && ClosesFence(line, fence)
    ensures exists n: nat, w: string :: fence.length <= n && RunAndWhite(rest, fence.marker, n, w)
  {
    var run := Run(rest, fence.marker);
    BlankMeansWhite(rest[run..]);
    RunInFront(rest, fence.marker);
    assert RunAndWhite(rest, fence.marker, run, rest[run..]);
  }

  lemma SpelledIsCloser(line: string, rest: string, fence: Fence, n: nat, w: string)
    requires BlockIndent(line) == Some(rest) && fence.length <= n && RunAndWhite(rest, fence.marker, n, w)
    requires !IsWhitespace(fence.marker)
    ensures ClosesFence(line, fence)
  {
    RunOfTimes(fence.marker, n, w);
    BlankMeansWhite(w);
  }

  // ----- Underlines and rules

  /** A run of `=` or `-` and whitespace. */
  ghost predicate IsUnderlineOf(rest: string, level: nat)
  {
    1 <= level <= 2 &&
    var c := if level == 1 then '=' else '-';
    exists n: nat, w: string :: n > 0 && RunAndWhite(rest, c, n, w)
  }

  lemma UnderlineIff(line: string, rest: string, level: nat)
    requires Indented(line, rest)
    ensures Read(line).setext == Some(level) <==> IsUnderlineOf(rest, level)
  {
    IndentedIff(line, rest);
    if SetextUnderline(line) == Some(level) {
      UnderlineIsSpelled(line, rest, level);
    }
    if IsUnderlineOf(rest, level) {
      var c := if level == 1 then '=' else '-';
      var n: nat, w: string :| n > 0 && RunAndWhite(rest, c, n, w);
      UnderlineRead(line, rest, level, c, n, w);
    }
  }

  lemma UnderlineIsSpelled(line: string, rest: string, level: nat)
    requires BlockIndent(line) == Some(rest) && SetextUnderline(line) == Some(level)
    ensures IsUnderlineOf(rest, level)
  {
    var t := TrimEnd(rest);
    var c := t[0];
    TrimEndCuts(rest);
    RunInFront(t, c);
    assert t[|t|..] == "" && Times(c, |t|) + "" == Times(c, |t|);
    CutBehind(rest, t);
    assert RunAndWhite(rest, c, |t|, rest[|t|..]);
  }

  lemma CutBehind(s: string, t: string)
    requires |t| <= |s| && t == s[..|t|] && forall i :: |t| <= i < |s| ==> IsWhitespace(s[i])
    ensures s == t + s[|t|..] && White(s[|t|..])
  {
    forall i | 0 <= i < |s[|t|..]|
      ensures IsWhitespace(s[|t|..][i])
    {
      assert s[|t|..][i] == s[|t| + i];
    }
  }

  lemma UnderlineRead(line: string, rest: string, level: nat, c: char, n: nat, w: string)
    requires BlockIndent(line) == Some(rest) && 1 <= level <= 2 && c == if level == 1 then '=' else '-'
    requires n > 0 && RunAndWhite(rest, c, n, w)
    ensures SetextUnderline(line) == Some(level)
  {
    WhiteTrimsEnd(w);
    TrimEndConcat(Times(c, n), w);
    TrimEndOfTimes(c, n);
    RunOfTimes(c, n, "");
    assert Times(c, n) + "" == Times(c, n);
  }

  lemma {:induction false} TrimEndOfTimes(c: char, n: nat)
    requires !IsWhitespace(c)
    ensures TrimEnd(Times(c, n)) == Times(c, n)
  {
  }

  /** Three or more of the same marker, and nothing but spaces and tabs between. */
  ghost predicate IsRule(rest: string)
  {
    exists c, i: nat, j: nat, k: nat :: IsRuleWith(rest, c, i, j, k)
  }

  predicate IsRuleWith(rest: string, c: char, i: nat, j: nat, k: nat)
  {
    && c in {'*', '-', '_'} && i < j < k < |rest| && rest[i] == rest[j] == rest[k] == c
    && forall m :: 0 <= m < |rest| ==> rest[m] == c || rest[m] == ' ' || rest[m] == '\t'
  }

  lemma TailStep(s: string, from: nat)
    requires from < |s|
    ensures s[from..][0] == s[from] && s[from..][1..] == s[from + 1..]
  {
  }

  lemma {:induction false} CountOne(s: string, c: char, from: nat) returns (i: nat)
    requires from <= |s| && Count(s[from..], c) > 0
    ensures from <= i < |s| && s[i] == c && Count(s[i + 1..], c) == Count(s[from..], c) - 1
    decreases |s| - from
  {
    TailStep(s, from);
    i := from;
    if s[from] != c {
      i := CountOne(s, c, from + 1);
    }
  }

  lemma {:induction false} CountFrom(s: string, c: char, from: nat, i: nat)
    requires from <= i < |s| && s[i] == c
    ensures Count(s[from..], c) >= 1 + Count(s[i + 1..], c)
    decreases i - from
  {
    TailStep(s, from);
    if from < i {
      CountFrom(s, c, from + 1, i);
    }
  }

  lemma {:induction false} ThreeAreCounted(s: string, c: char, i: nat, j: nat, k: nat)
    requires i < j < k < |s| && s[i] == s[j] == s[k] == c
    ensures Count(s, c) >= 3
  {
    CountFrom(s, c, 0, i);
    CountFrom(s, c, i + 1, j);
    CountFrom(s, c, j + 1, k);
    assert s[0..] == s;
  }

  lemma {:induction false} CountedAreThree(s: string, c: char) returns (i: nat, j: nat, k: nat)
    requires Count(s, c) >= 3
    ensures i < j < k < |s| && s[i] == s[j] == s[k] == c
  {
    assert s[0..] == s;
    i := CountOne(s, c, 0);
    j := CountOne(s, c, i + 1);
    k := CountOne(s, c, j + 1);
  }

  lemma {:induction false} SpaceRunStops(s: string)
    ensures forall i :: 0 <= i < SpaceRun(s) ==> s[i] in {' ', '\t'}
    ensures SpaceRun(s) < |s| ==> s[SpaceRun(s)] !in {' ', '\t'}
  {
    if s != "" && s[0] in {' ', '\t'} {
      SpaceRunStops(s[1..]);
      assert forall i :: 1 <= i < |s| ==> s[i] == s[1..][i - 1];
    }
  }

  lemma RuleIff(line: string, rest: string)
    requires Indented(line, rest)
    ensures Read(line).rule <==> IsRule(rest)
  {
    IndentedIff(line, rest);
    SpaceRunStops(rest);
    if IsThematicBreak(rest) {
      RuleIsSpelled(rest);
    }
    if IsRule(rest) {
      SpelledIsRule(rest);
    }
  }

  lemma RuleIsSpelled(rest: string)
    requires IsThematicBreak(rest)
    ensures IsRule(rest)
  {
    var c := rest[SpaceRun(rest)..][0];
    var i, j, k := CountedAreThree(rest, c);
    assert IsRuleWith(rest, c, i, j, k);
  }

  lemma SpelledIsRule(rest: string)
    requires IsRule(rest)
    ensures IsThematicBreak(rest)
  {
    SpaceRunStops(rest);
    var c, i: nat, j: nat, k: nat :| IsRuleWith(rest, c, i, j, k);
    ThreeAreCounted(rest, c, i, j, k);
    var n := SpaceRun(rest);
    assert n <= i;
    assert rest[n..][0] == rest[n] == c;
  }

  // ----- Quotes and definitions

  lemma QuoteIff(line: string, rest: string)
    requires Indented(line, rest)
    ensures Read(line).quote <==> ">" <= rest
  {
    IndentedIff(line, rest);
  }

  /** `[name]: destination`, neither of them blank. */
  ghost predicate IsDefinition(rest: string)
  {
    exists name, destination: string :: IsDefinitionOf(rest, name, destination)
  }

  ghost predicate IsDefinitionOf(rest: string, name: string, destination: string)
  {
    rest == "[" + (name + ("]:" + destination)) && ']' !in name && !White(name) && !White(destination)
  }

  lemma {:induction false} FindIs(s: string, name: string, more: string)
    requires s == name + ("]:" + more) && ']' !in name
    ensures Find(s, "]:") == Some(|name|)
  {
    if name == "" {
      assert s == "]:" + more;
    } else {
      assert s[0] == name[0] && s[1..] == name[1..] + ("]:" + more);
      FindIs(s[1..], name[1..], more);
    }
  }

  lemma DefinitionIff(line: string, rest: string)
    requires Indented(line, rest)
    ensures Read(line).link <==> IsDefinition(rest)
  {
    IndentedIff(line, rest);
    if IsLinkDefinition(rest) {
      DefinitionIsSpelled(rest);
    }
    if IsDefinition(rest) {
      var name, destination: string :| IsDefinitionOf(rest, name, destination);
      SpelledIsDefinition(rest, name, destination);
    }
  }

  lemma {:induction false} DefinitionAt(rest: string) returns (at: nat)
    requires IsLinkDefinition(rest)
    ensures rest != "" && rest[0] == '[' && at + 2 < |rest| && rest[1..][at..at + 2] == "]:"
    ensures ']' !in rest[1..][..at] && Trim(rest[1..][..at]) != "" && Trim(rest[1..][at + 2..]) != ""
  {
    at := Find(rest[1..], "]:").value;
  }

  lemma DefinitionCut(rest: string, at: nat) returns (name: string, destination: string)
    requires rest != "" && rest[0] == '[' && at + 2 < |rest| && rest[1..][at..at + 2] == "]:"
    ensures name == rest[1..][..at] && destination == rest[1..][at + 2..]
    ensures rest == "[" + (name + ("]:" + destination))
  {
    CutAt(rest[1..], "]:", at);
    name, destination := rest[1..][..at], rest[1..][at + 2..];
  }

  lemma IsDefinitionFrom(rest: string, name: string, destination: string)
    requires rest == "[" + (name + ("]:" + destination)) && ']' !in name && Trim(name) != "" && Trim(destination) != ""
    ensures IsDefinition(rest)
  {
    BlankMeansWhite(name);
    BlankMeansWhite(destination);
    assert IsDefinitionOf(rest, name, destination);
  }

  lemma {:induction false} DefinitionIsSpelled(rest: string)
    requires IsLinkDefinition(rest)
    ensures IsDefinition(rest)
  {
    var at := DefinitionAt(rest);
    var name, destination := DefinitionCut(rest, at);
    IsDefinitionFrom(rest, name, destination);
  }

  lemma CutAt(s: string, part: string, at: nat)
    requires at + |part| <= |s| && s[at..at + |part|] == part
    ensures s == s[..at] + (part + s[at + |part|..])
  {
    assert s[at..] == s[at..at + |part|] + s[at + |part|..];
  }

  lemma SpelledIsDefinition(rest: string, name: string, destination: string)
    requires IsDefinitionOf(rest, name, destination)
    ensures IsLinkDefinition(rest)
  {
    var behind := name + ("]:" + destination);
    assert rest[1..] == behind;
    FindIs(behind, name, destination);
    assert behind[..|name|] == name && behind[|name| + 2..] == destination;
    BlankMeansWhite(name);
    BlankMeansWhite(destination);
  }

  // ----- Headings

  /** Hashes, and nothing, a space or a tab behind them. */
  predicate IsAtxWith(rest: string, level: nat, after: string)
  {
    && 1 <= level <= 6 && rest == Times('#', level) + after
    && (after == "" || after[0] == ' ' || after[0] == '\t')
  }

  lemma AtxIff(line: string, rest: string, level: nat)
    requires Indented(line, rest)
    ensures Read(line).atx.Some? && Read(line).atx.value.0 == level <==> exists after :: IsAtxWith(rest, level, after)
  {
    IndentedIff(line, rest);
    if AtxHeading(line).Some? && AtxHeading(line).value.0 == level {
      RunInFront(rest, '#');
      assert IsAtxWith(rest, level, rest[level..]);
    }
    if after :| IsAtxWith(rest, level, after) {
      RunOfTimes('#', level, after);
    }
  }

  lemma {:induction false} TrimEndOfRun(p: string, n: nat)
    requires p == "" || p[|p| - 1] != '#'
    ensures TrimEndOf(p + Times('#', n), {'#'}) == p
  {
    var s := p + Times('#', n);
    if n == 0 {
      assert s == p;
    } else {
      assert s[|s| - 1] == '#' && s[..|s| - 1] == p + Times('#', n - 1);
      TrimEndOfRun(p, n - 1);
    }
  }

  /** The title is the trimmed rest; a run of hashes at its end goes when it is all there is or when a space or
      a tab stands before it. */
  lemma {:induction false} AtxTitleIs(line: string, rest: string, level: nat, after: string, p: string, n: nat)
    requires Indented(line, rest) && IsAtxWith(rest, level, after)
    requires Trim(after) == p + Times('#', n) && (p == "" || p[|p| - 1] != '#')
    ensures Read(line).atx ==
            Some((level, if p == "" then ""
                         else if p[|p| - 1] == ' ' || p[|p| - 1] == '\t' then TrimEnd(p)
                         else Trim(after)))
  {
    IndentedIff(line, rest);
    HashesRead(line, rest, level, after);
    TitleRead(after, p, n);
  }

  lemma HashesRead(line: string, rest: string, level: nat, after: string)
    requires BlockIndent(line) == Some(rest) && IsAtxWith(rest, level, after)
    ensures Read(line).atx == Some((level, Unclosed(Trim(after))))
  {
    RunOfTimes('#', level, after);
    AtxRead(line, rest);
    HashesCounted(line, rest, level);
  }

  lemma AtxRead(line: string, rest: string)
    requires BlockIndent(line) == Some(rest)
    ensures Read(line).atx == AtxHeading(line)
  {
  }

  lemma {:induction false} HashesCounted(line: string, rest: string, level: nat)
    requires BlockIndent(line) == Some(rest) && 1 <= level <= 6 && Run(rest, '#') == level
    requires rest[level..] == "" || rest[level..][0] == ' ' || rest[level..][0] == '\t'
    ensures AtxHeading(line).Some? && AtxHeading(line).value.0 == level
  {
  }

  lemma {:induction false} TitleRead(after: string, p: string, n: nat)
    requires Trim(after) == p + Times('#', n) && (p == "" || p[|p| - 1] != '#')
    ensures Unclosed(Trim(after)) ==
            if p == "" then ""
            else if p[|p| - 1] == ' ' || p[|p| - 1] == '\t' then TrimEnd(p)
            else Trim(after)
  {
    TrimEndOfRun(p, n);
  }

  // ----- List items

  /** A dash, an asterisk or a plus sign; or one to nine digits and a period or parenthesis. */
  predicate IsMarker(m: string)
  {
    || m == "-" || m == "*" || m == "+"
    || (2 <= |m| <= 10 && m[|m| - 1] in {'.', ')'} && forall i :: 0 <= i < |m| - 1 ==> '0' <= m[i] <= '9')
  }

  lemma {:induction false} DigitRunIs(s: string, n: nat)
    requires n <= |s| && (forall i :: 0 <= i < n ==> '0' <= s[i] <= '9') && (n < |s| ==> !('0' <= s[n] <= '9'))
    ensures DigitRun(s) == n
  {
    if n > 0 {
      DigitRunIs(s[1..], n - 1);
    }
  }

  lemma {:induction false} DigitRunStops(s: string)
    ensures forall i :: 0 <= i < DigitRun(s) ==> '0' <= s[i] <= '9'
  {
    if s != "" && '0' <= s[0] <= '9' {
      DigitRunStops(s[1..]);
      assert forall i :: 1 <= i < |s| ==> s[i] == s[1..][i - 1];
    }
  }

  lemma MarkerIs(marker: string, more: string)
    requires IsMarker(marker)
    ensures MarkerLength(marker + more) == |marker|
  {
    var rest := marker + more;
    assert rest[0] == marker[0] && rest[|marker| - 1] == marker[|marker| - 1];
    if |marker| >= 2 {
      assert forall i :: 0 <= i < |marker| ==> rest[i] == marker[i];
      DigitRunIs(rest, |marker| - 1);
    }
  }

  lemma MarkerIsSpelled(rest: string)
    requires MarkerLength(rest) > 0
    ensures IsMarker(rest[..MarkerLength(rest)])
  {
    DigitRunStops(rest);
  }

  /** Spaces and tabs only. */
  predicate AreBlanks(s: string)
  {
    s == "" || ((s[0] == ' ' || s[0] == '\t') && AreBlanks(s[1..]))
  }

  lemma {:induction false} SpaceRunIs(blanks: string, text: string)
    requires AreBlanks(blanks) && (text == "" || (text[0] != ' ' && text[0] != '\t'))
    ensures SpaceRun(blanks + text) == |blanks|
  {
    if blanks == "" {
      assert blanks + text == text;
    } else {
      TailOfConcat(blanks, text);
      SpaceRunIs(blanks[1..], text);
    }
  }

  lemma ItemRead(line: string, rest: string)
    requires Indented(line, rest)
    ensures Read(line).item == ListItemContent(rest)
  {
    IndentedIff(line, rest);
  }

  lemma MarkerParts(rest: string, marker: string, after: string)
    requires rest == marker + after && IsMarker(marker)
    ensures 0 < |marker| <= |rest| && MarkerLength(rest) == |marker| && rest[|marker|..] == after
  {
    MarkerIs(marker, after);
  }

  lemma {:induction false} ContentIs(rest: string, m: nat, after: string, spaces: nat)
    requires 0 < m <= |rest| && MarkerLength(rest) == m && rest[m..] == after && SpaceRun(after) == spaces
    ensures ListItemContent(rest) ==
            if Blank(after) then Some(m + 1)
            else if spaces == 0 then None
            else Some(m + if spaces <= 4 then spaces else 1)
  {
  }

  /** An item's content column: behind the marker and up to four blanks, one when there are more or when the
      item is empty; a text right behind a marker makes it none. */
  lemma {:induction false} ItemContent(rest: string, marker: string, blanks: string, text: string)
    requires rest == marker + (blanks + text) && IsMarker(marker) && AreBlanks(blanks)
    requires text == "" || (text[0] != ' ' && text[0] != '\t')
    ensures ListItemContent(rest) ==
            if Blank(blanks + text) then Some(|marker| + 1)
            else if blanks == "" then None
            else Some(|marker| + if |blanks| <= 4 then |blanks| else 1)
  {
    MarkerParts(rest, marker, blanks + text);
    SpaceRunIs(blanks, text);
    ContentIs(rest, |marker|, blanks + text, |blanks|);
  }

  /** Without a marker there is no item. */
  lemma NoItem(line: string, rest: string)
    requires Indented(line, rest) && forall n: nat :: n <= |rest| ==> !IsMarker(rest[..n])
    ensures Read(line).item.None?
  {
    IndentedIff(line, rest);
    if MarkerLength(rest) > 0 {
      MarkerIsSpelled(rest);
    }
  }

  // ----- The section's title

  /** The three titles, the English one in any case. */
  predicate IsSectionName(name: string)
  {
    name == "压缩说明" || name == "压缩指令" || SameLetters(name, "compact instructions")
  }

  /** The same text but for the case of ASCII letters; `lower` has none that is a capital. */
  predicate SameLetters(s: string, lower: string)
  {
    |s| == |lower| &&
    forall i :: 0 <= i < |s| ==> s[i] == lower[i] || ('A' <= s[i] <= 'Z' && s[i] - 'A' + 'a' == lower[i])
  }

  lemma {:induction false} LowerIff(s: string, lower: string)
    requires forall i :: 0 <= i < |lower| ==> !('A' <= lower[i] <= 'Z')
    ensures Lower(s) == lower <==> SameLetters(s, lower)
  {
    LowerAt(s);
    if Lower(s) == lower {
      assert forall i :: 0 <= i < |s| ==> Lower(s)[i] == lower[i];
    }
  }

  lemma {:induction false} LowerAt(s: string)
    ensures |Lower(s)| == |s|
    ensures forall i :: 0 <= i < |s| ==> Lower(s)[i] == if 'A' <= s[i] <= 'Z' then s[i] - 'A' + 'a' else s[i]
  {
    if s != "" {
      LowerAt(s[1..]);
      assert forall i :: 1 <= i < |s| ==> s[i] == s[1..][i - 1];
    }
  }

  lemma NamesAreNames(name: string)
    ensures IsTitleName(name) <==> IsSectionName(name)
  {
    LowerIff(name, "compact instructions");
  }

  predicate IsColon(c: char)
  {
    c == ':' || c == '：'
  }

  /** Whitespace, a name, whitespace, colons, whitespace. */
  ghost predicate IsTitleWith(title: string, a: string, name: string, b: string, colons: string, c: string)
  {
    && title == a + (name + b + colons + c) && IsSectionName(name)
    && White(a) && White(b) && White(c) && forall i :: 0 <= i < |colons| ==> IsColon(colons[i])
  }

  predicate Solid(name: string)
  {
    && name != "" && !IsWhitespace(name[0]) && !IsWhitespace(name[|name| - 1])
    && !IsColon(name[|name| - 1])
  }

  lemma NamesAreSolid(name: string)
    requires IsSectionName(name)
    ensures Solid(name)
  {
    assert name == "压缩说明" ==> name[0] == '压' && name[|name| - 1] == '明';
    assert name == "压缩指令" ==> name[0] == '压' && name[|name| - 1] == '令';
    if SameLetters(name, "compact instructions") {
      assert |name| == 20;
      assert name[0] == 'c' || name[0] == 'C';
      assert name[19] == 's' || name[19] == 'S';
    }
  }

  lemma {:induction false} ColonsTrim(front: string, colons: string)
    requires forall i :: 0 <= i < |colons| ==> IsColon(colons[i])
    requires front == "" || !IsColon(front[|front| - 1])
    ensures TrimEndOf(front + colons, {':', '：'}) == front
    decreases |colons|
  {
    var s := front + colons;
    if colons == "" {
      assert s == front;
    } else {
      var n := |colons| - 1;
      assert s[|s| - 1] == colons[n] && s[..|s| - 1] == front + colons[..n];
      ColonsTrim(front, colons[..n]);
    }
  }

  lemma TrimAround(a: string, core: string, c: string)
    requires White(a) && White(c) && core != "" && !IsWhitespace(core[0]) && !IsWhitespace(core[|core| - 1])
    ensures Trim(a + (core + c)) == core
  {
    WhiteTrimsStart(a);
    TrimStartConcat(a, core + c);
    assert TrimStart(core + c) == core + c;
    WhiteTrimsEnd(c);
    TrimEndConcat(core, c);
  }

  lemma TitleIsRead(title: string, a: string, name: string, b: string, colons: string, c: string)
    requires IsTitleWith(title, a, name, b, colons, c)
    ensures IsTitle(title)
  {
    NamesAreSolid(name);
    NamesAreNames(name);
    if colons == "" {
      assert name + b + colons + c == name + (b + c);
      TrimAround(a, name, b + c);
      ColonsTrim(name, "");
      assert name + "" == name;
      TrimAround("", name, "");
      assert "" + (name + "") == name;
    } else {
      var core := name + b + colons;
      assert core[0] == name[0] && core[|core| - 1] == colons[|colons| - 1];
      TrimAround(a, core, c);
      ColonsBehindName(name, b, colons);
      TrimAround("", name, b);
      assert "" + (name + b) == name + b;
    }
  }

  lemma {:induction false} ColonsBehindName(name: string, b: string, colons: string)
    requires Solid(name) && White(b) && forall i :: 0 <= i < |colons| ==> IsColon(colons[i])
    ensures TrimEndOf(name + b + colons, {':', '：'}) == name + b
  {
    var front := name + b;
    assert b != "" ==> front[|front| - 1] == b[|b| - 1];
    ColonsTrim(front, colons);
  }

  lemma {:induction false} ColonsCut(s: string)
    ensures var front := TrimEndOf(s, {':', '：'});
            |front| <= |s| && front == s[..|front|] && forall i :: |front| <= i < |s| ==> IsColon(s[i])
    decreases |s|
  {
    if s != "" && s[|s| - 1] in {':', '：'} {
      ColonsCut(s[..|s| - 1]);
    }
  }

  lemma TrimCut(s: string) returns (a: string, c: string)
    ensures s == a + (Trim(s) + c) && White(a) && White(c)
  {
    TrimStartCuts(s);
    var t := TrimStart(s);
    a := s[..|s| - |t|];
    TrimEndCuts(t);
    CutBehind(t, TrimEnd(t));
    c := t[|TrimEnd(t)|..];
    assert s == a + t;
  }

  lemma {:induction false} TitleIsSpelled(title: string)
    returns (a: string, name: string, b: string, colons: string, c: string)
    requires IsTitle(title)
    ensures IsTitleWith(title, a, name, b, colons, c)
  {
    var core := Trim(title);
    a, c := TrimCut(title);
    var front, lead;
    front, colons := ColonsOff(core);
    lead, b := TrimCut(front);
    name := Trim(front);
    NamesAreNames(name);
    TrimStarts(title);
    NoLead(core, front, lead, name, b);
  }

  lemma ColonsOff(s: string) returns (front: string, colons: string)
    ensures s == front + colons && front == TrimEndOf(s, {':', '：'})
    ensures forall i :: 0 <= i < |colons| ==> IsColon(colons[i])
  {
    ColonsCut(s);
    front := TrimEndOf(s, {':', '：'});
    colons := s[|front|..];
  }

  /** A text that starts with no whitespace has none in front of its trimmed front either. */
  lemma NoLead(core: string, front: string, lead: string, name: string, b: string)
    requires core == "" || !IsWhitespace(core[0])
    requires front <= core && front == lead + (name + b) && White(lead)
    ensures lead == "" && front == name + b
  {
    LeadsOff(lead, name + b, core);
  }

  lemma LeadsOff(lead: string, rest: string, core: string)
    requires lead + rest <= core && White(lead)
    ensures lead != "" ==> core != "" && IsWhitespace(core[0])
  {
    if lead != "" {
      assert core[0] == (lead + rest)[0] == lead[0];
    }
  }

  lemma TrimStarts(s: string)
    ensures Trim(s) == "" || !IsWhitespace(Trim(s)[0])
  {
    TrimEndCuts(TrimStart(s));
  }

  /** A heading's title names the section exactly when it is one of the three names between whitespace, with
      any colons behind it. */
  lemma TitleIff(title: string)
    ensures IsTitle(title) <==> exists a, name, b, colons, c :: IsTitleWith(title, a, name, b, colons, c)
  {
    if IsTitle(title) {
      var a, name, b, colons, c := TitleIsSpelled(title);
    }
    if a, name, b, colons, c :| IsTitleWith(title, a, name, b, colons, c) {
      TitleIsRead(title, a, name, b, colons, c);
    }
  }

  // ----- The lines of a file

  lemma {:induction false} SplitFront(line: string, more: string)
    requires OneLine(line)
    ensures Split(line + "\n" + more) == [line] + Split(more)
  {
    SplitConcat(line, more);
    SplitOneLine(line);
  }

  /** A file's lines end at newlines, and one return right before a newline goes with it. */
  lemma {:induction false} FileLinesCons(line: string, more: string)
    requires OneLine(line)
    ensures FileLines(line + "\r\n" + more) == [line] + FileLines(more)
    ensures (line == "" || line[|line| - 1] != '\r') ==> FileLines(line + "\n" + more) == [line] + FileLines(more)
  {
    ReturnEnds(line);
    FirstFileLine(line + "\r", more);
    assert line + "\r" + "\n" + more == line + "\r\n" + more;
    FirstFileLine(line, more);
  }

  lemma ReturnEnds(line: string)
    requires OneLine(line)
    ensures OneLine(line + "\r") && WithoutReturn(line + "\r") == line
  {
    assert (line + "\r")[..|line|] == line;
  }

  lemma {:induction false} FirstFileLine(line: string, more: string)
    requires OneLine(line)
    ensures FileLines(line + "\n" + more) == [WithoutReturn(line)] + FileLines(more)
  {
    SplitFront(line, more);
    FirstPiece(line, Split(more));
  }

  lemma FirstPiece(line: string, rest: seq<string>)
    requires rest != []
    ensures var pieces := [line] + rest;
            && pieces[|pieces| - 1] == rest[|rest| - 1]
            && WithoutReturns(pieces[..|pieces| - 1]) == [WithoutReturn(line)] + WithoutReturns(rest[..|rest| - 1])
  {
    var pieces := [line] + rest;
    assert pieces[..|pieces| - 1] == [line] + rest[..|rest| - 1];
  }

  /** The last line has no newline; an empty one is none. */
  lemma LastFileLine(line: string)
    requires OneLine(line)
    ensures FileLines(line) == if line == "" then [] else [line]
  {
    SplitOneLine(line);
  }
}
