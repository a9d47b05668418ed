/** The section as it is returned: a text of its own, trimmed. When it reads as it did in the file. */
module Sections {
  import opened Wrappers
  import opened Text
  import opened Sequences
  import opened TrimmedLines
  import opened Headings

  // ----- What a line does at the start of a text

  datatype Opening =
    | Nothing
    | OpensCode(fence: Fence)
    | OpensComment
    | TitleLine(level: nat, title: string)
    | Contained(column: Option<nat>)
    | Prose

  /** A list column no block can be right of is as good as none: blocks start in the first four. */
  function Near(column: Option<nat>): Option<nat>
  {
    if column.Some? && column.value <= 3 then column else None
  }

  function OpeningOf(line: Line): Opening
  {
    if line.indent.None? then Nothing
    else if line.opens.Some? then OpensCode(line.opens.value)
    else if line.comment.Some? then (if line.comment.value then OpensComment else Nothing)
    else if line.link then Nothing
    else if line.atx.Some? then TitleLine(line.atx.value.0, line.atx.value.1)
    else if line.setext == Some(2) || line.rule then Nothing
    else if line.item.Some? then Contained(Near(Some(line.indent.value + line.item.value)))
    else if line.quote then Contained(None)
    else Prose
  }

  predicate Alike(a: State, b: State)
  {
    a.fence == b.fence && a.inComment == b.inComment && a.paragraph == b.paragraph
      && Near(a.listContent) == Near(b.listContent)
  }

  /** The same lines but for the first, whose text is the same. */
  ghost predicate SameBehind(a: seq<Line>, b: seq<Line>)
  {
    && |a| == |b| && a != [] && a[0].trimmed == b[0].trimmed
    && forall i :: 1 <= i < |a| ==> a[i] == b[i]
  }

  lemma {:induction false} TitleAlike(a: seq<Line>, b: seq<Line>)
    requires |a| == |b| && forall i :: 0 <= i < |a| ==> a[i].trimmed == b[i].trimmed
    ensures Title(a) == Title(b)
  {
    if |a| > 1 {
      TitleAlike(a[1..], b[1..]);
    }
  }

  lemma TopLevelAlike(a: State, b: State, indent: nat)
    requires Alike(a, b) && indent <= 3
    ensures TopLevel(a, indent) <==> TopLevel(b, indent)
    ensures Alike(BlockEnd(a, indent), BlockEnd(b, indent))
  {
  }

  lemma StepAlike(a: seq<Line>, b: seq<Line>, n: nat, sa: State, sb: State)
    requires SameBehind(a, b) && 1 <= n < |a| && Sound(a[n]) && Alike(sa, sb) && Opened(sa, n)
    ensures Alike(Step(a, n, sa).0, Step(b, n, sb).0) && Step(a, n, sa).1 == Step(b, n, sb).1
  {
    assert a[n] == b[n];
    if a[n].indent.Some? {
      TopLevelAlike(sa, sb, a[n].indent.value);
      BlockAlike(a, b, n, sa, sb, a[n].indent.value);
    }
  }

  lemma BlockAlike(a: seq<Line>, b: seq<Line>, n: nat, sa: State, sb: State, indent: nat)
    requires SameBehind(a, b) && 1 <= n < |a| && Alike(sa, sb) && Opened(sa, n) && indent <= 3
    ensures Alike(BlockLine(a, n, sa, indent).0, BlockLine(b, n, sb, indent).0)
    ensures BlockLine(a, n, sa, indent).1 == BlockLine(b, n, sb, indent).1
  {
    TopLevelAlike(sa, sb, indent);
    if sa.paragraph.Some? {
      var first := sa.paragraph.value.first;
      TitleAlike(a[first..n], b[first..n]);
    }
  }

  lemma {:induction false} ScanAlike(a: seq<Line>, b: seq<Line>, n: nat)
    requires SameBehind(a, b) && AllSound(a) && 1 <= n <= |a|
    requires Alike(Scan(a, 1).0, Scan(b, 1).0) && Scan(a, 1).1 == Scan(b, 1).1
    ensures Alike(Scan(a, n).0, Scan(b, n).0) && Scan(a, n).1 == Scan(b, n).1
  {
    if n > 1 {
      ScanAlike(a, b, n - 1);
      StepAlike(a, b, n - 1, Scan(a, n - 1).0, Scan(b, n - 1).0);
    }
  }

  lemma FirstLine(a: seq<Line>)
    requires a != []
    ensures Scan(a, 1) == Step(a, 0, START)
  {
    assert [] + Step(a, 0, START).1 == Step(a, 0, START).1;
  }

  lemma OpeningDecides(a: seq<Line>, b: seq<Line>)
    requires a != [] && b != [] && Sound(a[0]) && Sound(b[0]) && !a[0].blank && !b[0].blank
    requires OpeningOf(a[0]) == OpeningOf(b[0])
    ensures Alike(Scan(a, 1).0, Scan(b, 1).0) && Scan(a, 1).1 == Scan(b, 1).1
  {
    FirstLine(a);
    FirstLine(b);
  }

  /** Lines that open alike can stand for each other at the start of any text. */
  lemma SameOpeningSameHeadings(a: seq<Line>, b: seq<Line>)
    requires SameBehind(a, b) && AllSound(a) && AllSound(b) && !a[0].blank && !b[0].blank
    requires OpeningOf(a[0]) == OpeningOf(b[0])
    ensures Scan(a, |a|).1 == Scan(b, |b|).1
  {
    OpeningDecides(a, b);
    ScanAlike(a, b, |a|);
  }

  // ----- Texts that tell openings apart

  /** A line of prose or a run of `=`, indented. */
  ghost predicate IsWord(line: Line, indent: nat)
  {
    && line.trimmed == "a" && !line.blank && line.indent == Some(indent) && line.opens.None? && line.comment.None?
    && !line.link && line.atx.None? && line.setext.None? && !line.rule && line.item.None? && !line.quote
    && !line.endsComment && (forall f: Fence :: f.length >= 3 ==> !line.closes(f))
  }

  ghost predicate IsUnderline(line: Line, indent: nat)
  {
    && !line.blank && line.indent == Some(indent) && line.opens.None? && line.comment.None?
    && !line.link && line.atx.None? && line.setext == Some(1) && !line.rule && line.item.None? && !line.quote
    && !line.endsComment && (forall f: Fence :: f.length >= 3 ==> !line.closes(f))
  }

  /** What a word and its underline make of an opening. */
  function WithUnderline(first: Line): seq<Heading>
  {
    match OpeningOf(first)
    case Nothing => [Heading(1, 2, 1, "a")]
    case Prose => [Heading(0, 2, 1, first.trimmed + " " + "a")]
    case TitleLine(level, title) => [Heading(0, 0, level, title), Heading(1, 2, 1, "a")]
    case _ => []
  }

  lemma UnderlineTells(a: seq<Line>)
    requires |a| == 3 && Sound(a[0]) && !a[0].blank && IsWord(a[1], 0) && IsUnderline(a[2], 0)
    requires a[0].opens.Some? ==> a[0].opens.value.length >= 3
    ensures Scan(a, 3).1 == WithUnderline(a[0])
  {
    FirstLine(a);
    var s1, h1 := Step(a, 0, START).0, Step(a, 0, START).1;
    var s2, h2 := Step(a, 1, s1).0, Step(a, 1, s1).1;
    assert Scan(a, 2) == (s2, h1 + h2);
    var h3 := Step(a, 2, s2).1;
    assert Scan(a, 3).1 == h1 + h2 + h3;
    assert h2 == [];
    assert a[0..2][1..] == [a[1]] && a[1..2] == [a[1]];
    UnderlineTellsLast(a, s1, s2);
  }

  lemma UnderlineTellsLast(a: seq<Line>, s1: State, s2: State)
    requires |a| == 3 && Sound(a[0]) && !a[0].blank && IsWord(a[1], 0) && IsUnderline(a[2], 0)
    requires a[0].opens.Some? ==> a[0].opens.value.length >= 3
    requires s1 == Step(a, 0, START).0 && Opened(s1, 1) && s2 == Step(a, 1, s1).0 && Opened(s2, 2)
    ensures Step(a, 0, START).1 + Step(a, 2, s2).1 == WithUnderline(a[0])
  {
    var word := [a[1]];
    assert a[0..2][1..] == word && a[1..2] == word && |a[0..2]| == 2 && a[0..2][0] == a[0];
    assert Title(word) == "a";
    assert Title(a[0..2]) == a[0].trimmed + " " + "a" && Title(a[1..2]) == "a";
    match OpeningOf(a[0])
    case Nothing =>
      assert s1 == START;
      assert s2.paragraph == Some(Paragraph(1, false));
    case Prose =>
      assert s2.paragraph == Some(Paragraph(0, false));
    case TitleLine(level, title) =>
      assert s1 == START;
      assert Step(a, 0, START).1 == [Heading(0, 0, level, title)];
      assert Step(a, 2, s2).1 == [Heading(1, 2, 1, "a")];
    case OpensCode(f) =>
      assert s2 == s1;
    case OpensComment =>
      assert s2 == s1;
    case Contained(_) =>
      assert s2.paragraph == Some(Paragraph(0, true));
  }

  /** What a word and its underline, after a blank line, tell about the column of a list item. */
  lemma ColumnTells(a: seq<Line>, column: nat, indent: nat)
    requires |a| == 4 && Step(a, 0, START) == (State(None, false, Some(Paragraph(0, true)), Some(column)), [])
    requires a[1].blank && IsWord(a[2], indent) && IsUnderline(a[3], indent)
    ensures Scan(a, 4).1 == if indent < column then [Heading(2, 3, 1, "a")] else []
  {
    FirstLine(a);
    var s1 := Step(a, 0, START).0;
    var s2 := s1.(paragraph := None);
    assert Step(a, 1, s1) == (s2, []);
    assert Scan(a, 2) == (s2, [] + []);
    var s3 := Step(a, 2, s2).0;
    assert Step(a, 2, s2).1 == [];
    assert Scan(a, 3) == (s3, [] + [] + []);
    assert s3.paragraph == Some(Paragraph(2, !(indent < column)));
    assert a[2..3] == [a[2]];
    assert Scan(a, 4).1 == Step(a, 3, s3).1;
  }

  // ----- Spelling such texts

  function Pad(n: nat): string
  {
    seq(n, _ => ' ')
  }

  lemma PadCons(n: nat, rest: string)
    requires n > 0
    ensures (Pad(n) + rest)[0] == ' ' && (Pad(n) + rest)[1..] == Pad(n - 1) + rest
  {
    assert Pad(n)[1..] == Pad(n - 1);
    TailOfConcat(Pad(n), rest);
  }

  lemma {:induction false} PadRun(n: nat, rest: string)
    requires rest != "" && rest[0] != ' '
    ensures Run(Pad(n) + rest, ' ') == n
  {
    if n == 0 {
      assert Pad(0) + rest == rest;
    } else {
      PadCons(n, rest);
      PadRun(n - 1, rest);
    }
  }

  lemma {:induction false} PadTrim(n: nat, rest: string)
    ensures TrimStart(Pad(n) + rest) == TrimStart(rest)
  {
    if n == 0 {
      assert Pad(0) + rest == rest;
    } else {
      PadCons(n, rest);
      PadTrim(n - 1, rest);
    }
  }

  lemma PadBlock(n: nat, rest: string)
    requires n <= 3 && rest != "" && rest[0] != ' ' && rest[0] != '\t'
    ensures BlockIndent(Pad(n) + rest) == Some(rest) && |Pad(n) + rest| - |rest| == n
  {
    PadRun(n, rest);
    assert (Pad(n) + rest)[n..] == rest;
  }

  lemma {:induction false} NoDashNoClose(s: string)
    requires '-' !in s
    ensures !Contains(s, COMMENT_CLOSE)
  {
    assert COMMENT_CLOSE[0] == '-';
    if s != "" {
      NoDashNoClose(s[1..]);
    }
  }

  predicate IsLetter(rest: string)
  {
    rest == ['a'] || rest == ['=']
  }

  lemma PlainRest(rest: string)
    requires IsLetter(rest)
    ensures ListItemContent(rest).None? && !IsThematicBreak(rest) && !IsLinkDefinition(rest)
  {
    assert rest[0] != '[' && rest[0] != ' ' && !('0' <= rest[0] <= '9');
    assert DigitRun(rest) == 0 && MarkerLength(rest) == 0;
    assert SpaceRun(rest) == 0 && rest[0..] == rest;
  }

  lemma PlainStart(line: string, rest: string)
    requires IsLetter(rest) && BlockIndent(line) == Some(rest)
    ensures OpensFence(line).None? && AtxHeading(line).None?
    ensures forall f: Fence :: f.length >= 3 ==> !ClosesFence(line, f)
  {
  }

  lemma Underlines(line: string, rest: string)
    requires IsLetter(rest) && BlockIndent(line) == Some(rest)
    ensures SetextUnderline(line) == if rest == ['='] then Some(1) else None
  {
    assert TrimEnd(rest) == rest && Run(rest, '=') == if rest == ['='] then 1 else 0;
  }

  lemma TrimPadded(n: nat, x: string)
    requires x != "" && !IsWhitespace(x[0]) && !IsWhitespace(x[|x| - 1])
    ensures Trim(Pad(n) + x) == x
  {
    PadTrim(n, x);
    assert TrimStart(x) == x && TrimEnd(x) == x;
  }

  lemma LetterTrims(n: nat, rest: string)
    requires IsLetter(rest)
    ensures Trim(Pad(n) + rest) == rest
  {
    assert !IsWhitespace(rest[0]) && |rest| == 1;
    TrimPadded(n, rest);
  }

  lemma {:induction false} LetterHasNoDash(n: nat, rest: string)
    requires IsLetter(rest)
    ensures !Contains(Pad(n) + rest, COMMENT_CLOSE)
  {
    assert '-' !in Pad(n) && '-' !in rest;
    NoDashNoClose(Pad(n) + rest);
  }

  lemma LetterFacts(n: nat, rest: string)
    requires n <= 3 && IsLetter(rest)
    ensures var line := Pad(n) + rest;
            && BlockIndent(line) == Some(rest) && |line| - |rest| == n && Trim(line) == rest
            && !Contains(line, COMMENT_CLOSE) && !(COMMENT_OPEN <= rest)
  {
    PadBlock(n, rest);
    LetterTrims(n, rest);
    LetterHasNoDash(n, rest);
    assert COMMENT_OPEN[0] == '<';
  }

  lemma ReadWord(n: nat)
    requires n <= 3
    ensures IsWord(Read(Pad(n) + ['a']), n)
  {
    var line, rest := Pad(n) + ['a'], ['a'];
    LetterFacts(n, rest);
    PlainRest(rest);
    PlainStart(line, rest);
    Underlines(line, rest);
  }

  lemma ReadUnderline(n: nat)
    requires n <= 3
    ensures IsUnderline(Read(Pad(n) + ['=']), n)
  {
    var line, rest := Pad(n) + ['='], ['='];
    LetterFacts(n, rest);
    PlainRest(rest);
    PlainStart(line, rest);
    Underlines(line, rest);
  }

  // ----- A heading inside a list item

  /** A text and its underline right of a list item's content column: part of the item, though on
      their own they are a heading. */
  lemma {:induction false} ListItemHidesHeading(tail: seq<Line>, column: nat)
    requires column <= 3 && |tail| == 2 && IsWord(tail[0], 3) && IsUnderline(tail[1], 3)
    ensures ScanFrom(tail, 0, 2, State(None, false, None, Some(column))).1 == []
    ensures Scan(tail, 2).1 == [Heading(0, 1, 1, "a")]
  {
    var inItem := State(None, false, None, Some(column));
    assert [] + Step(tail, 0, inItem).1 == Step(tail, 0, inItem).1;
    assert ScanFrom(tail, 0, 1, inItem) == Step(tail, 0, inItem);
    assert ScanFrom(tail, 0, 1, START) == Step(tail, 0, START);
    assert tail[0..1] == [tail[0]];
  }

  /** After a heading, what follows reads as it would on its own exactly when no list item is open. */
  lemma {:induction false} ReadsAloneIff(st: State)
    requires st == State(None, false, None, st.listContent)
    requires st.listContent.Some? ==> st.listContent.value <= 3
    ensures (forall tail: seq<string> :: ScanFrom(ReadAll(tail), 0, |tail|, st).1 == Scan(ReadAll(tail), |tail|).1)
            <==> st.listContent.None?
  {
    if st.listContent.Some? {
      var tail := [Pad(3) + ['a'], Pad(3) + ['=']];
      ReadWord(3);
      ReadUnderline(3);
      TailHides(tail, st);
    }
  }

  lemma {:induction false} TailHides(tail: seq<string>, st: State)
    requires |tail| == 2 && IsWord(Read(tail[0]), 3) && IsUnderline(Read(tail[1]), 3)
    requires st == State(None, false, None, st.listContent) && st.listContent.Some? && st.listContent.value <= 3
    ensures ScanFrom(ReadAll(tail), 0, |tail|, st).1 != Scan(ReadAll(tail), |tail|).1
  {
    ListItemHidesHeading(ReadAll(tail), st.listContent.value);
  }

  // ----- The first line of the returned text

  function HeadingsIn(texts: seq<string>): seq<Heading>
  {
    Scan(ReadAll(texts), |texts|).1
  }

  lemma OddCharacter(c: char)
    requires IsWhitespace(c) && c != ' ' && c != '\t'
    ensures c !in {'`', '~', '<', '[', '#', '=', '-', '*', '_', '+', '>'} && !('0' <= c <= '9')
  {
  }

  lemma {:induction false} SpacesInFront(x: string)
    ensures x == Pad(Run(x, ' ')) + x[Run(x, ' ')..]
  {
  }

  lemma {:induction false} TrimStartAtRest(x: string)
    ensures TrimStart(x) == TrimStart(x[Run(x, ' ')..])
  {
    SpacesInFront(x);
    PadTrim(Run(x, ' '), x[Run(x, ' ')..]);
  }

  /** A line and its left-trimmed self: the same block, no block, or prose behind an odd space. */
  lemma {:induction false} TrimStartCases(x: string, y: string)
    requires y == TrimStart(x) && y != ""
    ensures !IsWhitespace(y[0]) && BlockIndent(y) == Some(y)
    ensures BlockIndent(x) == Some(y) || BlockIndent(x).None? || OddlySpaced(BlockIndent(x).value)
  {
    UnindentedBlock(y);
    TrimStartAtRest(x);
    IndentCases(x, x[Run(x, ' ')..], y);
  }

  lemma {:induction false} IndentCases(x: string, rest: string, y: string)
    requires rest == x[Run(x, ' ')..] && y == TrimStart(rest) && y != ""
    ensures BlockIndent(x) == Some(y) || BlockIndent(x).None? || OddlySpaced(BlockIndent(x).value)
  {
    if BlockIndent(x).Some? {
      assert BlockIndent(x).value == rest;
      RestCases(rest);
      assert rest != "" && rest[0] != ' ' && rest[0] != '\t';
    }
  }

  predicate OddlySpaced(rest: string)
  {
    rest != "" && IsWhitespace(rest[0]) && rest[0] != ' ' && rest[0] != '\t'
  }

  lemma UnindentedBlock(y: string)
    requires y != "" && !IsWhitespace(y[0])
    ensures BlockIndent(y) == Some(y)
  {
    PadBlock(0, y);
    assert Pad(0) + y == y;
  }

  lemma {:induction false} RestCases(rest: string)
    ensures rest == "" || rest[0] == ' ' || rest[0] == '\t' || OddlySpaced(rest) || TrimStart(rest) == rest
    ensures rest == "" ==> TrimStart(rest) == ""
  {
  }

  lemma OddSpaceIsProse(x: string, rest: string)
    requires BlockIndent(x) == Some(rest) && OddlySpaced(rest)
    ensures OpeningOf(Read(x)) == Prose
  {
    OddCharacter(rest[0]);
    OddStart(x, rest);
    OddRest(rest);
  }

  lemma OddStart(x: string, rest: string)
    requires BlockIndent(x) == Some(rest) && rest != ""
    requires rest[0] !in {'`', '~', '<', '[', '#', '=', '-', '*', '_', '+', '>'}
    ensures OpensFence(x).None? && AtxHeading(x).None? && SetextUnderline(x).None? && !(COMMENT_OPEN <= rest)
  {
    assert COMMENT_OPEN[0] == '<';
    TrimEndCuts(rest);
    assert TrimEnd(rest) != "" ==> TrimEnd(rest)[0] == rest[0];
  }

  lemma OddRest(rest: string)
    requires rest != "" && rest[0] != ' ' && rest[0] != '\t'
    requires rest[0] !in {'`', '~', '<', '[', '#', '=', '-', '*', '_', '+', '>'} && !('0' <= rest[0] <= '9')
    ensures ListItemContent(rest).None? && !IsThematicBreak(rest) && !IsLinkDefinition(rest)
  {
    assert DigitRun(rest) == 0 && MarkerLength(rest) == 0;
    assert SpaceRun(rest) == 0 && rest[0..] == rest;
  }

  /** The same block at another indent. */
  ghost predicate SameBlock(a: Line, b: Line)
  {
    && a.indent.Some? && b.indent.Some?
    && a.opens == b.opens && a.comment == b.comment && a.link == b.link && a.atx == b.atx && a.setext == b.setext
    && a.rule == b.rule && a.item == b.item && a.quote == b.quote
  }

  lemma SameFence(x: string, y: string)
    requires BlockIndent(x) == BlockIndent(y)
    ensures OpensFence(x) == OpensFence(y)
  {
  }

  lemma SameAtx(x: string, y: string)
    requires BlockIndent(x) == BlockIndent(y)
    ensures AtxHeading(x) == AtxHeading(y)
  {
  }

  lemma SameSetext(x: string, y: string)
    requires BlockIndent(x) == BlockIndent(y)
    ensures SetextUnderline(x) == SetextUnderline(y)
  {
  }

  lemma SameBlockAtAnyIndent(x: string, y: string, opens: Option<Fence>, atx: Option<(nat, string)>,
                             setext: Option<nat>)
    requires |y| <= |x|
    ensures SameBlock(Block(x, y, opens, atx, setext), Block(y, y, opens, atx, setext))
  {
  }

  lemma ReadIsBlock(x: string, rest: string)
    requires BlockIndent(x) == Some(rest)
    ensures Read(x) == Block(x, rest, OpensFence(x), AtxHeading(x), SetextUnderline(x))
  {
  }

  lemma SameBlockRead(k: nat, y: string)
    requires k <= 3 && y != "" && !IsWhitespace(y[0])
    ensures var x := Pad(k) + y;
            SameBlock(Read(x), Read(y)) && Read(y).indent == Some(0) && Read(x).indent == Some(k)
  {
    var x := Pad(k) + y;
    PadBlock(k, y);
    UnindentedBlock(y);
    SameFence(x, y);
    SameAtx(x, y);
    SameSetext(x, y);
    ReadIsBlock(x, y);
    ReadIsBlock(y, y);
    SameBlockAtAnyIndent(x, y, OpensFence(x), AtxHeading(x), SetextUnderline(x));
  }

  /** A list item at the start of a text. */
  predicate OpensItem(line: Line)
  {
    OpeningOf(line).Contained? && line.item.Some?
  }

  lemma ItemStep(a: seq<Line>)
    requires a != [] && !a[0].blank && OpensItem(a[0])
    ensures a[0].indent.Some?
    ensures Step(a, 0, START) ==
            (State(None, false, Some(Paragraph(0, true)), Some(a[0].indent.value + a[0].item.value)), [])
  {
  }

  lemma UnderlinesDiffer(x: Line, y: Line)
    requires OpeningOf(x).Nothing? || OpeningOf(x).Prose?
    requires OpeningOf(x) != OpeningOf(y)
    ensures WithUnderline(x) != WithUnderline(y)
  {
    assert |WithUnderline(x)| == 1;
    if |WithUnderline(y)| == 1 {
      assert WithUnderline(y)[0].first != WithUnderline(x)[0].first;
    }
  }

  lemma UnderlineTellsApart(a: seq<Line>, b: seq<Line>)
    requires |a| == 3 && |b| == 3 && AllSound(a) && AllSound(b) && !a[0].blank && !b[0].blank
    requires IsWord(a[1], 0) && IsUnderline(a[2], 0) && IsWord(b[1], 0) && IsUnderline(b[2], 0)
    requires OpeningOf(a[0]).Nothing? || OpeningOf(a[0]).Prose?
    requires OpeningOf(a[0]) != OpeningOf(b[0])
    ensures Scan(a, 3).1 != Scan(b, 3).1
  {
    UnderlineTells(a);
    UnderlineTells(b);
    UnderlinesDiffer(a[0], b[0]);
  }

  lemma ColumnTellsApart(a: seq<Line>, b: seq<Line>, indent: nat)
    requires |a| == 4 && |b| == 4 && !a[0].blank && !b[0].blank && OpensItem(a[0]) && OpensItem(b[0])
    requires a[1].blank && b[1].blank && IsWord(a[2], indent) && IsUnderline(a[3], indent)
    requires IsWord(b[2], indent) && IsUnderline(b[3], indent)
    requires b[0].indent == Some(0) && b[0].item == a[0].item == Some(indent) && a[0].indent.Some?
             && a[0].indent.value > 0
    ensures Scan(a, 4).1 != Scan(b, 4).1
  {
    ItemStep(a);
    ItemStep(b);
    ColumnTells(a, a[0].indent.value + indent, indent);
    ColumnTells(b, indent, indent);
    assert Scan(a, 4).1[0] == Heading(2, 3, 1, "a");
  }

  lemma ReadBlank()
    ensures Read("").blank
  {
    assert TrimStart("") == "" && TrimEnd("") == "";
  }

  /** The rest of this part holds for any reader of lines. */
  ghost predicate Reads(read: string -> Line)
  {
    forall line :: Sound(read(line))
  }

  function HeadingsWith(read: string -> Line, texts: seq<string>): seq<Heading>
  {
    Scan(ReadWith(read, texts), |texts|).1
  }

  lemma UnderlineText(read: string -> Line, x: string, y: string, word: string, under: string)
    requires Reads(read) && !read(x).blank && !read(y).blank && IsWord(read(word), 0) && IsUnderline(read(under), 0)
    requires OpeningOf(read(x)).Nothing? || OpeningOf(read(x)).Prose?
    requires OpeningOf(read(x)) != OpeningOf(read(y))
    ensures HeadingsWith(read, [x] + [word, under]) != HeadingsWith(read, [y] + [word, under])
  {
    var a, b := ReadWith(read, [x] + [word, under]), ReadWith(read, [y] + [word, under]);
    assert a[0] == read(x) && b[0] == read(y) && a[1] == b[1] == read(word) && a[2] == b[2] == read(under);
    UnderlineTellsApart(a, b);
  }

  lemma ColumnText(read: string -> Line, x: string, y: string, blank: string, word: string, under: string)
    requires !read(x).blank && !read(y).blank && SameBlock(read(x), read(y)) && read(y).indent == Some(0)
    requires OpensItem(read(x)) && OpensItem(read(y)) && read(x).indent.value > 0
    requires read(blank).blank && IsWord(read(word), read(y).item.value) && IsUnderline(read(under), read(y).item.value)
    ensures HeadingsWith(read, [x] + [blank, word, under]) != HeadingsWith(read, [y] + [blank, word, under])
  {
    var a, b := ReadWith(read, [x] + [blank, word, under]), ReadWith(read, [y] + [blank, word, under]);
    assert a[0] == read(x) && b[0] == read(y) && a[1] == b[1] == read(blank);
    assert a[2] == b[2] == read(word) && a[3] == b[3] == read(under);
    ColumnTellsApart(a, b, read(y).item.value);
  }

  lemma SameHeadingsBehind(read: string -> Line, x: string, y: string, tail: seq<string>)
    requires Reads(read) && !read(x).blank && !read(y).blank && read(x).trimmed == read(y).trimmed
    requires OpeningOf(read(x)) == OpeningOf(read(y))
    ensures HeadingsWith(read, [x] + tail) == HeadingsWith(read, [y] + tail)
  {
    var a, b := ReadWith(read, [x] + tail), ReadWith(read, [y] + tail);
    assert forall i :: 1 <= i < |a| ==> ([x] + tail)[i] == ([y] + tail)[i];
    SameOpeningSameHeadings(a, b);
  }

  lemma FirstReplaced(read: string -> Line, texts: seq<string>, y: string)
    requires texts != [] && Reads(read) && !read(texts[0]).blank && !read(y).blank
    requires read(texts[0]).trimmed == read(y).trimmed && OpeningOf(read(texts[0])) == OpeningOf(read(y))
    ensures HeadingsWith(read, [y] + texts[1..]) == HeadingsWith(read, texts)
  {
    SameHeadingsBehind(read, texts[0], y, texts[1..]);
    assert texts == [texts[0]] + texts[1..];
  }

  lemma AllReads()
    ensures Reads(Read)
  {
    forall line
      ensures Sound(Read(line))
    {
      ReadIsSound(line);
    }
  }

  lemma ReadTrimmed(x: string)
    ensures Read(x).trimmed == Trim(x) && Read(x).blank == Blank(x)
  {
  }

  lemma OpeningsOfSameBlock(a: Line, b: Line)
    requires SameBlock(a, b) && b.indent == Some(0) && OpeningOf(a) != OpeningOf(b)
    ensures OpensItem(a) && OpensItem(b) && a.indent.value > 0 && b.item.value <= 3
  {
  }

  /** Trimming the first line leaves every continuation its headings exactly when the line opens a text
      the same way without its indentation. */
  lemma {:induction false} FirstLineIff(x: string)
    requires !Blank(x)
    ensures (forall tail: seq<string> :: HeadingsIn([x] + tail) == HeadingsIn([TrimStart(x)] + tail))
            <==> OpeningOf(Read(x)) == OpeningOf(Read(TrimStart(x)))
  {
    var y := TrimStart(x);
    if OpeningOf(Read(x)) == OpeningOf(Read(y)) {
      forall tail: seq<string>
        ensures HeadingsIn([x] + tail) == HeadingsIn([y] + tail)
      {
        FirstLineTrims(x, tail);
      }
    } else {
      BlankIsTrimmed(x);
      var tail := FirstLineTold(x, y);
      assert HeadingsIn([x] + tail) != HeadingsIn([y] + tail);
    }
  }

  lemma {:induction false} FirstLineTrims(x: string, tail: seq<string>)
    requires !Blank(x) && OpeningOf(Read(x)) == OpeningOf(Read(TrimStart(x)))
    ensures HeadingsIn([x] + tail) == HeadingsIn([TrimStart(x)] + tail)
  {
    TrimStartKeepsNonBlank(x);
    AllReads();
    ReadTrimmed(x);
    ReadTrimmed(TrimStart(x));
    SameHeadingsBehind(Read, x, TrimStart(x), tail);
  }

  lemma NoBlockIsNothing(x: string)
    requires BlockIndent(x).None?
    ensures OpeningOf(Read(x)) == Nothing
  {
  }

  /** Without a block of its own, a line does nothing or is prose. */
  lemma OtherOpening(x: string)
    requires BlockIndent(x).None? || OddlySpaced(BlockIndent(x).value)
    ensures OpeningOf(Read(x)).Nothing? || OpeningOf(Read(x)).Prose?
  {
    if BlockIndent(x).Some? {
      OddSpaceIsProse(x, BlockIndent(x).value);
    } else {
      NoBlockIsNothing(x);
    }
  }

  lemma FirstLineTold(x: string, y: string) returns (tail: seq<string>)
    requires y == TrimStart(x) && y != "" && OpeningOf(Read(x)) != OpeningOf(Read(y))
    ensures HeadingsIn([x] + tail) != HeadingsIn([y] + tail)
  {
    TrimStartCases(x, y);
    if BlockIndent(x) == Some(y) {
      tail := IndentedTold(x, y);
    } else {
      tail := OddTold(x, y);
    }
  }

  lemma OddTold(x: string, y: string) returns (tail: seq<string>)
    requires y == TrimStart(x) && y != "" && OpeningOf(Read(x)) != OpeningOf(Read(y))
    requires BlockIndent(x).None? || OddlySpaced(BlockIndent(x).value)
    ensures HeadingsIn([x] + tail) != HeadingsIn([y] + tail)
  {
    OtherOpening(x);
    tail := BlockTold(x, y);
  }

  lemma IndentedTold(x: string, y: string) returns (tail: seq<string>)
    requires y != "" && !IsWhitespace(y[0]) && OpeningOf(Read(x)) != OpeningOf(Read(y)) && BlockIndent(x) == Some(y)
    ensures HeadingsIn([x] + tail) != HeadingsIn([y] + tail)
  {
    var k := BlockIsPadded(x, y);
    tail := ItemTold(k, x, y);
  }

  lemma BlockTold(x: string, y: string) returns (tail: seq<string>)
    requires y == TrimStart(x) && y != "" && OpeningOf(Read(x)) != OpeningOf(Read(y))
    requires OpeningOf(Read(x)).Nothing? || OpeningOf(Read(x)).Prose?
    ensures HeadingsIn([x] + tail) != HeadingsIn([y] + tail)
  {
    BlankIsTrimmed(x);
    TrimStartKeepsNonBlank(x);
    AllReads();
    ReadTrimmed(x);
    ReadTrimmed(y);
    ReadWord(0);
    ReadUnderline(0);
    tail := [Pad(0) + ['a'], Pad(0) + ['=']];
    UnderlineText(Read, x, y, Pad(0) + ['a'], Pad(0) + ['=']);
  }

  lemma BlockIsPadded(x: string, y: string) returns (k: nat)
    requires BlockIndent(x) == Some(y)
    ensures k <= 3 && x == Pad(k) + y
  {
    SpacesInFront(x);
    k := Run(x, ' ');
  }

  lemma PaddedIsThere(k: nat, y: string)
    requires y != "" && !IsWhitespace(y[0])
    ensures !Read(Pad(k) + y).blank && !Read(y).blank
  {
    PadTrim(k, y);
    BlankIsTrimmed(Pad(k) + y);
    BlankIsTrimmed(y);
    ReadTrimmed(Pad(k) + y);
    ReadTrimmed(y);
  }

  lemma ItemTold(k: nat, x: string, y: string) returns (tail: seq<string>)
    requires k <= 3 && x == Pad(k) + y && y != "" && !IsWhitespace(y[0]) && OpeningOf(Read(x)) != OpeningOf(Read(y))
    ensures HeadingsIn([x] + tail) != HeadingsIn([y] + tail)
  {
    PaddedIsThere(k, y);
    SameBlockRead(k, y);
    OpeningsOfSameBlock(Read(x), Read(y));
    var n := Read(y).item.value;
    ReadWord(n);
    ReadUnderline(n);
    ReadBlank();
    tail := ["", Pad(n) + ['a'], Pad(n) + ['=']];
    ColumnText(Read, x, y, "", Pad(n) + ['a'], Pad(n) + ['=']);
  }
}
