/** Whole files whose section does not read as it did in the file. */
module SectionExamples {
  import opened Wrappers
  import opened Text
  import opened Sequences
  import opened TrimmedLines
  import opened Headings
  import opened Sections
  import opened SectionText

  const NAME := "压缩说明"

  predicate IsPlainTitle(title: string)
  {
    title != "" && !IsWhitespace(title[0]) && !IsWhitespace(title[|title| - 1])
      && title[|title| - 1] !in {'#', ':', '：'}
  }

  lemma NameIsPlain()
    ensures IsPlainTitle(NAME) && OneLine(NAME)
  {
  }

  lemma {:induction false} PlainIsTrimmed(title: string)
    requires IsPlainTitle(title)
    ensures Trim(title) == title && TrimEndOf(title, {':', '：'}) == title && TrimEndOf(title, {'#'}) == title
  {
  }

  lemma NameIsTitle()
    ensures IsTitle(NAME)
  {
    NameIsPlain();
    PlainIsTrimmed(NAME);
    assert IsTitleName(NAME);
  }

  // ----- Reading the lines

  function Hashes(n: nat): string
  {
    seq(n, _ => '#')
  }

  lemma TitleBehindSpace(title: string)
    requires IsPlainTitle(title)
    ensures AtxTitle([' '] + title) == Some(title)
  {
    var after := [' '] + title;
    assert after[1..] == title;
    PlainIsTrimmed(title);
    assert TrimStart(title) == title;
  }

  lemma AtxRead(n: nat, h: nat, title: string)
    requires n <= 3 && 1 <= h <= 6 && IsPlainTitle(title)
    ensures var line := Pad(n) + (Hashes(h) + ([' '] + title));
            BlockIndent(line) == Some(Hashes(h) + ([' '] + title)) && AtxHeading(line) == Some((h, title))
  {
    var rest := Hashes(h) + ([' '] + title);
    assert rest[0] == '#' && rest[h] == ' ';
    PadBlock(n, rest);
    RunIs(rest, '#', h);
    assert rest[h..] == [' '] + title;
    TitleBehindSpace(title);
  }

  /** An ATX heading and nothing else. */
  predicate IsAtx(line: Line, indent: nat, level: nat, title: string)
  {
    && !line.blank && line.indent == Some(indent) && line.opens.None? && line.comment.None?
    && !line.link && line.atx == Some((level, title))
  }

  lemma AtxFields(line: string, n: nat, h: nat, title: string)
    requires AtxHeading(line) == Some((h, title)) && BlockIndent(line).Some? && |line| - |BlockIndent(line).value| == n
    requires !Blank(line)
    ensures IsAtx(Read(line), n, h, title)
  {
    AtxIsNothingElse(line);
    ReadIsSound(line);
    ReadTrimmed(line);
  }

  lemma ReadAtx(n: nat, h: nat, title: string)
    requires n <= 3 && 1 <= h <= 6 && IsPlainTitle(title)
    ensures IsAtx(Read(Pad(n) + (Hashes(h) + ([' '] + title))), n, h, title)
  {
    var rest := Hashes(h) + ([' '] + title);
    AtxRead(n, h, title);
    HashAt(n, rest);
    AtxFields(Pad(n) + rest, n, h, title);
  }

  lemma HashAt(n: nat, rest: string)
    requires rest != "" && rest[0] == '#'
    ensures !Blank(Pad(n) + rest) && |Pad(n) + rest| - |rest| == n
  {
    assert (Pad(n) + rest)[n] == '#';
    NotBlankAt(Pad(n) + rest, n);
  }

  lemma NotBlankAt(line: string, k: nat)
    requires k < |line| && !IsWhitespace(line[k])
    ensures !Blank(line)
  {
    BlankMeansWhite(line);
  }

  // ----- Trimming exposes a heading

  /** A title and an indented line, which is code. */
  lemma CodeBelow(lines: seq<Line>, title: string)
    requires |lines| == 2 && IsAtx(lines[0], 0, 2, title) && lines[1].indent.None? && !lines[1].blank
    ensures Scan(lines, 2).1 == [Heading(0, 0, 2, title)] && Scan(lines, 1).0 == START
  {
    FirstLine(lines);
    assert Step(lines, 0, START) == (START, [Heading(0, 0, 2, title)]);
    assert Step(lines, 1, START) == (START, []);
  }

  lemma IndentedIsCode(n: nat, rest: string)
    requires n > 3 && rest != "" && !IsWhitespace(rest[0])
    ensures Read(Pad(n) + rest).indent.None? && !Read(Pad(n) + rest).blank
  {
    PadRun(n, rest);
    PadTrim(n, rest);
    BlankIsTrimmed(Pad(n) + rest);
    ReadTrimmed(Pad(n) + rest);
  }

  lemma {:induction false} FileOf(lines: seq<string>)
    requires lines != [] && Every(OneLine, lines) && Every(NoReturn, lines) && lines[|lines| - 1] != ""
    ensures FileLines(Join(lines)) == lines
  {
    SplitJoin(lines);
    FileLinesOf(Join(lines), lines);
  }

  /** Where the section of a list of headings lies, for the first heading and for none after it. */
  lemma LastSection(lines: seq<Line>, h: Heading, isTitle: string -> bool)
    requires Scan(lines, |lines|).1 == [h] && isTitle(h.title)
    ensures SectionHeadings([h], isTitle) == Some((0, 1))
    ensures SectionBounds(lines, isTitle) == Some((h.last + 1, |lines|))
  {
    assert Titled([h], isTitle) == Some(0);
  }

  lemma AtxAlone(lines: seq<Line>, title: string)
    requires |lines| == 1 && IsAtx(lines[0], 0, 1, title)
    ensures Scan(lines, 1).1 == [Heading(0, 0, 1, title)]
  {
    FirstLine(lines);
  }

  const X := "x"

  lemma XIsPlain()
    ensures IsPlainTitle(X) && OneLine(X)
  {
  }

  /** `# x`. */
  function HashX(): string
  {
    Hashes(1) + ([' '] + X)
  }

  /** `## 压缩说明`. */
  function TitleTwo(): string
  {
    Pad(0) + (Hashes(2) + ([' '] + NAME))
  }

  lemma HashXFacts()
    ensures var x := HashX();
            x != "" && x[0] == '#' && !IsWhitespace(x[|x| - 1]) && OneLine(x) && NoReturn(x)
  {
    XIsPlain();
    var x := HashX();
    assert x[|x| - 1] == X[|X| - 1] && x[0] == '#';
    assert forall c :: c in x ==> c in Hashes(1) || c == ' ' || c in X;
  }

  lemma PaddedIsLine(n: nat, rest: string)
    requires OneLine(rest) && rest != "" && NoReturn(rest)
    ensures OneLine(Pad(n) + rest) && NoReturn(Pad(n) + rest) && Pad(n) + rest != ""
  {
    var line := Pad(n) + rest;
    assert line[|line| - 1] == rest[|rest| - 1];
    assert forall c :: c in line ==> c in Pad(n) || c in rest;
  }

  lemma TitleTwoFacts()
    ensures OneLine(TitleTwo()) && NoReturn(TitleTwo()) && TitleTwo() != ""
  {
    NameIsPlain();
    var rest := Hashes(2) + ([' '] + NAME);
    assert rest[|rest| - 1] == NAME[|NAME| - 1];
    assert forall c :: c in rest ==> c in Hashes(2) || c == ' ' || c in NAME;
    PaddedIsLine(0, rest);
  }

  /** `## 压缩说明` and an indented `# x`: the file has one heading, of level 2, and its section is one line
      of code; the text that is returned is a heading of level 1. */
  lemma TrimExposesHeading()
    ensures var texts := [TitleTwo(), Pad(4) + HashX()];
            && FileLines(Join(texts)) == texts
            && HeadingsIn(texts) == [Heading(0, 0, 2, NAME)]
            && SectionBounds(ReadAll(texts), IsTitle) == Some((1, 2))
            && CompactInstructionsSection(Join(texts)) == Some(HashX())
            && HeadingsIn(FileLines(HashX())) == [Heading(0, 0, 1, X)]
  {
    var code := Pad(4) + HashX();
    var texts := [TitleTwo(), code];
    TitleTwoFacts();
    HashXFacts();
    PaddedIsLine(4, HashX());
    FileOf(texts);
    TitledCode(TitleTwo(), code);
    TrimmedCode();
    SectionIs(Join(texts), IsTitle, 1, 2);
    HashXAlone();
  }

  lemma TitledCodeWith(read: string -> Line, isTitle: string -> bool, first: string, code: string, title: string)
    requires IsAtx(read(first), 0, 2, title) && read(code).indent.None? && !read(code).blank && isTitle(title)
    ensures HeadingsWith(read, [first, code]) == [Heading(0, 0, 2, title)]
    ensures SectionBounds(ReadWith(read, [first, code]), isTitle) == Some((1, 2))
  {
    var lines := ReadWith(read, [first, code]);
    CodeBelow(lines, title);
    LastSection(lines, Heading(0, 0, 2, title), isTitle);
  }

  lemma TitledCodeIn(isTitle: string -> bool, first: string, code: string, title: string)
    requires IsAtx(Read(first), 0, 2, title) && Read(code).indent.None? && !Read(code).blank && isTitle(title)
    ensures HeadingsIn([first, code]) == [Heading(0, 0, 2, title)]
    ensures SectionBounds(ReadAll([first, code]), isTitle) == Some((1, 2))
  {
    TitledCodeWith(Read, isTitle, first, code, title);
  }

  lemma TitleReads()
    ensures IsAtx(Read(TitleTwo()), 0, 2, NAME)
  {
    NameIsPlain();
    ReadAtx(0, 2, NAME);
  }

  lemma CodeReads()
    ensures Read(Pad(4) + HashX()).indent.None? && !Read(Pad(4) + HashX()).blank
  {
    HashXFacts();
    IndentedIsCode(4, HashX());
  }

  lemma TitledCode(first: string, code: string)
    requires first == TitleTwo() && code == Pad(4) + HashX()
    ensures HeadingsIn([first, code]) == [Heading(0, 0, 2, NAME)]
    ensures SectionBounds(ReadAll([first, code]), IsTitle) == Some((1, 2))
  {
    TitleReads();
    CodeReads();
    NameIsTitle();
    TitledCodeIn(IsTitle, first, code, NAME);
  }

  lemma TrimmedCode()
    ensures Trim(Join([TitleTwo(), Pad(4) + HashX()][1..2])) == HashX()
  {
    var first, code := TitleTwo(), Pad(4) + HashX();
    assert [first, code][1..2] == [code];
    HashXFacts();
    TrimPadded(4, HashX());
  }

  lemma HashXAlone()
    ensures HeadingsIn(FileLines(HashX())) == [Heading(0, 0, 1, X)]
  {
    HashXFacts();
    XIsPlain();
    FileOf([HashX()]);
    assert Join([HashX()]) == HashX();
    ReadAtx(0, 1, X);
    assert Pad(0) + HashX() == HashX();
    AtxAlone(ReadAll([HashX()]), X);
  }

  // ----- A heading inside a list item

  /** A list item whose content starts in column 2. */
  predicate IsItem(line: Line)
  {
    !line.blank && OpensItem(line) && line.indent == Some(0) && line.item == Some(2)
  }

  lemma ListedHeading(lines: seq<Line>, title: string)
    requires |lines| == 2 && IsItem(lines[0])
    requires IsAtx(lines[1], 2, 1, title)
    ensures Scan(lines, 2) == (State(None, false, None, Some(2)), [Heading(1, 1, 1, title)])
  {
    ItemStep(lines);
    FirstLine(lines);
    var none: seq<Heading>, found := [], [Heading(1, 1, 1, title)];
    assert Step(lines, 1, Scan(lines, 1).0) == (State(None, false, None, Some(2)), found);
    assert none + found == found;
  }

  /** Two texts in a row, when nothing but a list item is open between them. */
  lemma {:induction false} InARow(a: seq<Line>, b: seq<Line>, st: State, found: seq<Heading>)
    requires Scan(a, |a|) == (st, found) && st.paragraph.None? && ScanFrom(b, 0, |b|, st).1 == []
    ensures Scan(a + b, |a + b|).1 == found
  {
    var all, n := a + b, |a|;
    assert all[..n] == a && all[n..|all|] == b;
    ScanPrefix(all, n, n);
    ScanSplits(all, n, |all|);
    FoundNothing(all, n, |all|, st);
    assert found + [] == found;
  }

  lemma FoundNothing(all: seq<Line>, n: nat, m: nat, st: State)
    requires n <= m <= |all| && st.paragraph.None? && ScanFrom(all[n..m], 0, m - n, st).1 == []
    ensures ScanFrom(all, n, m, st).1 == []
  {
    var after, found := ScanMoves(all, all[n..m], n, m, m - n, st);
  }

  lemma UnderlinedWord(lines: seq<Line>)
    requires |lines| == 2 && IsWord(lines[0], 0) && IsUnderline(lines[1], 3)
    ensures Scan(lines, 2).1 == [Heading(0, 1, 1, "a")]
  {
    FirstLine(lines);
    var s1 := State(None, false, Some(Paragraph(0, false)), None);
    assert Step(lines, 0, START) == (s1, []);
    assert lines[0..1] == [lines[0]];
  }

  /** `- a`. */
  function ItemLine(): string
  {
    ['-', ' ', 'a']
  }

  lemma {:induction false} ItemMarker(rest: string, after: string)
    requires rest == ItemLine() && after == [' ', 'a']
    ensures MarkerLength(rest) == 1 && rest[1..] == after && SpaceRun(after) == 1 && Trim(after) != ""
  {
    assert after[1..] == ['a'] && SpaceRun(['a']) == 0;
    NotBlankAt(after, 1);
    assert rest[0] == '-' && rest[1] == ' ' && rest[2] == 'a' && |rest| == 3;
  }

  lemma ItemContent(rest: string)
    requires rest == ItemLine()
    ensures ListItemContent(rest) == Some(2)
  {
    ItemMarker(rest, [' ', 'a']);
  }

  lemma ItemIsNoRule(rest: string)
    requires rest == ItemLine()
    ensures !IsThematicBreak(rest)
  {
    assert SpaceRun(rest) == 0 && rest[0..] == rest && rest[2] == 'a';
  }

  lemma ItemIsNoLink(rest: string)
    requires rest == ItemLine()
    ensures !IsLinkDefinition(rest) && !(COMMENT_OPEN <= rest)
  {
    assert COMMENT_OPEN[0] == '<';
  }

  lemma {:induction false} ItemUnindented(line: string)
    requires line == ItemLine()
    ensures BlockIndent(line) == Some(line) && TrimEnd(line) == line && Run(line, '-') == 1 && Run(line, '#') == 0
  {
    UnindentedBlock(line);
    RunIs(line, '-', 1);
    RunIs(line, '#', 0);
  }

  lemma ItemBlock(line: string)
    requires line == ItemLine()
    ensures BlockIndent(line) == Some(line) && OpensFence(line).None? && AtxHeading(line).None?
            && SetextUnderline(line).None?
  {
    ItemUnindented(line);
  }

  lemma ItemIsThere(line: string)
    requires line == ItemLine()
    ensures !Blank(line)
  {
    NotBlankAt(line, 0);
  }

  lemma PlainItem(line: Line)
    requires line.indent.Some? && line.opens.None? && line.comment.None? && !line.link && line.atx.None?
    requires line.setext.None? && !line.rule && line.item.Some?
    ensures OpensItem(line)
  {
  }

  /** Any unindented line with these facts opens an item. */
  lemma BlockIsItem(line: string)
    requires BlockIndent(line) == Some(line) && OpensFence(line).None? && AtxHeading(line).None?
             && SetextUnderline(line).None?
    requires ListItemContent(line) == Some(2) && !IsThematicBreak(line) && !IsLinkDefinition(line)
             && !(COMMENT_OPEN <= line)
    requires !Blank(line)
    ensures IsItem(Read(line))
  {
    PlainItem(Read(line));
  }

  lemma ItemReadsAs(line: string)
    requires line == ItemLine()
    ensures IsItem(Read(line))
  {
    ItemBlock(line);
    ItemContent(line);
    ItemIsNoRule(line);
    ItemIsNoLink(line);
    ItemIsThere(line);
    BlockIsItem(line);
  }

  lemma ItemReads()
    ensures IsItem(Read(ItemLine()))
  {
    ItemReadsAs(ItemLine());
  }

  lemma UnderlinedWordWith(read: string -> Line, texts: seq<string>)
    requires |texts| == 2 && IsWord(read(texts[0]), 0) && IsUnderline(read(texts[1]), 3)
    ensures HeadingsWith(read, texts) == [Heading(0, 1, 1, "a")]
  {
    UnderlinedWord(ReadWith(read, texts));
  }

  /** `  # 压缩说明`. */
  function TitleInItem(): string
  {
    Pad(2) + (Hashes(1) + ([' '] + NAME))
  }

  lemma TitleInItemReads()
    ensures IsAtx(Read(TitleInItem()), 2, 1, NAME)
  {
    NameIsPlain();
    ReadAtx(2, 1, NAME);
  }

  lemma ItemAndTitle()
    ensures Scan(ReadAll([ItemLine(), TitleInItem()]), 2) ==
            (State(None, false, None, Some(2)), [Heading(1, 1, 1, NAME)])
  {
    ItemReads();
    TitleInItemReads();
    ListedHeading(ReadAll([ItemLine(), TitleInItem()]), NAME);
  }

  lemma WordInItem(word: string, under: string)
    requires word == Pad(3) + ['a'] && under == Pad(3) + ['=']
    ensures ScanFrom(ReadAll([word, under]), 0, 2, State(None, false, None, Some(2))).1 == []
  {
    ReadWord(3);
    ReadUnderline(3);
    ListItemHidesHeading(ReadAll([word, under]), 2);
  }

  lemma ReadBoth(read: string -> Line, a: seq<string>, b: seq<string>)
    ensures ReadWith(read, a + b) == ReadWith(read, a) + ReadWith(read, b)
  {
  }

  lemma ItemFileHeadings(word: string, under: string)
    requires word == Pad(3) + ['a'] && under == Pad(3) + ['=']
    ensures HeadingsIn([ItemLine(), TitleInItem()] + [word, under]) == [Heading(1, 1, 1, NAME)]
  {
    var head, tail := [ItemLine(), TitleInItem()], [word, under];
    ItemAndTitle();
    WordInItem(word, under);
    ReadBoth(Read, head, tail);
    InARow(ReadAll(head), ReadAll(tail), State(None, false, None, Some(2)), [Heading(1, 1, 1, NAME)]);
  }

  lemma {:induction false} LetterIsThere(n: nat, rest: string)
    requires IsLetter(rest)
    ensures !Blank(Pad(n) + rest) && TrimStart(Pad(n) + rest) == rest && TrimEnd(Pad(n) + rest) == Pad(n) + rest
  {
    var line := Pad(n) + rest;
    assert line[n] == rest[0] && |line| == n + 1;
    NotBlankAt(line, n);
    PadTrim(n, rest);
  }

  /** `- a`, `  # 压缩说明`, `   a`, `   =`: the file has one heading, of level 1, in a list item; its section
      read on its own is a heading of the same rank. */
  lemma ItemHidesHeading(word: string, under: string)
    requires word == Pad(3) + ['a'] && under == Pad(3) + ['=']
    ensures HeadingsIn([ItemLine(), TitleInItem()] + [word, under]) == [Heading(1, 1, 1, NAME)]
    ensures SectionBounds(ReadAll([ItemLine(), TitleInItem()] + [word, under]), IsTitle) == Some((2, 4))
    ensures Trim(Join([word, under])) == Join([['a'], under])
    ensures HeadingsIn([['a'], under]) == [Heading(0, 1, 1, "a")]
  {
    ItemFileHeadings(word, under);
    NameIsTitle();
    LastSection(ReadAll([ItemLine(), TitleInItem()] + [word, under]), Heading(1, 1, 1, NAME), IsTitle);
    WordTrims(word, under);
    WordIsHeading(under);
  }

  lemma {:induction false} TwoLinesTrim(x: string, y: string)
    requires TrimStart(x) != "" && TrimEnd(y) != ""
    ensures Trim(Join([x, y])) == TrimStart(x) + "\n" + TrimEnd(y)
  {
    assert [x, y][1..] == [y];
    assert Join([y]) == y;
    TrimStartPair(x, y);
    TrimEndConcat(TrimStart(x) + "\n", y);
  }

  lemma WordTrims(word: string, under: string)
    requires word == Pad(3) + ['a'] && under == Pad(3) + ['=']
    ensures Trim(Join([word, under])) == Join([['a'], under])
  {
    LetterIsThere(3, ['a']);
    LetterIsThere(3, ['=']);
    TwoLinesTrim(word, under);
    var r := [['a'], under];
    assert r[1..] == [under] && Join([under]) == under;
  }

  lemma WordIsHeading(under: string)
    requires under == Pad(3) + ['=']
    ensures HeadingsIn([['a'], under]) == [Heading(0, 1, 1, "a")]
  {
    ReadWord(0);
    ReadUnderline(3);
    assert Pad(0) + ['a'] == ['a'];
    UnderlinedWordWith(Read, [['a'], under]);
  }
}
