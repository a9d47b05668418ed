/** The last line of the returned section, and the returned text as a whole. */
module SectionText {
  import opened Wrappers
  import opened Text
  import opened Sequences
  import opened TrimmedLines
  import opened Headings
  import opened Sections

  // ----- Lines that give the same heading

  ghost predicate SameHeading(a: Line, b: Line)
  {
    && a.blank == b.blank && a.indent.None? == b.indent.None? && a.opens.None? == b.opens.None?
    && a.comment.None? == b.comment.None? && a.atx == b.atx && a.setext == b.setext
  }

  lemma SameHeadingFound(a: seq<Line>, b: seq<Line>, n: nat, st: State)
    requires n < |a| && n < |b| && a[..n] == b[..n] && Sound(a[n]) && Sound(b[n]) && SameHeading(a[n], b[n])
             && Opened(st, n)
    ensures Step(a, n, st).1 == Step(b, n, st).1
  {
    if st.paragraph.Some? {
      var first := st.paragraph.value.first;
      assert a[first..n] == a[..n][first..] && b[first..n] == b[..n][first..];
    }
  }

  lemma ScanPrefix(lines: seq<Line>, m: nat, n: nat)
    requires n <= m <= |lines|
    ensures Scan(lines[..m], n) == Scan(lines, n)
  {
    assert lines[0..m] == lines[..m];
    var st, found := ScanMoves(lines, lines[..m], 0, m, n, START);
    assert ShiftedAll(found, 0) == found;
  }

  lemma LastLineAlike(front: seq<Line>, y: Line, z: Line)
    requires Sound(y) && Sound(z) && SameHeading(y, z)
    ensures Scan(front + [y], |front| + 1).1 == Scan(front + [z], |front| + 1).1
  {
    var a, b, n := front + [y], front + [z], |front|;
    assert a[..n] == front && b[..n] == front;
    ScanPrefix(a, n, n);
    ScanPrefix(b, n, n);
    SameHeadingFound(a, b, n, Scan(front, n).0);
  }

  // ----- What right-trimming does to a line

  lemma {:induction false} RunTrimEnd(s: string, c: char)
    requires !IsWhitespace(c)
    ensures Run(TrimEnd(s), c) == Run(s, c)
  {
    var n, t := Run(s, c), TrimEnd(s);
    TrimEndCuts(s);
    if n > 0 {
      assert s[n - 1] == c;
      assert n <= |t|;
    }
    RunIs(t, c, n);
  }

  lemma {:induction false} RunIs(s: string, c: char, n: nat)
    requires n <= |s| && (forall i :: 0 <= i < n ==> s[i] == c) && (n < |s| ==> s[n] != c)
    ensures Run(s, c) == n
  {
    if n > 0 {
      RunIs(s[1..], c, n - 1);
    }
  }

  lemma {:induction false} TrimEndTail(s: string, k: nat)
    requires k <= |s| && TrimEnd(s[k..]) != ""
    ensures TrimEnd(s) == s[..k] + TrimEnd(s[k..])
  {
    TrimEndConcat(s[..k], s[k..]);
    assert s == s[..k] + s[k..];
  }

  lemma {:induction false} PadTrimsEnd(n: nat)
    ensures TrimEnd(Pad(n)) == ""
  {
    if n > 0 {
      PadTrimsEnd(n - 1);
      assert Pad(n)[..n - 1] == Pad(n - 1);
    }
  }

  lemma {:induction false} RestIsNotBlank(line: string, k: nat)
    requires TrimEnd(line) != "" && k == Run(line, ' ')
    ensures TrimEnd(line[k..]) != ""
  {
    SpacesInFront(line);
    PadTrimsEnd(k);
    TrimEndConcat(Pad(k), line[k..]);
  }

  lemma {:induction false} RunOfTrimmed(z: string, k: nat)
    requires k == Run(z, ' ') && TrimEnd(z[k..]) != ""
    ensures Run(TrimEnd(z), ' ') == k && k < |TrimEnd(z)| && k < |z| && TrimEnd(z)[k] == z[k]
    ensures TrimEnd(z)[k..] == TrimEnd(z[k..])
  {
    TrimEndTail(z, k);
    TrimEndCuts(z[k..]);
    var t := TrimEnd(z);
    assert t[k] == z[k];
    RunIs(t, ' ', k);
  }

  lemma {:induction false} TrimEndBlock(z: string)
    requires TrimEnd(z) != ""
    ensures BlockIndent(TrimEnd(z)) == if BlockIndent(z).None? then None else Some(TrimEnd(BlockIndent(z).value))
    ensures BlockIndent(z).Some? ==> TrimEnd(BlockIndent(z).value) != ""
  {
    var k := Run(z, ' ');
    RestIsNotBlank(z, k);
    RunOfTrimmed(z, k);
  }

  lemma PrefixHoldsIt(s: string, m: nat, n: nat, c: char)
    requires n <= m <= |s| && forall i :: m <= i < |s| ==> s[i] != c
    ensures c in s[..m][n..] <==> c in s[n..]
  {
    if i :| 0 <= i < |s[n..]| && s[n..][i] == c {
      assert s[n + i] == c;
      assert s[..m][n..][i] == c;
    }
    if i :| 0 <= i < |s[..m][n..]| && s[..m][n..][i] == c {
      assert s[n..][i] == c;
    }
  }

  lemma {:induction false} StillIn(s: string, n: nat, c: char)
    requires n <= |TrimEnd(s)| <= |s| && !IsWhitespace(c)
    ensures c in TrimEnd(s)[n..] <==> c in s[n..]
  {
    TrimEndCuts(s);
    PrefixHoldsIt(s, |TrimEnd(s)|, n, c);
  }

  lemma {:induction false} TrimEndFence(z: string, t: string, rest: string)
    requires BlockIndent(z) == Some(rest) && BlockIndent(t) == Some(TrimEnd(rest)) && TrimEnd(rest) != ""
    ensures OpensFence(z).None? == OpensFence(t).None?
  {
    TrimEndCuts(rest);
    var c := rest[0];
    assert TrimEnd(rest)[0] == c;
    if c == '`' || c == '~' {
      RunTrimEnd(rest, c);
      StillIn(rest, Run(rest, c), '`');
    }
  }

  lemma {:induction false} TrimEndComment(rest: string)
    ensures COMMENT_OPEN <= rest <==> COMMENT_OPEN <= TrimEnd(rest)
  {
    TrimEndCuts(rest);
    if COMMENT_OPEN <= rest {
      assert rest[3] == COMMENT_OPEN[3] == '-';
      assert |TrimEnd(rest)| >= 4;
      assert TrimEnd(rest)[..4] == rest[..4];
    }
  }

  lemma {:induction false} TrimEndTwice(s: string)
    ensures TrimEnd(TrimEnd(s)) == TrimEnd(s)
  {
    TrimEndCuts(s);
  }

  lemma TrimBeforeWhite(t: string, w: string)
    requires White(w)
    ensures Trim(t + w) == Trim(t)
  {
    TrimStartConcat(t, w);
    WhiteTrimsStart(w);
    WhiteTrimsEnd(w);
    if TrimStart(t) != "" {
      TrimEndConcat(TrimStart(t), w);
    }
  }

  lemma WhiteBehind(s: string, m: nat)
    requires m <= |s| && forall i :: m <= i < |s| ==> IsWhitespace(s[i])
    ensures White(s[m..])
  {
    forall i | 0 <= i < |s[m..]|
      ensures IsWhitespace(s[m..][i])
    {
      assert s[m..][i] == s[m + i];
    }
  }

  lemma CutInTwo(s: string, t: string)
    requires |t| <= |s| && t == s[..|t|]
    ensures s == t + s[|t|..]
  {
  }

  lemma {:induction false} TrimOfTrimEnd(s: string)
    ensures Trim(TrimEnd(s)) == Trim(s)
  {
    var t := TrimEnd(s);
    TrimEndCuts(s);
    WhiteBehind(s, |t|);
    CutInTwo(s, t);
    TrimBeforeWhite(t, s[|t|..]);
  }

  /** Hashes followed by nothing but whitespace that starts with neither a space nor a tab: no heading,
      until the whitespace is gone. */
  predicate BareHashes(line: string)
  {
    match BlockIndent(line)
    case None => false
    case Some(rest) =>
      var h := Run(rest, '#');
      1 <= h <= 6 && OddlyBlank(rest[h..])
  }

  predicate OddlyBlank(after: string)
  {
    after != "" && after[0] != ' ' && after[0] != '\t' && TrimEnd(after) == ""
  }

  lemma {:induction false} AfterHashes(rest: string)
    requires Run(rest, '#') > 0
    ensures var h := Run(rest, '#');
            h <= |TrimEnd(rest)| && Run(TrimEnd(rest), '#') == h && TrimEnd(rest)[h..] == TrimEnd(rest[h..])
  {
    var h := Run(rest, '#');
    RunTrimEnd(rest, '#');
    var front := rest[..h];
    assert rest == front + rest[h..] && front[h - 1] == '#';
    assert TrimEnd(front) == front;
    TrimEndConcat(front, rest[h..]);
  }

  lemma {:induction false} SameFirst(s: string)
    ensures TrimEnd(s) != "" ==> TrimEnd(s)[0] == s[0]
    ensures s == "" ==> TrimEnd(s) == ""
  {
    TrimEndCuts(s);
  }

  lemma TitleFromTrimmed(s: string, t: string)
    requires Trim(s) == Trim(t)
    ensures Unclosed(Trim(s)) == Unclosed(Trim(t))
  {
  }

  lemma {:induction false} AtxTitleTrims(after: string)
    ensures AtxTitle(TrimEnd(after)) == AtxTitle(after) <==> !OddlyBlank(after)
  {
    var t := TrimEnd(after);
    SameFirst(after);
    if after == "" || after[0] == ' ' || after[0] == '\t' {
      TrimOfTrimEnd(after);
      TitleFromTrimmed(after, t);
    }
  }

  lemma {:induction false} TrimEndAtx(z: string, t: string, rest: string)
    requires BlockIndent(z) == Some(rest) && BlockIndent(t) == Some(TrimEnd(rest))
    ensures AtxHeading(z) == AtxHeading(t) <==> !BareHashes(z)
    ensures BareHashes(z) ==> AtxHeading(z).None?
  {
    var h := Run(rest, '#');
    if h > 0 {
      AfterHashes(rest);
      AtxTitleTrims(rest[h..]);
    } else {
      RunTrimEnd(rest, '#');
    }
  }

  lemma {:induction false} TrimEndSetext(z: string, t: string, rest: string)
    requires BlockIndent(z) == Some(rest) && BlockIndent(t) == Some(TrimEnd(rest))
    ensures SetextUnderline(z) == SetextUnderline(t)
  {
    TrimEndTwice(rest);
  }

  lemma {:induction false} TrimEndKeepsHeading(z: string)
    requires TrimEnd(z) != "" && !BareHashes(z)
    ensures SameHeading(Read(z), Read(TrimEnd(z)))
  {
    var t := TrimEnd(z);
    TrimEndBlock(z);
    TrimOfTrimEnd(z);
    if BlockIndent(z).Some? {
      var rest := BlockIndent(z).value;
      TrimEndFence(z, t, rest);
      TrimEndComment(rest);
      TrimEndAtx(z, t, rest);
      TrimEndSetext(z, t, rest);
    }
  }

  lemma {:induction false} BareHashesTell(z: string)
    requires TrimEnd(z) != "" && BareHashes(z)
    ensures Read(z).atx.None? && Read(TrimEnd(z)).atx.Some? && !Read(TrimEnd(z)).blank
  {
    var t, rest := TrimEnd(z), BlockIndent(z).value;
    TrimEndBlock(z);
    TrimEndAtx(z, t, rest);
    TrimEndTwice(z);
    BlankIsTrimmedBack(t);
    ReadTrimmed(t);
  }

  // ----- The last line of the returned text

  lemma LastLineTrims(read: string -> Line, front: seq<string>, y: string, z: string)
    requires Reads(read) && SameHeading(read(y), read(z))
    ensures HeadingsWith(read, front + [y]) == HeadingsWith(read, front + [z])
  {
    var lines := ReadWith(read, front);
    assert ReadWith(read, front + [y]) == lines + [read(y)];
    assert ReadWith(read, front + [z]) == lines + [read(z)];
    LastLineAlike(lines, read(y), read(z));
  }

  lemma OneLineTells(y: Line, z: Line)
    requires Sound(y) && Sound(z) && y.atx.None? && z.atx.Some? && !z.blank && z.opens.None? && z.comment.None?
    ensures Scan([y], 1).1 != Scan([z], 1).1
  {
    FirstLine([y]);
    FirstLine([z]);
  }

  lemma LastLineTold(read: string -> Line, y: string, z: string)
    requires Reads(read) && read(y).atx.None? && read(z).atx.Some? && !read(z).blank
    requires read(z).opens.None? && read(z).comment.None?
    ensures HeadingsWith(read, [] + [y]) != HeadingsWith(read, [] + [z])
  {
    assert ReadWith(read, [] + [y]) == [read(y)] && ReadWith(read, [] + [z]) == [read(z)];
    OneLineTells(read(y), read(z));
  }

  lemma HashOpensNothing(z: string, rest: string)
    requires BlockIndent(z) == Some(rest) && "#" <= rest
    ensures OpensFence(z).None? && !(COMMENT_OPEN <= rest)
  {
    assert rest[0] == "#"[0] == '#';
    assert COMMENT_OPEN[0] == '<';
  }

  lemma AtxIsNothingElse(z: string)
    requires Read(z).atx.Some?
    ensures Read(z).opens.None? && Read(z).comment.None?
  {
    HashOpensNothing(z, BlockIndent(z).value);
  }

  /** Trimming the last line leaves every text before it its headings exactly when the line is no run of
      hashes before such whitespace. */
  lemma {:induction false} LastLineIff(z: string)
    requires !Blank(z)
    ensures (forall front: seq<string> :: HeadingsIn(front + [z]) == HeadingsIn(front + [TrimEnd(z)]))
            <==> !BareHashes(z)
  {
    BlankMeansWhite(z);
    AllReads();
    var t := TrimEnd(z);
    if BareHashes(z) {
      BareHashesTell(z);
      AtxIsNothingElse(t);
      LastLineTold(Read, z, t);
      assert HeadingsIn([] + [z]) != HeadingsIn([] + [t]);
    } else {
      TrimEndKeepsHeading(z);
      forall front: seq<string>
        ensures HeadingsIn(front + [z]) == HeadingsIn(front + [t])
      {
        LastLineTrims(Read, front, z, t);
      }
    }
  }

  // ----- The returned text

  lemma {:induction false} BlanksKeepStart(lines: seq<Line>, d: nat)
    requires d <= |lines| && forall i :: 0 <= i < d ==> lines[i].blank
    ensures Scan(lines, d) == (START, [])
  {
    if d > 0 {
      BlanksKeepStart(lines, d - 1);
      var none: seq<Heading> := [];
      assert Step(lines, d - 1, START) == (START, none) && none + none == none;
    }
  }

  lemma {:induction false} BlanksAddNothing(lines: seq<Line>, m: nat, n: nat)
    requires m <= n <= |lines| && forall i :: m <= i < n ==> lines[i].blank
    ensures Scan(lines, n).1 == Scan(lines, m).1
    decreases n
  {
    if m < n {
      BlanksAddNothing(lines, m, n - 1);
      assert Step(lines, n - 1, Scan(lines, n - 1).0).1 == [];
    }
  }

  lemma BlanksAround(lines: seq<Line>, d: nat, n: nat)
    requires d + n <= |lines| && forall i :: 0 <= i < d || d + n <= i < |lines| ==> lines[i].blank
    ensures Scan(lines, |lines|).1 == ShiftedAll(Scan(lines[d..d + n], n).1, d)
  {
    BlanksKeepStart(lines, d);
    BlanksAddNothing(lines, d + n, |lines|);
    StandsAlone(lines, d, d + n);
  }

  /** How many blank lines a text starts with. */
  function LeadingBlanks(texts: seq<string>): nat
  {
    |texts| - |DropFront(Blank, texts)|
  }

  lemma PartHeadings(read: string -> Line, texts: seq<string>, d: nat, core: seq<string>)
    requires d + |core| <= |texts| && core == texts[d..d + |core|]
    requires forall i :: 0 <= i < d || d + |core| <= i < |texts| ==> read(texts[i]).blank
    ensures HeadingsWith(read, texts) == ShiftedAll(HeadingsWith(read, core), d)
  {
    BlanksAround(ReadWith(read, texts), d, |core|);
    ReadPart(read, texts, d, d + |core|);
  }

  lemma {:induction false} OutsideReadsBlank(read: string -> Line, blank: string -> bool, texts: seq<string>, d: nat,
                                             n: nat)
    requires forall t :: blank(t) ==> read(t).blank
    requires d == |texts| - |DropFront(blank, texts)| && n == |DropBack(blank, DropFront(blank, texts))|
    ensures forall i :: 0 <= i < d || d + n <= i < |texts| ==> read(texts[i]).blank
  {
    forall i | 0 <= i < d || d + n <= i < |texts|
      ensures read(texts[i]).blank
    {
      DroppedOutside(blank, texts, DropFront(blank, texts), DropBack(blank, DropFront(blank, texts)), i);
    }
  }

  lemma {:induction false} DroppedHeadings(read: string -> Line, blank: string -> bool, texts: seq<string>, d: nat,
                                           core: seq<string>)
    requires forall t :: blank(t) ==> read(t).blank
    requires d == |texts| - |DropFront(blank, texts)| && core == DropBack(blank, DropFront(blank, texts))
    ensures HeadingsWith(read, texts) == ShiftedAll(HeadingsWith(read, core), d)
  {
    OutsideReadsBlank(read, blank, texts, d, |core|);
    PartOfPart(texts, DropFront(blank, texts), core, d);
    PartHeadings(read, texts, d, core);
  }

  lemma ReadPart(read: string -> Line, texts: seq<string>, i: nat, j: nat)
    requires i <= j <= |texts|
    ensures ReadWith(read, texts)[i..j] == ReadWith(read, texts[i..j])
  {
  }

  lemma CoreHeadings(texts: seq<string>)
    ensures HeadingsIn(texts) == ShiftedAll(HeadingsIn(Core(texts)), LeadingBlanks(texts))
  {
    forall t
      ensures Blank(t) ==> Read(t).blank
    {
      ReadTrimmed(t);
    }
    DroppedHeadings(Read, Blank, texts, LeadingBlanks(texts), Core(texts));
  }

  /** The conditions on the first and last line of a text under which trimming it changes no heading. */
  predicate TrimsCleanly(texts: seq<string>)
    requires Core(texts) != []
  {
    var core := Core(texts);
    var first := TrimFirst(core);
    OpeningOf(Read(core[0])) == OpeningOf(Read(TrimStart(core[0]))) && !BareHashes(first[|first| - 1])
  }

  lemma LastReplaced(read: string -> Line, texts: seq<string>, t: string)
    requires texts != [] && Reads(read) && SameHeading(read(texts[|texts| - 1]), read(t))
    ensures HeadingsWith(read, texts[..|texts| - 1] + [t]) == HeadingsWith(read, texts)
  {
    var front, last := texts[..|texts| - 1], texts[|texts| - 1];
    LastLineTrims(read, front, last, t);
    assert texts == front + [last];
  }

  lemma LastTrims(first: seq<string>)
    requires first != [] && !Blank(first[|first| - 1]) && !BareHashes(first[|first| - 1])
    ensures HeadingsIn(TrimLast(first)) == HeadingsIn(first)
  {
    var last := first[|first| - 1];
    BlankIsTrimmedBack(last);
    TrimEndKeepsHeading(last);
    AllReads();
    LastReplaced(Read, first, TrimEnd(last));
  }

  lemma FirstTrims(core: seq<string>)
    requires core != [] && !Blank(core[0])
    requires OpeningOf(Read(core[0])) == OpeningOf(Read(TrimStart(core[0])))
    ensures HeadingsIn(TrimFirst(core)) == HeadingsIn(core)
  {
    TrimStartKeepsNonBlank(core[0]);
    AllReads();
    ReadTrimmed(core[0]);
    ReadTrimmed(TrimStart(core[0]));
    FirstReplaced(Read, core, TrimStart(core[0]));
  }

  predicate NotBlank(line: string)
  {
    !Blank(line)
  }

  lemma LastIsNotBlank(core: seq<string>)
    requires core != [] && !Blank(core[0]) && !Blank(core[|core| - 1])
    ensures var first := TrimFirst(core); NotBlank(first[|first| - 1])
  {
    TrimStartKeepsNonBlank(core[0]);
    LastStill(NotBlank, core, TrimStart(core[0]));
  }

  lemma CoreTrims(core: seq<string>)
    requires core != [] && !Blank(core[0]) && !Blank(core[|core| - 1])
    requires OpeningOf(Read(core[0])) == OpeningOf(Read(TrimStart(core[0])))
    requires var first := TrimFirst(core); !BareHashes(first[|first| - 1])
    ensures HeadingsIn(TrimLast(TrimFirst(core))) == HeadingsIn(core)
  {
    FirstTrims(core);
    LastIsNotBlank(core);
    LastTrims(TrimFirst(core));
  }

  /** A text that trims cleanly has the same headings trimmed, moved up by its leading blank lines. */
  lemma ReturnedReads(texts: seq<string>)
    requires Core(texts) != [] && TrimsCleanly(texts)
    ensures ShiftedAll(HeadingsIn(Returned(texts)), LeadingBlanks(texts)) == HeadingsIn(texts)
  {
    CoreHeadings(texts);
    CoreTrims(Core(texts));
  }

  // ----- The lines of the returned text

  predicate NoReturn(line: string)
  {
    line == "" || line[|line| - 1] != '\r'
  }

  lemma {:induction false} TrimStartKeepsEnd(x: string)
    requires NoReturn(x)
    ensures NoReturn(TrimStart(x))
  {
    var y := TrimStart(x);
    TrimStartCuts(x);
    assert y != "" ==> y[|y| - 1] == x[|x| - 1];
  }

  lemma ReturnedHasNoReturns(core: seq<string>)
    requires core != [] && Every(NoReturn, core)
    ensures var r := TrimLast(TrimFirst(core)); forall i :: 0 <= i < |r| - 1 ==> NoReturn(r[i])
  {
    TrimStartKeepsEnd(core[0]);
    ReplacedStillEvery(NoReturn, core, TrimStart(core[0]));
    var first := TrimFirst(core);
    assert forall i :: 0 <= i < |first| - 1 ==> TrimLast(first)[i] == first[i];
  }

  lemma {:induction false} FileLinesOf(text: string, lines: seq<string>)
    requires Split(text) == lines && lines[|lines| - 1] != "" && forall i :: 0 <= i < |lines| - 1 ==> NoReturn(lines[i])
    ensures FileLines(text) == lines
  {
    var n := |lines| - 1;
    assert WithoutReturns(lines[..n]) == lines[..n];
    assert lines == lines[..n] + [lines[n]];
  }

  lemma FileLinesAreLines(body: string)
    ensures Every(OneLine, FileLines(body))
  {
    var pieces := Split(body);
    forall i | 0 <= i < |pieces|
      ensures OneLine(WithoutReturn(pieces[i]))
    {
      assert OneLine(pieces[i]);
      assert forall c :: c in WithoutReturn(pieces[i]) ==> c in pieces[i];
    }
  }

  lemma CoreKeeps(p: string -> bool, texts: seq<string>)
    requires Every(p, texts)
    ensures Every(p, Core(texts))
  {
    DroppedKeeps(p, Blank, texts);
  }

  /** Read back as a file, the returned text has the lines of the section, trimmed. */
  lemma {:induction false} ReturnedLines(texts: seq<string>)
    requires Core(texts) != [] && Every(OneLine, texts) && Every(NoReturn, texts)
    ensures FileLines(Trim(Join(texts))) == Returned(texts)
  {
    var core := Core(texts);
    CoreKeeps(OneLine, texts);
    CoreKeeps(NoReturn, texts);
    TrimsAreLines(core);
    SplitJoin(Returned(texts));
    TrimJoin(texts);
    ReturnedHasNoReturns(core);
    LastIsNotBlank(core);
    var first := TrimFirst(core);
    BlankMeansWhite(first[|first| - 1]);
    FileLinesOf(Trim(Join(texts)), Returned(texts));
  }

  // ----- The section of a file

  /** The lines of a file that its section takes. */
  ghost predicate IsSection(texts: seq<string>, isTitle: string -> bool, start: nat, end: nat)
  {
    start <= end <= |texts| && SectionBounds(ReadAll(texts), isTitle) == Some((start, end))
  }

  /** The section reads the same on its own as in the file, and the same trimmed as on its own. */
  ghost predicate ReadsAsInFile(texts: seq<string>, start: nat, end: nat)
    requires start <= end <= |texts|
  {
    && Scan(ReadAll(texts), start).0.listContent.None?
    && Every(NoReturn, texts[start..end])
    && Core(texts[start..end]) != [] && TrimsCleanly(texts[start..end])
  }

  /** Those lines as one text, trimmed, are what is returned. */
  lemma SectionIs(body: string, isTitle: string -> bool, start: nat, end: nat)
    requires IsSection(FileLines(body), isTitle, start, end)
    ensures var text := Trim(Join(FileLines(body)[start..end]));
            SectionWith(body, isTitle) == if text == "" then None else Some(text)
  {
  }

  lemma ShiftedTwice(hs: seq<Heading>, a: nat, b: nat)
    ensures ShiftedAll(ShiftedAll(hs, a), b) == ShiftedAll(hs, a + b)
  {
  }

  lemma PartOfLines(body: string, start: nat, end: nat)
    requires start <= end <= |FileLines(body)|
    ensures Every(OneLine, FileLines(body)[start..end])
  {
    FileLinesAreLines(body);
  }

  lemma {:induction false} OwnHeadings(section: seq<string>)
    requires Core(section) != [] && Every(OneLine, section) && Every(NoReturn, section) && TrimsCleanly(section)
    ensures ShiftedAll(HeadingsIn(FileLines(Trim(Join(section)))), LeadingBlanks(section)) == HeadingsIn(section)
  {
    ReturnedLines(section);
    ReturnedReads(section);
  }

  /** The lines of a section, scanned as they stand and scanned as they are returned. */
  lemma ReturnedLinesRead(texts: seq<string>, start: nat, end: nat, at: nat, j: nat, hs: seq<Heading>)
    returns (own: seq<Heading>, blanks: nat)
    requires start <= end <= |texts| && Every(OneLine, texts[start..end]) && ReadsAsInFile(texts, start, end)
    requires hs == HeadingsIn(texts) && IsRange(hs, |texts|, at, j, start, end)
    ensures own == HeadingsIn(FileLines(Trim(Join(texts[start..end]))))
    ensures ShiftedAll(own, blanks + start) == hs[at + 1..j]
            && forall i :: 0 <= i < |own| ==> own[i].level > hs[at].level
  {
    var section := texts[start..end];
    OwnHeadings(section);
    AllReads();
    SliceStandsAlone(Read, texts, ReadAll(texts), hs, start, end, at, j);
    own, blanks := HeadingsIn(FileLines(Trim(Join(section)))), LeadingBlanks(section);
    MovedOut(own, HeadingsIn(section), blanks, start, hs, at, j);
  }

  /** Scanned as a text of its own, the returned section gives exactly the deeper headings the file has in
      it, so none of the section's own rank or a higher one. */
  lemma ReturnedSectionReads(body: string, isTitle: string -> bool, text: string, start: nat, end: nat, at: nat, j: nat,
                             hs: seq<Heading>)
    returns (own: seq<Heading>, blanks: nat)
    requires SectionWith(body, isTitle) == Some(text)
    requires IsSection(FileLines(body), isTitle, start, end) && ReadsAsInFile(FileLines(body), start, end)
    requires hs == HeadingsIn(FileLines(body)) && SectionHeadings(hs, isTitle) == Some((at, j))
    ensures own == HeadingsIn(FileLines(text))
    ensures at < j <= |hs| && ShiftedAll(own, blanks + start) == hs[at + 1..j]
    ensures forall i :: 0 <= i < |own| ==> own[i].level > hs[at].level
  {
    SectionIs(body, isTitle, start, end);
    PartOfLines(body, start, end);
    SectionIsRange(ReadAll(FileLines(body)), isTitle, hs, at, j, start, end);
    own, blanks := ReturnedLinesRead(FileLines(body), start, end, at, j, hs);
  }

  lemma MovedOut(own: seq<Heading>, slice: seq<Heading>, blanks: nat, start: nat, hs: seq<Heading>, at: nat, j: nat)
    requires at < j <= |hs| && (forall i :: at < i < j ==> hs[i].level > hs[at].level)
    requires ShiftedAll(own, blanks) == slice && ShiftedAll(slice, start) == hs[at + 1..j]
    ensures ShiftedAll(own, blanks + start) == hs[at + 1..j]
    ensures forall i :: 0 <= i < |own| ==> own[i].level > hs[at].level
  {
    ShiftedTwice(own, blanks, start);
    LevelsAreDeeper(own, blanks + start, hs, at, j);
  }

  lemma LevelsAreDeeper(own: seq<Heading>, offset: nat, hs: seq<Heading>, at: nat, j: nat)
    requires at < j <= |hs| && ShiftedAll(own, offset) == hs[at + 1..j]
    requires forall i :: at < i < j ==> hs[i].level > hs[at].level
    ensures forall i :: 0 <= i < |own| ==> own[i].level > hs[at].level
  {
    forall i | 0 <= i < |own|
      ensures own[i].level > hs[at].level
    {
      assert ShiftedAll(own, offset)[i] == hs[at + 1 + i];
    }
  }

  lemma PartRead(read: string -> Line, texts: seq<string>, lines: seq<Line>, start: nat, end: nat)
    requires lines == ReadWith(read, texts) && start <= end <= |lines|
    ensures HeadingsWith(read, texts[start..end]) == Scan(lines[start..end], end - start).1
  {
    ReadPart(read, texts, start, end);
  }

  lemma SliceStandsAlone(read: string -> Line, texts: seq<string>, lines: seq<Line>, hs: seq<Heading>,
                         start: nat, end: nat, at: nat, j: nat)
    requires Reads(read) && lines == ReadWith(read, texts) && hs == Scan(lines, |lines|).1
    requires start <= end <= |lines| && IsRange(hs, |lines|, at, j, start, end)
    requires Scan(lines, start).0.listContent.None?
    ensures ShiftedAll(HeadingsWith(read, texts[start..end]), start) == hs[at + 1..j]
  {
    RangeStandsAlone(lines, at, j, start, end, hs);
    PartRead(read, texts, lines, start, end);
  }
}
