/** The Markdown heading scanner of an instruction file, and the section it cuts out with it
    (`markdown_headings`, `compact_instructions_section`). */
module Headings {
  import opened Wrappers
  import opened Text

  // ----- Reading one line

  /** How many `c` the text starts with. */
  function Run(s: string, c: char): (n: nat)
    ensures n <= |s| && (forall i :: 0 <= i < n ==> s[i] == c) && (n < |s| ==> s[n] != c)
  {
    if s != "" && s[0] == c then 1 + Run(s[1..], c) else 0
  }

  predicate Contains(s: string, part: string)
  {
    part <= s || (s != "" && Contains(s[1..], part))
  }

  /** Where `part` first occurs. */
  function Find(s: string, part: string): (r: Option<nat>)
    ensures r.Some? ==> r.value + |part| <= |s| && s[r.value..r.value + |part|] == part
  {
    if part <= s then Some(0)
    else if s == "" then None
    else
      match Find(s[1..], part)
      case None => None
      case Some(i) =>
        assert s[1..][i..i + |part|] == s[1 + i..1 + i + |part|];
        Some(1 + i)
  }

  function TrimEndOf(s: string, chars: set<char>): string
  {
    if s != "" && s[|s| - 1] in chars then TrimEndOf(s[..|s| - 1], chars) else s
  }

  const COMMENT_OPEN := "<!--"
  const COMMENT_CLOSE := "-->"

  /** The line past at most three spaces; four, or a tab after them, make it no structure. */
  function BlockIndent(line: string): (r: Option<string>)
    ensures r.Some? ==> |r.value| <= |line| <= |r.value| + 3 && r.value == line[|line| - |r.value|..]
  {
    var spaces := Run(line, ' ');
    if spaces <= 3 && !(spaces < |line| && line[spaces] == '\t') then Some(line[spaces..]) else None
  }

  datatype Fence = Fence(marker: char, length: nat)

  function OpensFence(line: string): Option<Fence>
  {
    match BlockIndent(line)
    case None => None
    case Some(rest) =>
      if rest == "" || (rest[0] != '`' && rest[0] != '~') then None
      else
        var length := Run(rest, rest[0]);
        if length < 3 || (rest[0] == '`' && '`' in rest[length..]) then None else Some(Fence(rest[0], length))
  }

  predicate ClosesFence(line: string, fence: Fence)
  {
    match BlockIndent(line)
    case None => false
    case Some(rest) =>
      var run := Run(rest, fence.marker);
      run >= fence.length && Trim(rest[run..]) == ""
  }

  /** The title behind the hashes, a closing run removed; none when text follows them directly. */
  function AtxTitle(after: string): Option<string>
  {
    if after != "" && after[0] != ' ' && after[0] != '\t' then None else Some(Unclosed(Trim(after)))
  }

  function Unclosed(title: string): string
  {
    var unclosed := TrimEndOf(title, {'#'});
    if unclosed == "" then ""
    else if unclosed[|unclosed| - 1] in {' ', '\t'} then TrimEnd(unclosed)
    else title
  }

  function AtxHeading(line: string): (r: Option<(nat, string)>)
    ensures r.Some? ==> 1 <= r.value.0 <= 6 && BlockIndent(line).Some? && "#" <= BlockIndent(line).value
    ensures r.Some? ==> r.value.0 <= |BlockIndent(line).value|
    ensures r.Some? ==> r.value.1 == Unclosed(Trim(BlockIndent(line).value[r.value.0..]))
  {
    match BlockIndent(line)
    case None => None
    case Some(rest) =>
      var hashes := Run(rest, '#');
      if !(1 <= hashes <= 6) then None
      else
        match AtxTitle(rest[hashes..])
        case None => None
        case Some(title) => Some((hashes, title))
  }

  function SetextUnderline(line: string): (r: Option<nat>)
    ensures r.Some? ==> 1 <= r.value <= 2
  {
    match BlockIndent(line)
    case None => None
    case Some(indented) =>
      var rest := TrimEnd(indented);
      if rest == "" || (rest[0] != '=' && rest[0] != '-') then None
      else if Run(rest, rest[0]) < |rest| then None
      else Some(if rest[0] == '=' then 1 else 2)
  }

  function DigitRun(s: string): (n: nat)
    ensures n <= |s|
  {
    if s != "" && '0' <= s[0] <= '9' then 1 + DigitRun(s[1..]) else 0
  }

  function SpaceRun(s: string): (n: nat)
    ensures n <= |s|
  {
    if s != "" && s[0] in {' ', '\t'} then 1 + SpaceRun(s[1..]) else 0
  }

  /** The length of the list marker `rest` starts with, 0 for none. */
  function MarkerLength(rest: string): (n: nat)
    ensures n <= |rest|
  {
    if rest != "" && rest[0] in {'-', '*', '+'} then 1
    else
      var digits := DigitRun(rest);
      if 1 <= digits <= 9 && digits < |rest| && rest[digits] in {'.', ')'} then digits + 1 else 0
  }

  /** Where a list item's content starts, counted from its marker. */
  function ListItemContent(rest: string): Option<nat>
  {
    var marker := MarkerLength(rest);
    if marker == 0 then None
    else
      var after := rest[marker..];
      var spaces := SpaceRun(after);
      if Trim(after) == "" then Some(marker + 1)
      else if spaces == 0 then None
      else if spaces <= 4 then Some(marker + spaces)
      else Some(marker + 1)
  }

  predicate IsLinkDefinition(rest: string)
  {
    rest != "" && rest[0] == '[' &&
    match Find(rest[1..], "]:")
    case None => false
    case Some(at) =>
      var name, destination := rest[1..][..at], rest[1..][at + 2..];
      Trim(name) != "" && ']' !in name && Trim(destination) != ""
  }

  function Count(s: string, c: char): nat
  {
    if s == "" then 0 else (if s[0] == c then 1 else 0) + Count(s[1..], c)
  }

  predicate IsThematicBreak(rest: string)
  {
    var visible := rest[SpaceRun(rest)..];
    && visible != "" && visible[0] in {'*', '-', '_'}
    && (forall i :: 0 <= i < |rest| ==> rest[i] in {visible[0], ' ', '\t'})
    && Count(rest, visible[0]) >= 3
  }

  /** A line as the scanner sees it: what it could be, whatever surrounds it. `comment` says whether the
      comment it opens goes on past it. */
  datatype Line = Line(
    trimmed: string,
    blank: bool,
    indent: Option<nat>,
    closes: Fence -> bool,
    opens: Option<Fence>,
    comment: Option<bool>,
    endsComment: bool,
    link: bool,
    atx: Option<(nat, string)>,
    setext: Option<nat>,
    rule: bool,
    item: Option<nat>,
    quote: bool)

  function Read(line: string): Line
  {
    match BlockIndent(line)
    case None =>
      Line(Trim(line), Trim(line) == "", None, fence => ClosesFence(line, fence), None, None,
           Contains(line, COMMENT_CLOSE), false, None, None, false, None, false)
    case Some(rest) =>
      Block(line, rest, OpensFence(line), AtxHeading(line), SetextUnderline(line))
  }

  /** A line that may start a block, `rest` being what follows its indentation. */
  function Block(line: string, rest: string, opens: Option<Fence>, atx: Option<(nat, string)>,
                 setext: Option<nat>): Line
    requires |rest| <= |line|
  {
    Line(Trim(line), Trim(line) == "", Some(|line| - |rest|), fence => ClosesFence(line, fence), opens,
         if COMMENT_OPEN <= rest then Some(!Contains(rest[|COMMENT_OPEN|..], COMMENT_CLOSE)) else None,
         Contains(line, COMMENT_CLOSE), IsLinkDefinition(rest), atx, setext, IsThematicBreak(rest),
         ListItemContent(rest), rest != "" && rest[0] == '>')
  }

  function ReadWith(read: string -> Line, lines: seq<string>): (r: seq<Line>)
    ensures |r| == |lines| && forall i :: 0 <= i < |lines| ==> r[i] == read(lines[i])
  {
    seq(|lines|, i requires 0 <= i < |lines| => read(lines[i]))
  }

  function ReadAll(lines: seq<string>): (r: seq<Line>)
    ensures |r| == |lines| && forall i :: 0 <= i < |lines| ==> r[i] == Read(lines[i])
  {
    ReadWith(Read, lines)
  }

  /** What the line predicates promise each other. */
  predicate Sound(line: Line)
  {
    && (line.indent.None? ==>
          && line.opens.None? && line.comment.None? && line.atx.None? && line.setext.None?
          && line.item.None? && !line.quote && !line.rule && !line.link)
    && (line.indent.Some? ==> line.indent.value <= 3)
    && (line.atx.Some? ==> 1 <= line.atx.value.0 <= 6 && !line.link)
    && (line.setext.Some? ==> 1 <= line.setext.value <= 2)
    && (line.opens.Some? ==> line.opens.value.length >= 3)
  }

  predicate AllSound(lines: seq<Line>)
  {
    forall i :: 0 <= i < |lines| ==> Sound(lines[i])
  }

  lemma ReadIsSound(line: string)
    ensures Sound(Read(line))
  {
  }

  lemma ReadAllIsSound(lines: seq<string>)
    ensures AllSound(ReadAll(lines))
  {
    forall i | 0 <= i < |lines|
      ensures Sound(ReadAll(lines)[i])
    {
      ReadIsSound(lines[i]);
    }
  }

  // ----- One line of the scan

  datatype Heading = Heading(first: nat, last: nat, level: nat, title: string)

  datatype Paragraph = Paragraph(first: nat, contained: bool)

  datatype State = State(fence: Option<Fence>, inComment: bool, paragraph: Option<Paragraph>, listContent: Option<nat>)

  const START: State := State(None, false, None, None)

  predicate Opened(st: State, index: nat)
  {
    st.paragraph.Some? ==> st.paragraph.value.first < index
  }

  function Title(lines: seq<Line>): string
  {
    if lines == [] then ""
    else if |lines| == 1 then lines[0].trimmed
    else lines[0].trimmed + " " + Title(lines[1..])
  }

  /** Whether a block at this indent starts left of the open list item's content. */
  predicate TopLevel(st: State, indent: nat)
  {
    st.listContent.None? || indent < st.listContent.value
  }

  /** The state after a block that ends the paragraph, and the list when it is top level. */
  function BlockEnd(st: State, indent: nat): State
  {
    st.(paragraph := None, listContent := if TopLevel(st, indent) then None else st.listContent)
  }

  /** A text line: it opens a paragraph, or goes on with the open one. */
  function TextLine(st: State, index: nat, line: Line, indent: nat): State
  {
    var within := line.item.Some? || line.quote;
    st.(
      listContent :=
        if line.item.Some? then Some(indent + line.item.value)
        else if st.paragraph.None? && TopLevel(st, indent) then None
        else st.listContent,
      paragraph :=
        if st.paragraph.Some? then Some(Paragraph(st.paragraph.value.first, st.paragraph.value.contained || within))
        else Some(Paragraph(index, within || !TopLevel(st, indent))))
  }

  /** A line that is neither code, comment nor blank, and starts a block. */
  function BlockLine(lines: seq<Line>, index: nat, st: State, indent: nat): (State, seq<Heading>)
    requires index < |lines| && Opened(st, index)
  {
    var line := lines[index];
    if st.paragraph.None? && line.link then (st, [])
    else if line.atx.Some? then (BlockEnd(st, indent), [Heading(index, index, line.atx.value.0, line.atx.value.1)])
    else if line.setext.Some? && st.paragraph.Some? && !st.paragraph.value.contained then
      var first := st.paragraph.value.first;
      (st.(paragraph := None, listContent := None),
       [Heading(first, index, line.setext.value, Title(lines[first..index]))])
    else if line.setext == Some(2) || line.rule then (BlockEnd(st, indent), [])
    else (TextLine(st, index, line, indent), [])
  }

  function Step(lines: seq<Line>, index: nat, st: State): (r: (State, seq<Heading>))
    requires index < |lines| && Opened(st, index)
    ensures Opened(r.0, index + 1)
  {
    var line := lines[index];
    if st.fence.Some? then (if line.closes(st.fence.value) then st.(fence := None) else st, [])
    else if st.inComment then (st.(inComment := !line.endsComment), [])
    else if line.blank then (st.(paragraph := None), [])
    else if line.indent.None? then (st, [])
    else if line.opens.Some? then (BlockEnd(st, line.indent.value).(fence := line.opens), [])
    else if line.comment.Some? then (BlockEnd(st, line.indent.value).(inComment := line.comment.value), [])
    else BlockLine(lines, index, st, line.indent.value)
  }

  /** The scan of lines `from` to `n`, starting in `st`. */
  function ScanFrom(lines: seq<Line>, from: nat, n: nat, st: State): (r: (State, seq<Heading>))
    requires from <= n <= |lines| && Opened(st, from)
    ensures Opened(r.0, n)
    decreases n - from
  {
    if n == from then (st, [])
    else
      var (before, found) := ScanFrom(lines, from, n - 1, st);
      var (after, more) := Step(lines, n - 1, before);
      (after, found + more)
  }

  function Scan(lines: seq<Line>, n: nat): (r: (State, seq<Heading>))
    requires n <= |lines|
    ensures Opened(r.0, n)
  {
    ScanFrom(lines, 0, n, START)
  }

  // ----- Code, comments and blank lines, without the scanner

  datatype Mode = Text | Code(fence: Fence) | Comment

  function NextMode(mode: Mode, line: Line): Mode
  {
    match mode
    case Code(fence) => if line.closes(fence) then Text else mode
    case Comment => if line.endsComment then Text else mode
    case Text =>
      if line.blank then Text
      else if line.opens.Some? then Code(line.opens.value)
      else if line.comment == Some(true) then Comment
      else Text
  }

  /** What the lines before `n` leave open. */
  function ModeAt(lines: seq<Line>, n: nat): Mode
    requires n <= |lines|
  {
    if n == 0 then Text else NextMode(ModeAt(lines, n - 1), lines[n - 1])
  }

  /** A line that is not blank, nor code, nor comment, nor opens either. */
  predicate Plain(lines: seq<Line>, k: nat)
    requires k < |lines|
  {
    ModeAt(lines, k) == Text && !lines[k].blank && lines[k].opens.None? && lines[k].comment.None?
  }

  ghost predicate PlainSpan(lines: seq<Line>, from: nat, to: nat)
    requires to <= |lines|
  {
    forall k :: from <= k < to ==> Plain(lines, k)
  }

  /** A line that can be part of a title: not a heading, list item, quote or rule of its own. */
  predicate Loose(line: Line)
  {
    line.atx.None? && line.item.None? && !line.quote && !line.rule
  }

  ghost predicate LooseSpan(lines: seq<Line>, from: nat, to: nat)
    requires to <= |lines|
  {
    forall k :: from <= k < to ==> Loose(lines[k])
  }

  /** What a heading in the file looks like: an ATX line, or a paragraph of title lines over its
      underline. */
  ghost predicate IsHeadingOf(lines: seq<Line>, h: Heading)
  {
    && h.first <= h.last < |lines|
    && PlainSpan(lines, h.first, h.last + 1)
    && (if h.first == h.last then lines[h.first].atx == Some((h.level, h.title))
        else
          && lines[h.last].setext == Some(h.level)
          && h.title == Title(lines[h.first..h.last])
          && LooseSpan(lines, h.first, h.last))
  }

  ghost predicate Ordered(hs: seq<Heading>)
  {
    forall i, j :: 0 <= i < j < |hs| ==> hs[i].last < hs[j].first
  }

  ghost predicate Before(hs: seq<Heading>, index: nat)
  {
    forall i :: 0 <= i < |hs| ==> hs[i].last < index
  }

  function ModeOf(st: State): Mode
  {
    if st.fence.Some? then Code(st.fence.value) else if st.inComment then Comment else Text
  }

  /** What holds after the first `n` lines. */
  ghost predicate Scanned(lines: seq<Line>, n: nat, st: State, hs: seq<Heading>)
    requires n <= |lines|
  {
    && ModeOf(st) == ModeAt(lines, n) && (st.fence.Some? ==> !st.inComment)
    && Ordered(hs) && Before(hs, n)
    && (forall i :: 0 <= i < |hs| ==> IsHeadingOf(lines, hs[i]))
    && (st.paragraph.Some? ==> ParagraphOpen(lines, n, st, hs))
  }

  ghost predicate ParagraphOpen(lines: seq<Line>, n: nat, st: State, hs: seq<Heading>)
    requires n <= |lines| && st.paragraph.Some?
  {
    var first := st.paragraph.value.first;
    && ModeOf(st) == Text && first < n && Before(hs, first)
    && PlainSpan(lines, first, n)
    && (!st.paragraph.value.contained ==> LooseSpan(lines, first, n))
  }

  lemma ScannedQuiet(lines: seq<Line>, n: nat, st: State, hs: seq<Heading>, after: State)
    requires n < |lines| && Scanned(lines, n, st, hs)
    requires after.paragraph.None? && (after.fence.Some? ==> !after.inComment)
    requires ModeOf(after) == NextMode(ModeOf(st), lines[n])
    ensures Scanned(lines, n + 1, after, hs)
  {
  }

  lemma ScannedText(lines: seq<Line>, n: nat, st: State, hs: seq<Heading>, after: State)
    requires n < |lines| && Scanned(lines, n, st, hs) && Plain(lines, n)
    requires after.fence.None? && !after.inComment && after.paragraph.Some?
    requires after.paragraph.value.first == if st.paragraph.Some? then st.paragraph.value.first else n
    requires !after.paragraph.value.contained ==>
               Loose(lines[n]) && (st.paragraph.Some? ==> !st.paragraph.value.contained)
    ensures Scanned(lines, n + 1, after, hs)
  {
  }

  lemma ScannedHeading(lines: seq<Line>, n: nat, st: State, hs: seq<Heading>, after: State, h: Heading)
    requires n < |lines| && Scanned(lines, n, st, hs) && Plain(lines, n)
    requires after.fence.None? && !after.inComment && after.paragraph.None?
    requires h.last == n && IsHeadingOf(lines, h) && Before(hs, h.first)
    ensures Scanned(lines, n + 1, after, hs + [h])
  {
  }

  lemma BlockKeepsScanned(lines: seq<Line>, n: nat, st: State, hs: seq<Heading>, indent: nat)
    requires n < |lines| && Opened(st, n) && Scanned(lines, n, st, hs) && Plain(lines, n)
    ensures var (after, more) := BlockLine(lines, n, st, indent);
            Scanned(lines, n + 1, after, hs + more)
  {
    var (after, more) := BlockLine(lines, n, st, indent);
    if more == [] {
      assert hs + more == hs;
      if after.paragraph.None? {
        ScannedQuiet(lines, n, st, hs, after);
      } else {
        ScannedText(lines, n, st, hs, after);
      }
    } else {
      ScannedHeading(lines, n, st, hs, after, more[0]);
    }
  }

  lemma StepKeepsScanned(lines: seq<Line>, n: nat, st: State, hs: seq<Heading>)
    requires n < |lines| && Opened(st, n) && Scanned(lines, n, st, hs) && Sound(lines[n])
    ensures var (after, more) := Step(lines, n, st); Scanned(lines, n + 1, after, hs + more)
  {
    var (after, more) := Step(lines, n, st);
    var line := lines[n];
    if ModeOf(st) == Text && Plain(lines, n) && line.indent.Some? {
      BlockKeepsScanned(lines, n, st, hs, line.indent.value);
    } else {
      assert hs + more == hs;
      if after.paragraph.None? {
        ScannedQuiet(lines, n, st, hs, after);
      } else {
        ScannedText(lines, n, st, hs, after);
      }
    }
  }

  lemma {:induction false} ScanHolds(lines: seq<Line>, n: nat)
    requires n <= |lines| && AllSound(lines)
    ensures Scanned(lines, n, Scan(lines, n).0, Scan(lines, n).1)
  {
    if n > 0 {
      ScanHolds(lines, n - 1);
      StepKeepsScanned(lines, n - 1, Scan(lines, n - 1).0, Scan(lines, n - 1).1);
    }
  }

  // ----- Every ATX heading outside code and comments is found

  function Singles(hs: seq<Heading>): seq<Heading>
  {
    if hs == [] then []
    else
      var last := hs[|hs| - 1];
      Singles(hs[..|hs| - 1]) + if last.first == last.last then [last] else []
  }

  function AtxAt(lines: seq<Line>, k: nat): seq<Heading>
    requires k < |lines|
  {
    var atx := lines[k].atx;
    if Plain(lines, k) && atx.Some? then [Heading(k, k, atx.value.0, atx.value.1)] else []
  }

  /** The ATX headings among the first `n` lines, read off line by line. */
  function AtxLines(lines: seq<Line>, n: nat): seq<Heading>
    requires n <= |lines|
  {
    if n == 0 then [] else AtxLines(lines, n - 1) + AtxAt(lines, n - 1)
  }

  lemma {:induction false} SinglesSnoc(hs: seq<Heading>, more: seq<Heading>)
    requires |more| <= 1
    ensures Singles(hs + more) == Singles(hs) + Singles(more)
  {
    if more == [] {
      assert hs + more == hs;
    } else {
      assert (hs + more)[..|hs|] == hs && more[..0] == [];
    }
  }

  lemma StepFindsAtx(lines: seq<Line>, n: nat, st: State, hs: seq<Heading>)
    requires n < |lines| && Opened(st, n) && Scanned(lines, n, st, hs) && Sound(lines[n])
    ensures var more := Step(lines, n, st).1;
            && |more| <= 1
            && Singles(more) == AtxAt(lines, n)
  {
    var more := Step(lines, n, st).1;
    if more != [] {
      assert more[..0] == [];
    }
  }

  lemma NextFindsAtx(lines: seq<Line>, n: nat, hs: seq<Heading>) returns (more: seq<Heading>)
    requires n < |lines| && AllSound(lines) && hs == Scan(lines, n).1
    ensures Scan(lines, n + 1).1 == hs + more && |more| <= 1 && Singles(more) == AtxAt(lines, n)
  {
    ScanHolds(lines, n);
    var st := Scan(lines, n).0;
    StepFindsAtx(lines, n, st, hs);
    more := Step(lines, n, st).1;
  }

  lemma AtxStep(lines: seq<Line>, n: nat, before: seq<Heading>) returns (hs: seq<Heading>)
    requires n < |lines| && AllSound(lines) && before == Scan(lines, n).1 && Singles(before) == AtxLines(lines, n)
    ensures hs == Scan(lines, n + 1).1 && Singles(hs) == AtxLines(lines, n + 1)
  {
    var more := NextFindsAtx(lines, n, before);
    SinglesSnoc(before, more);
    hs := before + more;
  }

  /** The one-line headings of the scan are exactly the ATX lines outside code and comments, in order. */
  lemma {:induction false} AtxHeadingsExactly(lines: seq<Line>, n: nat) returns (hs: seq<Heading>)
    requires n <= |lines| && AllSound(lines)
    ensures hs == Scan(lines, n).1 && Singles(hs) == AtxLines(lines, n)
  {
    hs := [];
    if n > 0 {
      var before := AtxHeadingsExactly(lines, n - 1);
      hs := AtxStep(lines, n - 1, before);
    }
  }

  // ----- The section

  predicate IsTitle(title: string)
  {
    IsTitleName(Trim(TrimEndOf(Trim(title), {':', '：'})))
  }

  predicate IsTitleName(name: string)
  {
    name == "压缩说明" || name == "压缩指令" || Lower(name) == "compact instructions"
  }

  /** The first heading with the title. */
  function Titled(hs: seq<Heading>, isTitle: string -> bool): (r: Option<nat>)
    ensures r.Some? ==> r.value < |hs| && isTitle(hs[r.value].title)
    ensures r.Some? ==> forall i :: 0 <= i < r.value ==> !isTitle(hs[i].title)
    ensures r.None? ==> forall i :: 0 <= i < |hs| ==> !isTitle(hs[i].title)
  {
    if hs == [] then None
    else if isTitle(hs[0].title) then Some(0)
    else
      match Titled(hs[1..], isTitle)
      case None => None
      case Some(i) => Some(i + 1)
  }

  /** The first heading from `from` on that is as high as `level`, or the number of headings. */
  function NextAsHigh(hs: seq<Heading>, from: nat, level: nat): (j: nat)
    requires from <= |hs|
    ensures from <= j <= |hs|
    ensures forall i :: from <= i < j ==> hs[i].level > level
    ensures j < |hs| ==> hs[j].level <= level
    decreases |hs| - from
  {
    if from == |hs| || hs[from].level <= level then from else NextAsHigh(hs, from + 1, level)
  }

  /** The section as headings: its own, and the one that ends it. */
  function SectionHeadings(hs: seq<Heading>, isTitle: string -> bool): Option<(nat, nat)>
  {
    match Titled(hs, isTitle)
    case None => None
    case Some(at) => Some((at, NextAsHigh(hs, at + 1, hs[at].level)))
  }

  /** Where the section's lines start and end. */
  function SectionBounds(lines: seq<Line>, isTitle: string -> bool): (r: Option<(nat, nat)>)
  {
    var hs := Scan(lines, |lines|).1;
    match SectionHeadings(hs, isTitle)
    case None => None
    case Some((at, j)) => Some((hs[at].last + 1, if j < |hs| then hs[j].first else |lines|))
  }

  lemma SectionIsInRange(lines: seq<Line>, isTitle: string -> bool)
    requires AllSound(lines) && SectionBounds(lines, isTitle).Some?
    ensures var (start, end) := SectionBounds(lines, isTitle).value; start <= end <= |lines|
  {
    ScanHolds(lines, |lines|);
  }

  /** `str::lines` of a file, a line ending in `\r\n` included. */
  function FileLines(body: string): (lines: seq<string>)
  {
    var pieces := Split(body);
    var last := pieces[|pieces| - 1];
    WithoutReturns(pieces[..|pieces| - 1]) + if last == "" then [] else [last]
  }

  function WithoutReturns(lines: seq<string>): (r: seq<string>)
    ensures |r| == |lines| && forall i :: 0 <= i < |lines| ==> r[i] == WithoutReturn(lines[i])
  {
    seq(|lines|, i requires 0 <= i < |lines| => WithoutReturn(lines[i]))
  }

  function WithoutReturn(line: string): string
  {
    if line != "" && line[|line| - 1] == '\r' then line[..|line| - 1] else line
  }

  /** The section of a file whose heading has such a title. */
  function SectionWith(body: string, isTitle: string -> bool): Option<string>
  {
    var texts := FileLines(body);
    var lines := ReadAll(texts);
    ReadAllIsSound(texts);
    match SectionBounds(lines, isTitle)
    case None => None
    case Some((start, end)) =>
      SectionIsInRange(lines, isTitle);
      var section := Trim(Join(texts[start..end]));
      if section == "" then None else Some(section)
  }

  function CompactInstructionsSection(body: string): Option<string>
  {
    SectionWith(body, IsTitle)
  }

  /** A heading of the list comes before the section, lies inside it and is deeper, or comes after it. */
  ghost predicate Placed(hs: seq<Heading>, at: nat, j: nat, start: nat, end: nat, i: nat)
    requires at < |hs| && i < |hs|
  {
    if i <= at then hs[i].last < start
    else if i < j then start <= hs[i].first <= hs[i].last < end && hs[i].level > hs[at].level
    else end <= hs[i].first
  }

  lemma OrderedIsPlaced(hs: seq<Heading>, at: nat, j: nat, total: nat, i: nat)
    requires Ordered(hs) && Before(hs, total) && i < |hs|
    requires forall k :: 0 <= k < |hs| ==> hs[k].first <= hs[k].last
    requires at < j <= |hs| && forall k :: at < k < j ==> hs[k].level > hs[at].level
    ensures Placed(hs, at, j, hs[at].last + 1, if j < |hs| then hs[j].first else total, i)
  {
  }

  /** Every heading of the file comes before the section, is deeper than it and lies inside it, or
      starts where it ends or later. */
  lemma SectionHoldsOnlyDeeper(lines: seq<Line>, isTitle: string -> bool, i: nat)
    requires AllSound(lines) && SectionBounds(lines, isTitle).Some?
    requires i < |Scan(lines, |lines|).1|
    ensures var hs := Scan(lines, |lines|).1;
            var (at, j) := SectionHeadings(hs, isTitle).value;
            var (start, end) := SectionBounds(lines, isTitle).value;
            Placed(hs, at, j, start, end, i)
  {
    ScanHolds(lines, |lines|);
    var hs := Scan(lines, |lines|).1;
    var (at, j) := SectionHeadings(hs, isTitle).value;
    OrderedIsPlaced(hs, at, j, |lines|, i);
  }

  lemma {:induction false} AtxLineIsListed(lines: seq<Line>, n: nat, k: nat) returns (i: nat)
    requires k < n <= |lines| && AllSound(lines) && Plain(lines, k) && lines[k].atx.Some?
    ensures var hs := Scan(lines, n).1;
            i < |hs| && hs[i] == Heading(k, k, lines[k].atx.value.0, lines[k].atx.value.1)
  {
    if k < n - 1 {
      i := AtxLineIsListed(lines, n - 1, k);
    } else {
      ScanHolds(lines, k);
      i := |Scan(lines, k).1|;
    }
  }

  /** No line of the section is an ATX heading of its rank or a higher one, unless it is code or
      comment. */
  lemma SectionLinesAreDeeper(lines: seq<Line>, isTitle: string -> bool, k: nat)
    requires AllSound(lines) && SectionBounds(lines, isTitle).Some?
    requires var (start, end) := SectionBounds(lines, isTitle).value; start <= k < end <= |lines|
    requires Plain(lines, k) && lines[k].atx.Some?
    ensures var hs := Scan(lines, |lines|).1;
            lines[k].atx.value.0 > hs[SectionHeadings(hs, isTitle).value.0].level
  {
    var i := AtxLineIsListed(lines, |lines|, k);
    SectionHoldsOnlyDeeper(lines, isTitle, i);
  }

  // ----- The section on its own

  function Shifted(st: State, offset: nat): State
  {
    if st.paragraph.None? then st
    else st.(paragraph := Some(st.paragraph.value.(first := st.paragraph.value.first + offset)))
  }

  function ShiftedAll(hs: seq<Heading>, offset: nat): (r: seq<Heading>)
    ensures |r| == |hs|
    ensures forall i :: 0 <= i < |hs| ==>
              r[i] == Heading(hs[i].first + offset, hs[i].last + offset, hs[i].level, hs[i].title)
  {
    seq(|hs|, i requires 0 <= i < |hs| => Heading(hs[i].first + offset, hs[i].last + offset, hs[i].level, hs[i].title))
  }

  lemma SliceOfSlice<T>(s: seq<T>, k: nat, m: nat, i: nat, j: nat)
    requires i <= j && k + j <= m <= |s|
    ensures s[k..m][i..j] == s[k + i..k + j]
  {
    var t := s[k..m];
    forall x | 0 <= x < j - i
      ensures t[i..j][x] == s[k + i..k + j][x]
    {
      assert t[i..j][x] == t[i + x];
    }
  }

  /** The same lines at another place: what a line takes of them is the same. */
  ghost predicate SameAround(part: seq<Line>, lines: seq<Line>, k: nat, n: nat, st: State)
    requires Opened(st, n)
  {
    && n < |part| && k + n < |lines| && part[n] == lines[k + n]
    && (st.paragraph.Some? ==> part[st.paragraph.value.first..n] == lines[k + st.paragraph.value.first..k + n])
  }

  lemma SliceIsSame(part: seq<Line>, lines: seq<Line>, k: nat, m: nat, n: nat, st: State)
    requires k + n < m <= |lines| && part == lines[k..m] && Opened(st, n)
    ensures SameAround(part, lines, k, n, st)
  {
    if st.paragraph.Some? {
      SliceOfSlice(lines, k, m, st.paragraph.value.first, n);
    }
  }

  lemma BlockMoves(part: seq<Line>, lines: seq<Line>, k: nat, n: nat, st: State, indent: nat)
    requires Opened(st, n) && SameAround(part, lines, k, n, st)
    ensures BlockLine(lines, k + n, Shifted(st, k), indent).0 == Shifted(BlockLine(part, n, st, indent).0, k)
    ensures BlockLine(lines, k + n, Shifted(st, k), indent).1 == ShiftedAll(BlockLine(part, n, st, indent).1, k)
  {
  }

  lemma StepMoves(part: seq<Line>, lines: seq<Line>, k: nat, n: nat, st: State)
    requires Opened(st, n) && SameAround(part, lines, k, n, st)
    ensures Step(lines, k + n, Shifted(st, k)).0 == Shifted(Step(part, n, st).0, k)
    ensures Step(lines, k + n, Shifted(st, k)).1 == ShiftedAll(Step(part, n, st).1, k)
  {
    if part[n].indent.Some? {
      BlockMoves(part, lines, k, n, st, part[n].indent.value);
    }
  }

  lemma ShiftedConcat(a: seq<Heading>, b: seq<Heading>, offset: nat)
    ensures ShiftedAll(a + b, offset) == ShiftedAll(a, offset) + ShiftedAll(b, offset)
  {
  }

  lemma NextMoves(lines: seq<Line>, part: seq<Line>, k: nat, n: nat, from: State, st: State, found: seq<Heading>)
    returns (after: State, more: seq<Heading>)
    requires n < |part| && k + n < |lines| && from.paragraph.None? && Opened(st, n) && SameAround(part, lines, k, n, st)
    requires ScanFrom(part, 0, n, from) == (st, found)
    requires ScanFrom(lines, k, k + n, from) == (Shifted(st, k), ShiftedAll(found, k))
    ensures ScanFrom(part, 0, n + 1, from) == (after, found + more)
    ensures ScanFrom(lines, k, k + n + 1, from) == (Shifted(after, k), ShiftedAll(found, k) + ShiftedAll(more, k))
  {
    StepMoves(part, lines, k, n, st);
    after, more := Step(part, n, st).0, Step(part, n, st).1;
  }

  /** A part of a text, scanned from a state with no paragraph open, reads the same wherever it stands. */
  lemma {:induction false} ScanMoves(lines: seq<Line>, part: seq<Line>, k: nat, m: nat, n: nat, from: State)
    returns (st: State, found: seq<Heading>)
    requires k + n <= m <= |lines| && part == lines[k..m] && from.paragraph.None?
    ensures ScanFrom(part, 0, n, from) == (st, found)
    ensures ScanFrom(lines, k, k + n, from) == (Shifted(st, k), ShiftedAll(found, k))
  {
    st, found := from, [];
    if n > 0 {
      var before, some := ScanMoves(lines, part, k, m, n - 1, from);
      SliceIsSame(part, lines, k, m, n - 1, before);
      var after, more := NextMoves(lines, part, k, n - 1, from, before, some);
      ShiftedConcat(some, more, k);
      st, found := after, some + more;
    }
  }

  lemma {:induction false} ScanSplits(lines: seq<Line>, from: nat, n: nat)
    requires from <= n <= |lines|
    ensures var (st, found) := Scan(lines, from);
            var (after, more) := ScanFrom(lines, from, n, st);
            Scan(lines, n) == (after, found + more) && forall i :: 0 <= i < |more| ==> from <= more[i].last
    decreases n - from
  {
    var (st, found) := Scan(lines, from);
    if n == from {
      assert found + [] == found;
    } else {
      ScanSplits(lines, from, n - 1);
      var (before, more) := ScanFrom(lines, from, n - 1, st);
      var extra := Step(lines, n - 1, before).1;
      assert found + (more + extra) == found + more + extra;
    }
  }

  /** Right after its own lines a heading leaves nothing open but, possibly, a list item around it. */
  lemma {:induction false} AfterHeading(lines: seq<Line>, n: nat, i: nat)
    requires n <= |lines| && AllSound(lines) && i < |Scan(lines, n).1|
    ensures var h := Scan(lines, n).1[i];
            && h.last < n
            && var (st, found) := Scan(lines, h.last + 1);
            && found == Scan(lines, n).1[..i + 1]
            && st == State(None, false, None, st.listContent)
            && (st.listContent.Some? ==> st.listContent.value <= 3)
  {
    ScanHolds(lines, n - 1);
    var (st, found) := Scan(lines, n - 1);
    var (after, more) := Step(lines, n - 1, st);
    assert Scan(lines, n) == (after, found + more);
    if i < |found| {
      AfterHeading(lines, n - 1, i);
      assert (found + more)[..i + 1] == found[..i + 1];
    } else {
      assert (found + more)[..i + 1] == found + more;
    }
  }

  /** The scan has produced `j` headings at the line where the next one starts. */
  lemma HeadingsBefore(lines: seq<Line>, n: nat, j: nat)
    requires n <= |lines| && AllSound(lines)
    requires j <= |Scan(lines, |lines|).1|
    requires n == if j < |Scan(lines, |lines|).1| then Scan(lines, |lines|).1[j].first else |lines|
    ensures Scan(lines, n).1 == Scan(lines, |lines|).1[..j]
  {
    var hs := Scan(lines, |lines|).1;
    ScanHolds(lines, |lines|);
    ScanHolds(lines, n);
    ScanSplits(lines, n, |lines|);
    var c := |Scan(lines, n).1|;
    assert Scan(lines, n).1 == hs[..c];
    assert forall i :: 0 <= i < |hs| ==> (i < c <==> hs[i].last < n);
    assert forall i :: 0 <= i < |hs| ==> (i < j <==> hs[i].last < n);
    assert c < |hs| ==> hs[c].last >= n;
    assert j < |hs| ==> hs[j].last >= n;
  }

  lemma StandsAlone(lines: seq<Line>, start: nat, end: nat)
    requires start <= end <= |lines| && Scan(lines, start).0 == START
    ensures Scan(lines, end).1 == Scan(lines, start).1 + ShiftedAll(Scan(lines[start..end], end - start).1, start)
  {
    ScanSplits(lines, start, end);
    var st, found := ScanMoves(lines, lines[start..end], start, end, end - start, START);
  }

  /** The lines from behind heading `at` up to heading `j`, or to the end; the headings between are deeper. */
  ghost predicate IsRange(hs: seq<Heading>, total: nat, at: nat, j: nat, start: nat, end: nat)
  {
    && at < j <= |hs| && start == hs[at].last + 1 && end == (if j < |hs| then hs[j].first else total)
    && forall i :: at < i < j ==> hs[i].level > hs[at].level
  }

  lemma SectionIsRange(lines: seq<Line>, isTitle: string -> bool, hs: seq<Heading>, at: nat, j: nat, start: nat,
                       end: nat)
    requires hs == Scan(lines, |lines|).1 && SectionHeadings(hs, isTitle) == Some((at, j))
    requires SectionBounds(lines, isTitle) == Some((start, end))
    ensures IsRange(hs, |lines|, at, j, start, end)
  {
  }

  lemma RangeStandsAlone(lines: seq<Line>, at: nat, j: nat, start: nat, end: nat, hs: seq<Heading>)
    requires AllSound(lines) && hs == Scan(lines, |lines|).1 && IsRange(hs, |lines|, at, j, start, end)
    requires start <= end <= |lines| && Scan(lines, start).0.listContent.None?
    ensures ShiftedAll(Scan(lines[start..end], end - start).1, start) == hs[at + 1..j]
  {
    AfterHeading(lines, |lines|, at);
    StandsAlone(lines, start, end);
    HeadingsBefore(lines, end, j);
    var inside := ShiftedAll(Scan(lines[start..end], end - start).1, start);
    PrefixThenRest(hs, at + 1, j, inside);
  }

  /** A section whose heading is in no list item reads the same cut out as in the file: scanned alone,
      its lines give the deeper headings the file has there, and no others. */
  lemma SectionStandsAlone(lines: seq<Line>, isTitle: string -> bool, start: nat, end: nat, at: nat, j: nat,
                           hs: seq<Heading>)
    requires AllSound(lines) && SectionBounds(lines, isTitle) == Some((start, end)) && start <= end <= |lines|
    requires Scan(lines, start).0.listContent.None?
    requires hs == Scan(lines, |lines|).1 && SectionHeadings(hs, isTitle) == Some((at, j))
    ensures at < j <= |hs| && ShiftedAll(Scan(lines[start..end], end - start).1, start) == hs[at + 1..j]
  {
    SectionIsRange(lines, isTitle, hs, at, j, start, end);
    RangeStandsAlone(lines, at, j, start, end, hs);
  }

  lemma PrefixThenRest<T>(s: seq<T>, i: nat, j: nat, rest: seq<T>)
    requires i <= j <= |s| && s[..j] == s[..i] + rest
    ensures rest == s[i..j]
  {
    assert forall x :: 0 <= x < |rest| ==> rest[x] == s[..j][i + x];
  }

  // ----- The loop

  /** `markdown_headings`. */
  method MarkdownHeadings(lines: seq<Line>) returns (headings: seq<Heading>)
    ensures headings == Scan(lines, |lines|).1
  {
    headings := [];
    var fence: Option<Fence>, inComment := None, false;
    var paragraph: Option<Paragraph>, listContent: Option<nat> := None, None;
    for index := 0 to |lines|
      invariant Scan(lines, index) == (State(fence, inComment, paragraph, listContent), headings)
    {
      ghost var st := State(fence, inComment, paragraph, listContent);
      ghost var (after, more) := Step(lines, index, st);
      assert Scan(lines, index + 1) == (after, headings + more);
      assert headings + [] == headings;
      var line := lines[index];
      if fence.Some? {
        if line.closes(fence.value) {
          fence := None;
        }
        continue;
      }
      if inComment {
        inComment := !line.endsComment;
        continue;
      }
      if line.blank {
        paragraph := None;
        continue;
      }
      if line.indent.None? {
        continue;
      }
      var indent := line.indent.value;
      var topLevel := listContent.None? || indent < listContent.value;
      if line.opens.Some? {
        fence, paragraph := line.opens, None;
        listContent := if topLevel then None else listContent;
        continue;
      }
      if line.comment.Some? {
        inComment, paragraph := line.comment.value, None;
        listContent := if topLevel then None else listContent;
        continue;
      }
      if paragraph.None? && line.link {
        continue;
      }
      if line.atx.Some? {
        headings := headings + [Heading(index, index, line.atx.value.0, line.atx.value.1)];
        paragraph := None;
        listContent := if topLevel then None else listContent;
        continue;
      }
      if line.setext.Some? {
        if paragraph.Some? && !paragraph.value.contained {
          var title := Title(lines[paragraph.value.first..index]);
          headings := headings + [Heading(paragraph.value.first, index, line.setext.value, title)];
          paragraph, listContent := None, None;
          continue;
        }
        if line.setext.value == 2 {
          paragraph := None;
          listContent := if topLevel then None else listContent;
          continue;
        }
      }
      if line.rule {
        paragraph := None;
        listContent := if topLevel then None else listContent;
        continue;
      }
      if line.item.Some? {
        listContent := Some(indent + line.item.value);
      } else if paragraph.None? && topLevel {
        listContent := None;
      }
      paragraph := match paragraph
        case Some(p) => Some(Paragraph(p.first, p.contained || line.item.Some? || line.quote))
        case None => Some(Paragraph(index, line.item.Some? || line.quote || !topLevel));
    }
  }
}
