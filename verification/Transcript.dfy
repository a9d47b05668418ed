/** The labelled transcript handed to the summarizer (`flatten_entries`): role labels are its
    structure, and nothing inside an entry may produce one. */
module Transcript {
  import opened Wrappers
  import opened Text
  import opened Sequences
  import opened Session

  const HANDOVER_TEXT_CHARS: nat := 20_000
  const HANDOVER_TOOL_ARGS_CHARS: nat := 2_000
  const HANDOVER_TOOL_RESULT_CHARS: nat := 3_000
  const MAX_HANDOVER_SUMMARY_CHARS: nat := 16_000

  // ----- Characters and lines

  /** Everything but `\n` that a reader may take for a line break. */
  predicate IsOtherBreak(c: char)
  {
    c == '\r' || c == '\U{2028}' || c == '\U{2029}' || c == '\U{0085}' || c == '\U{000B}' || c == '\U{000C}'
  }

  /** A line a Markdown reader could take for a heading. */
  predicate IsHeading(line: string)
  {
    var rest := TrimStart(line);
    rest != "" && rest[0] == '#'
  }

  /** The heading lines of a text, in order. */
  function Headings(s: string): seq<string>
  {
    Filter(IsHeading, Split(s))
  }

  // ----- The pieces of the printer

  function TruncateChars(s: string, max: nat): string
  {
    if |s| <= max then s else s[..max] + "…"
  }

  function NormalizeLineBreaks(s: string): (r: string)
    ensures forall i :: 0 <= i < |r| ==> !IsOtherBreak(r[i])
  {
    if s == "" then ""
    else if |s| >= 2 && s[0] == '\r' && s[1] == '\n' then "\n" + NormalizeLineBreaks(s[2..])
    else [if IsOtherBreak(s[0]) then '\n' else s[0]] + NormalizeLineBreaks(s[1..])
  }

  function QuoteLine(line: string): string
  {
    if line == "" then ">" else "> " + line
  }

  function EscapeLine(line: string): string
  {
    var rest := TrimStart(line);
    if rest != "" && rest[0] == '#' then line[..|line| - |rest|] + "\\" + rest else line
  }

  function Mapped(f: string -> string, lines: seq<string>): (r: seq<string>)
    ensures |r| == |lines| && forall i :: 0 <= i < |lines| ==> r[i] == f(lines[i])
  {
    seq(|lines|, i requires 0 <= i < |lines| => f(lines[i]))
  }

  function Quoted(s: string): string
  {
    Join(Mapped(QuoteLine, Lines(NormalizeLineBreaks(s))))
  }

  function EscapeHeadings(s: string): string
  {
    Join(Mapped(EscapeLine, Lines(NormalizeLineBreaks(s))))
  }

  function ReplaceNewlines(s: string): (r: string)
    ensures OneLine(r)
  {
    if s == "" then "" else [if s[0] == '\n' then ' ' else s[0]] + ReplaceNewlines(s[1..])
  }

  /** The printer's own words. */
  datatype Wording = Wording(
    user: string, assistant: string, system: string, earlier: string,
    call: string, success: string, error: string, denied: string, interrupted: string,
    imagesBefore: string, imagesBetween: string, imagesAfter: string)

  const USER_LABEL := "### 用户 / User"
  const ASSISTANT_LABEL := "### 助手 / Assistant"
  const SYSTEM_LABEL := "### 系统 / System"
  const EARLIER_LABEL := "### 之前的摘要 / Earlier summary"
  const CALL_NOTE := "[工具调用 / tool call] "
  const SUCCESS_NOTE := "[结果 / result: success]"
  const ERROR_NOTE := "[结果 / result: error]"
  const DENIED_NOTE := "[结果 / result: denied]"
  const INTERRUPTED_NOTE := "[结果 / result: 未完成 / interrupted]"
  const IMAGES_BEFORE := "[附图 "
  const IMAGES_BETWEEN := " 张 / "
  const IMAGES_AFTER := " image(s) attached]"

  const WORDING: Wording := Wording(
    USER_LABEL, ASSISTANT_LABEL, SYSTEM_LABEL, EARLIER_LABEL,
    CALL_NOTE, SUCCESS_NOTE, ERROR_NOTE, DENIED_NOTE, INTERRUPTED_NOTE,
    IMAGES_BEFORE, IMAGES_BETWEEN, IMAGES_AFTER)

  function Label(w: Wording, e: Entry): string
  {
    match e
    case User(_, _) => w.user
    case Assistant(_, _, _) => w.assistant
    case System(_) => w.system
    case Compaction(_, _) => w.earlier
  }

  function ImageNote(w: Wording, count: nat): string
  {
    w.imagesBefore + Decimal(count) + w.imagesBetween + Decimal(count) + w.imagesAfter
  }

  function CallLine(w: Wording, name: string): string
  {
    w.call + ReplaceNewlines(NormalizeLineBreaks(name))
  }

  function ResultLine(w: Wording, status: Status): string
  {
    match status
    case Success => w.success
    case Error => w.error
    case Denied => w.denied
  }

  function ExchangeText(w: Wording, e: Exchange): string
  {
    "\n" + CallLine(w, e.call.name) + "\n" + Quoted(TruncateChars(e.call.arguments, HANDOVER_TOOL_ARGS_CHARS))
    + match e.result
      case Some(r) => "\n" + ResultLine(w, r.status) + "\n"
        + Quoted(TruncateChars(r.content, HANDOVER_TOOL_RESULT_CHARS))
      case None => "\n" + w.interrupted
  }

  function ExchangesText(w: Wording, exchanges: seq<Exchange>): string
  {
    if exchanges == [] then "" else ExchangeText(w, exchanges[0]) + ExchangesText(w, exchanges[1..])
  }

  function ImageLine(w: Wording, count: nat): string
  {
    if count == 0 then "" else "\n" + ImageNote(w, count)
  }

  /** An entry's own text, its heading lines quoted. */
  function OwnText(e: Entry): string
  {
    match e
    case User(content, _) => EscapeHeadings(TruncateChars(content, HANDOVER_TEXT_CHARS))
    case Assistant(content, _, _) => EscapeHeadings(TruncateChars(content, HANDOVER_TEXT_CHARS))
    case System(content) => EscapeHeadings(TruncateChars(content, HANDOVER_TEXT_CHARS))
    case Compaction(summary, _) => EscapeHeadings(TruncateChars(summary, MAX_HANDOVER_SUMMARY_CHARS))
  }

  /** What the printer adds to it. */
  function Details(w: Wording, e: Entry): string
  {
    match e
    case User(_, images) => ImageLine(w, |images|)
    case Assistant(_, _, exchanges) => ExchangesText(w, exchanges)
    case _ => ""
  }

  function Body(w: Wording, e: Entry): string
  {
    OwnText(e) + Details(w, e)
  }

  function EntryText(w: Wording, e: Entry): string
  {
    Label(w, e) + "\n" + Body(w, e) + "\n\n"
  }

  function Untrimmed(w: Wording, entries: seq<Entry>): string
  {
    if entries == [] then "" else EntryText(w, entries[0]) + Untrimmed(w, entries[1..])
  }

  function Flatten(w: Wording, entries: seq<Entry>): string
  {
    TrimEnd(Untrimmed(w, entries))
  }

  // ----- Splitting and headings

  lemma HeadingsConcat(a: string, b: string)
    ensures Headings(a + "\n" + b) == Headings(a) + Headings(b)
  {
    SplitConcat(a, b);
    FilterConcat(IsHeading, Split(a), Split(b));
  }

  lemma HeadingsOfLine(s: string)
    requires OneLine(s)
    ensures Headings(s) == if IsHeading(s) then [s] else []
  {
    SplitOneLine(s);
    FilterOne(IsHeading, s);
  }

  lemma {:induction false} HeadingsOfJoin(lines: seq<string>)
    requires forall i :: 0 <= i < |lines| ==> OneLine(lines[i]) && !IsHeading(lines[i])
    ensures Headings(Join(lines)) == []
  {
    if lines == [] {
      HeadingsOfLine("");
    } else {
      HeadingsOfLine(lines[0]);
      if |lines| > 1 {
        HeadingsOfJoin(lines[1..]);
        HeadingsConcat(lines[0], Join(lines[1..]));
      }
    }
  }

  // ----- No piece holds a heading

  lemma {:induction false} TrimStartAfter(prefix: string, c: char, rest: string)
    requires forall i :: 0 <= i < |prefix| ==> IsWhitespace(prefix[i])
    requires !IsWhitespace(c)
    ensures TrimStart(prefix + [c] + rest) == [c] + rest
    decreases |prefix|
  {
    var whole := prefix + [c] + rest;
    if prefix == "" {
      assert whole == [c] + rest;
    } else {
      assert whole[1..] == prefix[1..] + [c] + rest;
      TrimStartAfter(prefix[1..], c, rest);
    }
  }

  lemma EscapedLineIsNoHeading(line: string)
    requires OneLine(line)
    ensures OneLine(EscapeLine(line)) && !IsHeading(EscapeLine(line))
  {
    var rest := TrimStart(line);
    TrimStartCuts(line);
    if rest != "" && rest[0] == '#' {
      var prefix := line[..|line| - |rest|];
      assert EscapeLine(line) == prefix + ['\\'] + rest;
      assert forall c :: c in prefix || c in rest ==> c in line;
      TrimStartAfter(prefix, '\\', rest);
    }
  }

  lemma MappedIsSafe(f: string -> string, lines: seq<string>)
    requires forall i :: 0 <= i < |lines| ==> OneLine(f(lines[i])) && !IsHeading(f(lines[i]))
    ensures Headings(Join(Mapped(f, lines))) == []
  {
    HeadingsOfJoin(Mapped(f, lines));
  }

  lemma EscapedIsSafe(s: string)
    ensures Headings(EscapeHeadings(s)) == []
  {
    var lines := Lines(NormalizeLineBreaks(s));
    forall i | 0 <= i < |lines|
      ensures OneLine(EscapeLine(lines[i])) && !IsHeading(EscapeLine(lines[i]))
    {
      EscapedLineIsNoHeading(lines[i]);
    }
    MappedIsSafe(EscapeLine, lines);
  }

  lemma QuotedIsSafe(s: string)
    ensures Headings(Quoted(s)) == []
  {
    var lines := Lines(NormalizeLineBreaks(s));
    forall i | 0 <= i < |lines|
      ensures OneLine(QuoteLine(lines[i])) && !IsHeading(QuoteLine(lines[i]))
    {
      assert OneLine(lines[i]);
    }
    MappedIsSafe(QuoteLine, lines);
  }

  predicate IsNote(s: string)
  {
    s != "" && s[0] == '[' && OneLine(s)
  }

  predicate EndsVisibly(line: string)
  {
    line != "" && !IsWhitespace(line[|line| - 1])
  }

  predicate IsLabel(s: string)
  {
    OneLine(s) && IsHeading(s) && EndsVisibly(s)
  }

  /** Labels are heading lines; everything else the printer adds opens with a bracket. */
  predicate WellWorded(w: Wording)
  {
    && IsLabel(w.user) && IsLabel(w.assistant) && IsLabel(w.system) && IsLabel(w.earlier)
    && IsNote(w.call) && IsNote(w.success) && IsNote(w.error) && IsNote(w.denied) && IsNote(w.interrupted)
    && IsNote(w.imagesBefore) && OneLine(w.imagesBetween) && OneLine(w.imagesAfter)
  }

  lemma PlainLabel(s: string)
    requires OneLine(s) && s != "" && s[0] == '#' && !IsWhitespace(s[|s| - 1])
    ensures IsLabel(s)
  {
  }

  lemma UserLabelHolds() ensures IsLabel(USER_LABEL) { PlainLabel(USER_LABEL); }
  lemma AssistantLabelHolds() ensures IsLabel(ASSISTANT_LABEL) { PlainLabel(ASSISTANT_LABEL); }
  lemma SystemLabelHolds() ensures IsLabel(SYSTEM_LABEL) { PlainLabel(SYSTEM_LABEL); }
  lemma EarlierLabelHolds() ensures IsLabel(EARLIER_LABEL) { PlainLabel(EARLIER_LABEL); }
  lemma CallNoteHolds() ensures IsNote(CALL_NOTE) {}
  lemma ResultNotesHold() ensures IsNote(SUCCESS_NOTE) && IsNote(ERROR_NOTE) && IsNote(DENIED_NOTE) {}
  lemma InterruptedNoteHolds() ensures IsNote(INTERRUPTED_NOTE) {}
  lemma ImageNotesHold() ensures IsNote(IMAGES_BEFORE) && OneLine(IMAGES_BETWEEN) && OneLine(IMAGES_AFTER) {}

  lemma WordingIsWellWorded()
    ensures WellWorded(WORDING)
  {
    UserLabelHolds();
    AssistantLabelHolds();
    SystemLabelHolds();
    EarlierLabelHolds();
    CallNoteHolds();
    ResultNotesHold();
    InterruptedNoteHolds();
    ImageNotesHold();
  }

  ghost predicate Safe(s: string)
  {
    Headings(s) == []
  }

  lemma SafeConcat(a: string, b: string)
    requires Safe(a) && Safe(b)
    ensures Safe(a + "\n" + b)
  {
    HeadingsConcat(a, b);
  }

  lemma NoteIsSafe(s: string)
    requires IsNote(s)
    ensures Safe(s)
  {
    HeadingsOfLine(s);
  }

  lemma OneLineConcat(a: string, b: string)
    requires OneLine(a) && OneLine(b)
    ensures OneLine(a + b)
  {
  }

  lemma NotesAreSafe(w: Wording, name: string, count: nat)
    requires WellWorded(w)
    ensures Safe(CallLine(w, name)) && Safe(ImageNote(w, count))
  {
    NoteIsSafe(CallLine(w, name));
    OneLineConcat(w.imagesBefore, Decimal(count));
    OneLineConcat(w.imagesBefore + Decimal(count), w.imagesBetween);
    OneLineConcat(w.imagesBefore + Decimal(count) + w.imagesBetween, Decimal(count));
    OneLineConcat(w.imagesBefore + Decimal(count) + w.imagesBetween + Decimal(count), w.imagesAfter);
    NoteIsSafe(ImageNote(w, count));
  }

  lemma FourSafe(a: string, b: string, c: string, d: string)
    requires Safe(a) && Safe(b) && Safe(c) && Safe(d)
    ensures Safe(a + "\n" + b + "\n" + c + "\n" + d)
  {
    SafeConcat(a, b);
    SafeConcat(a + "\n" + b, c);
    SafeConcat(a + "\n" + b + "\n" + c, d);
  }

  /** The result part of an exchange, without the newline before it. */
  function Outcome(w: Wording, e: Exchange): string
  {
    match e.result
    case Some(r) => ResultLine(w, r.status) + "\n" + Quoted(TruncateChars(r.content, HANDOVER_TOOL_RESULT_CHARS))
    case None => w.interrupted
  }

  lemma OutcomeIsSafe(w: Wording, e: Exchange)
    requires WellWorded(w)
    ensures Safe(Outcome(w, e))
  {
    match e.result
    case Some(r) =>
      NoteIsSafe(ResultLine(w, r.status));
      QuotedIsSafe(TruncateChars(r.content, HANDOVER_TOOL_RESULT_CHARS));
      SafeConcat(ResultLine(w, r.status), Quoted(TruncateChars(r.content, HANDOVER_TOOL_RESULT_CHARS)));
    case None => NoteIsSafe(w.interrupted);
  }

  lemma Regroup(before: string, n: string, call: string, arguments: string, outcome: string)
    ensures before + (n + call + n + arguments + (n + outcome)) == before + n + call + n + arguments + n + outcome
  {
  }

  lemma ExchangeTextIs(w: Wording, before: string, e: Exchange)
    ensures before + ExchangeText(w, e) ==
            before + "\n" + CallLine(w, e.call.name)
            + "\n" + Quoted(TruncateChars(e.call.arguments, HANDOVER_TOOL_ARGS_CHARS)) + "\n" + Outcome(w, e)
  {
    var call, arguments := CallLine(w, e.call.name), Quoted(TruncateChars(e.call.arguments, HANDOVER_TOOL_ARGS_CHARS));
    if e.result.Some? {
      var r := e.result.value;
      var status, content := ResultLine(w, r.status), Quoted(TruncateChars(r.content, HANDOVER_TOOL_RESULT_CHARS));
      assert "\n" + status + "\n" + content == "\n" + (status + "\n" + content);
    }
    Regroup(before, "\n", call, arguments, Outcome(w, e));
  }

  lemma ExchangeIsSafe(w: Wording, before: string, e: Exchange)
    requires WellWorded(w) && Safe(before)
    ensures Safe(before + ExchangeText(w, e))
  {
    NotesAreSafe(w, e.call.name, 0);
    QuotedIsSafe(TruncateChars(e.call.arguments, HANDOVER_TOOL_ARGS_CHARS));
    OutcomeIsSafe(w, e);
    FourSafe(before, CallLine(w, e.call.name), Quoted(TruncateChars(e.call.arguments, HANDOVER_TOOL_ARGS_CHARS)),
             Outcome(w, e));
    ExchangeTextIs(w, before, e);
  }

  lemma {:induction false} ExchangesAreSafe(w: Wording, before: string, exchanges: seq<Exchange>)
    requires WellWorded(w) && Safe(before)
    ensures Safe(before + ExchangesText(w, exchanges))
    decreases |exchanges|
  {
    if exchanges == [] {
      assert before + "" == before;
    } else {
      ExchangeIsSafe(w, before, exchanges[0]);
      ExchangesAreSafe(w, before + ExchangeText(w, exchanges[0]), exchanges[1..]);
      Assoc(before, ExchangeText(w, exchanges[0]), ExchangesText(w, exchanges[1..]));
    }
  }

  lemma ImageLineIsSafe(w: Wording, text: string, count: nat)
    requires WellWorded(w) && Safe(text)
    ensures Safe(text + ImageLine(w, count))
  {
    if count == 0 {
      assert text + "" == text;
    } else {
      NotesAreSafe(w, "", count);
      SafeConcat(text, ImageNote(w, count));
      Assoc(text, "\n", ImageNote(w, count));
    }
  }

  lemma OwnTextIsSafe(e: Entry)
    ensures Safe(OwnText(e))
  {
    match e
    case Compaction(summary, _) => EscapedIsSafe(TruncateChars(summary, MAX_HANDOVER_SUMMARY_CHARS));
    case _ => EscapedIsSafe(TruncateChars(e.content, HANDOVER_TEXT_CHARS));
  }

  lemma DetailsAreSafe(w: Wording, before: string, e: Entry)
    requires WellWorded(w) && Safe(before)
    ensures Safe(before + Details(w, e))
  {
    match e
    case User(_, images) => ImageLineIsSafe(w, before, |images|);
    case Assistant(_, _, exchanges) => ExchangesAreSafe(w, before, exchanges);
    case _ => assert before + "" == before;
  }

  lemma BodyIsSafe(w: Wording, e: Entry)
    requires WellWorded(w)
    ensures Safe(Body(w, e))
  {
    OwnTextIsSafe(e);
    DetailsAreSafe(w, OwnText(e), e);
  }

  // ----- The labels

  function Labels(w: Wording, entries: seq<Entry>): seq<string>
  {
    seq(|entries|, i requires 0 <= i < |entries| => Label(w, entries[i]))
  }

  lemma HeadingsNewline(a: string)
    ensures Headings(a + "\n") == Headings(a)
  {
    HeadingsOfLine("");
    HeadingsConcat(a, "");
    assert a + "\n" + "" == a + "\n";
  }

  lemma TwoNewlines(a: string, more: string)
    ensures a + "\n\n" + more == a + "\n" + "\n" + more
  {
  }

  /** A label, a safe body, two newlines: exactly one heading line more. */
  lemma OneMoreHeading(title: string, body: string, more: string)
    requires IsLabel(title) && Safe(body)
    ensures Headings(title + "\n" + body + "\n\n" + more) == [title] + Headings(more)
  {
    HeadingsOfLine(title);
    HeadingsConcat(title, body);
    var a := title + "\n" + body;
    HeadingsNewline(a);
    HeadingsConcat(a + "\n", more);
    TwoNewlines(a, more);
  }

  lemma LabelsCons(w: Wording, entries: seq<Entry>)
    requires entries != []
    ensures Labels(w, entries) == [Label(w, entries[0])] + Labels(w, entries[1..])
  {
  }

  lemma EntryAddsItsLabel(w: Wording, e: Entry, more: string)
    requires WellWorded(w)
    ensures Headings(EntryText(w, e) + more) == [Label(w, e)] + Headings(more)
  {
    BodyIsSafe(w, e);
    OneMoreHeading(Label(w, e), Body(w, e), more);
  }

  lemma {:induction false} UntrimmedHeadings(w: Wording, entries: seq<Entry>)
    requires WellWorded(w)
    ensures Headings(Untrimmed(w, entries)) == Labels(w, entries)
  {
    if entries == [] {
      HeadingsOfLine("");
    } else {
      UntrimmedHeadings(w, entries[1..]);
      EntryAddsItsLabel(w, entries[0], Untrimmed(w, entries[1..]));
      LabelsCons(w, entries);
    }
  }

  /** Lines with one more character in front of the first, or behind the last. */
  function Prepended(x: char, lines: seq<string>): seq<string>
    requires lines != []
  {
    if x == '\n' then [""] + lines else [[x] + lines[0]] + lines[1..]
  }

  function Appended(lines: seq<string>, c: char): seq<string>
    requires lines != []
  {
    lines[..|lines| - 1] + [lines[|lines| - 1] + [c]]
  }

  lemma PrependThenAppend(x: char, lines: seq<string>, c: char)
    requires lines != []
    ensures Appended(Prepended(x, lines), c) == Prepended(x, Appended(lines, c))
  {
    if |lines| == 1 {
      assert [x] + (lines[0] + [c]) == [x] + lines[0] + [c];
    }
  }

  lemma {:induction false} SplitLast(s: string, c: char)
    requires c != '\n'
    ensures Split(s + [c]) == Appended(Split(s), c)
  {
    if s == "" {
      assert s + [c] == [c] && [c][1..] == "" && [c] + "" == [c] && "" + [c] == [c];
      assert Split("") == [""] && [""][..0] == [] && [""][1..] == [];
    } else {
      TailOfConcat(s, [c]);
      SplitLast(s[1..], c);
      PrependThenAppend(s[0], Split(s[1..]), c);
    }
  }

  lemma {:induction false} TrimStartBefore(line: string, c: char)
    requires IsWhitespace(c)
    ensures IsHeading(line + [c]) <==> IsHeading(line)
  {
    if line == "" {
      assert line + [c] == [c] && [c][1..] == "";
    } else if IsWhitespace(line[0]) {
      assert (line + [c])[1..] == line[1..] + [c];
      TrimStartBefore(line[1..], c);
    }
  }

  ghost predicate AllEndVisibly(lines: seq<string>)
  {
    forall i :: 0 <= i < |lines| ==> EndsVisibly(lines[i])
  }

  lemma LastEndsVisibly(lines: seq<string>, last: string)
    requires AllEndVisibly(lines + [last])
    ensures EndsVisibly(last)
  {
    assert (lines + [last])[|lines|] == last;
  }

  lemma TrimOneKeepsHeadings(s: string, c: char)
    requires IsWhitespace(c) && AllEndVisibly(Headings(s + [c]))
    ensures Headings(s) == Headings(s + [c])
  {
    var lines := Split(s);
    if c == '\n' {
      HeadingsNewline(s);
    } else {
      SplitLast(s, c);
      var front, last := lines[..|lines| - 1], lines[|lines| - 1];
      assert lines == front + [last];
      FilterSnoc(IsHeading, front, last);
      FilterSnoc(IsHeading, front, last + [c]);
      TrimStartBefore(last, c);
      if IsHeading(last + [c]) {
        LastEndsVisibly(Filter(IsHeading, front), last + [c]);
      }
    }
  }

  lemma {:induction false} TrimKeepsHeadings(s: string)
    requires AllEndVisibly(Headings(s))
    ensures Headings(TrimEnd(s)) == Headings(s)
    decreases |s|
  {
    if s != "" && IsWhitespace(s[|s| - 1]) {
      var t, c := s[..|s| - 1], s[|s| - 1];
      assert s == t + [c];
      TrimOneKeepsHeadings(t, c);
      TrimKeepsHeadings(t);
    }
  }

  /** Labels are unforgeable: whatever the entries hold, the transcript's heading lines are one label
      per entry, in entry order. */
  lemma LabelsAreUnforgeable(entries: seq<Entry>)
    ensures Headings(Flatten(WORDING, entries)) == Labels(WORDING, entries)
  {
    WordingIsWellWorded();
    LabelsHold(WORDING, entries);
  }

  lemma LabelsEndVisibly(w: Wording, entries: seq<Entry>)
    requires WellWorded(w)
    ensures AllEndVisibly(Labels(w, entries))
  {
    forall i | 0 <= i < |entries|
      ensures EndsVisibly(Label(w, entries[i]))
    {
    }
  }

  lemma LabelsHold(w: Wording, entries: seq<Entry>)
    requires WellWorded(w)
    ensures Headings(Flatten(w, entries)) == Labels(w, entries)
  {
    UntrimmedHeadings(w, entries);
    LabelsEndVisibly(w, entries);
    TrimKeepsHeadings(Untrimmed(w, entries));
  }

  // ----- A newline is the only line break in the transcript

  predicate Clean(s: string)
  {
    forall i :: 0 <= i < |s| ==> !IsOtherBreak(s[i])
  }

  lemma {:induction false} SplitIsClean(s: string)
    requires Clean(s)
    ensures forall i :: 0 <= i < |Split(s)| ==> Clean(Split(s)[i])
  {
    if s != "" {
      SplitIsClean(s[1..]);
    }
  }

  lemma {:induction false} JoinIsClean(lines: seq<string>)
    requires forall i :: 0 <= i < |lines| ==> Clean(lines[i])
    ensures Clean(Join(lines))
  {
    if |lines| > 1 {
      JoinIsClean(lines[1..]);
    }
  }

  lemma MappedIsClean(f: string -> string, text: string)
    requires Clean(text) && forall line :: Clean(line) ==> Clean(f(line))
    ensures Clean(Join(Mapped(f, Lines(text))))
  {
    SplitIsClean(text);
    JoinIsClean(Mapped(f, Lines(text)));
  }

  lemma QuotedIsClean(s: string)
    ensures Clean(Quoted(s))
  {
    MappedIsClean(QuoteLine, NormalizeLineBreaks(s));
  }

  lemma EscapedIsClean(s: string)
    ensures Clean(EscapeHeadings(s))
  {
    forall line | Clean(line)
      ensures Clean(EscapeLine(line))
    {
      EscapedLineIsClean(line);
    }
    MappedIsClean(EscapeLine, NormalizeLineBreaks(s));
  }

  lemma EscapedLineIsClean(line: string)
    requires Clean(line)
    ensures Clean(EscapeLine(line))
  {
    TrimStartCuts(line);
  }

  lemma {:induction false} NameIsClean(s: string)
    requires Clean(s)
    ensures Clean(ReplaceNewlines(s))
  {
    if s != "" {
      NameIsClean(s[1..]);
    }
  }

  lemma {:induction false} DecimalIsClean(n: nat)
    ensures Clean(Decimal(n))
  {
    if n >= 10 {
      DecimalIsClean(n / 10);
    }
  }

  /** The printer's words bring in no other break either. */
  predicate CleanlyWorded(w: Wording)
  {
    && Clean(w.user) && Clean(w.assistant) && Clean(w.system) && Clean(w.earlier)
    && Clean(w.call) && Clean(w.success) && Clean(w.error) && Clean(w.denied) && Clean(w.interrupted)
    && Clean(w.imagesBefore) && Clean(w.imagesBetween) && Clean(w.imagesAfter)
  }

  lemma LabelsAreClean()
    ensures Clean(USER_LABEL) && Clean(ASSISTANT_LABEL) && Clean(SYSTEM_LABEL) && Clean(EARLIER_LABEL)
  {
  }

  lemma ResultNotesAreClean()
    ensures Clean(SUCCESS_NOTE) && Clean(ERROR_NOTE) && Clean(DENIED_NOTE)
  {
  }

  lemma CallNotesAreClean()
    ensures Clean(CALL_NOTE) && Clean(INTERRUPTED_NOTE)
  {
  }

  lemma ImageNotesAreClean()
    ensures Clean(IMAGES_BEFORE) && Clean(IMAGES_BETWEEN) && Clean(IMAGES_AFTER)
  {
  }

  lemma NotesAreClean()
    ensures Clean(CALL_NOTE) && Clean(SUCCESS_NOTE) && Clean(ERROR_NOTE) && Clean(DENIED_NOTE)
    ensures Clean(INTERRUPTED_NOTE) && Clean(IMAGES_BEFORE) && Clean(IMAGES_BETWEEN) && Clean(IMAGES_AFTER)
  {
    ResultNotesAreClean();
    CallNotesAreClean();
    ImageNotesAreClean();
  }

  lemma CleanPair(a: string, b: string)
    requires Clean(a) && Clean(b)
    ensures Clean(a + "\n" + b)
  {
  }

  lemma OutcomeIsClean(w: Wording, e: Exchange)
    requires CleanlyWorded(w)
    ensures Clean(Outcome(w, e))
  {
    if e.result.Some? {
      var r := e.result.value;
      QuotedIsClean(TruncateChars(r.content, HANDOVER_TOOL_RESULT_CHARS));
      CleanPair(ResultLine(w, r.status), Quoted(TruncateChars(r.content, HANDOVER_TOOL_RESULT_CHARS)));
    }
  }

  lemma ExchangeIsClean(w: Wording, e: Exchange)
    requires CleanlyWorded(w)
    ensures Clean(ExchangeText(w, e))
  {
    var call, arguments := CallLine(w, e.call.name), Quoted(TruncateChars(e.call.arguments, HANDOVER_TOOL_ARGS_CHARS));
    NameIsClean(NormalizeLineBreaks(e.call.name));
    QuotedIsClean(TruncateChars(e.call.arguments, HANDOVER_TOOL_ARGS_CHARS));
    OutcomeIsClean(w, e);
    CleanPair("", call);
    CleanPair("" + "\n" + call, arguments);
    CleanPair("" + "\n" + call + "\n" + arguments, Outcome(w, e));
    ExchangeTextIs(w, "", e);
    assert "" + ExchangeText(w, e) == ExchangeText(w, e);
  }

  lemma {:induction false} ExchangesAreClean(w: Wording, exchanges: seq<Exchange>)
    requires CleanlyWorded(w)
    ensures Clean(ExchangesText(w, exchanges))
  {
    if exchanges != [] {
      ExchangeIsClean(w, exchanges[0]);
      ExchangesAreClean(w, exchanges[1..]);
    }
  }

  lemma CleanConcat(a: string, b: string)
    requires Clean(a) && Clean(b)
    ensures Clean(a + b)
  {
  }

  lemma ImageNoteIsClean(w: Wording, count: nat)
    requires CleanlyWorded(w)
    ensures Clean(ImageNote(w, count))
  {
    DecimalIsClean(count);
    CleanConcat(w.imagesBefore, Decimal(count));
    CleanConcat(w.imagesBefore + Decimal(count), w.imagesBetween);
    CleanConcat(w.imagesBefore + Decimal(count) + w.imagesBetween, Decimal(count));
    CleanConcat(w.imagesBefore + Decimal(count) + w.imagesBetween + Decimal(count), w.imagesAfter);
  }

  lemma OwnTextIsClean(e: Entry)
    ensures Clean(OwnText(e))
  {
    match e
    case Compaction(summary, _) => EscapedIsClean(TruncateChars(summary, MAX_HANDOVER_SUMMARY_CHARS));
    case _ => EscapedIsClean(TruncateChars(e.content, HANDOVER_TEXT_CHARS));
  }

  lemma DetailsAreClean(w: Wording, e: Entry)
    requires CleanlyWorded(w)
    ensures Clean(Details(w, e))
  {
    match e
    case User(_, images) => ImageNoteIsClean(w, |images|);
    case Assistant(_, _, exchanges) => ExchangesAreClean(w, exchanges);
    case _ =>
  }

  lemma BodyIsClean(w: Wording, e: Entry)
    requires CleanlyWorded(w)
    ensures Clean(Body(w, e))
  {
    OwnTextIsClean(e);
    DetailsAreClean(w, e);
    CleanConcat(OwnText(e), Details(w, e));
  }

  lemma EntryIsClean(w: Wording, e: Entry)
    requires CleanlyWorded(w)
    ensures Clean(EntryText(w, e))
  {
    BodyIsClean(w, e);
    CleanPair(Label(w, e), Body(w, e));
    CleanConcat(Label(w, e) + "\n" + Body(w, e), "\n\n");
  }

  lemma {:induction false} UntrimmedIsClean(w: Wording, entries: seq<Entry>)
    requires CleanlyWorded(w)
    ensures Clean(Untrimmed(w, entries))
  {
    if entries != [] {
      EntryIsClean(w, entries[0]);
      UntrimmedIsClean(w, entries[1..]);
      CleanConcat(EntryText(w, entries[0]), Untrimmed(w, entries[1..]));
    }
  }

  lemma {:induction false} TrimEndIsPrefix(s: string)
    ensures TrimEnd(s) <= s
  {
    if s != "" && IsWhitespace(s[|s| - 1]) {
      TrimEndIsPrefix(s[..|s| - 1]);
    }
  }

  /** A reader that also breaks lines at a carriage return, a form feed or a Unicode separator sees the
      same lines. */
  lemma NewlineIsTheOnlyBreak(entries: seq<Entry>)
    ensures Clean(Flatten(WORDING, entries))
    ensures forall c :: c in Flatten(WORDING, entries) ==>
              c !in {'\r', '\U{2028}', '\U{2029}', '\U{0085}', '\U{000B}', '\U{000C}'}
  {
    LabelsAreClean();
    NotesAreClean();
    UntrimmedIsClean(WORDING, entries);
    TrimEndIsPrefix(Untrimmed(WORDING, entries));
  }

  // ----- The printer

  method AppendExchanges(w: Wording, before: string, exchanges: seq<Exchange>) returns (out: string)
    ensures out == before + ExchangesText(w, exchanges)
  {
    out := before;
    for i := 0 to |exchanges|
      invariant out + ExchangesText(w, exchanges[i..]) == before + ExchangesText(w, exchanges)
    {
      assert exchanges[i..][0] == exchanges[i] && exchanges[i..][1..] == exchanges[i + 1..];
      Assoc(out, ExchangeText(w, exchanges[i]), ExchangesText(w, exchanges[i + 1..]));
      out := out + ExchangeText(w, exchanges[i]);
    }
    assert exchanges[|exchanges|..] == [];
    assert out + "" == out;
  }

  method AppendBody(w: Wording, before: string, e: Entry) returns (out: string)
    ensures out == before + Body(w, e)
  {
    Assoc(before, OwnText(e), Details(w, e));
    match e {
      case User(content, images) =>
        out := before + EscapeHeadings(TruncateChars(content, HANDOVER_TEXT_CHARS));
        if images != [] {
          out := out + ("\n" + ImageNote(w, |images|));
        } else {
          assert out + "" == out;
        }
      case Assistant(content, _, exchanges) =>
        out := before + EscapeHeadings(TruncateChars(content, HANDOVER_TEXT_CHARS));
        out := AppendExchanges(w, out, exchanges);
      case System(content) =>
        out := before + EscapeHeadings(TruncateChars(content, HANDOVER_TEXT_CHARS));
        assert out + "" == out;
      case Compaction(summary, _) =>
        out := before + EscapeHeadings(TruncateChars(summary, MAX_HANDOVER_SUMMARY_CHARS));
        assert out + "" == out;
    }
  }

  method AppendEntry(w: Wording, before: string, e: Entry) returns (out: string)
    ensures out == before + EntryText(w, e)
  {
    out := before + (Label(w, e) + "\n");
    out := AppendBody(w, out, e);
    Assoc(before, Label(w, e) + "\n", Body(w, e));
    Assoc(before, Label(w, e) + "\n" + Body(w, e), "\n\n");
    out := out + "\n\n";
  }

  method FlattenEntries(entries: seq<Entry>) returns (text: string)
    ensures text == Flatten(WORDING, entries)
    ensures Headings(text) == Labels(WORDING, entries) && Clean(text)
  {
    var w := WORDING;
    var out := "";
    for i := 0 to |entries|
      invariant out + Untrimmed(w, entries[i..]) == Untrimmed(w, entries)
    {
      assert entries[i..][0] == entries[i] && entries[i..][1..] == entries[i + 1..];
      Assoc(out, EntryText(w, entries[i]), Untrimmed(w, entries[i + 1..]));
      out := AppendEntry(w, out, entries[i]);
    }
    assert entries[|entries|..] == [];
    assert out + "" == out;
    LabelsAreUnforgeable(entries);
    NewlineIsTheOnlyBreak(entries);
    return TrimEnd(out);
  }
}
