/** What the transcript says: read back line by line, it gives every entry's text, arguments and results,
    shortened where they are too long. */
module TranscriptContent {
  import opened Wrappers
  import opened Text
  import opened Sequences
  import opened Session
  import opened TrimmedLines
  import opened Transcript

  // ----- Reading a line back

  /** A heading line as it was before its backslash. */
  function Unescaped(line: string): string
  {
    var rest := TrimStart(line);
    if "\\#" <= rest then line[..|line| - |rest|] + rest[1..] else line
  }

  /** A line that reads as an escaped heading line without being one. */
  predicate Ambiguous(line: string)
  {
    "\\#" <= TrimStart(line)
  }

  function Unquoted(line: string): string
  {
    if |line| <= 1 then "" else line[2..]
  }

  lemma {:induction false} TrimStartBehind(front: string, rest: string)
    requires (forall i :: 0 <= i < |front| ==> IsWhitespace(front[i])) && rest != "" && !IsWhitespace(rest[0])
    ensures TrimStart(front + rest) == rest
  {
    TrimStartAfter(front, rest[0], rest[1..]);
    assert front + rest == front + [rest[0]] + rest[1..] && rest == [rest[0]] + rest[1..];
  }

  lemma Indentation(line: string) returns (front: string)
    ensures line == front + TrimStart(line) && forall i :: 0 <= i < |front| ==> IsWhitespace(front[i])
  {
    TrimStartCuts(line);
    front := line[..|line| - |TrimStart(line)|];
  }

  /** The escaped form of a heading line, and what it reads back as. */
  lemma {:induction false} HeadingReadsBack(line: string, front: string, rest: string)
    requires line == front + rest && rest == TrimStart(line)
    requires forall i :: 0 <= i < |front| ==> IsWhitespace(front[i])
    requires rest != "" && rest[0] == '#'
    ensures EscapeLine(line) == front + ("\\" + rest) && TrimStart(EscapeLine(line)) == "\\" + rest
    ensures Unescaped(EscapeLine(line)) == line
  {
    assert line[..|line| - |rest|] == front && front + "\\" + rest == front + ("\\" + rest);
    TrimStartBehind(front, "\\" + rest);
    UnescapedBack(front + ("\\" + rest), front, rest);
  }

  lemma {:induction false} UnescapedBack(shown: string, front: string, rest: string)
    requires shown == front + ("\\" + rest) && TrimStart(shown) == "\\" + rest && rest != "" && rest[0] == '#'
    ensures Unescaped(shown) == front + rest
  {
    assert ("\\" + rest)[1..] == rest && shown[..|front|] == front;
  }

  /** A line reads back exactly when it did not look escaped before; one that did is the escaped form of
      another line as well, so no reader can tell the two. */
  lemma LineReadsBackIff(line: string)
    ensures Unescaped(EscapeLine(line)) == line <==> !Ambiguous(line)
    ensures Ambiguous(line) ==> EscapeLine(line) == line == EscapeLine(Unescaped(line)) && Unescaped(line) != line
  {
    var front := Indentation(line);
    if IsHeading(line) {
      HeadingReadsBack(line, front, TrimStart(line));
    } else if Ambiguous(line) {
      AmbiguousLine(line, front, TrimStart(line)[1..]);
    }
  }

  lemma {:induction false} AmbiguousLine(line: string, front: string, rest: string)
    requires line == front + TrimStart(line) && (forall i :: 0 <= i < |front| ==> IsWhitespace(front[i]))
    requires Ambiguous(line) && rest == TrimStart(line)[1..]
    ensures EscapeLine(line) == line && EscapeLine(Unescaped(line)) == line && Unescaped(line) != line
  {
    var shown := TrimStart(line);
    BackslashHash(shown, rest);
    UnescapedIs(line, front, rest);
    TrimStartBehind(front, rest);
    HeadingReadsBack(front + rest, front, rest);
  }

  lemma BackslashHash(shown: string, rest: string)
    requires "\\#" <= shown && rest == shown[1..]
    ensures shown == "\\" + rest && shown[0] != '#' && rest != "" && rest[0] == '#'
  {
    assert shown[0] == '\\' && shown[1] == '#';
  }

  lemma {:induction false} UnescapedIs(line: string, front: string, rest: string)
    requires Ambiguous(line) && line == front + TrimStart(line) && rest == TrimStart(line)[1..]
    ensures Unescaped(line) == front + rest && |Unescaped(line)| < |line|
  {
    assert line[..|line| - |TrimStart(line)|] == front;
  }

  lemma QuoteReadsBack(line: string)
    ensures Unquoted(QuoteLine(line)) == line
  {
  }

  // ----- Reading a text back

  /** A text whole, or its first `max` characters and an ellipsis. */
  predicate IsShort(text: string, max: nat, short: string)
  {
    if |text| <= max then short == text else |short| == max + 1 && short[..max] == text[..max] && short[max] == '…'
  }

  /** The lines of a text, all its line breaks taken as such; the empty text has one. */
  function LinesOf(text: string): seq<string>
  {
    if text == "" then [""] else Lines(NormalizeLineBreaks(text))
  }

  /** Normalizing goes through a text piece by piece, `\r\n` being one piece. */
  lemma {:induction false} NormalizeConcat(a: string, b: string)
    requires a != "" && b != "" ==> !(a[|a| - 1] == '\r' && b[0] == '\n')
    ensures NormalizeLineBreaks(a + b) == NormalizeLineBreaks(a) + NormalizeLineBreaks(b)
    decreases |a|
  {
    if a == "" || b == "" {
      assert a + b == if a == "" then b else a;
    } else if |a| >= 2 && a[0] == '\r' && a[1] == '\n' {
      assert (a + b)[2..] == a[2..] + b;
      NormalizeConcat(a[2..], b);
    } else {
      assert (a + b)[1..] == a[1..] + b;
      NormalizeConcat(a[1..], b);
    }
  }

  /** And makes every line break a newline and nothing else. */
  lemma NormalizePieces(c: char)
    ensures NormalizeLineBreaks([c]) ==
            if c in {'\r', '\U{2028}', '\U{2029}', '\U{0085}', '\U{000B}', '\U{000C}'} then "\n" else [c]
    ensures NormalizeLineBreaks("\r\n") == "\n"
  {
    assert [c][1..] == "" && "\r\n"[2..] == "";
  }

  /** These lines, read back, are the lines of the text, up to its cap. */
  ghost predicate ShowsQuoted(lines: seq<string>, text: string, max: nat)
  {
    exists short :: && IsShort(text, max, short) && Mapped(Unquoted, lines) == LinesOf(short)
                    && (short != "" ==> AllQuoted(lines))
  }

  /** Every line is opened as a quote, a blank one without a space. */
  ghost predicate AllQuoted(lines: seq<string>)
  {
    forall k :: 0 <= k < |lines| ==> lines[k] == ">" || ("> " <= lines[k] && |lines[k]| > 2)
  }

  ghost predicate ShowsEscaped(lines: seq<string>, text: string, max: nat)
  {
    exists short :: IsShort(text, max, short) && ReadsAs(lines, LinesOf(short))
  }

  predicate ReadsAs(shown: seq<string>, lines: seq<string>)
  {
    && |shown| == |lines|
    && forall k :: 0 <= k < |lines| ==>
         if Ambiguous(lines[k]) then shown[k] == lines[k] else Unescaped(shown[k]) == lines[k]
  }

  lemma {:induction false} NormalizedIsThere(s: string)
    requires s != ""
    ensures NormalizeLineBreaks(s) != ""
  {
  }

  lemma LinesAreThere(s: string)
    requires s != ""
    ensures Lines(s) != []
  {
    if |Split(s)| == 1 {
      JoinSplit(s);
    }
  }

  lemma {:induction false} JoinSplit(s: string)
    ensures Join(Split(s)) == s
  {
    if s != "" {
      JoinSplit(s[1..]);
      var rest := Split(s[1..]);
      if s[0] == '\n' {
        assert ([""] + rest)[1..] == rest;
      } else {
        assert ([[s[0]] + rest[0]] + rest[1..])[1..] == rest[1..];
      }
    }
  }

  lemma MappedLines(f: string -> string, text: string)
    requires text != "" && forall line :: OneLine(line) ==> OneLine(f(line))
    ensures Split(Join(Mapped(f, Lines(text)))) == Mapped(f, Lines(text))
  {
    LinesAreThere(text);
    SplitJoin(Mapped(f, Lines(text)));
  }

  lemma QuotedReadsBack(text: string)
    ensures Mapped(Unquoted, Split(Quoted(text))) == LinesOf(text)
    ensures text != "" ==> AllQuoted(Split(Quoted(text)))
  {
    if text == "" {
      assert Quoted("") == "" && Split("") == [""];
    } else {
      var lines := LinesOf(text);
      NormalizedIsThere(text);
      MappedLines(QuoteLine, NormalizeLineBreaks(text));
      forall k | 0 <= k < |lines|
        ensures Unquoted(QuoteLine(lines[k])) == lines[k]
      {
        QuoteReadsBack(lines[k]);
      }
    }
  }

  lemma EscapedReadsBack(text: string)
    ensures ReadsAs(Split(EscapeHeadings(text)), LinesOf(text))
  {
    if text == "" {
      assert EscapeHeadings("") == "" && Split("") == [""] && TrimStart("") == "";
    } else {
      var lines := LinesOf(text);
      NormalizedIsThere(text);
      EscapedStaysOneLine();
      MappedLines(EscapeLine, NormalizeLineBreaks(text));
      forall k | 0 <= k < |lines|
        ensures if Ambiguous(lines[k]) then EscapeLine(lines[k]) == lines[k]
                else Unescaped(EscapeLine(lines[k])) == lines[k]
      {
        LineReadsBackIff(lines[k]);
      }
    }
  }

  lemma EscapedStaysOneLine()
    ensures forall line :: OneLine(line) ==> OneLine(EscapeLine(line))
  {
    forall line | OneLine(line)
      ensures OneLine(EscapeLine(line))
    {
      EscapedLineIsNoHeading(line);
    }
  }

  lemma TruncatedIsShort(text: string, max: nat)
    ensures IsShort(text, max, TruncateChars(text, max))
  {
  }

  lemma QuotedShows(text: string, max: nat)
    ensures ShowsQuoted(Split(Quoted(TruncateChars(text, max))), text, max)
  {
    TruncatedIsShort(text, max);
    QuotedReadsBack(TruncateChars(text, max));
  }

  lemma EscapedShows(text: string, max: nat)
    ensures ShowsEscaped(Split(EscapeHeadings(TruncateChars(text, max))), text, max)
  {
    TruncatedIsShort(text, max);
    EscapedReadsBack(TruncateChars(text, max));
  }

  // ----- Reading an exchange back

  const RESULT_BEFORE: string := "[结果 / result: "

  function StatusWord(status: Status): string
  {
    match status
    case Success => "success"
    case Error => "error"
    case Denied => "denied"
  }

  /** A tool's name on one line: its line breaks are spaces. */
  predicate NameShown(name: string, shown: string)
  {
    var t := NormalizeLineBreaks(name);
    |shown| == |t| && forall k :: 0 <= k < |t| ==> shown[k] == if t[k] == '\n' then ' ' else t[k]
  }

  /** The lines of one exchange, `n` of them its arguments. */
  ghost predicate TellsExchange(w: Wording, e: Exchange, lines: seq<string>, n: nat)
  {
    && n + 1 < |lines|
    && w.call <= lines[0] && NameShown(e.call.name, lines[0][|w.call|..])
    && ShowsQuoted(lines[1..n + 1], e.call.arguments, HANDOVER_TOOL_ARGS_CHARS)
    && match e.result
       case Some(r) =>
         && lines[n + 1] == ResultLine(w, r.status)
         && ShowsQuoted(lines[n + 2..], r.content, HANDOVER_TOOL_RESULT_CHARS)
       case None => lines[n + 1..] == [w.interrupted]
  }

  ghost predicate TellsExchanges(w: Wording, exchanges: seq<Exchange>, lines: seq<string>)
    decreases |exchanges|
  {
    if exchanges == [] then lines == []
    else exists k: nat, n: nat ::
           && k <= |lines| && TellsExchange(w, exchanges[0], lines[..k], n)
           && TellsExchanges(w, exchanges[1..], lines[k..])
  }

  lemma {:induction false} NameIsShown(s: string)
    ensures |ReplaceNewlines(s)| == |s|
    ensures forall k :: 0 <= k < |s| ==> ReplaceNewlines(s)[k] == if s[k] == '\n' then ' ' else s[k]
  {
    if s != "" {
      NameIsShown(s[1..]);
    }
  }

  lemma StatusLine(status: Status)
    ensures ResultLine(WORDING, status) == RESULT_BEFORE + StatusWord(status) + "]"
  {
  }

  function ExchangeLines(w: Wording, e: Exchange): seq<string>
  {
    [CallLine(w, e.call.name)] + Split(Quoted(TruncateChars(e.call.arguments, HANDOVER_TOOL_ARGS_CHARS)))
    + OutcomeLines(w, e.result)
  }

  function OutcomeLines(w: Wording, result: Option<ExchangeResult>): seq<string>
  {
    match result
    case Some(r) =>
      [ResultLine(w, r.status)] + Split(Quoted(TruncateChars(r.content, HANDOVER_TOOL_RESULT_CHARS)))
    case None => [w.interrupted]
  }

  lemma ExchangeIsTold(w: Wording, e: Exchange)
    ensures TellsExchange(w, e, ExchangeLines(w, e),
                          |Split(Quoted(TruncateChars(e.call.arguments, HANDOVER_TOOL_ARGS_CHARS)))|)
  {
    var call := CallLine(w, e.call.name);
    var arguments := Split(Quoted(TruncateChars(e.call.arguments, HANDOVER_TOOL_ARGS_CHARS)));
    var lines, n := ExchangeLines(w, e), |arguments|;
    NameIsShown(NormalizeLineBreaks(e.call.name));
    assert call[|w.call|..] == ReplaceNewlines(NormalizeLineBreaks(e.call.name));
    QuotedShows(e.call.arguments, HANDOVER_TOOL_ARGS_CHARS);
    assert lines[1..n + 1] == arguments;
    assert lines[n + 1..] == OutcomeLines(w, e.result);
    if e.result.Some? {
      QuotedShows(e.result.value.content, HANDOVER_TOOL_RESULT_CHARS);
      assert lines[n + 2..] == OutcomeLines(w, e.result)[1..];
      assert lines[n + 1] == OutcomeLines(w, e.result)[0];
    }
  }

  lemma OutcomeSplits(w: Wording, e: Exchange)
    requires WellWorded(w)
    ensures Split(Outcome(w, e)) == OutcomeLines(w, e.result)
  {
    match e.result
    case Some(r) =>
      SplitConcat(ResultLine(w, r.status), Quoted(TruncateChars(r.content, HANDOVER_TOOL_RESULT_CHARS)));
      SplitOneLine(ResultLine(w, r.status));
    case None => SplitOneLine(w.interrupted);
  }

  lemma {:induction false} ThreeSplit(a: string, b: string, c: string)
    ensures Split(a + "\n" + b + "\n" + c) == Split(a) + Split(b) + Split(c)
  {
    SplitConcat(a, b);
    SplitConcat(a + "\n" + b, c);
  }

  lemma GroupLastThree<T>(a: seq<T>, b: seq<T>, c: seq<T>, d: seq<T>)
    ensures a + b + c + d == a + (b + c + d)
  {
  }

  lemma {:induction false} FourSplit(before: string, call: string, arguments: string, outcome: string)
    requires OneLine(call)
    ensures Split(before + "\n" + call + "\n" + arguments + "\n" + outcome) ==
            Split(before) + ([call] + Split(arguments) + Split(outcome))
  {
    ThreeSplit(before, call, arguments);
    SplitConcat(before + "\n" + call + "\n" + arguments, outcome);
    SplitOneLine(call);
    GroupLastThree(Split(before), [call], Split(arguments), Split(outcome));
  }

  lemma {:induction false} ExchangeSplits(w: Wording, before: string, e: Exchange)
    requires WellWorded(w)
    ensures Split(before + ExchangeText(w, e)) == Split(before) + ExchangeLines(w, e)
  {
    ExchangeTextIs(w, before, e);
    FourSplit(before, CallLine(w, e.call.name), Quoted(TruncateChars(e.call.arguments, HANDOVER_TOOL_ARGS_CHARS)),
              Outcome(w, e));
    OutcomeSplits(w, e);
  }

  lemma {:induction false} ExchangesAreTold(w: Wording, before: string, exchanges: seq<Exchange>)
    returns (lines: seq<string>)
    requires WellWorded(w)
    ensures Split(before + ExchangesText(w, exchanges)) == Split(before) + lines
    ensures TellsExchanges(w, exchanges, lines)
    decreases |exchanges|
  {
    if exchanges == [] {
      lines := [];
      assert before + "" == before;
    } else {
      var e, own := exchanges[0], ExchangeLines(w, exchanges[0]);
      ExchangeSplits(w, before, e);
      ExchangeIsTold(w, e);
      var more := ExchangesAreTold(w, before + ExchangeText(w, e), exchanges[1..]);
      Assoc(before, ExchangeText(w, e), ExchangesText(w, exchanges[1..]));
      Assoc(Split(before), own, more);
      lines := own + more;
      assert lines[..|own|] == own && lines[|own|..] == more;
    }
  }

  // ----- Reading an entry back

  function Content(e: Entry): string
  {
    match e
    case System(content) => content
    case User(content, _) => content
    case Assistant(content, _, _) => content
    case Compaction(summary, _) => summary
  }

  /** The label an entry stands under. */
  function RoleTitle(e: Entry): string
  {
    if e.User? then "### 用户 / User"
    else if e.Assistant? then "### 助手 / Assistant"
    else if e.System? then "### 系统 / System"
    else "### 之前的摘要 / Earlier summary"
  }

  lemma LabelsAreTitles(e: Entry)
    ensures Label(WORDING, e) == RoleTitle(e)
  {
  }

  function Cap(e: Entry): nat
  {
    if e.Compaction? then MAX_HANDOVER_SUMMARY_CHARS else HANDOVER_TEXT_CHARS
  }

  /** What follows an entry's own text. */
  ghost predicate TellsDetails(w: Wording, e: Entry, lines: seq<string>)
  {
    match e
    case User(_, images) => lines == if images == [] then [] else [ImageNote(w, |images|)]
    case Assistant(_, _, exchanges) => TellsExchanges(w, exchanges, lines)
    case _ => lines == []
  }

  lemma OwnTextShows(e: Entry)
    ensures ShowsEscaped(Split(OwnText(e)), Content(e), Cap(e))
  {
    EscapedShows(Content(e), Cap(e));
  }

  lemma DetailsAreTold(w: Wording, before: string, e: Entry) returns (lines: seq<string>)
    requires WellWorded(w)
    ensures Split(before + Details(w, e)) == Split(before) + lines && TellsDetails(w, e, lines)
  {
    lines := [];
    match e
    case User(_, images) =>
      if images != [] {
        ImageNoteSplits(w, before, |images|);
        lines := [ImageNote(w, |images|)];
      } else {
        assert before + "" == before;
      }
    case Assistant(_, _, exchanges) => lines := ExchangesAreTold(w, before, exchanges);
    case _ => assert before + "" == before;
  }

  lemma {:induction false} ImageNoteSplits(w: Wording, before: string, count: nat)
    requires WellWorded(w) && count > 0
    ensures Split(before + ImageLine(w, count)) == Split(before) + [ImageNote(w, count)]
  {
    NotesAreSafe(w, "", count);
    Assoc(before, "\n", ImageNote(w, count));
    SplitConcat(before, ImageNote(w, count));
    ImageNoteIsOneLine(w, count);
    SplitOneLine(ImageNote(w, count));
  }

  lemma ImageNoteIsOneLine(w: Wording, count: nat)
    requires WellWorded(w)
    ensures OneLine(ImageNote(w, count))
  {
  }

  // ----- Reading the transcript back

  /** The lines before the first title. */
  function PlainRun(isTitle: string -> bool, lines: seq<string>): (n: nat)
    ensures n <= |lines|
  {
    if lines == [] || isTitle(lines[0]) then 0 else 1 + PlainRun(isTitle, lines[1..])
  }

  /** A reader's view: every title with the lines up to the next one. */
  function Groups(isTitle: string -> bool, lines: seq<string>): seq<(string, seq<string>)>
    decreases |lines|
  {
    if lines == [] then []
    else if !isTitle(lines[0]) then Groups(isTitle, lines[1..])
    else
      var n := PlainRun(isTitle, lines[1..]);
      [(lines[0], lines[1..n + 1])] + Groups(isTitle, lines[n + 1..])
  }

  ghost predicate NoTitle(isTitle: string -> bool, lines: seq<string>)
  {
    forall i :: 0 <= i < |lines| ==> !isTitle(lines[i])
  }

  lemma {:induction false} PlainRunIs(isTitle: string -> bool, plain: seq<string>, rest: seq<string>)
    requires NoTitle(isTitle, plain) && (rest == [] || isTitle(rest[0]))
    ensures PlainRun(isTitle, plain + rest) == |plain|
  {
    if plain == [] {
      assert plain + rest == rest;
    } else {
      TailOfConcat(plain, rest);
      PlainRunIs(isTitle, plain[1..], rest);
    }
  }

  lemma {:induction false} OneGroup(isTitle: string -> bool, title: string, plain: seq<string>, rest: seq<string>)
    requires isTitle(title) && NoTitle(isTitle, plain) && (rest == [] || isTitle(rest[0]))
    ensures Groups(isTitle, [title] + plain + rest) == [(title, plain)] + Groups(isTitle, rest)
  {
    var lines, n := [title] + plain + rest, |plain|;
    assert lines[1..] == plain + rest;
    PlainRunIs(isTitle, plain, rest);
    assert lines[1..n + 1] == plain && lines[n + 1..] == rest;
  }

  /** A title and its lines in front of more, or at the end of a text. */
  lemma {:induction false} FirstGroup(isTitle: string -> bool, title: string, plain: seq<string>, more: seq<string>)
    requires isTitle(title) && NoTitle(isTitle, plain) && !isTitle("")
    requires more == [""] || (more != [] && isTitle(more[0]))
    ensures Groups(isTitle, [title] + (plain + [""]) + more) ==
            if more == [""] then [(title, plain + ["", ""])] else [(title, plain + [""])] + Groups(isTitle, more)
  {
    if more == [""] {
      OneGroup(isTitle, title, plain + ["", ""], []);
      assert [title] + (plain + [""]) + more == [title] + (plain + ["", ""]) + [];
      assert Groups(isTitle, []) == [];
    } else {
      OneGroup(isTitle, title, plain + [""], more);
    }
  }

  lemma {:induction false} NothingFiltered(isTitle: string -> bool, lines: seq<string>)
    requires Filter(isTitle, lines) == []
    ensures NoTitle(isTitle, lines)
  {
    if lines != [] {
      NothingFiltered(isTitle, lines[1..]);
      assert forall i :: 1 <= i < |lines| ==> lines[i] == lines[1..][i - 1];
    }
  }

  lemma {:induction false} PiecesSplit(title: string, body: string, more: string)
    requires OneLine(title)
    ensures Split(title + "\n" + body + "\n\n" + more) == [title] + (Split(body) + [""]) + Split(more)
  {
    TwoNewlines(title + "\n" + body, more);
    SplitConcat(title, body);
    SplitOneLine(title);
    BlankLineSplits(title + "\n" + body, more);
    Assoc([title], Split(body), [""]);
  }

  lemma {:induction false} BlankLineSplits(a: string, b: string)
    ensures Split(a + "\n" + "\n" + b) == Split(a) + [""] + Split(b)
  {
    SplitConcat(a, "");
    SplitOneLine("");
    assert a + "\n" + "" == a + "\n";
    SplitConcat(a + "\n", b);
  }

  lemma BodyHasNoTitle(w: Wording, e: Entry)
    requires WellWorded(w)
    ensures NoTitle(IsHeading, Split(Body(w, e)))
  {
    BodyIsSafe(w, e);
    NothingFiltered(IsHeading, Split(Body(w, e)));
  }

  function Bodies(w: Wording, entries: seq<Entry>): (r: seq<seq<string>>)
    ensures |r| == |entries| && forall i :: 0 <= i < |r| ==> r[i] == Split(Body(w, entries[i]))
  {
    seq(|entries|, i requires 0 <= i < |entries| => Split(Body(w, entries[i])))
  }

  /** Every entry as a reader finds it: its title, and its lines with the blank ones behind them. */
  function Told(titles: seq<string>, bodies: seq<seq<string>>): seq<(string, seq<string>)>
    requires |titles| == |bodies|
  {
    if titles == [] then []
    else
      var blanks := if |titles| == 1 then ["", ""] else [""];
      [(titles[0], bodies[0] + blanks)] + Told(titles[1..], bodies[1..])
  }

  lemma {:induction false} ToldAt(titles: seq<string>, bodies: seq<seq<string>>, i: nat)
    requires |titles| == |bodies| && i < |titles|
    ensures |Told(titles, bodies)| == |titles|
    ensures Told(titles, bodies)[i] == (titles[i], bodies[i] + if i == |titles| - 1 then ["", ""] else [""])
  {
    if |titles| > 1 {
      ToldAt(titles[1..], bodies[1..], if i > 0 then i - 1 else 0);
    }
  }

  lemma {:induction false} OneMoreTold(isTitle: string -> bool, titles: seq<string>, bodies: seq<seq<string>>,
                                       more: seq<string>)
    requires |titles| == |bodies| && titles != [] && isTitle(titles[0]) && NoTitle(isTitle, bodies[0]) && !isTitle("")
    requires if |titles| == 1 then more == [""] else more != [] && more[0] != "" && isTitle(more[0])
    requires Groups(isTitle, more) == Told(titles[1..], bodies[1..])
    ensures Groups(isTitle, [titles[0]] + (bodies[0] + [""]) + more) == Told(titles, bodies)
  {
    FirstGroup(isTitle, titles[0], bodies[0], more);
  }

  lemma TailsOf(w: Wording, entries: seq<Entry>)
    requires entries != []
    ensures Labels(w, entries)[1..] == Labels(w, entries[1..]) && Bodies(w, entries)[1..] == Bodies(w, entries[1..])
  {
    LabelsCons(w, entries);
    BodiesCons(w, entries);
  }

  lemma BodiesCons(w: Wording, entries: seq<Entry>)
    requires entries != []
    ensures Bodies(w, entries)[1..] == Bodies(w, entries[1..])
  {
    var all, rest := Bodies(w, entries), Bodies(w, entries[1..]);
    forall i | 0 <= i < |rest|
      ensures all[1..][i] == rest[i]
    {
      assert all[i + 1] == Split(Body(w, entries[i + 1]));
    }
  }

  lemma {:induction false} EntryLines(w: Wording, e: Entry, more: string)
    requires WellWorded(w)
    ensures Split(EntryText(w, e) + more) == [Label(w, e)] + (Split(Body(w, e)) + [""]) + Split(more)
    ensures Split(EntryText(w, e) + more)[0] == Label(w, e)
  {
    PiecesSplit(Label(w, e), Body(w, e), more);
  }

  lemma {:induction false} UntrimmedStarts(w: Wording, entries: seq<Entry>)
    requires entries != []
    ensures Untrimmed(w, entries) == EntryText(w, entries[0]) + Untrimmed(w, entries[1..])
  {
  }

  lemma {:induction false} TranscriptGroups(w: Wording, entries: seq<Entry>) returns (lines: seq<string>)
    requires WellWorded(w)
    ensures lines == Split(Untrimmed(w, entries))
    ensures Groups(IsHeading, lines) == Told(Labels(w, entries), Bodies(w, entries))
    ensures if entries == [] then lines == [""] else lines != [] && lines[0] == Label(w, entries[0])
  {
    if entries == [] {
      lines := [""];
      NoGroup();
      SplitOneLine("");
    } else {
      var more := TranscriptGroups(w, entries[1..]);
      OneMoreEntry(w, entries, more);
      lines := LinesStart(w, entries, more);
    }
  }

  lemma {:induction false} LinesStart(w: Wording, entries: seq<Entry>, more: seq<string>) returns (lines: seq<string>)
    requires WellWorded(w) && entries != [] && more == Split(Untrimmed(w, entries[1..]))
    ensures lines == Split(Untrimmed(w, entries)) && lines != [] && lines[0] == Label(w, entries[0])
    ensures lines == [Label(w, entries[0])] + (Split(Body(w, entries[0])) + [""]) + more
  {
    UntrimmedStarts(w, entries);
    EntryLines(w, entries[0], Untrimmed(w, entries[1..]));
    lines := [Label(w, entries[0])] + (Split(Body(w, entries[0])) + [""]) + more;
  }

  lemma {:induction false} OneMoreEntry(w: Wording, entries: seq<Entry>, more: seq<string>)
    requires WellWorded(w) && entries != []
    requires if |entries| == 1 then more == [""] else more != [] && more[0] == Label(w, entries[1])
    requires Groups(IsHeading, more) == Told(Labels(w, entries[1..]), Bodies(w, entries[1..]))
    ensures Groups(IsHeading, [Label(w, entries[0])] + (Split(Body(w, entries[0])) + [""]) + more) ==
            Told(Labels(w, entries), Bodies(w, entries))
  {
    NoGroup();
    TailsOf(w, entries);
    BodyHasNoTitle(w, entries[0]);
    LabelIsNotBlank(w, entries[0]);
    if |entries| > 1 {
      LabelIsNotBlank(w, entries[1]);
    }
    OneMoreTold(IsHeading, Labels(w, entries), Bodies(w, entries), more);
  }

  lemma LabelIsNotBlank(w: Wording, e: Entry)
    requires WellWorded(w)
    ensures IsHeading(Label(w, e)) && Label(w, e) != ""
  {
  }

  lemma NoGroup()
    ensures Groups(IsHeading, [""]) == [] && !IsHeading("")
  {
    assert [""][1..] == [];
  }

  /** Every entry is told: under its own label stand its text, its heading lines escaped, up to its cap, and
      what else the entry holds: the number of images, or every exchange with its tool's name, its
      arguments, and its result under its status. */
  lemma EntryIsTold(entries: seq<Entry>, i: nat) returns (own: seq<string>, details: seq<string>)
    requires i < |entries|
    ensures var groups := Groups(IsHeading, Split(Untrimmed(WORDING, entries)));
            && |groups| == |entries| && groups[i].0 == RoleTitle(entries[i])
            && groups[i].1 == own + details + if i == |entries| - 1 then ["", ""] else [""]
    ensures ShowsEscaped(own, Content(entries[i]), Cap(entries[i])) && TellsDetails(WORDING, entries[i], details)
  {
    WordingIsWellWorded();
    LabelsAreTitles(entries[i]);
    own, details := EntryIsToldIn(WORDING, entries, i);
  }

  lemma EntryIsToldIn(w: Wording, entries: seq<Entry>, i: nat) returns (own: seq<string>, details: seq<string>)
    requires WellWorded(w) && i < |entries|
    ensures var groups := Groups(IsHeading, Split(Untrimmed(w, entries)));
            && |groups| == |entries| && groups[i].0 == Label(w, entries[i])
            && groups[i].1 == own + details + if i == |entries| - 1 then ["", ""] else [""]
    ensures ShowsEscaped(own, Content(entries[i]), Cap(entries[i])) && TellsDetails(w, entries[i], details)
  {
    var lines := TranscriptGroups(w, entries);
    ToldAt(Labels(w, entries), Bodies(w, entries), i);
    own := Split(OwnText(entries[i]));
    OwnTextShows(entries[i]);
    details := DetailsAreTold(w, OwnText(entries[i]), entries[i]);
  }

  /** What is handed over is that text without the whitespace at its end. */
  lemma {:induction false} OnlyTheEndIsTrimmed(w: Wording, entries: seq<Entry>)
    ensures var whole, text := Untrimmed(w, entries), Flatten(w, entries);
            && text <= whole && (text != "" ==> !IsWhitespace(text[|text| - 1]))
            && forall k :: |text| <= k < |whole| ==> IsWhitespace(whole[k])
  {
    TrimEndCuts(Untrimmed(w, entries));
  }
}
