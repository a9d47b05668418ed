/** What trimming a text does to its lines: blank lines at either end go, and the first and last of the
    others lose their outer whitespace. */
module TrimmedLines {
  import opened Text
  import opened Sequences

  predicate Blank(line: string)
  {
    Trim(line) == ""
  }

  ghost predicate White(s: string)
  {
    forall i :: 0 <= i < |s| ==> IsWhitespace(s[i])
  }

  lemma {:induction false} WhiteTrimsStart(s: string)
    requires White(s)
    ensures TrimStart(s) == ""
  {
    if s != "" {
      WhiteTrimsStart(s[1..]);
    }
  }

  lemma {:induction false} WhiteTrimsEnd(s: string)
    requires White(s)
    ensures TrimEnd(s) == ""
  {
    if s != "" {
      WhiteTrimsEnd(s[..|s| - 1]);
    }
  }

  lemma {:induction false} StartIsWhite(s: string)
    ensures TrimStart(s) == "" <==> White(s)
  {
    if TrimStart(s) == "" {
      TrimStartCuts(s);
    } else {
      TrimStartCuts(s);
      assert !IsWhitespace(s[|s| - |TrimStart(s)|]);
    }
  }

  lemma {:induction false} EndIsWhite(s: string)
    ensures TrimEnd(s) == "" <==> White(s)
  {
    TrimEndCuts(s);
    if TrimEnd(s) != "" {
      assert !IsWhitespace(s[|TrimEnd(s)| - 1]);
    }
  }

  lemma BlankIsWhite(line: string)
    ensures Blank(line) <==> White(line)
  {
    var rest := TrimStart(line);
    StartIsWhite(line);
    EndIsWhite(rest);
    if rest != "" {
      assert !White(rest) by {
        assert !IsWhitespace(rest[0]);
      }
    }
  }

  lemma {:induction false} BlankMeansWhite(line: string)
    ensures Blank(line) <==> White(line)
    ensures Blank(line) <==> TrimStart(line) == ""
    ensures Blank(line) <==> TrimEnd(line) == ""
  {
    BlankIsWhite(line);
    StartIsWhite(line);
    EndIsWhite(line);
  }

  lemma {:induction false} TrimStartConcat(a: string, b: string)
    ensures TrimStart(a + b) == if TrimStart(a) == "" then TrimStart(b) else TrimStart(a) + b
  {
    if a == "" {
      assert a + b == b;
    } else {
      TailOfConcat(a, b);
      if IsWhitespace(a[0]) {
        TrimStartConcat(a[1..], b);
      }
    }
  }

  lemma {:induction false} TrimEndConcat(a: string, b: string)
    ensures TrimEnd(a + b) == if TrimEnd(b) == "" then TrimEnd(a) else a + TrimEnd(b)
    decreases |b|
  {
    if b == "" {
      assert a + b == a;
    } else {
      var n := |b| - 1;
      assert (a + b)[..|a + b| - 1] == a + b[..n] && (a + b)[|a + b| - 1] == b[n];
      if IsWhitespace(b[n]) {
        TrimEndConcat(a, b[..n]);
      }
    }
  }

  function TrimFirst(lines: seq<string>): seq<string>
    requires lines != []
  {
    [TrimStart(lines[0])] + lines[1..]
  }

  function TrimLast(lines: seq<string>): seq<string>
    requires lines != []
  {
    lines[..|lines| - 1] + [TrimEnd(lines[|lines| - 1])]
  }

  /** The lines between the blank ones at either end. */
  function Core(lines: seq<string>): (r: seq<string>)
    ensures r != [] ==> !Blank(r[0]) && !Blank(r[|r| - 1])
  {
    DropBack(Blank, DropFront(Blank, lines))
  }

  /** The lines of the trimmed text. */
  function Returned(lines: seq<string>): seq<string>
  {
    if Core(lines) == [] then [] else TrimLast(TrimFirst(Core(lines)))
  }

  lemma {:induction false} JoinCons(line: string, rest: seq<string>)
    ensures Join([line] + rest) == if rest == [] then line else line + "\n" + Join(rest)
  {
    assert ([line] + rest)[1..] == rest;
    if rest == [] {
      assert [line] + rest == [line];
    }
  }

  lemma {:induction false} JoinSnoc(lines: seq<string>, last: string)
    ensures Join(lines + [last]) == if lines == [] then last else Join(lines) + ("\n" + last)
  {
    if lines == [] {
      assert lines + [last] == [last];
    } else {
      TailOfConcat(lines, [last]);
      JoinSnoc(lines[1..], last);
      assert lines == [lines[0]] + lines[1..];
      JoinCons(lines[0], lines[1..]);
      if |lines| > 1 {
        Assoc(lines[0] + "\n", Join(lines[1..]), "\n" + last);
      } else {
        Assoc(lines[0], "\n", last);
      }
    }
  }

  lemma {:induction false} NewlineIsTrimmed(more: string)
    ensures TrimStart("\n" + more) == TrimStart(more)
  {
    assert ("\n" + more)[0] == '\n' && ("\n" + more)[1..] == more;
  }

  lemma {:induction false} BlankIsTrimmed(line: string)
    ensures Blank(line) <==> TrimStart(line) == ""
  {
    BlankMeansWhite(line);
  }

  lemma {:induction false} TrimStartPair(first: string, more: string)
    ensures TrimStart(first + "\n" + more) ==
            if TrimStart(first) == "" then TrimStart(more) else TrimStart(first) + "\n" + more
  {
    var rest := "\n" + more;
    TrimStartConcat(first, rest);
    NewlineIsTrimmed(more);
    Assoc(first, "\n", more);
    Assoc(TrimStart(first), "\n", more);
  }

  lemma {:induction false} TrimStartJoin(lines: seq<string>)
    ensures var rest := DropFront(Blank, lines);
            TrimStart(Join(lines)) == if rest == [] then "" else Join(TrimFirst(rest))
  {
    if lines != [] {
      var first, rest := lines[0], lines[1..];
      assert lines == [first] + rest;
      JoinCons(first, rest);
      JoinCons(TrimStart(first), rest);
      BlankIsTrimmed(first);
      if rest != [] {
        TrimStartPair(first, Join(rest));
      }
      if Blank(first) {
        TrimStartJoin(rest);
      }
    }
  }

  lemma {:induction false} TrimEndPair(front: string, last: string)
    ensures TrimEnd(front + ("\n" + last)) ==
            if TrimEnd(last) == "" then TrimEnd(front) else front + ("\n" + TrimEnd(last))
  {
    TrimEndConcat("\n", last);
    TrimEndConcat(front, "\n" + last);
  }

  lemma {:induction false} BlankIsTrimmedBack(line: string)
    ensures Blank(line) <==> TrimEnd(line) == ""
  {
    BlankMeansWhite(line);
  }

  lemma {:induction false} TrimEndJoin(lines: seq<string>)
    ensures var rest := DropBack(Blank, lines);
            TrimEnd(Join(lines)) == if rest == [] then "" else Join(TrimLast(rest))
    decreases |lines|
  {
    if lines != [] {
      var last, rest := lines[|lines| - 1], lines[..|lines| - 1];
      assert lines == rest + [last];
      JoinSnoc(rest, last);
      BlankIsTrimmedBack(last);
      if rest != [] {
        TrimEndPair(Join(rest), last);
      }
      if Blank(last) {
        TrimEndJoin(rest);
      } else {
        JoinSnoc(rest, TrimEnd(last));
      }
    }
  }

  lemma {:induction false} TrimStartKeepsNonBlank(line: string)
    requires !Blank(line)
    ensures !Blank(TrimStart(line)) && Trim(TrimStart(line)) == Trim(line)
  {
    assert TrimStart(TrimStart(line)) == TrimStart(line);
  }

  /** Trimming a text is trimming its lines. */
  lemma {:induction false} TrimJoin(lines: seq<string>)
    ensures Trim(Join(lines)) == Join(Returned(lines))
  {
    TrimStartJoin(lines);
    var rest := DropFront(Blank, lines);
    if rest != [] {
      var first := rest[0];
      TrimStartKeepsNonBlank(first);
      TrimEndJoin(TrimFirst(rest));
      DropBackKeepsFirst(Blank, rest, TrimStart(first));
    } else {
      assert TrimEnd("") == "";
    }
  }

  // ----- Reading the lines back

  lemma {:induction false} SplitJoin(lines: seq<string>)
    requires lines != [] && Every(OneLine, lines)
    ensures Split(Join(lines)) == lines
  {
    SplitOneLine(lines[0]);
    if |lines| > 1 {
      SplitJoin(lines[1..]);
      SplitConcat(lines[0], Join(lines[1..]));
      assert lines == [lines[0]] + lines[1..];
    } else {
      assert lines == [lines[0]];
    }
  }

  lemma {:induction false} TrimKeepsOneLine(line: string)
    requires OneLine(line)
    ensures OneLine(TrimStart(line)) && OneLine(TrimEnd(line))
  {
    TrimStartCuts(line);
    TrimEndCuts(line);
    assert forall c :: c in TrimStart(line) ==> c in line;
    assert forall c :: c in TrimEnd(line) ==> c in line;
  }

  lemma TrimsAreLines(core: seq<string>)
    requires core != [] && Every(OneLine, core)
    ensures Every(OneLine, TrimLast(TrimFirst(core)))
  {
    TrimKeepsOneLine(core[0]);
    ReplacedStillEvery(OneLine, core, TrimStart(core[0]));
    var first := TrimFirst(core);
    TrimKeepsOneLine(first[|first| - 1]);
    ReplacedStillEvery(OneLine, first, TrimEnd(first[|first| - 1]));
  }
}
