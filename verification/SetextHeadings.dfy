/** Which paragraphs become setext headings: exactly those that open at top level, hold no line with a
    structure of its own, and end in an underline. */
module SetextHeadings {
  import opened Wrappers
  import opened Headings

  /** A line that opens a paragraph outside lists and quotes. */
  predicate OpensTitle(line: Line, st: State)
  {
    && st.fence.None? && !st.inComment && st.paragraph.None?
    && !line.blank && line.indent.Some? && TopLevel(st, line.indent.value)
    && line.opens.None? && line.comment.None? && !line.link && line.atx.None? && line.setext != Some(2) && !line.rule
    && line.item.None? && !line.quote
  }

  /** A line that goes on with such a paragraph. */
  predicate GoesOn(line: Line)
  {
    && !line.blank && line.opens.None? && line.comment.None? && line.atx.None? && line.setext.None? && !line.rule
    && line.item.None? && !line.quote
  }

  /** A line that ends it as a heading. */
  predicate Underlines(line: Line)
  {
    !line.blank && line.opens.None? && line.comment.None? && line.atx.None? && line.setext.Some?
  }

  ghost predicate TitleParagraph(lines: seq<Line>, f: nat, n: nat)
  {
    && f < n <= |lines| && OpensTitle(lines[f], Scan(lines, f).0)
    && forall k :: f < k < n ==> GoesOn(lines[k])
  }

  lemma StepOpens(lines: seq<Line>, f: nat, st: State)
    requires f < |lines| && Opened(st, f) && OpensTitle(lines[f], st)
    ensures Step(lines, f, st).0 == State(None, false, Some(Paragraph(f, false)), None)
  {
  }

  lemma StepGoesOn(lines: seq<Line>, n: nat, st: State)
    requires n < |lines| && Opened(st, n) && GoesOn(lines[n])
    requires st.fence.None? && !st.inComment && st.paragraph.Some?
    ensures Step(lines, n, st).0 == st && Step(lines, n, st).1 == []
  {
  }

  lemma {:induction false} ParagraphStays(lines: seq<Line>, f: nat, n: nat)
    requires TitleParagraph(lines, f, n)
    ensures Scan(lines, n).0 == State(None, false, Some(Paragraph(f, false)), None)
    decreases n
  {
    if n == f + 1 {
      StepOpens(lines, f, Scan(lines, f).0);
    } else {
      ParagraphStays(lines, f, n - 1);
      StepGoesOn(lines, n - 1, Scan(lines, n - 1).0);
    }
  }

  lemma StepKeepsParagraph(lines: seq<Line>, n: nat, st: State)
    requires n < |lines| && Opened(st, n) && Sound(lines[n])
    requires st.paragraph.Some? ==> st.fence.None? && !st.inComment
    ensures var after := Step(lines, n, st).0;
            after.paragraph.Some? && !after.paragraph.value.contained ==>
              if after.paragraph.value.first == n then OpensTitle(lines[n], st)
              else st.paragraph == after.paragraph && GoesOn(lines[n])
  {
  }

  lemma NextScan(lines: seq<Line>, n: nat) returns (st: State, more: seq<Heading>)
    requires n < |lines| && AllSound(lines)
    ensures st == Scan(lines, n).0 && (st.paragraph.Some? ==> st.fence.None? && !st.inComment)
    ensures Opened(st, n) && Scan(lines, n + 1) == (Step(lines, n, st).0, Scan(lines, n).1 + Step(lines, n, st).1)
    ensures more == Step(lines, n, st).1
  {
    ScanHolds(lines, n);
    st := Scan(lines, n).0;
    more := Step(lines, n, st).1;
  }

  /** An open paragraph that may become a title was opened and carried on as one. */
  lemma {:induction false} OpenParagraphIsTitle(lines: seq<Line>, n: nat, f: nat)
    requires n <= |lines| && AllSound(lines) && Scan(lines, n).0.paragraph == Some(Paragraph(f, false))
    ensures TitleParagraph(lines, f, n)
  {
    if n > 0 {
      var st, more := NextScan(lines, n - 1);
      StepKeepsParagraph(lines, n - 1, st);
      if f < n - 1 {
        OpenParagraphIsTitle(lines, n - 1, f);
      }
    }
  }

  lemma StepUnderlines(lines: seq<Line>, n: nat, st: State)
    requires n < |lines| && Opened(st, n)
    ensures var more := Step(lines, n, st).1;
            |more| <= 1 &&
            (|more| == 1 && more[0].first < n ==>
              st.paragraph == Some(Paragraph(more[0].first, false)) && Underlines(lines[n]) && more[0].last == n)
    ensures st.fence.None? && !st.inComment && st.paragraph.Some? && !st.paragraph.value.contained
            && Underlines(lines[n])
            && lines[n].indent.Some? ==>
              Step(lines, n, st).1 == [Heading(st.paragraph.value.first, n, lines[n].setext.value,
                                               Title(lines[st.paragraph.value.first..n]))]
  {
  }

  /** The heading a title paragraph and its underline make. */
  function SetextOf(lines: seq<Line>, f: nat, l: nat): Heading
    requires f <= l < |lines| && lines[l].setext.Some?
  {
    Heading(f, l, lines[l].setext.value, Title(lines[f..l]))
  }

  lemma {:induction false} SetextIsTitle(lines: seq<Line>, n: nat, i: nat)
    requires n <= |lines| && AllSound(lines) && i < |Scan(lines, n).1|
             && Scan(lines, n).1[i].first < Scan(lines, n).1[i].last
    ensures var h := Scan(lines, n).1[i];
            h.last < n && TitleParagraph(lines, h.first, h.last) && Underlines(lines[h.last])
  {
    if n > 0 {
      var st, more := NextScan(lines, n - 1);
      StepUnderlines(lines, n - 1, st);
      if i < |Scan(lines, n - 1).1| {
        SetextIsTitle(lines, n - 1, i);
      } else {
        SetextLast(lines, n - 1, st, more);
      }
    }
  }

  lemma SetextLast(lines: seq<Line>, n: nat, st: State, more: seq<Heading>)
    requires n < |lines| && AllSound(lines) && st == Scan(lines, n).0 && more == Step(lines, n, st).1
    requires |more| == 1 && more[0].first < more[0].last
    ensures TitleParagraph(lines, more[0].first, n) && Underlines(lines[n]) && more[0].last == n
  {
    StepUnderlines(lines, n, st);
    StepLasts(lines, n, st);
    OpenParagraphIsTitle(lines, n, more[0].first);
  }

  lemma StepLasts(lines: seq<Line>, n: nat, st: State)
    requires n < |lines| && Opened(st, n)
    ensures forall i :: 0 <= i < |Step(lines, n, st).1| ==> Step(lines, n, st).1[i].last == n
  {
  }

  /** A paragraph from `f` to the line before `l` is a setext heading of the file, with its underline at
      `l`, if and only if it opens as a title, goes on as one, and `l` underlines it. */
  lemma SetextHeadingsExactly(lines: seq<Line>, f: nat, l: nat)
    requires AllSound(lines) && f < l < |lines|
    ensures (exists i :: && 0 <= i < |Scan(lines, |lines|).1|
                         && Scan(lines, |lines|).1[i].first == f && Scan(lines, |lines|).1[i].last == l)
            <==> TitleParagraph(lines, f, l) && Underlines(lines[l])
    ensures TitleParagraph(lines, f, l) && Underlines(lines[l]) ==> SetextOf(lines, f, l) in Scan(lines, |lines|).1
  {
    var hs := Scan(lines, |lines|).1;
    if i :| 0 <= i < |hs| && hs[i].first == f && hs[i].last == l {
      SetextIsTitle(lines, |lines|, i);
    }
    if TitleParagraph(lines, f, l) && Underlines(lines[l]) {
      var i := TitleIsFound(lines, f, l);
      assert hs[i] == SetextOf(lines, f, l);
    }
  }

  lemma TitleIsFound(lines: seq<Line>, f: nat, l: nat) returns (i: nat)
    requires AllSound(lines) && f < l < |lines| && TitleParagraph(lines, f, l) && Underlines(lines[l])
    ensures i < |Scan(lines, |lines|).1| && Scan(lines, |lines|).1[i] == SetextOf(lines, f, l)
  {
    ParagraphStays(lines, f, l);
    var st, more := NextScan(lines, l);
    StepUnderlines(lines, l, st);
    i := |Scan(lines, l).1|;
    assert Scan(lines, l + 1).1[i] == SetextOf(lines, f, l);
    ScanSplits(lines, l + 1, |lines|);
  }
}
