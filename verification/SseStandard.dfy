/** The decoder against section 9.2.6 of the WHATWG HTML standard, "Interpreting an event stream": which
    streams give the same payloads, and which do not. */
module SseStandard {
  import opened Wrappers
  import opened Sequences
  import opened SseDecoder

  const DATA_NAME: Bytes := [100, 97, 116, 97]
  const BYTE_ORDER_MARK: Bytes := [0xEF, 0xBB, 0xBF]

  // ----- The standard

  function FirstLineEnd(stream: Bytes): (n: nat)
    ensures n <= |stream| && (n < |stream| ==> stream[n] == NEWLINE || stream[n] == RETURN)
    ensures forall i :: 0 <= i < n ==> stream[i] != NEWLINE && stream[i] != RETURN
  {
    if stream == [] || stream[0] == NEWLINE || stream[0] == RETURN then 0 else 1 + FirstLineEnd(stream[1..])
  }

  /** The lines a stream ends with a carriage return, a line feed, or one followed by the other. What is
      not ended can no longer be part of an event. */
  function StandardLines(stream: Bytes): seq<Bytes>
    decreases |stream|
  {
    var n := FirstLineEnd(stream);
    if n == |stream| then []
    else if stream[n] == RETURN && n + 1 < |stream| && stream[n + 1] == NEWLINE then
      [stream[..n]] + StandardLines(stream[n + 2..])
    else [stream[..n]] + StandardLines(stream[n + 1..])
  }

  function FirstColon(line: Bytes): (n: nat)
    ensures n <= |line| && (n < |line| ==> line[n] == COLON) && forall i :: 0 <= i < n ==> line[i] != COLON
  {
    if line == [] || line[0] == COLON then 0 else 1 + FirstColon(line[1..])
  }

  /** A line's field: what stands before its first colon, or all of it. */
  function FieldName(line: Bytes): Bytes
  {
    line[..FirstColon(line)]
  }

  function FieldValue(line: Bytes): Bytes
  {
    var n := FirstColon(line);
    if n == |line| then []
    else
      var value := line[n + 1..];
      if value != [] && value[0] == SPACE then value[1..] else value
  }

  /** The payloads dispatched from these lines, with the data buffer as it stands. Every value is followed
      by a line feed; an empty buffer dispatches nothing, any other loses its last line feed; at the end
      of the stream what is pending is discarded. */
  function StandardEvents(lines: seq<Bytes>, buffer: Bytes): seq<Bytes>
    decreases |lines|
  {
    if lines == [] then []
    else if lines[0] == [] then
      (if buffer == [] then [] else [buffer[..|buffer| - 1]]) + StandardEvents(lines[1..], [])
    else if FieldName(lines[0]) == DATA_NAME then
      StandardEvents(lines[1..], buffer + FieldValue(lines[0]) + [NEWLINE])
    else StandardEvents(lines[1..], buffer)
  }

  function StandardPayloads(stream: Bytes): seq<Bytes>
  {
    StandardEvents(StandardLines(if BYTE_ORDER_MARK <= stream then stream[3..] else stream), [])
  }

  // ----- The decoder

  function BlockPayload(block: seq<Bytes>): seq<Bytes>
  {
    var payload := Gather([], Values(block));
    if payload == [] then [] else [payload]
  }

  /** The payloads the decoder dispatches. */
  function DecoderPayloads(stream: Bytes): seq<Bytes>
  {
    FlatMap(BlockPayload, Blocks(Lines(stream)))
  }

  function ParseAll<Event>(codec: Codec<Event>, payloads: seq<Bytes>): Option<seq<Event>>
  {
    if payloads == [] then Some([])
    else
      match codec.parse(payloads[0])
      case None => None
      case Some(events) =>
        match ParseAll(codec, payloads[1..])
        case None => None
        case Some(more) => Some(events + more)
  }

  lemma {:induction false} BlockEventsAreParsed<Event>(codec: Codec<Event>, blocks: seq<seq<Bytes>>)
    ensures BlockEvents(codec, [], blocks) == ParseAll(codec, FlatMap(BlockPayload, blocks))
    decreases |blocks|
  {
    if blocks != [] {
      BlockEventsAreParsed(codec, blocks[1..]);
      var first, rest := BlockPayload(blocks[0]), FlatMap(BlockPayload, blocks[1..]);
      if first == [] {
        assert first + rest == rest;
        var more := BlockEvents(codec, [], blocks[1..]);
        assert more.Some? ==> [] + more.value == more.value;
      } else {
        assert (first + rest)[0] == first[0] && (first + rest)[1..] == rest;
      }
    }
  }

  /** What a run of the decoder delivers is what its payloads parse to. */
  lemma {:induction false} EventsAreParsedPayloads<Event>(codec: Codec<Event>, limit: nat, chunks: seq<Bytes>)
    requires Feed(codec, limit, chunks, [], []) != Err(Overflow) && AllUtf8(codec, Lines(Join(chunks)))
    ensures Feed(codec, limit, chunks, [], []) == OrUndecodable(ParseAll(codec, DecoderPayloads(Join(chunks))))
  {
    DecoderMeetsStream(codec, limit, chunks);
    BlockEventsAreParsed(codec, Blocks(Lines(Join(chunks))));
  }

  // ----- Lines

  /** Every carriage return stands right before a line feed. */
  ghost predicate ReturnsEndLines(stream: Bytes)
  {
    forall i :: 0 <= i < |stream| && stream[i] == RETURN ==> i + 1 < |stream| && stream[i + 1] == NEWLINE
  }

  function Ended(stream: Bytes): seq<Bytes>
    decreases |stream|
  {
    var n := FirstNewline(stream);
    if n < |stream| then [stream[..n]] + Ended(stream[n + 1..]) else []
  }

  function Rest(stream: Bytes): Bytes
    decreases |stream|
  {
    var n := FirstNewline(stream);
    if n < |stream| then Rest(stream[n + 1..]) else stream
  }

  function Stripped(lines: seq<Bytes>): seq<Bytes>
  {
    seq(|lines|, i requires 0 <= i < |lines| => StripReturns(lines[i]))
  }

  lemma {:induction false} LinesAreEndedAndRest(stream: Bytes)
    ensures Lines(stream) == Ended(stream) + if Rest(stream) == [] then [] else [Rest(stream)]
    decreases |stream|
  {
    var n := FirstNewline(stream);
    if n < |stream| {
      LinesAreEndedAndRest(stream[n + 1..]);
      Assoc([stream[..n]], Ended(stream[n + 1..]), if Rest(stream) == [] then [] else [Rest(stream)]);
    }
  }

  lemma {:induction false} LinesHoldNoNewline(stream: Bytes)
    ensures forall i :: 0 <= i < |Lines(stream)| ==> NEWLINE !in Lines(stream)[i]
    decreases |stream|
  {
    var n := FirstNewline(stream);
    if n < |stream| {
      LinesHoldNoNewline(stream[n + 1..]);
    }
  }

  lemma ReturnsEndLinesBelow(stream: Bytes, k: nat)
    requires ReturnsEndLines(stream) && k <= |stream|
    ensures ReturnsEndLines(stream[k..])
  {
    var tail := stream[k..];
    forall i | 0 <= i < |tail| && tail[i] == RETURN
      ensures i + 1 < |tail| && tail[i + 1] == NEWLINE
    {
      assert stream[k + i] == RETURN;
    }
  }

  lemma {:induction false} NoReturnsNothingStripped(line: Bytes)
    requires RETURN !in line
    ensures StripReturns(line) == line
  {
  }

  /** Before its first newline such a stream has at most one return, right at the end. */
  lemma {:induction false} FirstLineAgrees(stream: Bytes, n: nat, e: nat)
    requires ReturnsEndLines(stream) && n == FirstNewline(stream) && e == FirstLineEnd(stream)
    ensures n == |stream| ==> e == n
    ensures n < |stream| ==> e == n || (e + 1 == n && stream[e] == RETURN)
  {
    assert n < |stream| ==> stream[n] == NEWLINE;
    if e < |stream| && stream[e] == RETURN {
      assert stream[e + 1] == NEWLINE;
      FirstNewlineIsFirst(stream, n, e + 1);
    }
    if e < |stream| && stream[e] == NEWLINE {
      FirstNewlineIsFirst(stream, n, e);
    }
  }

  lemma {:induction false} FirstNewlineIsFirst(stream: Bytes, n: nat, i: nat)
    requires n == FirstNewline(stream) && i < |stream| && stream[i] == NEWLINE
    requires forall j :: 0 <= j < i ==> stream[j] != NEWLINE
    ensures n == i
  {
    FirstNewlineAt(stream, i);
  }

  /** One standard line, and where the next one starts. */
  lemma {:induction false} StandardCut(stream: Bytes, e: nat, next: nat)
    requires e == FirstLineEnd(stream) && e < |stream| && e < next <= |stream|
    requires next == if stream[e] == RETURN && e + 1 < |stream| && stream[e + 1] == NEWLINE then e + 2 else e + 1
    ensures StandardLines(stream) == [stream[..e]] + StandardLines(stream[next..]) && RETURN !in stream[..e]
  {
  }

  /** Up to its first newline such a stream is one standard line. */
  lemma {:induction false} StandardStep(stream: Bytes, n: nat)
    requires ReturnsEndLines(stream) && n == FirstNewline(stream) && n < |stream|
    ensures StandardLines(stream) == [StripReturns(stream[..n])] + StandardLines(stream[n + 1..])
  {
    var e := FirstLineEnd(stream);
    FirstLineAgrees(stream, n, e);
    StepAt(stream, n, e);
  }

  lemma {:induction false} StepAt(stream: Bytes, n: nat, e: nat)
    requires e == FirstLineEnd(stream) && e <= n < |stream| && stream[n] == NEWLINE
    requires e == n || (e + 1 == n && stream[e] == RETURN)
    ensures StandardLines(stream) == [StripReturns(stream[..n])] + StandardLines(stream[n + 1..])
  {
    StandardCut(stream, e, n + 1);
    LineStripped(stream, n, e);
  }

  lemma LineStripped(stream: Bytes, n: nat, e: nat)
    requires e <= n <= |stream| && RETURN !in stream[..e] && (e == n || (e + 1 == n && stream[e] == RETURN))
    ensures StripReturns(stream[..n]) == stream[..e]
  {
    if e < n {
      StripOne(stream[..n], stream[..e]);
    } else {
      NoReturnsNothingStripped(stream[..e]);
    }
  }

  lemma {:induction false} StripOne(line: Bytes, front: Bytes)
    requires line == front + [RETURN] && RETURN !in front
    ensures StripReturns(line) == front
  {
    assert line[..|line| - 1] == front;
    NoReturnsNothingStripped(front);
  }

  lemma {:induction false} StrippedCons(line: Bytes, rest: seq<Bytes>)
    ensures Stripped([line] + rest) == [StripReturns(line)] + Stripped(rest)
  {
  }

  lemma {:induction false} EndedCut(stream: Bytes, n: nat)
    requires n == FirstNewline(stream) && n < |stream|
    ensures Ended(stream) == [stream[..n]] + Ended(stream[n + 1..])
  {
  }

  /** One ended line more on both sides. */
  lemma {:induction false} EndedStep(stream: Bytes, n: nat)
    requires ReturnsEndLines(stream) && n == FirstNewline(stream) && n < |stream|
    requires StandardLines(stream[n + 1..]) == Stripped(Ended(stream[n + 1..]))
    ensures StandardLines(stream) == Stripped(Ended(stream))
  {
    StandardStep(stream, n);
    EndedCut(stream, n);
    StrippedCons(stream[..n], Ended(stream[n + 1..]));
  }

  lemma {:induction false} LastStep(stream: Bytes)
    requires ReturnsEndLines(stream) && FirstNewline(stream) == |stream|
    ensures StandardLines(stream) == [] && RETURN !in stream
  {
    FirstLineAgrees(stream, |stream|, FirstLineEnd(stream));
  }

  lemma {:induction false} RestHasNoReturn(stream: Bytes)
    requires ReturnsEndLines(stream)
    ensures RETURN !in Rest(stream)
    decreases |stream|
  {
    var n := FirstNewline(stream);
    if n < |stream| {
      ReturnsEndLinesBelow(stream, n + 1);
      RestHasNoReturn(stream[n + 1..]);
    } else {
      LastStep(stream);
    }
  }

  lemma {:induction false} StandardLinesAreEnded(stream: Bytes)
    requires ReturnsEndLines(stream)
    ensures StandardLines(stream) == Stripped(Ended(stream))
    decreases |stream|
  {
    var n := FirstNewline(stream);
    if n < |stream| {
      ReturnsEndLinesBelow(stream, n + 1);
      StandardLinesAreEnded(stream[n + 1..]);
      EndedStep(stream, n);
    } else {
      LastStep(stream);
    }
  }

  // ----- Fields

  predicate IsBare(raw: Bytes)
  {
    StripReturns(raw) == DATA_NAME
  }

  lemma {:induction false} ColonLine(line: Bytes)
    requires DATA_FIELD <= line
    ensures FirstColon(line) == 4 && line[..4] == DATA_NAME && FieldValue(line) == DataValue(line)
  {
    assert line[0] == 100 && line[1] == 97 && line[2] == 116 && line[3] == 97 && line[4] == COLON;
    ColonAt(line, 4);
    assert line[..4] == DATA_NAME;
  }

  lemma {:induction false} ColonAt(line: Bytes, n: nat)
    requires n < |line| && line[n] == COLON && forall i :: 0 <= i < n ==> line[i] != COLON
    ensures FirstColon(line) == n
  {
    if n > 0 {
      ColonAt(line[1..], n - 1);
    }
  }

  lemma {:induction false} NoColon(line: Bytes)
    requires COLON !in line
    ensures FirstColon(line) == |line|
  {
    if line != [] {
      NoColon(line[1..]);
    }
  }

  lemma NamedLine(line: Bytes)
    requires FieldName(line) == DATA_NAME
    ensures DATA_FIELD <= line || line == DATA_NAME
  {
    var n := FirstColon(line);
    assert n == 4;
    if n < |line| {
      assert line[..5] == line[..4] + [line[4]];
    } else {
      assert line[..4] == line;
    }
  }

  lemma BareLineIsNamed(line: Bytes)
    requires line == DATA_NAME
    ensures FieldName(line) == DATA_NAME && FieldValue(line) == [] && !(DATA_FIELD <= line)
  {
    NoColon(line);
    assert line[..4] == line;
  }

  /** The standard's data lines are the decoder's, and the bare `data`. */
  lemma {:induction false} DataLines(raw: Bytes)
    ensures var line := StripReturns(raw);
            && (FieldName(line) == DATA_NAME <==> AddsData(raw) || IsBare(raw))
            && (AddsData(raw) ==> FieldValue(line) == DataValue(line) && !IsBare(raw))
            && (IsBare(raw) ==> FieldValue(line) == [])
  {
    var line := StripReturns(raw);
    if DATA_FIELD <= line {
      ColonLine(line);
      assert line[0] == DATA_FIELD[0];
    }
    if line == DATA_NAME {
      BareLineIsNamed(line);
    }
    if FieldName(line) == DATA_NAME {
      NamedLine(line);
    }
  }

  /** The values of a block as the standard reads them. */
  function StandardValues(block: seq<Bytes>): seq<Bytes>
  {
    if block == [] then []
    else
      var line := StripReturns(block[0]);
      (if FieldName(line) == DATA_NAME then [FieldValue(line)] else []) + StandardValues(block[1..])
  }

  /** The data buffer these values leave. */
  function Buffered(buffer: Bytes, values: seq<Bytes>): Bytes
    decreases |values|
  {
    if values == [] then buffer else Buffered(buffer + values[0] + [NEWLINE], values[1..])
  }

  function StandardPayload(block: seq<Bytes>): seq<Bytes>
  {
    var values := StandardValues(block);
    if values == [] then [] else [JoinLines(values)]
  }

  lemma {:induction false} BufferedIsJoined(buffer: Bytes, values: seq<Bytes>)
    ensures Buffered(buffer, values) == if values == [] then buffer else buffer + JoinLines(values) + [NEWLINE]
    decreases |values|
  {
    if values != [] {
      BufferedIsJoined(buffer + values[0] + [NEWLINE], values[1..]);
      if |values| > 1 {
        Regroup(buffer, values[0], JoinLines(values[1..]));
      }
    }
  }

  lemma Regroup(a: Bytes, b: Bytes, c: Bytes)
    ensures a + b + [NEWLINE] + c + [NEWLINE] == a + (b + [NEWLINE] + c) + [NEWLINE]
  {
  }

  function Flushed(buffer: Bytes): seq<Bytes>
  {
    if buffer == [] then [] else [buffer[..|buffer| - 1]]
  }

  /** The payloads of ended blocks, the first of which goes on from `buffer`; the last block is open. */
  function StandardBlocks(buffer: Bytes, blocks: seq<seq<Bytes>>): seq<Bytes>
    requires blocks != []
    decreases |blocks|
  {
    if |blocks| == 1 then []
    else Flushed(Buffered(buffer, StandardValues(blocks[0]))) + StandardBlocks([], blocks[1..])
  }

  /** The data buffer after one more line that is not blank. */
  function Grown(buffer: Bytes, line: Bytes): Bytes
  {
    if FieldName(line) == DATA_NAME then buffer + FieldValue(line) + [NEWLINE] else buffer
  }

  lemma {:induction false} FirstBlockStep(buffer: Bytes, raw: Bytes, blocks: seq<seq<Bytes>>)
    requires blocks != []
    ensures var line := StripReturns(raw);
            StandardBlocks(buffer, [[raw] + blocks[0]] + blocks[1..]) ==
            StandardBlocks(Grown(buffer, line), blocks)
  {
    var line := StripReturns(raw);
    var first := [raw] + blocks[0];
    var all := [first] + blocks[1..];
    assert first[1..] == blocks[0] && all[1..] == blocks[1..];
    var values := StandardValues(blocks[0]);
    if FieldName(line) == DATA_NAME {
      assert ([FieldValue(line)] + values)[1..] == values;
    } else {
      assert [] + values == values;
    }
  }

  lemma {:induction false} StandardByBlock(lines: seq<Bytes>, buffer: Bytes)
    ensures StandardEvents(Stripped(lines), buffer) == StandardBlocks(buffer, Blocks(lines))
    decreases |lines|
  {
    if lines != [] {
      var stripped := Stripped(lines);
      assert stripped[0] == StripReturns(lines[0]) && stripped[1..] == Stripped(lines[1..]);
      var rest := Blocks(lines[1..]);
      if IsBlank(lines[0]) {
        StandardByBlock(lines[1..], []);
        assert ([[]] + rest)[1..] == rest;
      } else {
        var line := StripReturns(lines[0]);
        StandardByBlock(lines[1..], Grown(buffer, line));
        FirstBlockStep(buffer, lines[0], rest);
      }
    }
  }

  lemma {:induction false} StandardBlocksAreFlat(blocks: seq<seq<Bytes>>)
    requires blocks != []
    ensures StandardBlocks([], blocks) == FlatMap(StandardPayload, blocks[..|blocks| - 1])
    decreases |blocks|
  {
    if |blocks| > 1 {
      StandardBlocksAreFlat(blocks[1..]);
      var ended := blocks[..|blocks| - 1];
      assert ended[0] == blocks[0] && ended[1..] == blocks[1..][..|blocks[1..]| - 1];
      var values := StandardValues(blocks[0]);
      BufferedIsJoined([], values);
      if values != [] {
        var joined := JoinLines(values);
        assert [] + joined == joined && (joined + [NEWLINE])[..|joined|] == joined;
      }
    }
  }

  lemma {:induction false} BlocksGoOn(lines: seq<Bytes>, last: Bytes)
    requires !IsBlank(last)
    ensures var a, b := Blocks(lines), Blocks(lines + [last]);
            |a| == |b| && a[..|a| - 1] == b[..|b| - 1]
  {
    if lines == [] {
      assert lines + [last] == [last] && [last][1..] == [];
    } else {
      TailOfConcat(lines, [last]);
      BlocksGoOn(lines[1..], last);
      var a, b := Blocks(lines[1..]), Blocks(lines[1..] + [last]);
      FrontOfCons(a, b, lines[0]);
    }
  }

  lemma FrontOfCons(a: seq<seq<Bytes>>, b: seq<seq<Bytes>>, line: Bytes)
    requires a != [] && |a| == |b| && a[..|a| - 1] == b[..|b| - 1]
    ensures var x, y := [[]] + a, [[]] + b; x[..|x| - 1] == y[..|y| - 1]
    ensures var x, y := [[line] + a[0]] + a[1..], [[line] + b[0]] + b[1..]; x[..|x| - 1] == y[..|y| - 1]
  {
    assert ([[]] + a)[..|a|] == [[]] + a[..|a| - 1] && ([[]] + b)[..|b|] == [[]] + b[..|b| - 1];
    if |a| > 1 {
      var x, y := [[line] + a[0]] + a[1..], [[line] + b[0]] + b[1..];
      assert a[0] == a[..|a| - 1][0] == b[..|b| - 1][0] == b[0];
      forall i | 0 <= i < |a| - 1
        ensures x[i] == y[i]
      {
        assert a[i] == a[..|a| - 1][i] == b[..|b| - 1][i] == b[i];
      }
    }
  }

  /** The blocks of a stream that a blank line ends, and what comes after them. */
  function EndedBlocks(stream: Bytes): seq<seq<Bytes>>
  {
    var blocks := Blocks(Lines(stream));
    blocks[..|blocks| - 1]
  }

  function OpenBlock(stream: Bytes): seq<Bytes>
  {
    var blocks := Blocks(Lines(stream));
    blocks[|blocks| - 1]
  }

  lemma {:induction false} RestEndsNoBlock(lines: seq<Bytes>, rest: Bytes, all: seq<Bytes>)
    requires all == lines + if rest == [] then [] else [rest]
    requires rest != [] ==> !IsBlank(rest)
    ensures Blocks(all)[..|Blocks(all)| - 1] == Blocks(lines)[..|Blocks(lines)| - 1]
  {
    if rest == [] {
      assert all == lines;
    } else {
      BlocksGoOn(lines, rest);
    }
  }

  lemma StandardPayloadsByBlock(stream: Bytes)
    requires ReturnsEndLines(stream) && !(BYTE_ORDER_MARK <= stream)
    ensures StandardPayloads(stream) == FlatMap(StandardPayload, EndedBlocks(stream))
  {
    var ended, rest := Ended(stream), Rest(stream);
    StandardLinesAreEnded(stream);
    StandardByBlock(ended, []);
    StandardBlocksAreFlat(Blocks(ended));
    LinesAreEndedAndRest(stream);
    RestHasNoReturn(stream);
    NoReturnsNothingStripped(rest);
    RestEndsNoBlock(ended, rest, Lines(stream));
  }

  // ----- One block

  predicate HasBare(block: seq<Bytes>)
  {
    exists i :: 0 <= i < |block| && IsBare(block[i])
  }

  /** How much a list of values takes up, a line feed each. */
  function Weight(values: seq<Bytes>): nat
  {
    if values == [] then 0 else |values[0]| + 1 + Weight(values[1..])
  }

  lemma {:induction false} JoinWeight(values: seq<Bytes>)
    requires values != []
    ensures |JoinLines(values)| + 1 == Weight(values)
  {
    if |values| > 1 {
      JoinWeight(values[1..]);
    } else {
      assert values[1..] == [];
    }
  }

  lemma {:induction false} DroppedWeight(values: seq<Bytes>)
    ensures Weight(DropLeadingEmpty(values)) <= Weight(values)
  {
    if values != [] && values[0] == [] {
      DroppedWeight(values[1..]);
    }
  }

  lemma {:induction false} WeightCons(value: Bytes, values: seq<Bytes>)
    ensures Weight([value] + values) == |value| + 1 + Weight(values)
  {
    assert ([value] + values)[1..] == values;
  }

  /** Bare data lines are the whole difference between the two readings of a block. */
  lemma {:induction false} BareWeighs(block: seq<Bytes>)
    ensures Weight(Values(block)) <= Weight(StandardValues(block))
    ensures HasBare(block) ==> Weight(Values(block)) < Weight(StandardValues(block))
    ensures !HasBare(block) ==> Values(block) == StandardValues(block)
    ensures Values(block) == [] || StandardValues(block) != []
  {
    if block != [] {
      var line, rest := StripReturns(block[0]), block[1..];
      BareWeighs(rest);
      DataLines(block[0]);
      BareOrRest(block);
      if FieldName(line) == DATA_NAME {
        WeightCons(FieldValue(line), StandardValues(rest));
      } else {
        assert [] + StandardValues(rest) == StandardValues(rest);
      }
      if AddsData(block[0]) {
        WeightCons(DataValue(line), Values(rest));
      } else {
        assert [] + Values(rest) == Values(rest);
      }
    }
  }

  lemma BareOrRest(block: seq<Bytes>)
    requires block != []
    ensures HasBare(block) <==> IsBare(block[0]) || HasBare(block[1..])
  {
    if i :| 0 <= i < |block[1..]| && IsBare(block[1..][i]) {
      assert IsBare(block[i + 1]);
    }
    if i :| 0 <= i < |block| && IsBare(block[i]) {
      assert i > 0 ==> IsBare(block[1..][i - 1]);
    }
  }

  /** A block every reader reads alike: no data at all, or a first value that is not empty and a colon in
      every data line. */
  predicate PlainBlock(block: seq<Bytes>)
  {
    StandardValues(block) == [] || (StandardValues(block)[0] != [] && !HasBare(block))
  }

  ghost predicate AllEmpty(values: seq<Bytes>)
  {
    forall i :: 0 <= i < |values| ==> values[i] == []
  }

  lemma {:induction false} DropsToNothing(values: seq<Bytes>)
    ensures DropLeadingEmpty(values) == [] <==> AllEmpty(values)
    ensures DropLeadingEmpty(values) != [] ==>
              DropLeadingEmpty(values)[0] != [] && JoinLines(DropLeadingEmpty(values)) != []
  {
    if values != [] && values[0] == [] {
      DropsToNothing(values[1..]);
      assert forall i :: 1 <= i < |values| ==> values[i] == values[1..][i - 1];
    }
  }

  lemma {:induction false} GatheredLength(values: seq<Bytes>)
    requires Gather([], values) != []
    ensures |Gather([], values)| + 1 <= Weight(values)
  {
    GatherDropsLeadingEmpty(values);
    JoinWeight(DropLeadingEmpty(values));
    DroppedWeight(values);
  }

  lemma PlainBlockIff(block: seq<Bytes>)
    ensures BlockPayload(block) == StandardPayload(block) <==> PlainBlock(block)
  {
    BareWeighs(block);
    var values, standard := Values(block), StandardValues(block);
    if standard != [] {
      JoinWeight(standard);
      if HasBare(block) {
        if Gather([], values) != [] {
          GatheredLength(values);
        }
      } else {
        PayloadIsJoinedIff(values);
        GatherDropsLeadingEmpty(values);
        DropsToNothing(values);
      }
    } else {
      assert Gather([], []) == [];
    }
  }

  lemma {:induction false} OpenBlockIsSilentIff(block: seq<Bytes>)
    ensures BlockPayload(block) == [] <==> AllEmpty(Values(block))
  {
    GatherDropsLeadingEmpty(Values(block));
    DropsToNothing(Values(block));
  }

  // ----- The whole stream

  predicate Visible(payload: Bytes)
  {
    payload != [] && payload[0] != NEWLINE
  }

  ghost predicate EachVisible(payloads: seq<Bytes>)
  {
    forall i :: 0 <= i < |payloads| ==> Visible(payloads[i])
  }

  ghost predicate NoNewlines(block: seq<Bytes>)
  {
    forall i :: 0 <= i < |block| ==> NEWLINE !in block[i]
  }

  lemma {:induction false} StripKeepsNoNewline(raw: Bytes)
    requires NEWLINE !in raw
    ensures NEWLINE !in StripReturns(raw)
  {
    if raw != [] && raw[|raw| - 1] == RETURN {
      StripKeepsNoNewline(raw[..|raw| - 1]);
    }
  }

  lemma {:induction false} ValuesHoldNoNewline(block: seq<Bytes>)
    requires NoNewlines(block)
    ensures forall i :: 0 <= i < |Values(block)| ==> NEWLINE !in Values(block)[i]
  {
    if block != [] {
      StripKeepsNoNewline(block[0]);
      ValuesHoldNoNewline(block[1..]);
    }
  }

  lemma {:induction false} DropKeepsNoNewline(values: seq<Bytes>)
    requires forall i :: 0 <= i < |values| ==> NEWLINE !in values[i]
    ensures forall i :: 0 <= i < |DropLeadingEmpty(values)| ==> NEWLINE !in DropLeadingEmpty(values)[i]
  {
    if values != [] && values[0] == [] {
      DropKeepsNoNewline(values[1..]);
    }
  }

  /** What the decoder dispatches never starts with a line feed. */
  lemma BlockPayloadIsVisible(block: seq<Bytes>)
    requires NoNewlines(block)
    ensures EachVisible(BlockPayload(block))
  {
    var values := Values(block);
    ValuesHoldNoNewline(block);
    GatherDropsLeadingEmpty(values);
    DropsToNothing(values);
    DropKeepsNoNewline(values);
    var dropped := DropLeadingEmpty(values);
    if dropped != [] {
      assert dropped[0] != [] && dropped[0][0] in dropped[0];
      assert JoinLines(dropped)[0] == dropped[0][0];
    }
  }

  lemma {:induction false} EmptyStandardValues(block: seq<Bytes>)
    requires AllEmpty(Values(block))
    ensures AllEmpty(StandardValues(block))
  {
    if block != [] {
      DataLines(block[0]);
      var line := StripReturns(block[0]);
      if AddsData(block[0]) {
        assert Values(block)[0] == DataValue(line);
        assert forall i :: 0 <= i < |Values(block[1..])| ==> Values(block[1..])[i] == Values(block)[i + 1];
      } else {
        assert Values(block) == Values(block[1..]);
      }
      EmptyStandardValues(block[1..]);
    }
  }

  /** A block only the standard dispatches gives a payload the decoder never does. */
  lemma SilentBlock(block: seq<Bytes>)
    requires BlockPayload(block) == [] && StandardPayload(block) != []
    ensures !Visible(StandardPayload(block)[0])
  {
    OpenBlockIsSilentIff(block);
    EmptyStandardValues(block);
    var values := StandardValues(block);
    if |values| > 1 {
      assert values[0] == [] && JoinLines(values)[0] == NEWLINE;
    }
  }

  lemma {:induction false} AllVisible(blocks: seq<seq<Bytes>>)
    requires forall i :: 0 <= i < |blocks| ==> NoNewlines(blocks[i])
    ensures EachVisible(FlatMap(BlockPayload, blocks))
    decreases |blocks|
  {
    if blocks != [] {
      AllVisible(blocks[1..]);
      BlockPayloadIsVisible(blocks[0]);
      VisibleConcat(BlockPayload(blocks[0]), FlatMap(BlockPayload, blocks[1..]));
    }
  }

  lemma VisibleConcat(a: seq<Bytes>, b: seq<Bytes>)
    requires EachVisible(a) && EachVisible(b)
    ensures EachVisible(a + b)
  {
  }

  ghost predicate AllPlain(ended: seq<seq<Bytes>>)
  {
    forall i :: 0 <= i < |ended| ==> PlainBlock(ended[i])
  }

  lemma SilentBlocksDiffer(block: seq<Bytes>, decoder: seq<Bytes>, more: seq<Bytes>)
    requires BlockPayload(block) == [] && StandardPayload(block) != []
    requires EachVisible(decoder)
    ensures decoder != StandardPayload(block) + more
  {
    SilentBlock(block);
    var standard := StandardPayload(block) + more;
    assert standard[0] == StandardPayload(block)[0];
    assert decoder != [] ==> Visible(decoder[0]);
  }

  lemma {:induction false} ListsAgreeIff(ended: seq<seq<Bytes>>, open: seq<Bytes>)
    requires NoNewlines(open) && forall i :: 0 <= i < |ended| ==> NoNewlines(ended[i])
    ensures FlatMap(BlockPayload, ended + [open]) == FlatMap(StandardPayload, ended)
            <==> AllPlain(ended) && BlockPayload(open) == []
    decreases |ended|
  {
    if ended == [] {
      assert ended + [open] == [open] && [open][1..] == [];
      assert BlockPayload(open) + [] == BlockPayload(open);
    } else {
      var rest := ended[1..];
      TailOfConcat(ended, [open]);
      ListsAgreeIff(rest, open);
      PlainBlockIff(ended[0]);
      BareWeighs(ended[0]);
      AllVisible(rest + [open]);
      PlainCons(ended);
      var mine, theirs := BlockPayload(ended[0]), StandardPayload(ended[0]);
      var decoder, standard := FlatMap(BlockPayload, rest + [open]), FlatMap(StandardPayload, rest);
      if mine == [] && theirs != [] {
        SilentBlocksDiffer(ended[0], decoder, standard);
        assert mine + decoder == decoder;
      } else {
        HeadsAgree(mine, theirs, decoder, standard);
      }
    }
  }

  lemma PlainCons(ended: seq<seq<Bytes>>)
    requires ended != []
    ensures AllPlain(ended) <==> PlainBlock(ended[0]) && AllPlain(ended[1..])
  {
    if PlainBlock(ended[0]) && AllPlain(ended[1..]) {
      forall i | 0 <= i < |ended|
        ensures PlainBlock(ended[i])
      {
        if i > 0 {
          assert ended[i] == ended[1..][i - 1];
        }
      }
    }
  }

  lemma HeadsAgree<T>(a: seq<T>, b: seq<T>, x: seq<T>, y: seq<T>)
    requires |a| == |b|
    ensures a + x == b + y <==> a == b && x == y
  {
    if a + x == b + y {
      assert a == (a + x)[..|a|] && b == (b + y)[..|b|];
      assert x == (a + x)[|a|..] && y == (b + y)[|b|..];
    }
  }

  lemma {:induction false} BlocksHoldNoNewline(lines: seq<Bytes>)
    requires forall i :: 0 <= i < |lines| ==> NEWLINE !in lines[i]
    ensures forall i :: 0 <= i < |Blocks(lines)| ==> NoNewlines(Blocks(lines)[i])
  {
    if lines != [] {
      BlocksHoldNoNewline(lines[1..]);
    }
  }

  /** The exact condition: every block that a blank line ends has no data, or a first value that is not
      empty and a colon in every data line; and what is left open at the end holds nothing but empty
      values. */
  ghost predicate ReadAlike(stream: Bytes)
  {
    && AllPlain(EndedBlocks(stream))
    && AllEmpty(Values(OpenBlock(stream)))
  }

  lemma {:induction false} EndedAndOpen(stream: Bytes)
    ensures Blocks(Lines(stream)) == EndedBlocks(stream) + [OpenBlock(stream)]
  {
    FrontAndLast(Blocks(Lines(stream)));
  }

  lemma DecoderMeetsStandardIff(stream: Bytes)
    requires ReturnsEndLines(stream) && !(BYTE_ORDER_MARK <= stream)
    ensures DecoderPayloads(stream) == StandardPayloads(stream) <==> ReadAlike(stream)
  {
    StandardPayloadsByBlock(stream);
    LinesHoldNoNewline(stream);
    BlocksHoldNoNewline(Lines(stream));
    EndedAndOpen(stream);
    ListsAgreeIff(EndedBlocks(stream), OpenBlock(stream));
    OpenBlockIsSilentIff(OpenBlock(stream));
  }

  // ----- Streams that are not read alike

  const X: Byte := 120
  const DATA_X: Bytes := DATA_FIELD + [X]

  /** One line and the rest of a stream. */
  lemma {:induction false} DecoderLine(line: Bytes, rest: Bytes)
    requires NEWLINE !in line
    ensures Lines(line + [NEWLINE] + rest) == [line] + Lines(rest)
  {
    var stream := line + [NEWLINE] + rest;
    assert forall i :: 0 <= i < |line| ==> stream[i] == line[i];
    assert stream[|line|] == NEWLINE;
    FirstNewlineAt(stream, |line|);
    assert stream[..|line|] == line && stream[|line| + 1..] == rest;
  }

  lemma {:induction false} LineByLine(line: Bytes, rest: Bytes)
    requires NEWLINE !in line && RETURN !in line
    ensures Lines(line + [NEWLINE] + rest) == [line] + Lines(rest)
    ensures StandardLines(line + [NEWLINE] + rest) == [line] + StandardLines(rest)
  {
    var stream := line + [NEWLINE] + rest;
    DecoderLine(line, rest);
    assert forall i :: 0 <= i < |line| ==> stream[i] == line[i];
    assert stream[|line|] == NEWLINE;
    assert FirstLineEnd(stream) == |line|;
    assert stream[..|line|] == line && stream[|line| + 1..] == rest;
  }

  lemma {:induction false} FirstNewlineAt(stream: Bytes, n: nat)
    requires n < |stream| && stream[n] == NEWLINE && forall i :: 0 <= i < n ==> stream[i] != NEWLINE
    ensures FirstNewline(stream) == n
  {
    if n > 0 {
      FirstNewlineAt(stream[1..], n - 1);
    }
  }

  /** The payloads of a stream of one ended block of one or two lines. */
  function TwoLines(first: Bytes, second: Bytes): Bytes
  {
    first + [NEWLINE] + (second + [NEWLINE] + ([] + [NEWLINE] + []))
  }

  lemma TwoLinesRead(first: Bytes, second: Bytes)
    requires first != [] && second != []
    requires NEWLINE !in first && RETURN !in first && NEWLINE !in second && RETURN !in second
    ensures Lines(TwoLines(first, second)) == [first, second, []]
    ensures StandardLines(TwoLines(first, second)) == [first, second, []]
  {
    LineByLine([], []);
    LineByLine(second, [] + [NEWLINE] + []);
    LineByLine(first, second + [NEWLINE] + ([] + [NEWLINE] + []));
    assert Lines([]) == [] && StandardLines([]) == [];
  }

  lemma BlocksOfTwo(first: Bytes, second: Bytes)
    requires !IsBlank(first) && !IsBlank(second)
    ensures Blocks([first, second, []]) == [[first, second], []]
  {
    var lines := [first, second, []];
    assert lines[1..] == [second, []] && lines[2..] == [[]] && [second, []][1..] == [[]];
    var none: seq<Bytes> := [[]];
    assert none[1..] == [];
    var empty: seq<seq<Bytes>> := [[]];
    assert Blocks([]) == empty;
    assert Blocks(none) == [[]] + empty == [[], []];
    assert [second] + [] == [second] && [[], []][1..] == empty;
    assert Blocks([second, []]) == [[second]] + empty;
    assert ([[second]] + empty)[1..] == empty && [first] + [second] == [first, second];
  }

  lemma TwoLinesBlocks(first: Bytes, second: Bytes)
    requires first != [] && second != []
    requires NEWLINE !in first && RETURN !in first && NEWLINE !in second && RETURN !in second
    ensures EndedBlocks(TwoLines(first, second)) == [[first, second]] && OpenBlock(TwoLines(first, second)) == []
    ensures Blocks(Lines(TwoLines(first, second))) == [[first, second], []]
  {
    TwoLinesRead(first, second);
    NoReturnsNothingStripped(first);
    NoReturnsNothingStripped(second);
    BlocksOfTwo(first, second);
  }

  /** An empty first value is lost: `data:`, `data:x` and a blank line. */
  lemma LeadingEmptyValueIsLost()
    ensures var stream := TwoLines(DATA_FIELD, DATA_X);
            DecoderPayloads(stream) == [[X]] && StandardPayloads(stream) == [[NEWLINE, X]]
  {
    TwoLinesPayloads(DATA_FIELD, DATA_X);
    LeadingEmptyBlock();
  }

  lemma LeadingEmptyBlock()
    ensures BlockPayload([DATA_FIELD, DATA_X]) == [[X]] && StandardPayload([DATA_FIELD, DATA_X]) == [[NEWLINE, X]]
  {
    DataLineOf([]);
    DataLineOf([X]);
    ValuesOfTwo(DATA_FIELD, DATA_X);
    EmptyThenXBlock([DATA_FIELD, DATA_X]);
  }

  lemma EmptyThenX()
    ensures Gather([], [[], [X]]) == [X] && JoinLines([[], [X]]) == [NEWLINE, X]
  {
    var values: seq<Bytes> := [[], [X]];
    GatherDropsLeadingEmpty(values);
    assert values[1..] == [[X]];
  }

  lemma {:induction false} EmptyThenXBlock(block: seq<Bytes>)
    requires Values(block) == [[], [X]] || Values(block) == [[X]]
    requires StandardValues(block) == [[], [X]]
    ensures BlockPayload(block) == [[X]] && StandardPayload(block) == [[NEWLINE, X]]
  {
    EmptyThenX();
    OneValue([X]);
  }

  /** A bare `data` line, which the standard reads as an empty value, is not read at all. */
  lemma BareDataIsLost()
    ensures var stream := TwoLines(DATA_NAME, DATA_X);
            DecoderPayloads(stream) == [[X]] && StandardPayloads(stream) == [[NEWLINE, X]]
  {
    TwoLinesPayloads(DATA_NAME, DATA_X);
    DataLineOf([X]);
    BareLine();
    ValuesOfTwo(DATA_NAME, DATA_X);
    EmptyThenXBlock([DATA_NAME, DATA_X]);
  }

  /** A block whose values are all empty is dispatched by the standard alone. */
  lemma EmptyDataIsSilent()
    ensures var stream := TwoLines(DATA_FIELD, [COLON]);
            DecoderPayloads(stream) == [] && StandardPayloads(stream) == [[]]
  {
    TwoLinesPayloads(DATA_FIELD, [COLON]);
    EmptyBlock();
  }

  lemma EmptyBlock()
    ensures BlockPayload([DATA_FIELD, [COLON]]) == [] && StandardPayload([DATA_FIELD, [COLON]]) == [[]]
  {
    DataLineOf([]);
    CommentLine();
    ValuesOfTwo(DATA_FIELD, [COLON]);
    OneValue([]);
  }

  /** What no blank line ends is dispatched by the decoder alone. */
  lemma OpenBlockIsFlushed()
    ensures DecoderPayloads(DATA_X) == [[X]] && StandardPayloads(DATA_X) == []
  {
    DataLineOf([X]);
    assert FirstNewline(DATA_X) == 6 && FirstLineEnd(DATA_X) == 6;
    assert Lines(DATA_X) == [DATA_X] && [DATA_X][1..] == [];
    var empty: seq<seq<Bytes>> := [[]];
    assert Blocks([]) == empty && empty[1..] == [] && [DATA_X] + [] == [DATA_X];
    assert Blocks([DATA_X]) == [[DATA_X]];
    ValuesOfOne(DATA_X);
    OneValue([X]);
    var read: seq<Bytes>, blocks: seq<seq<Bytes>> := [[X]], [[DATA_X]];
    assert Values([DATA_X]) == read && BlockPayload([DATA_X]) == read;
    assert blocks[1..] == [] && read + [] == read;
    assert FlatMap(BlockPayload, blocks) == read;
  }

  // ----- Streams that the exact condition is not about

  lemma {:induction false} ReturnLine(line: Bytes, rest: Bytes)
    requires NEWLINE !in line && RETURN !in line && (rest != [] ==> rest[0] != NEWLINE)
    ensures StandardLines(line + [RETURN] + rest) == [line] + StandardLines(rest)
  {
    var stream := line + [RETURN] + rest;
    assert forall i :: 0 <= i < |line| ==> stream[i] == line[i];
    assert stream[|line|] == RETURN;
    assert FirstLineEnd(stream) == |line|;
    assert stream[..|line|] == line && stream[|line| + 1..] == rest;
    assert rest != [] ==> stream[|line| + 1] == rest[0];
  }

  /** What the decoder makes of a line and a comment, whatever the line starts with or has inside. */
  lemma DecoderReads(first: Bytes)
    requires first != [] && NEWLINE !in first && first[|first| - 1] != RETURN
    ensures DecoderPayloads(TwoLines(first, [COLON])) == BlockPayload([first, [COLON]])
  {
    DecoderLine([], []);
    DecoderLine([COLON], [] + [NEWLINE] + []);
    DecoderLine(first, [COLON] + [NEWLINE] + ([] + [NEWLINE] + []));
    assert Lines([]) == [];
    assert Lines(TwoLines(first, [COLON])) == [first, [COLON], []];
    BlocksOfTwo(first, [COLON]);
    PayloadOfOneBlock(BlockPayload, [first, [COLON]]);
  }

  /** The standard drops a leading byte order mark; the decoder takes it for a part of the first line. */
  lemma MarkHidesData()
    ensures var stream := BYTE_ORDER_MARK + TwoLines(DATA_X, [COLON]);
            DecoderPayloads(stream) == [] && StandardPayloads(stream) == [[X]]
  {
    var line := BYTE_ORDER_MARK + DATA_X;
    assert BYTE_ORDER_MARK + TwoLines(DATA_X, [COLON]) == TwoLines(line, [COLON]);
    DecoderReads(line);
    MarkedLine(line);
    TwoLinesAreStandard(DATA_X, [COLON]);
    MarkIsDropped(TwoLines(DATA_X, [COLON]));
    TwoLinesPayloads(DATA_X, [COLON]);
    DataAndComment([X]);
  }

  lemma MarkIsDropped(stream: Bytes)
    requires !(BYTE_ORDER_MARK <= stream)
    ensures StandardPayloads(BYTE_ORDER_MARK + stream) == StandardPayloads(stream)
  {
    assert (BYTE_ORDER_MARK + stream)[3..] == stream;
  }

  lemma MarkedLine(line: Bytes)
    requires line == BYTE_ORDER_MARK + DATA_X
    ensures BlockPayload([line, [COLON]]) == []
  {
    assert line[|line| - 1] == X && line[0] == BYTE_ORDER_MARK[0] && DATA_FIELD[0] == 100;
    assert !AddsData(line);
    CommentLine();
    ValuesOfTwo(line, [COLON]);
  }

  lemma DataAndComment(value: Bytes)
    requires value != [] && NEWLINE !in value && RETURN !in value && value[0] != SPACE
    ensures StandardPayload([DATA_FIELD + value, [COLON]]) == [value]
  {
    DataLineOf(value);
    CommentLine();
    ValuesOfTwo(DATA_FIELD + value, [COLON]);
  }

  /** The standard ends a line at a lone carriage return; the decoder reads on. */
  lemma LoneReturnSplits()
    ensures var stream := TwoLines(DATA_X + [RETURN] + DATA_X, [COLON]);
            && DecoderPayloads(stream) == [[X, RETURN] + DATA_X]
            && StandardPayloads(stream) == [[X, NEWLINE, X]]
  {
    var line := DATA_X + [RETURN] + DATA_X;
    DecoderReads(line);
    ReturnInside(line);
    assert TwoLines(line, [COLON]) == DATA_X + [RETURN] + TwoLines(DATA_X, [COLON]);
    assert TwoLines(line, [COLON])[0] == DATA_X[0] == 100;
    ReturnLine(DATA_X, TwoLines(DATA_X, [COLON]));
    TwoLinesRead(DATA_X, [COLON]);
    TwoValues();
  }

  lemma ReturnInside(line: Bytes)
    requires line == DATA_X + [RETURN] + DATA_X
    ensures BlockPayload([line, [COLON]]) == [[X, RETURN] + DATA_X]
  {
    assert line[|line| - 1] == X && line[..5] == DATA_FIELD && line[5..] == [X, RETURN] + DATA_X;
    assert AddsData(line) && DataValue(line) == [X, RETURN] + DATA_X;
    CommentLine();
    ValuesOfTwo(line, [COLON]);
    OneValue([X, RETURN] + DATA_X);
  }

  lemma {:induction false} LineRead(line: Bytes, rest: seq<Bytes>, buffer: Bytes)
    requires line != []
    ensures StandardEvents([line] + rest, buffer) ==
            StandardEvents(rest, Grown(buffer, line))
  {
    assert ([line] + rest)[1..] == rest;
  }

  lemma {:induction false} BlockRead(payload: Bytes)
    ensures StandardEvents([[]], payload + [NEWLINE]) == [payload]
  {
    var blank: seq<Bytes> := [[]];
    assert blank[1..] == [] && (payload + [NEWLINE])[..|payload|] == payload;
    assert [payload] + StandardEvents([], []) == [payload];
  }

  lemma TwoValues()
    ensures StandardEvents([DATA_X] + [DATA_X, [COLON], []], []) == [[X, NEWLINE, X]]
  {
    DataLineOf([X]);
    CommentLine();
    assert [] + [X] + [NEWLINE] == [X, NEWLINE] && [X, NEWLINE] + [X] + [NEWLINE] == [X, NEWLINE, X] + [NEWLINE];
    LineRead(DATA_X, [DATA_X, [COLON], []], []);
    assert [DATA_X, [COLON], []] == [DATA_X] + [[COLON], []] && [[COLON], []] == [[COLON]] + [[]];
    LineRead(DATA_X, [[COLON], []], [X, NEWLINE]);
    LineRead([COLON], [[]], [X, NEWLINE, X] + [NEWLINE]);
    BlockRead([X, NEWLINE, X]);
  }

  lemma OneValue(value: Bytes)
    ensures Gather([], [value]) == value
  {
    assert [value][1..] == [];
  }

  lemma DataLineOf(value: Bytes)
    requires NEWLINE !in value && RETURN !in value && (value != [] ==> value[0] != SPACE)
    ensures var line := DATA_FIELD + value;
            && StripReturns(line) == line && AddsData(line) && DataValue(line) == value
            && FieldName(line) == DATA_NAME && FieldValue(line) == value
  {
    var line := DATA_FIELD + value;
    NoReturnsNothingStripped(line);
    assert line[..5] == DATA_FIELD && line[5..] == value;
    DataLines(line);
    assert DATA_FIELD + [] == DATA_FIELD;
  }

  lemma BareLine()
    ensures StripReturns(DATA_NAME) == DATA_NAME && !AddsData(DATA_NAME)
    ensures FieldName(DATA_NAME) == DATA_NAME && FieldValue(DATA_NAME) == []
  {
    NoReturnsNothingStripped(DATA_NAME);
    DataLines(DATA_NAME);
  }

  lemma CommentLine()
    ensures StripReturns([COLON]) == [COLON] && !AddsData([COLON]) && FieldName([COLON]) != DATA_NAME
  {
  }

  lemma {:induction false} ValuesOfOne(line: Bytes)
    requires StripReturns(line) == line
    ensures Values([line]) == if AddsData(line) then [DataValue(line)] else []
    ensures StandardValues([line]) == if FieldName(line) == DATA_NAME then [FieldValue(line)] else []
  {
    assert [line][1..] == [];
  }

  lemma {:induction false} ValuesOfTwo(first: Bytes, second: Bytes)
    requires StripReturns(first) == first && StripReturns(second) == second
    ensures Values([first, second]) ==
            (if AddsData(first) then [DataValue(first)] else [])
            + (if AddsData(second) then [DataValue(second)] else [])
    ensures StandardValues([first, second]) ==
            (if FieldName(first) == DATA_NAME then [FieldValue(first)] else [])
            + (if FieldName(second) == DATA_NAME then [FieldValue(second)] else [])
  {
    assert [first, second][1..] == [second];
    ValuesOfOne(second);
  }

  lemma TwoLinesAreStandard(first: Bytes, second: Bytes)
    requires first != [] && first[0] < 128 && RETURN !in first && RETURN !in second
    ensures ReturnsEndLines(TwoLines(first, second)) && !(BYTE_ORDER_MARK <= TwoLines(first, second))
  {
    var stream := TwoLines(first, second);
    assert stream[0] == first[0];
    assert forall i :: 0 <= i < |stream| ==> stream[i] != RETURN;
  }

  lemma PayloadOfOneBlock(payload: seq<Bytes> -> seq<Bytes>, block: seq<Bytes>)
    ensures FlatMap(payload, [block]) == payload(block)
    ensures payload([]) == [] ==> FlatMap(payload, [block, []]) == payload(block)
  {
    var only: seq<seq<Bytes>>, last: seq<seq<Bytes>> := [block], [[]];
    assert only[1..] == [] && last[1..] == [] && [block, []][1..] == last;
    assert FlatMap(payload, last) == payload([]) + [];
  }

  lemma TwoLinesPayloads(first: Bytes, second: Bytes)
    requires first != [] && second != [] && first[0] < 128
    requires NEWLINE !in first && RETURN !in first && NEWLINE !in second && RETURN !in second
    ensures DecoderPayloads(TwoLines(first, second)) == BlockPayload([first, second])
    ensures StandardPayloads(TwoLines(first, second)) == StandardPayload([first, second])
  {
    TwoLinesBlocks(first, second);
    TwoLinesAreStandard(first, second);
    StandardPayloadsByBlock(TwoLines(first, second));
    PayloadOfOneBlock(BlockPayload, [first, second]);
    PayloadOfOneBlock(StandardPayload, [first, second]);
  }
}
