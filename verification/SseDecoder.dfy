/** `SseDecoder`: the incremental decoder of a server-sent event stream.

    Bytes arrive in chunks cut anywhere. The decoder buffers them, reads whole lines, gathers `data:`
    values until a blank line dispatches them, and refuses to hold more than `limit` undispatched bytes.
    UTF-8 validity of a line and the decoding of a payload are left to the host as functions.
 */
module SseDecoder {
  import opened Wrappers

  type Bytes = seq<Byte>

  const NEWLINE: Byte := 10
  const RETURN: Byte := 13
  const SPACE: Byte := 32
  const COLON: Byte := 58
  const DATA_FIELD: Bytes := [100, 97, 116, 97, 58]

  datatype Error = Overflow | Undecodable

  datatype Result<+T> = Ok(value: T) | Err(error: Error)

  /** Whether a line is UTF-8, and the events of a dispatched payload (`parse_sse_data`). */
  datatype Codec<+Event> = Codec(utf8: Bytes -> bool, parse: Bytes -> Option<seq<Event>>)

  // ----- One line

  function StripReturns(line: Bytes): Bytes
  {
    if line != [] && line[|line| - 1] == RETURN then StripReturns(line[..|line| - 1]) else line
  }

  predicate IsData(line: Bytes)
  {
    DATA_FIELD <= line
  }

  predicate AddsData(raw: Bytes)
  {
    var line := StripReturns(raw);
    line != [] && line[0] != COLON && IsData(line)
  }

  function DataValue(line: Bytes): Bytes
    requires IsData(line)
  {
    var value := line[5..];
    if value != [] && value[0] == SPACE then value[1..] else value
  }

  function Append(data: Bytes, value: Bytes): Bytes
  {
    (if data == [] then [] else data + [NEWLINE]) + value
  }

  /** What the decoder carries from line to line, and the events produced on the way. */
  datatype Progress<+Event> = Progress(data: Bytes, events: seq<Event>)

  function Dispatch<Event>(codec: Codec<Event>, data: Bytes): Option<Progress<Event>>
  {
    if data == [] then Some(Progress([], []))
    else match codec.parse(data)
      case None => None
      case Some(events) => Some(Progress([], events))
  }

  /** One line, its terminator removed. */
  function ReadLine<Event>(codec: Codec<Event>, data: Bytes, raw: Bytes): Option<Progress<Event>>
  {
    var line := StripReturns(raw);
    if !codec.utf8(raw) then None
    else if line == [] then Dispatch(codec, data)
    else if line[0] == COLON then Some(Progress(data, []))
    else if IsData(line) then Some(Progress(Append(data, DataValue(line)), []))
    else Some(Progress(data, []))
  }

  lemma {:induction false} StripReturnsShrinks(line: Bytes)
    ensures |StripReturns(line)| <= |line|
  {
    if line != [] && line[|line| - 1] == RETURN {
      StripReturnsShrinks(line[..|line| - 1]);
    }
  }

  /** A line never adds more to `data` than it took out of the buffer, its newline included. */
  lemma LineNeverGrows<Event>(codec: Codec<Event>, data: Bytes, raw: Bytes)
    requires ReadLine(codec, data, raw).Some?
    ensures |ReadLine(codec, data, raw).value.data| <= |data| + |raw|
  {
    StripReturnsShrinks(raw);
  }

  // ----- Whole lines of a buffer

  function FirstNewline(buffer: Bytes): (n: nat)
    ensures n <= |buffer|
    ensures n < |buffer| ==> buffer[n] == NEWLINE
    ensures NEWLINE !in buffer[..n]
  {
    if buffer == [] then 0
    else if buffer[0] == NEWLINE then 0
    else
      var rest := FirstNewline(buffer[1..]);
      assert buffer[..1 + rest] == [buffer[0]] + buffer[1..][..rest];
      1 + rest
  }

  datatype Drained<+Event> = Drained(buffer: Bytes, data: Bytes, events: seq<Event>)

  function Prepend<Event>(events: seq<Event>, rest: Option<Drained<Event>>): Option<Drained<Event>>
  {
    match rest
    case None => None
    case Some(d) => Some(Drained(d.buffer, d.data, events + d.events))
  }

  function Drain<Event>(codec: Codec<Event>, buffer: Bytes, data: Bytes): Option<Drained<Event>>
    decreases |buffer|
  {
    var n := FirstNewline(buffer);
    if n == |buffer| then Some(Drained(buffer, data, []))
    else match ReadLine(codec, data, buffer[..n])
      case None => None
      case Some(p) => Prepend(p.events, Drain(codec, buffer[n + 1..], p.data))
  }

  function Finish<Event>(codec: Codec<Event>, buffer: Bytes, data: Bytes): Option<seq<Event>>
  {
    if buffer == [] then
      match Dispatch(codec, data)
      case None => None
      case Some(p) => Some(p.events)
    else
      match ReadLine(codec, data, buffer)
      case None => None
      case Some(p) =>
        match Dispatch(codec, p.data)
        case None => None
        case Some(q) => Some(p.events + q.events)
  }

  /** Draining never increases the number of undispatched bytes, and leaves no whole line. */
  lemma {:induction false} DrainNeverGrows<Event>(codec: Codec<Event>, buffer: Bytes, data: Bytes)
    requires Drain(codec, buffer, data).Some?
    ensures var d := Drain(codec, buffer, data).value;
            |d.buffer| + |d.data| <= |buffer| + |data| && NEWLINE !in d.buffer
    decreases |buffer|
  {
    var n := FirstNewline(buffer);
    if n < |buffer| {
      var p := ReadLine(codec, data, buffer[..n]).value;
      LineNeverGrows(codec, data, buffer[..n]);
      DrainNeverGrows(codec, buffer[n + 1..], p.data);
    } else {
      assert buffer[..n] == buffer;
    }
  }

  lemma {:induction false} FirstNewlineExtends(buffer: Bytes, more: Bytes)
    ensures FirstNewline(buffer + more) ==
            (if NEWLINE in buffer then FirstNewline(buffer) else |buffer| + FirstNewline(more))
  {
    if buffer == [] {
      assert buffer + more == more;
    } else if buffer[0] != NEWLINE {
      assert (buffer + more)[1..] == buffer[1..] + more;
      FirstNewlineExtends(buffer[1..], more);
    }
  }

  lemma {:induction false} NewlineFound(buffer: Bytes)
    ensures NEWLINE in buffer <==> FirstNewline(buffer) < |buffer|
  {
    var n := FirstNewline(buffer);
    assert n == |buffer| ==> buffer[..n] == buffer;
  }

  /** Draining what has arrived and then the rest is draining everything at once. */
  lemma {:induction false} DrainComposes<Event>(codec: Codec<Event>, buffer: Bytes, data: Bytes, more: Bytes)
    ensures Drain(codec, buffer + more, data) ==
            match Drain(codec, buffer, data)
            case None => None
            case Some(d) => Prepend(d.events, Drain(codec, d.buffer + more, d.data))
    decreases |buffer|
  {
    var n := FirstNewline(buffer);
    FirstNewlineExtends(buffer, more);
    NewlineFound(buffer);
    if n < |buffer| {
      assert (buffer + more)[..n] == buffer[..n];
      assert (buffer + more)[n + 1..] == buffer[n + 1..] + more;
      if ReadLine(codec, data, buffer[..n]).Some? {
        var p := ReadLine(codec, data, buffer[..n]).value;
        DrainComposes(codec, buffer[n + 1..], p.data, more);
        if Drain(codec, buffer[n + 1..], p.data).Some? {
          var d := Drain(codec, buffer[n + 1..], p.data).value;
          PrependAgain(p.events, d.events, Drain(codec, d.buffer + more, d.data));
        }
      }
    } else {
      PrependNothing(Drain(codec, buffer + more, data));
    }
  }

  lemma PrependNothing<Event>(rest: Option<Drained<Event>>)
    ensures Prepend([], rest) == rest
  {
    if rest.Some? {
      assert [] + rest.value.events == rest.value.events;
    }
  }

  lemma PrependAgain<Event>(first: seq<Event>, second: seq<Event>, rest: Option<Drained<Event>>)
    ensures Prepend(first, Prepend(second, rest)) == Prepend(first + second, rest)
  {
    if rest.Some? {
      assert first + (second + rest.value.events) == first + second + rest.value.events;
    }
  }

  // ----- A whole stream

  function Join(chunks: seq<Bytes>): Bytes
  {
    if chunks == [] then [] else chunks[0] + Join(chunks[1..])
  }

  function After<Event>(events: seq<Event>, rest: Result<seq<Event>>): Result<seq<Event>>
  {
    match rest
    case Err(_) => rest
    case Ok(more) => Ok(events + more)
  }

  function OrUndecodable<Event>(r: Option<seq<Event>>): Result<seq<Event>>
  {
    match r
    case None => Err(Undecodable)
    case Some(events) => Ok(events)
  }

  /** Pushing `chunks` one after the other into a decoder holding `buffer` and `data`, then finishing. */
  function Feed<Event>(codec: Codec<Event>, limit: nat, chunks: seq<Bytes>, buffer: Bytes, data: Bytes)
    : Result<seq<Event>>
  {
    if chunks == [] then OrUndecodable(Finish(codec, buffer, data))
    else if |buffer| + |chunks[0]| + |data| > limit then Err(Overflow)
    else match Drain(codec, buffer + chunks[0], data)
      case None => Err(Undecodable)
      case Some(d) => After(d.events, Feed(codec, limit, chunks[1..], d.buffer, d.data))
  }

  /** The same stream in one piece, with no limit. */
  function Whole<Event>(codec: Codec<Event>, buffer: Bytes, data: Bytes): Result<seq<Event>>
  {
    match Drain(codec, buffer, data)
    case None => Err(Undecodable)
    case Some(d) => After(d.events, OrUndecodable(Finish(codec, d.buffer, d.data)))
  }

  lemma AfterBoth<Event>(first: seq<Event>, second: seq<Event>, rest: Result<seq<Event>>)
    ensures After(first, After(second, rest)) == After(first + second, rest)
  {
    if rest.Ok? {
      assert first + (second + rest.value) == first + second + rest.value;
    }
  }

  lemma {:induction false} WholeComposes<Event>(codec: Codec<Event>, buffer: Bytes, data: Bytes, more: Bytes)
    ensures Whole(codec, buffer + more, data) ==
            match Drain(codec, buffer, data)
            case None => Err(Undecodable)
            case Some(d) => After(d.events, Whole(codec, d.buffer + more, d.data))
  {
    DrainComposes(codec, buffer, data, more);
    if Drain(codec, buffer, data).Some? {
      var d := Drain(codec, buffer, data).value;
      if Drain(codec, d.buffer + more, d.data).Some? {
        var e := Drain(codec, d.buffer + more, d.data).value;
        AfterBoth(d.events, e.events, OrUndecodable(Finish(codec, e.buffer, e.data)));
      }
    }
  }

  /** However a stream is cut, a decoder that does not overflow reads it as if it came in one piece. */
  lemma {:induction false} FeedIsWhole<Event>(codec: Codec<Event>, limit: nat, chunks: seq<Bytes>, buffer: Bytes,
                                              data: Bytes)
    requires NEWLINE !in buffer
    requires Feed(codec, limit, chunks, buffer, data) != Err(Overflow)
    ensures Feed(codec, limit, chunks, buffer, data) == Whole(codec, buffer + Join(chunks), data)
    decreases |chunks|
  {
    if chunks == [] {
      assert buffer + Join(chunks) == buffer;
      NewlineFound(buffer);
      var last := OrUndecodable(Finish(codec, buffer, data));
      assert last.Ok? ==> [] + last.value == last.value;
    } else {
      assert buffer + Join(chunks) == buffer + chunks[0] + Join(chunks[1..]);
      WholeComposes(codec, buffer + chunks[0], data, Join(chunks[1..]));
      if Drain(codec, buffer + chunks[0], data).Some? {
        var d := Drain(codec, buffer + chunks[0], data).value;
        DrainNeverGrows(codec, buffer + chunks[0], data);
        FeedIsWhole(codec, limit, chunks[1..], d.buffer, d.data);
      }
    }
  }

  /** Chunk independence. */
  lemma {:induction false} ChunkIndependence<Event>(codec: Codec<Event>, limit: nat, limit': nat, chunks: seq<Bytes>,
                                                    chunks': seq<Bytes>)
    requires Join(chunks) == Join(chunks')
    requires Feed(codec, limit, chunks, [], []) != Err(Overflow)
    requires Feed(codec, limit', chunks', [], []) != Err(Overflow)
    ensures Feed(codec, limit, chunks, [], []) == Feed(codec, limit', chunks', [], [])
  {
    FeedIsWhole(codec, limit, chunks, [], []);
    FeedIsWhole(codec, limit', chunks', [], []);
  }

  // ----- The ceiling

  function Flatten(groups: seq<seq<Bytes>>): seq<Bytes>
  {
    if groups == [] then [] else groups[0] + Flatten(groups[1..])
  }

  function Coarse(groups: seq<seq<Bytes>>): seq<Bytes>
  {
    if groups == [] then [] else [Join(groups[0])] + Coarse(groups[1..])
  }

  /** Cutting one accepted chunk further, whatever comes after it. */
  lemma {:induction false} SplitChunkAccepted<Event>(codec: Codec<Event>, limit: nat, parts: seq<Bytes>,
                                                     rest: seq<Bytes>, buffer: Bytes, data: Bytes)
    requires |buffer| + |data| + |Join(parts)| <= limit && NEWLINE !in buffer
    ensures match Drain(codec, buffer + Join(parts), data)
            case None => Feed(codec, limit, parts + rest, buffer, data) == Err(Undecodable)
            case Some(d) =>
              Feed(codec, limit, parts + rest, buffer, data) ==
              After(d.events, Feed(codec, limit, rest, d.buffer, d.data))
    decreases |parts|
  {
    if parts == [] {
      assert parts + rest == rest && buffer + Join(parts) == buffer;
      NewlineFound(buffer);
      var last := Feed(codec, limit, rest, buffer, data);
      assert last.Ok? ==> [] + last.value == last.value;
    } else {
      var first, others := parts[0], parts[1..];
      assert (parts + rest)[0] == first && (parts + rest)[1..] == others + rest;
      assert buffer + Join(parts) == buffer + first + Join(others);
      DrainComposes(codec, buffer + first, data, Join(others));
      if Drain(codec, buffer + first, data).Some? {
        var d := Drain(codec, buffer + first, data).value;
        DrainNeverGrows(codec, buffer + first, data);
        SplitChunkAccepted(codec, limit, others, rest, d.buffer, d.data);
        if Drain(codec, d.buffer + Join(others), d.data).Some? {
          var e := Drain(codec, d.buffer + Join(others), d.data).value;
          AfterBoth(d.events, e.events, Feed(codec, limit, rest, e.buffer, e.data));
        }
      }
    }
  }

  /** Any finer cutting of an accepted stream is accepted too, with the same outcome. */
  lemma {:induction false} FinerCuttingAccepted<Event>(codec: Codec<Event>, limit: nat, groups: seq<seq<Bytes>>,
                                                       buffer: Bytes, data: Bytes)
    requires NEWLINE !in buffer
    requires Feed(codec, limit, Coarse(groups), buffer, data) != Err(Overflow)
    ensures Feed(codec, limit, Flatten(groups), buffer, data) == Feed(codec, limit, Coarse(groups), buffer, data)
    decreases |groups|
  {
    if groups != [] {
      var parts, rest := groups[0], groups[1..];
      assert Coarse(groups)[0] == Join(parts) && Coarse(groups)[1..] == Coarse(rest);
      SplitChunkAccepted(codec, limit, parts, Flatten(rest), buffer, data);
      if Drain(codec, buffer + Join(parts), data).Some? {
        var d := Drain(codec, buffer + Join(parts), data).value;
        DrainNeverGrows(codec, buffer + Join(parts), data);
        FinerCuttingAccepted(codec, limit, rest, d.buffer, d.data);
      }
    }
  }

  // ----- What the events of a stream are, without a decoder

  /** The lines of a stream: what stands before each newline, and what is left after the last one. */
  function Lines(stream: Bytes): seq<Bytes>
    decreases |stream|
  {
    var n := FirstNewline(stream);
    if n < |stream| then [stream[..n]] + Lines(stream[n + 1..])
    else if stream == [] then []
    else [stream]
  }

  predicate IsBlank(raw: Bytes)
  {
    StripReturns(raw) == []
  }

  /** The runs of lines between blank lines. */
  function Blocks(lines: seq<Bytes>): (blocks: seq<seq<Bytes>>)
    ensures blocks != []
  {
    if lines == [] then [[]]
    else
      var rest := Blocks(lines[1..]);
      if IsBlank(lines[0]) then [[]] + rest else [[lines[0]] + rest[0]] + rest[1..]
  }

  /** The values of the `data:` lines of a block. */
  function Values(block: seq<Bytes>): seq<Bytes>
  {
    if block == [] then []
    else
      var line := StripReturns(block[0]);
      (if AddsData(block[0]) then [DataValue(line)] else []) + Values(block[1..])
  }

  /** The payload the decoder puts together from `data` and further values. */
  function Gather(data: Bytes, values: seq<Bytes>): Bytes
    decreases |values|
  {
    if values == [] then data else Gather(Append(data, values[0]), values[1..])
  }

  /** The events of the blocks, `data` being already gathered for the first one; an empty payload is
      not dispatched. `None` when a payload cannot be decoded. */
  function BlockEvents<Event>(codec: Codec<Event>, data: Bytes, blocks: seq<seq<Bytes>>): Option<seq<Event>>
    decreases |blocks|
  {
    if blocks == [] then Some([])
    else
      match Dispatch(codec, Gather(data, Values(blocks[0])))
      case None => None
      case Some(p) =>
        match BlockEvents(codec, [], blocks[1..])
        case None => None
        case Some(more) => Some(p.events + more)
  }

  ghost predicate AllUtf8<Event>(codec: Codec<Event>, lines: seq<Bytes>)
  {
    forall i :: 0 <= i < |lines| ==> codec.utf8(lines[i])
  }

  /** Reading the lines one by one. */
  function ReadLines<Event>(codec: Codec<Event>, data: Bytes, lines: seq<Bytes>): Option<seq<Event>>
    decreases |lines|
  {
    if lines == [] then
      match Dispatch(codec, data)
      case None => None
      case Some(p) => Some(p.events)
    else
      match ReadLine(codec, data, lines[0])
      case None => None
      case Some(p) =>
        match ReadLines(codec, p.data, lines[1..])
        case None => None
        case Some(more) => Some(p.events + more)
  }

  lemma {:induction false} WholeReadsLines<Event>(codec: Codec<Event>, stream: Bytes, data: Bytes)
    ensures Whole(codec, stream, data) == OrUndecodable(ReadLines(codec, data, Lines(stream)))
    decreases |stream|
  {
    var n := FirstNewline(stream);
    if n < |stream| {
      assert Lines(stream)[0] == stream[..n] && Lines(stream)[1..] == Lines(stream[n + 1..]);
      if ReadLine(codec, data, stream[..n]).Some? {
        var p := ReadLine(codec, data, stream[..n]).value;
        WholeReadsLines(codec, stream[n + 1..], p.data);
        if Drain(codec, stream[n + 1..], p.data).Some? {
          var d := Drain(codec, stream[n + 1..], p.data).value;
          AfterBoth(p.events, d.events, OrUndecodable(Finish(codec, d.buffer, d.data)));
        }
      }
    } else {
      var last := OrUndecodable(Finish(codec, stream, data));
      assert last.Ok? ==> [] + last.value == last.value;
      if stream != [] {
        assert Lines(stream) == [stream] && Lines(stream)[1..] == [];
      }
    }
  }

  /** Line by line or block by block, the events are the same, and every line has to be UTF-8. */
  lemma {:induction false} ReadLinesByBlock<Event>(codec: Codec<Event>, data: Bytes, lines: seq<Bytes>)
    ensures ReadLines(codec, data, lines) ==
            if AllUtf8(codec, lines) then BlockEvents(codec, data, Blocks(lines)) else None
    decreases |lines|
  {
    var blocks := Blocks(lines);
    if lines == [] {
      assert blocks[1..] == [];
      if Dispatch(codec, data).Some? {
        assert Dispatch(codec, data).value.events + [] == Dispatch(codec, data).value.events;
      }
    } else {
      var rest := lines[1..];
      assert AllUtf8(codec, lines) <==> codec.utf8(lines[0]) && AllUtf8(codec, rest) by {
        assert lines == [lines[0]] + rest;
      }
      var more := Blocks(rest);
      if codec.utf8(lines[0]) {
        if IsBlank(lines[0]) {
          assert blocks[0] == [] && blocks[1..] == more;
          ReadLinesByBlock(codec, [], rest);
        } else {
          assert blocks[0][0] == lines[0] && blocks[0][1..] == more[0] && blocks[1..] == more[1..];
          var p := ReadLine(codec, data, lines[0]).value;
          ReadLinesByBlock(codec, p.data, rest);
          GatherStep(data, lines[0], more[0]);
          DropNothing(ReadLines(codec, p.data, rest));
        }
      }
    }
  }

  lemma DropNothing<Event>(r: Option<seq<Event>>)
    ensures r.Some? ==> [] + r.value == r.value
  {
  }

  lemma {:induction false} GatherStep(data: Bytes, raw: Bytes, others: seq<Bytes>)
    ensures var line := StripReturns(raw);
            Gather(data, Values([raw] + others)) ==
            Gather(if AddsData(raw) then Append(data, DataValue(line)) else data, Values(others))
  {
    var line := StripReturns(raw);
    assert ([raw] + others)[1..] == others;
    if AddsData(raw) {
      var all := [DataValue(line)] + Values(others);
      assert all[1..] == Values(others);
    } else {
      assert [] + Values(others) == Values(others);
    }
  }

  /** Every run of the decoder that does not overflow delivers exactly the events of the stream's blocks. */
  lemma {:induction false} DecoderMeetsStream<Event>(codec: Codec<Event>, limit: nat, chunks: seq<Bytes>)
    requires Feed(codec, limit, chunks, [], []) != Err(Overflow)
    ensures var lines := Lines(Join(chunks));
            Feed(codec, limit, chunks, [], []) ==
            if AllUtf8(codec, lines) then OrUndecodable(BlockEvents(codec, [], Blocks(lines))) else Err(Undecodable)
  {
    FeedIsWhole(codec, limit, chunks, [], []);
    WholeReadsLines(codec, [] + Join(chunks), []);
    assert [] + Join(chunks) == Join(chunks);
    ReadLinesByBlock(codec, [], Lines(Join(chunks)));
  }

  // ----- The payload of a block

  /** The values of a block joined by newlines. */
  function JoinLines(values: seq<Bytes>): Bytes
  {
    if values == [] then []
    else if |values| == 1 then values[0]
    else values[0] + [NEWLINE] + JoinLines(values[1..])
  }

  lemma {:induction false} GatherOnto(data: Bytes, values: seq<Bytes>)
    requires data != []
    ensures Gather(data, values) == if values == [] then data else data + [NEWLINE] + JoinLines(values)
    decreases |values|
  {
    if values != [] {
      GatherOnto(Append(data, values[0]), values[1..]);
      if |values| > 1 {
        assert data + [NEWLINE] + values[0] + [NEWLINE] + JoinLines(values[1..])
            == data + [NEWLINE] + (values[0] + [NEWLINE] + JoinLines(values[1..]));
      }
    }
  }

  function DropLeadingEmpty(values: seq<Bytes>): seq<Bytes>
  {
    if values != [] && values[0] == [] then DropLeadingEmpty(values[1..]) else values
  }

  lemma {:induction false} GatherDropsLeadingEmpty(values: seq<Bytes>)
    ensures Gather([], values) == JoinLines(DropLeadingEmpty(values))
    decreases |values|
  {
    if values != [] {
      assert Append([], values[0]) == values[0];
      if values[0] == [] {
        GatherDropsLeadingEmpty(values[1..]);
      } else {
        GatherOnto(values[0], values[1..]);
        assert values[1..] == [] ==> |values| == 1;
      }
    }
  }

  lemma {:induction false} JoinLinesLength(values: seq<Bytes>)
    ensures |JoinLines(DropLeadingEmpty(values))| <= |JoinLines(values)|
    decreases |values|
  {
    if values != [] && values[0] == [] {
      JoinLinesLength(values[1..]);
    }
  }

  /** The newline after an empty first value is dropped. */
  lemma {:induction false} PayloadIsJoinedIff(values: seq<Bytes>)
    ensures Gather([], values) == JoinLines(values) <==> |values| <= 1 || values[0] != []
  {
    GatherDropsLeadingEmpty(values);
    if |values| > 1 && values[0] == [] {
      JoinLinesLength(values[1..]);
      assert |JoinLines(values)| == 1 + |JoinLines(values[1..])|;
    }
  }

  // ----- The decoder itself

  class Decoder<Event> {
    var buffer: Bytes
    var data: Bytes
    const limit: nat
    const codec: Codec<Event>

    constructor (limit: nat, codec: Codec<Event>)
      ensures buffer == [] && data == [] && this.limit == limit && this.codec == codec
    {
      buffer, data := [], [];
      this.limit := limit;
      this.codec := codec;
    }

    predicate OverLimit()
      reads this
    {
      |buffer| + |data| > limit
    }

    method DispatchEvent() returns (r: Result<seq<Event>>)
      modifies this`data
      ensures match Dispatch(codec, old(data))
              case None => r == Err(Undecodable)
              case Some(p) => r == Ok(p.events) && data == p.data
    {
      if data == [] {
        return Ok([]);
      }
      var payload := data;
      data := [];
      r := match codec.parse(payload) case None => Err(Undecodable) case Some(events) => Ok(events);
    }

    /** One line; only a `data:` line that leaves too much undispatched is an overflow. */
    method HandleLine(raw: Bytes) returns (r: Result<seq<Event>>)
      modifies this`data
      ensures match ReadLine(codec, old(data), raw)
              case None => r == Err(Undecodable)
              case Some(p) =>
                && data == p.data
                && r == if AddsData(raw) && |buffer| + |p.data| > limit then Err(Overflow) else Ok(p.events)
    {
      if !codec.utf8(raw) {
        return Err(Undecodable);
      }
      var line := StripReturns(raw);
      if line == [] {
        r := DispatchEvent();
        return;
      }
      if line[0] == COLON {
        return Ok([]);
      }
      if IsData(line) {
        if data != [] {
          data := data + [NEWLINE];
        }
        data := data + DataValue(line);
        return if OverLimit() then Err(Overflow) else Ok([]);
      }
      return Ok([]);
    }

    /** Feeds one chunk. Once the check on entry has passed, the one inside the loop cannot fail. */
    method Push(bytes: Bytes) returns (r: Result<seq<Event>>)
      modifies this
      ensures |old(buffer)| + |bytes| + |old(data)| > limit ==> r == Err(Overflow)
      ensures |old(buffer)| + |bytes| + |old(data)| <= limit ==>
                match Drain(codec, old(buffer) + bytes, old(data))
                case None => r == Err(Undecodable)
                case Some(d) => r == Ok(d.events) && buffer == d.buffer && data == d.data
      ensures r.Ok? ==> |buffer| + |data| <= limit && NEWLINE !in buffer
    {
      buffer := buffer + bytes;
      if OverLimit() {
        return Err(Overflow);
      }
      ghost var whole := Drain(codec, buffer, data);
      var events: seq<Event> := [];
      PrependNothing(whole);
      while NEWLINE in buffer
        invariant |buffer| + |data| <= limit
        invariant Prepend(events, Drain(codec, buffer, data)) == whole
        decreases |buffer|
      {
        NewlineFound(buffer);
        var n := FirstNewline(buffer);
        var line := buffer[..n];
        ghost var held := data;
        buffer := buffer[n + 1..];
        var step := HandleLine(line);
        if ReadLine(codec, held, line).Some? {
          LineNeverGrows(codec, held, line);
        }
        if step.Err? {
          return Err(step.error);
        }
        PrependAgain(events, step.value, Drain(codec, buffer, data));
        events := events + step.value;
      }
      NewlineFound(buffer);
      assert events + [] == events;
      return Ok(events);
    }

    /** Flushes what was never terminated by a blank line. */
    method FinishStream() returns (r: Result<seq<Event>>)
      requires |buffer| + |data| <= limit
      modifies this
      ensures r == OrUndecodable(Finish(codec, old(buffer), old(data)))
    {
      var events: seq<Event> := [];
      if buffer != [] {
        var tail := buffer;
        ghost var held := data;
        buffer := [];
        var step := HandleLine(tail);
        if ReadLine(codec, held, tail).Some? {
          LineNeverGrows(codec, held, tail);
        }
        if step.Err? {
          return Err(step.error);
        }
        events := step.value;
      }
      var last := DispatchEvent();
      if last.Err? {
        return Err(last.error);
      }
      assert events == [] ==> events + last.value == last.value;
      return Ok(events + last.value);
    }
  }

  /** The stream loop of `stream_chat`: push every chunk, then finish; the first error ends it. */
  method DecodeStream<Event>(codec: Codec<Event>, limit: nat, chunks: seq<Bytes>) returns (r: Result<seq<Event>>)
    ensures r == Feed(codec, limit, chunks, [], [])
  {
    var decoder := new Decoder(limit, codec);
    var events: seq<Event> := [];
    DropNothing(ToOption(Feed(codec, limit, chunks, [], [])));
    for i := 0 to |chunks|
      invariant decoder.limit == limit && decoder.codec == codec && |decoder.buffer| + |decoder.data| <= limit
      invariant After(events, Feed(codec, limit, chunks[i..], decoder.buffer, decoder.data)) ==
                Feed(codec, limit, chunks, [], [])
    {
      assert chunks[i..][0] == chunks[i] && chunks[i..][1..] == chunks[i + 1..];
      var step := decoder.Push(chunks[i]);
      if step.Err? {
        return Err(step.error);
      }
      AfterBoth(events, step.value, Feed(codec, limit, chunks[i + 1..], decoder.buffer, decoder.data));
      events := events + step.value;
    }
    assert chunks[|chunks|..] == [];
    var last := decoder.FinishStream();
    if last.Err? {
      return Err(last.error);
    }
    return Ok(events + last.value);
  }

  function ToOption<T>(r: Result<T>): Option<T>
  {
    match r
    case Ok(value) => Some(value)
    case Err(_) => None
  }
}
