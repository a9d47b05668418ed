/** `Session`: the conversation as a list of entries, and the wire messages derived from it. */
module Session {
  import opened Wrappers
  import opened Messages
  import opened Sequences

  datatype Status = Success | Error | Denied

  datatype ExchangeResult = ExchangeResult(content: string, status: Status, asked: bool)

  /** One tool call and, once recorded, its result. */
  datatype Exchange = Exchange(call: Call, result: Option<ExchangeResult>)

  datatype Entry =
    | System(content: string)
    | User(content: string, images: seq<string>)
    | Assistant(content: string, reasoning: Option<string>, exchanges: seq<Exchange>)
    | Compaction(summary: string, folded: nat)

  /** A shared entry: `address` is the identity `Arc::ptr_eq` compares. */
  datatype Cell = Cell(address: nat, turn: Option<nat>, entry: Entry)

  const INTERRUPTED_TOOL_RESULT: string :=
    "工具调用未完成：会话在执行前被中断。/ Tool call did not complete: the session was interrupted before it ran."

  const COMPACTION_SUMMARY_PREFIX: string := "[会话摘要 / session summary]\n"

  // ----- The wire derivation

  function Text(role: Role, content: string): Message
  {
    Message(role, content, [], None, None, [])
  }

  /** A session keeps the paths of a turn's images; the request resolves them. */
  function Paths(images: seq<string>): seq<ImageRef>
  {
    seq(|images|, i requires 0 <= i < |images| => Path(images[i]))
  }

  function ToolMessage(e: Exchange): Message
  {
    Message(ToolRole, if e.result.Some? then e.result.value.content else INTERRUPTED_TOOL_RESULT,
            [], None, Some(e.call.id), [])
  }

  function Calls(exchanges: seq<Exchange>): seq<Call>
  {
    seq(|exchanges|, i requires 0 <= i < |exchanges| => exchanges[i].call)
  }

  function ToolMessages(exchanges: seq<Exchange>): seq<Message>
  {
    seq(|exchanges|, i requires 0 <= i < |exchanges| => ToolMessage(exchanges[i]))
  }

  function EntryWire(entry: Entry): seq<Message>
  {
    match entry
    case System(content) => [Text(SystemRole, content)]
    case User(content, images) => [Text(UserRole, content).(images := Paths(images))]
    case Compaction(summary, _) => [Text(SystemRole, COMPACTION_SUMMARY_PREFIX + summary)]
    case Assistant(content, reasoning, exchanges) =>
      [Text(AssistantRole, content).(reasoning := if reasoning == Some("") then None else reasoning,
                                     calls := Calls(exchanges))]
      + ToolMessages(exchanges)
  }

  function CellWire(cell: Cell): seq<Message>
  {
    EntryWire(cell.entry)
  }

  function Wire(entries: seq<Cell>): seq<Message>
  {
    FlatMap(CellWire, entries)
  }

  predicate Answered(calls: seq<Call>, answers: seq<Message>)
  {
    && |answers| == |calls|
    && forall i :: 0 <= i < |calls| ==> answers[i].role == ToolRole && answers[i].callId == Some(calls[i].id)
  }

  /** The first message and its answers. */
  predicate Opens(messages: seq<Message>)
    requires messages != []
  {
    var head, k := messages[0], |messages[0].calls|;
    && head.role != ToolRole
    && (k > 0 ==> head.role == AssistantRole)
    && k < |messages|
    && Answered(head.calls, messages[1..k + 1])
  }

  /** The provider's rule, read off the messages alone: a message asking for k calls is followed by
      exactly k tool messages answering them in order, and no tool message stands anywhere else. */
  predicate Paired(messages: seq<Message>)
    decreases |messages|
  {
    messages == [] || (Opens(messages) && Paired(messages[|messages[0].calls| + 1..]))
  }

  lemma OpensConcat(a: seq<Message>, b: seq<Message>)
    requires a != [] && Opens(a)
    ensures Opens(a + b) && (a + b)[|a[0].calls| + 1..] == a[|a[0].calls| + 1..] + b
  {
    assert (a + b)[1..|a[0].calls| + 1] == a[1..|a[0].calls| + 1];
  }

  lemma {:induction false} PairedConcat(a: seq<Message>, b: seq<Message>)
    requires Paired(a) && Paired(b)
    ensures Paired(a + b)
    decreases |a|
  {
    if a == [] {
      assert a + b == b;
    } else {
      OpensConcat(a, b);
      PairedConcat(a[|a[0].calls| + 1..], b);
    }
  }

  /** Whatever the entries are, the derived messages obey the provider's rule. */
  lemma {:induction false} WireIsPaired(entries: seq<Cell>)
    ensures Paired(Wire(entries))
  {
    if entries != [] {
      var block := EntryWire(entries[0].entry);
      assert Paired(block) by {
        assert block[|block[0].calls| + 1..] == [];
        assert entries[0].entry.Assistant? ==>
               block[1..|block[0].calls| + 1] == ToolMessages(entries[0].entry.exchanges);
      }
      WireIsPaired(entries[1..]);
      PairedConcat(block, Wire(entries[1..]));
    }
  }

  // ----- Recording a tool result

  /** The newest assistant entry. */
  function LatestAssistant(entries: seq<Cell>): (at: Option<nat>)
    ensures at.Some? ==> at.value < |entries| && entries[at.value].entry.Assistant?
    ensures forall i :: (if at.Some? then at.value < i else 0 <= i) && i < |entries| ==> !entries[i].entry.Assistant?
  {
    if entries == [] then None
    else
      var last := |entries| - 1;
      if entries[last].entry.Assistant? then Some(last) else LatestAssistant(entries[..last])
  }

  predicate Waits(e: Exchange, callId: string)
  {
    e.call.id == callId && e.result.None?
  }

  /** The first exchange still waiting for this call's result. */
  function FirstWaiting(exchanges: seq<Exchange>, callId: string): (at: Option<nat>)
    ensures at.Some? ==> at.value < |exchanges| && Waits(exchanges[at.value], callId)
    ensures forall i :: 0 <= i < (if at.Some? then at.value else |exchanges|) ==> !Waits(exchanges[i], callId)
  {
    if exchanges == [] then None
    else if Waits(exchanges[0], callId) then Some(0)
    else
      match FirstWaiting(exchanges[1..], callId)
      case None => None
      case Some(k) => Some(k + 1)
  }

  /** Where a result for this call goes: an entry and an exchange in it. */
  function ResultSlot(entries: seq<Cell>, callId: string): (slot: Option<(nat, nat)>)
    ensures slot.Some? ==> IsSlot(entries, slot.value.0, slot.value.1, callId)
  {
    var at := LatestAssistant(entries);
    if at.None? then None
    else
      var k := FirstWaiting(entries[at.value].entry.exchanges, callId);
      if k.None? then None else Some((at.value, k.value))
  }

  /** A result goes to the newest assistant entry, to its first exchange for that call without a result; when
      there is none it goes nowhere. */
  lemma ResultSlotIff(entries: seq<Cell>, callId: string, i: nat, k: nat)
    ensures ResultSlot(entries, callId) == Some((i, k)) <==>
            && i < |entries| && entries[i].entry.Assistant?
            && (forall j :: i < j < |entries| ==> !entries[j].entry.Assistant?)
            && k < |entries[i].entry.exchanges|
            && entries[i].entry.exchanges[k].call.id == callId && entries[i].entry.exchanges[k].result.None?
            && forall m :: 0 <= m < k ==>
                 !(entries[i].entry.exchanges[m].call.id == callId && entries[i].entry.exchanges[m].result.None?)
  {
  }

  predicate IsSlot(entries: seq<Cell>, i: nat, k: nat, callId: string)
  {
    && i < |entries| && entries[i].entry.Assistant?
    && k < |entries[i].entry.exchanges| && Waits(entries[i].entry.exchanges[k], callId)
  }

  function Fill(cell: Cell, k: nat, result: ExchangeResult, address: nat): Cell
    requires cell.entry.Assistant? && k < |cell.entry.exchanges|
  {
    var done := cell.entry.exchanges[k].(result := Some(result));
    Cell(address, cell.turn, cell.entry.(exchanges := cell.entry.exchanges[k := done]))
  }

  /** The wire position of exchange `k` of entry `i`. */
  function WirePosition(entries: seq<Cell>, i: nat, k: nat): nat
    requires i < |entries|
  {
    MessagesBefore(entries[..i]) + 1 + k
  }

  lemma FillInEntry(cell: Cell, k: nat, result: ExchangeResult, address: nat)
    requires cell.entry.Assistant? && k < |cell.entry.exchanges| && cell.entry.exchanges[k].result.None?
    ensures var before, e := EntryWire(cell.entry), cell.entry.exchanges[k];
            && 1 + k < |before| && before[1 + k] == ToolMessage(e)
            && EntryWire(Fill(cell, k, result, address).entry) ==
              before[1 + k := ToolMessage(e.(result := Some(result)))]
  {
    var filled := Fill(cell, k, result, address);
    var e := cell.entry.exchanges[k].(result := Some(result));
    assert Calls(filled.entry.exchanges) == Calls(cell.entry.exchanges);
    assert ToolMessages(filled.entry.exchanges) == ToolMessages(cell.entry.exchanges)[k := ToolMessage(e)];
  }

  // ----- What the messages say

  /** How many messages an entry makes: its own, and one per exchange. */
  function MessageCount(entry: Entry): nat
  {
    if entry.Assistant? then 1 + |entry.exchanges| else 1
  }

  function MessagesBefore(entries: seq<Cell>): nat
  {
    if entries == [] then 0 else MessageCount(entries[0].entry) + MessagesBefore(entries[1..])
  }

  lemma {:induction false} WireLength(entries: seq<Cell>)
    ensures |Wire(entries)| == MessagesBefore(entries)
  {
    if entries != [] {
      WireLength(entries[1..]);
    }
  }

  /** An entry's messages stand together, behind those of the entries before it. */
  lemma {:induction false} EntryOnTheWire(entries: seq<Cell>, i: nat, m: nat)
    requires i < |entries| && m < |EntryWire(entries[i].entry)|
    ensures MessagesBefore(entries[..i]) + m < |Wire(entries)|
    ensures Wire(entries)[MessagesBefore(entries[..i]) + m] == EntryWire(entries[i].entry)[m]
  {
    FlatMapAround(CellWire, entries, i);
    WireLength(entries[..i]);
  }

  /** The first message of an entry is the entry's own: its role, its text, its images, and for the
      assistant its reasoning, when there is any, and its calls in order. */
  lemma EntryMessageSays(entries: seq<Cell>, i: nat) returns (m: Message)
    requires i < |entries|
    ensures MessagesBefore(entries[..i]) < |Wire(entries)| && m == Wire(entries)[MessagesBefore(entries[..i])]
    ensures m.callId.None?
    ensures match entries[i].entry
            case System(content) =>
              m.role == SystemRole && m.content == content && m.images == [] && m.reasoning.None? && m.calls == []
            case User(content, images) =>
              && m.role == UserRole && m.content == content && m.reasoning.None? && m.calls == []
              && |m.images| == |images| && forall k :: 0 <= k < |images| ==> m.images[k] == Path(images[k])
            case Compaction(summary, _) =>
              && m.role == SystemRole && COMPACTION_SUMMARY_PREFIX <= m.content
              && m.content[|COMPACTION_SUMMARY_PREFIX|..] == summary
              && m.images == [] && m.reasoning.None? && m.calls == []
            case Assistant(content, reasoning, exchanges) =>
              && m.role == AssistantRole && m.content == content && m.images == []
              && (m.reasoning.Some? <==> reasoning.Some? && reasoning.value != "")
              && (m.reasoning.Some? ==> m.reasoning == reasoning)
              && |m.calls| == |exchanges| && forall k :: 0 <= k < |exchanges| ==> m.calls[k] == exchanges[k].call
  {
    EntryOnTheWire(entries, i, 0);
    m := EntryWire(entries[i].entry)[0];
  }

  /** The message of an exchange: the recorded result's own text, or the placeholder while there is none. */
  lemma ToolMessageSays(entries: seq<Cell>, i: nat, k: nat) returns (m: Message)
    requires i < |entries| && entries[i].entry.Assistant? && k < |entries[i].entry.exchanges|
    ensures WirePosition(entries, i, k) < |Wire(entries)| && m == Wire(entries)[WirePosition(entries, i, k)]
    ensures var e := entries[i].entry.exchanges[k];
            && m.role == ToolRole && m.callId == Some(e.call.id)
            && m.images == [] && m.reasoning.None? && m.calls == []
            && (e.result.Some? ==> m.content == e.result.value.content)
            && (e.result.None? ==> m.content == INTERRUPTED_TOOL_RESULT)
  {
    EntryOnTheWire(entries, i, 1 + k);
    m := EntryWire(entries[i].entry)[1 + k];
  }

  /** Recording a result replaces one placeholder by the result's text and changes nothing else on the wire. */
  lemma RecordFillsOnePlaceholder(entries: seq<Cell>, callId: string, i: nat, k: nat, result: ExchangeResult,
                                  address: nat)
    requires IsSlot(entries, i, k, callId)
    ensures var before, after := Wire(entries), Wire(entries[i := Fill(entries[i], k, result, address)]);
            var j := WirePosition(entries, i, k);
            && j < |before| && before[j].role == ToolRole && before[j].callId == Some(callId)
            && before[j].content == INTERRUPTED_TOOL_RESULT
            && after == before[j := before[j].(content := result.content)]
  {
    var filled := Fill(entries[i], k, result, address);
    var updated := entries[i := filled];
    FlatMapAround(CellWire, entries, i);
    FlatMapAround(CellWire, updated, i);
    assert updated[..i] == entries[..i] && updated[i + 1..] == entries[i + 1..];
    FillInEntry(entries[i], k, result, address);
    WireLength(entries[..i]);
    var before := ToolMessageSays(entries, i, k);
    var tool := ToolMessage(entries[i].entry.exchanges[k].(result := Some(result)));
    UpdateInTheMiddle(Wire(entries[..i]), CellWire(entries[i]), Wire(entries[i + 1..]), 1 + k, tool);
  }

  // ----- What has been recorded

  function ExchangeResults(exchanges: seq<Exchange>): multiset<(string, ExchangeResult)>
  {
    if exchanges == [] then multiset{}
    else
      (if exchanges[0].result.Some? then multiset{(exchanges[0].call.id, exchanges[0].result.value)} else multiset{})
      + ExchangeResults(exchanges[1..])
  }

  /** The results held by a list of entries. */
  function Results(entries: seq<Cell>): multiset<(string, ExchangeResult)>
  {
    if entries == [] then multiset{}
    else
      (if entries[0].entry.Assistant? then ExchangeResults(entries[0].entry.exchanges) else multiset{})
      + Results(entries[1..])
  }

  lemma {:induction false} ResultsConcat(a: seq<Cell>, b: seq<Cell>)
    ensures Results(a + b) == Results(a) + Results(b)
  {
    if a == [] {
      assert a + b == b;
    } else {
      assert (a + b)[1..] == a[1..] + b;
      ResultsConcat(a[1..], b);
    }
  }

  lemma {:induction false} FillAddsOneResult(exchanges: seq<Exchange>, k: nat, result: ExchangeResult)
    requires k < |exchanges| && exchanges[k].result.None?
    ensures ExchangeResults(exchanges[k := exchanges[k].(result := Some(result))]) ==
            ExchangeResults(exchanges) + multiset{(exchanges[k].call.id, result)}
  {
    var updated := exchanges[k := exchanges[k].(result := Some(result))];
    if k == 0 {
      assert updated[1..] == exchanges[1..];
    } else {
      assert updated[1..] == exchanges[1..][k - 1 := exchanges[k].(result := Some(result))];
      FillAddsOneResult(exchanges[1..], k - 1, result);
    }
  }

  lemma {:induction false} ResultsAround(entries: seq<Cell>, i: nat)
    requires i < |entries|
    ensures Results(entries) == Results(entries[..i]) + Results([entries[i]]) + Results(entries[i + 1..])
  {
    assert entries == entries[..i] + ([entries[i]] + entries[i + 1..]);
    ResultsConcat(entries[..i], [entries[i]] + entries[i + 1..]);
    ResultsConcat([entries[i]], entries[i + 1..]);
  }

  /** No recorded result is ever overwritten: recording adds one and keeps all the others. */
  lemma RecordKeepsEarlierResults(entries: seq<Cell>, callId: string, i: nat, k: nat, result: ExchangeResult,
                                  address: nat)
    requires IsSlot(entries, i, k, callId)
    ensures Results(entries[i := Fill(entries[i], k, result, address)]) == Results(entries) + multiset{(callId, result)}
  {
    var filled := Fill(entries[i], k, result, address);
    var updated := entries[i := filled];
    ResultsAround(entries, i);
    ResultsAround(updated, i);
    assert updated[..i] == entries[..i] && updated[i + 1..] == entries[i + 1..];
    FillAddsOneResult(entries[i].entry.exchanges, k, result);
    assert [filled][1..] == [] && [entries[i]][1..] == [];
  }

  // ----- The late partial reply

  function IndexOf(entries: seq<Cell>, address: nat): (at: Option<nat>)
    ensures at.Some? ==> at.value < |entries| && entries[at.value].address == address
    ensures forall i :: 0 <= i < (if at.Some? then at.value else |entries|) ==> entries[i].address != address
  {
    if entries == [] then None
    else if entries[0].address == address then Some(0)
    else
      match IndexOf(entries[1..], address)
      case None => None
      case Some(i) => Some(i + 1)
  }

  function InsertAt<T>(s: seq<T>, i: nat, x: T): seq<T>
    requires i <= |s|
  {
    s[..i] + [x] + s[i..]
  }

  function PartialReply(address: nat, turn: nat, content: string, reasoning: string): Cell
  {
    Cell(address, Some(turn), Assistant(content, if reasoning == "" then None else Some(reasoning), []))
  }

  lemma InsertSplits<T>(s: seq<T>, i: nat, x: T)
    requires i <= |s|
    ensures var out := InsertAt(s, i, x);
            i < |out| && out[..i] == s[..i] && out[i] == x && out[i + 1..] == s[i..]
  {
  }

  /** A late partial reply is one plain assistant message with its own text right behind its anchor; nothing
      else moves. */
  lemma PartialReplyOnTheWire(entries: seq<Cell>, i: nat, address: nat, turn: nat, content: string, reasoning: string)
    returns (m: Message)
    requires i < |entries|
    ensures Wire(InsertAt(entries, i + 1, PartialReply(address, turn, content, reasoning))) ==
            Wire(entries[..i + 1]) + [m] + Wire(entries[i + 1..])
    ensures m.role == AssistantRole && m.content == content && m.images == [] && m.callId.None? && m.calls == []
    ensures m.reasoning == if reasoning == "" then None else Some(reasoning)
  {
    var reply := PartialReply(address, turn, content, reasoning);
    var out := InsertAt(entries, i + 1, reply);
    InsertSplits(entries, i + 1, reply);
    FlatMapAround(CellWire, out, i + 1);
    m := EntryWire(reply.entry)[0];
    assert CellWire(reply) == [m];
  }

  lemma {:induction false} ResultsInTwo(entries: seq<Cell>, n: nat)
    requires n <= |entries|
    ensures Results(entries) == Results(entries[..n]) + Results(entries[n..])
  {
    assert entries == entries[..n] + entries[n..];
    ResultsConcat(entries[..n], entries[n..]);
  }

  lemma PartialReplyHasNoResults(entries: seq<Cell>, i: nat, reply: Cell)
    requires i < |entries| && reply.entry.Assistant? && reply.entry.exchanges == []
    ensures Results(InsertAt(entries, i + 1, reply)) == Results(entries)
  {
    var out := InsertAt(entries, i + 1, reply);
    InsertSplits(entries, i + 1, reply);
    ResultsAround(out, i + 1);
    assert [reply][1..] == [];
    ResultsInTwo(entries, i + 1);
  }

  // ----- The session

  class Conversation {
    var entries: seq<Cell>
    /** The next free address. */
    var next: nat

    constructor ()
      ensures entries == [] && next == 0
    {
      entries, next := [], 0;
    }

    method PushEntry(turn: Option<nat>, entry: Entry)
      modifies this
      ensures entries == old(entries) + [Cell(old(next), turn, entry)] && next == old(next) + 1
    {
      entries := entries + [Cell(next, turn, entry)];
      next := next + 1;
    }

    method PushSystem(content: string)
      modifies this
      ensures entries == old(entries) + [Cell(old(next), None, System(content))] && next == old(next) + 1
    {
      PushEntry(None, System(content));
    }

    method PushUser(turn: nat, content: string, images: seq<string>)
      modifies this
      ensures entries == old(entries) + [Cell(old(next), Some(turn), User(content, images))] && next == old(next) + 1
    {
      PushEntry(Some(turn), User(content, images));
    }

    /** The calls become exchanges waiting for their results. */
    method PushAssistant(turn: nat, content: string, reasoning: string, calls: seq<Call>)
      modifies this
      ensures |entries| == |old(entries)| + 1 && entries[..|old(entries)|] == old(entries) && next == old(next) + 1
      ensures var last := entries[|old(entries)|];
              && last.turn == Some(turn) && last.address == old(next)
              && last.entry.Assistant? && last.entry.content == content
              && last.entry.reasoning == (if reasoning == "" then None else Some(reasoning))
              && Calls(last.entry.exchanges) == calls
              && Results([last]) == multiset{}
    {
      var exchanges := seq(|calls|, i requires 0 <= i < |calls| => Exchange(calls[i], None));
      PendingHasNoResults(exchanges);
      PushEntry(Some(turn), Assistant(content, if reasoning == "" then None else Some(reasoning), exchanges));
      assert [entries[|old(entries)|]][1..] == [];
    }

    /** Fills the newest assistant entry's first waiting exchange for the call. The entry keeps its
        address only when nobody else shares it (`Arc::make_mut`). */
    method RecordToolResult(callId: string, result: ExchangeResult, isShared: bool) returns (recorded: bool)
      modifies this
      ensures recorded <==> ResultSlot(old(entries), callId).Some?
      ensures !recorded ==> entries == old(entries) && next == old(next)
      ensures recorded ==>
                var (i, k) := ResultSlot(old(entries), callId).value;
                var address := if isShared then old(next) else old(entries)[i].address;
                && entries == old(entries)[i := Fill(old(entries)[i], k, result, address)]
                && next == (if isShared then old(next) + 1 else old(next))
    {
      var i := |entries|;
      while i > 0 && !entries[i - 1].entry.Assistant?
        invariant 0 <= i <= |entries|
        invariant LatestAssistant(entries) == LatestAssistant(entries[..i])
      {
        i := i - 1;
        assert entries[..i + 1][..i] == entries[..i];
      }
      if i == 0 {
        return false;
      }
      i := i - 1;
      var exchanges := entries[i].entry.exchanges;
      var k := 0;
      while k < |exchanges| && !Waits(exchanges[k], callId)
        invariant 0 <= k <= |exchanges|
        invariant forall j :: 0 <= j < k ==> !Waits(exchanges[j], callId)
      {
        k := k + 1;
      }
      if k == |exchanges| {
        return false;
      }
      var address := if isShared then next else entries[i].address;
      entries := entries[i := Fill(entries[i], k, result, address)];
      next := if isShared then next + 1 else next;
      return true;
    }

    /** Puts a late reply right behind the entry it answered, or drops it when that entry is gone. */
    method InsertPartialAfter(anchor: nat, turn: nat, content: string, reasoning: string) returns (inserted: bool)
      modifies this
      ensures inserted <==> IndexOf(old(entries), anchor).Some?
      ensures !inserted ==> entries == old(entries) && next == old(next)
      ensures inserted ==>
                var i := IndexOf(old(entries), anchor).value;
                && entries == InsertAt(old(entries), i + 1, PartialReply(old(next), turn, content, reasoning))
                && next == old(next) + 1
      ensures inserted ==>
                var i := IndexOf(old(entries), anchor).value;
                && entries[i + 1].entry == Assistant(content, if reasoning == "" then None else Some(reasoning), [])
                && entries[i + 1].turn == Some(turn) && entries[i + 1].address == old(next)
    {
      var i := 0;
      while i < |entries| && entries[i].address != anchor
        invariant 0 <= i <= |entries|
        invariant forall j :: 0 <= j < i ==> entries[j].address != anchor
      {
        i := i + 1;
      }
      if i == |entries| {
        return false;
      }
      entries := InsertAt(entries, i + 1, PartialReply(next, turn, content, reasoning));
      next := next + 1;
      return true;
    }

    /** Derives the messages entry by entry. */
    method WireMessages() returns (out: seq<Message>)
      ensures out == Wire(entries) && Paired(out)
    {
      out := [];
      for i := 0 to |entries|
        invariant out == Wire(entries[..i])
      {
        out := out + EntryWire(entries[i].entry);
        assert entries[..i + 1] == entries[..i] + [entries[i]];
        FlatMapConcat(CellWire, entries[..i], [entries[i]]);
        assert [entries[i]][1..] == [];
      }
      assert entries[..|entries|] == entries;
      WireIsPaired(entries);
    }
  }

  lemma {:induction false} PendingHasNoResults(exchanges: seq<Exchange>)
    requires forall i :: 0 <= i < |exchanges| ==> exchanges[i].result.None?
    ensures ExchangeResults(exchanges) == multiset{}
  {
    if exchanges != [] {
      PendingHasNoResults(exchanges[1..]);
    }
  }
}
