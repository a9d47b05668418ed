/** A session over time: pushes, results, late replies and two-step folds in any order.

    A fold is planned on a copy of the entries and committed later, after the summarizer has answered;
    meanwhile the session goes on. The commit goes ahead only if the planned range is still there,
    compared by identity. */
module SessionRun {
  import opened Wrappers
  import opened Session
  import opened Compaction

  /** The live entries, next to everything ever pushed. */
  datatype Log = Log(
    entries: seq<Cell>,
    next: nat,
    // everything ever pushed, in order, with its recorded results
    history: seq<Cell>,
    // the sum of the counts the folds reported, the newest summary, the number of folds
    archived: nat,
    summary: Option<Cell>,
    folds: nat,
    // copies taken to plan a fold on, with the number of folds before each; anchors of open requests
    captured: set<(nat, seq<Cell>)>,
    anchors: set<nat>)

  datatype Action =
    | Push(turn: Option<nat>, entry: Entry)
    | Record(callId: string, result: ExchangeResult, isShared: bool)
    | Capture
    | CommitFold(before: nat, copy: seq<Cell>, text: string)
    | OpenRequest
    | InsertPartial(anchor: nat, reply: string, reasoning: string)

  const EMPTY: Log := Log([], 0, [], 0, None, 0, {}, {})

  ghost predicate HeldByCopy(s: Log, address: nat)
  {
    address in s.anchors || exists c, i :: c in s.captured && 0 <= i < |c.1| && c.1[i].address == address
  }

  /** Pushed entries are never summaries; an entry is changed in place only when no copy holds it; a
      request is opened after its turn's user entry was pushed. */
  ghost predicate Enabled(s: Log, a: Action)
  {
    match a
    case Push(_, entry) => !entry.Compaction?
    case Record(callId, _, isShared) =>
      isShared || var slot := ResultSlot(s.entries, callId);
                  slot.Some? ==> !HeldByCopy(s, s.entries[slot.value.0].address)
    case Capture => true
    case CommitFold(before, copy, _) => (before, copy) in s.captured
    case OpenRequest => LastUser(s.entries).Some?
    case InsertPartial(anchor, _, _) => anchor in s.anchors
  }

  predicate SameIdentity(a: seq<Cell>, b: seq<Cell>, n: nat)
  {
    n <= |a| && n <= |b| && forall i :: 0 <= i < n ==> a[i].address == b[i].address
  }

  /** The commit's check (`prefix_intact`). */
  predicate PrefixIntact(entries: seq<Cell>, copy: seq<Cell>)
  {
    PlanOf(copy).Some? && SameIdentity(entries, copy, PlanOf(copy).value.tailStart)
  }

  /** How many entries before the archived ones' place stand in front: the system entry and the summary. */
  function FrontLength(s: Log): nat
  {
    Head(s.history) + |Middle(s)|
  }

  /** The place in the history of the live entry `i`. */
  function InHistory(s: Log, i: int): int
  {
    i - |Middle(s)| + s.archived
  }

  function Pushed(s: Log, c: Cell): Log
  {
    s.(entries := s.entries + [c], next := s.next + 1, history := s.history + [c])
  }

  ghost function Step(s: Log, a: Action): Log
    requires Enabled(s, a)
  {
    match a
    case Push(turn, entry) =>
      Pushed(s, Cell(s.next, turn, entry))
    case Record(callId, result, isShared) =>
      var slot := ResultSlot(s.entries, callId);
      if slot.None? then s
      else
        var (i, k) := slot.value;
        var c := Fill(s.entries[i], k, result, if isShared then s.next else s.entries[i].address);
        var h := InHistory(s, i);
        s.(entries := s.entries[i := c], next := if isShared then s.next + 1 else s.next,
           history := if 0 <= h < |s.history| then s.history[h := c] else s.history)
    case Capture => s.(captured := s.captured + {(s.folds, s.entries)})
    case CommitFold(_, copy, text) =>
      if !PrefixIntact(s.entries, copy) then s
      else
        var plan := PlanOf(copy).value;
        s.(entries := Fold(s.entries, plan, text, s.next), next := s.next + 1,
           archived := s.archived + |Fresh(plan, s.entries)|,
           summary := Some(Summary(plan, s.entries, text, s.next)), folds := s.folds + 1)
    case OpenRequest => s.(anchors := s.anchors + {s.entries[|s.entries| - 1].address})
    case InsertPartial(anchor, reply, reasoning) =>
      var at := IndexOf(s.entries, anchor);
      if at.None? then s
      else
        var c := PartialReply(s.next, 0, reply, reasoning);
        var h := InHistory(s, at.value) + 1;
        s.(entries := InsertAt(s.entries, at.value + 1, c), next := s.next + 1,
           history := if 0 <= h <= |s.history| then InsertAt(s.history, h, c) else s.history)
  }

  // ----- The invariant

  /** A history with the `n` entries from `h` on replaced by `middle`. */
  function Live<T>(history: seq<T>, h: nat, n: nat, middle: seq<T>): seq<T>
    requires h + n <= |history|
  {
    history[..h] + middle + history[h + n..]
  }

  lemma LiveAppend<T>(history: seq<T>, h: nat, n: nat, middle: seq<T>, x: T)
    requires h + n <= |history|
    ensures Live(history + [x], h, n, middle) == Live(history, h, n, middle) + [x]
  {
  }

  lemma LiveUpdate<T>(history: seq<T>, h: nat, n: nat, middle: seq<T>, j: nat, x: T)
    requires h + n <= j < |history|
    ensures Live(history[j := x], h, n, middle) == Live(history, h, n, middle)[j - n + |middle| := x]
  {
  }

  lemma LiveInsert<T>(history: seq<T>, h: nat, n: nat, middle: seq<T>, j: nat, x: T)
    requires h + n <= j <= |history|
    ensures Live(InsertAt(history, j, x), h, n, middle) == InsertAt(Live(history, h, n, middle), j - n + |middle|, x)
  {
  }

  lemma LiveFold<T>(history: seq<T>, h: nat, n: nat, middle: seq<T>, start: nat, x: T)
    requires h + n <= |history| && h + |middle| <= start <= |Live(history, h, n, middle)|
    ensures var live, m := Live(history, h, n, middle), start - h - |middle|;
            h + n + m <= |history| && live[..h] + [x] + live[start..] == Live(history, h, n + m, [x])
  {
  }

  function Middle(s: Log): seq<Cell>
  {
    if s.summary.Some? then [s.summary.value] else []
  }

  /** The live entries are the leading system entry, at most one summary, and the newest part of the
      history: what the folds reported as archived is exactly what is missing. */
  ghost predicate IsLive(s: Log)
  {
    && Head(s.history) + s.archived <= |s.history|
    && s.entries == Live(s.history, Head(s.history), s.archived, Middle(s))
  }

  ghost predicate HistoryHolds(s: Log)
  {
    && (forall i :: 0 <= i < |s.history| ==> !s.history[i].entry.Compaction?)
    && (s.summary.Some? ==> s.summary.value.entry.Compaction?)
    && (s.summary.None? <==> s.archived == 0) && (s.summary.None? <==> s.folds == 0)
  }

  predicate HasUser(entries: seq<Cell>)
  {
    exists k :: 0 <= k < |entries| && entries[k].entry.User?
  }

  /** The newest user entry is never archived. */
  ghost predicate NewestUserKept(s: Log)
    requires Head(s.history) + s.archived <= |s.history|
  {
    HasUser(s.history) ==> HasUser(s.history[Head(s.history) + s.archived..])
  }

  predicate Distinct(entries: seq<Cell>)
  {
    forall i, j :: 0 <= i < j < |entries| ==> entries[i].address != entries[j].address
  }

  predicate Below(entries: seq<Cell>, next: nat)
  {
    forall i :: 0 <= i < |entries| ==> entries[i].address < next
  }

  /** What a copy taken earlier still says about the live entries. */
  ghost predicate CopyHolds(s: Log, before: nat, copy: seq<Cell>)
  {
    && before <= s.folds && Distinct(copy) && Below(copy, s.next)
    && (copy != [] ==> s.history != [] && Head(copy) == Head(s.history))
    && (forall i, j :: 0 <= i < |copy| && 0 <= j < |s.entries| && copy[i].address == s.entries[j].address ==>
          copy[i] == s.entries[j])
    && (before == s.folds ==> forall i :: 0 <= i < |copy| && copy[i].entry.User? ==> copy[i] in s.entries)
    && (before < s.folds && s.summary.Some? ==>
          forall i :: 0 <= i < |copy| ==> copy[i].address != s.summary.value.address)
  }

  ghost predicate AnchorHolds(s: Log, anchor: nat)
  {
    anchor < s.next && forall i :: 0 <= i < FrontLength(s) && i < |s.entries| ==> s.entries[i].address != anchor
  }

  /** What the invariant says of the live entries, place by place. */
  lemma LivePlaces(s: Log, i: nat)
    requires IsLive(s) && i < |s.entries|
    ensures FrontLength(s) <= |s.entries|
    ensures i < Head(s.history) ==> s.entries[i] == s.history[i]
    ensures i == Head(s.history) && s.summary.Some? ==> s.entries[i] == s.summary.value
    ensures FrontLength(s) <= i ==> 0 <= InHistory(s, i) < |s.history| && s.entries[i] == s.history[InHistory(s, i)]
  {
  }

  // ----- One action at a time

  /** Copies stay truthful while entries are only added, or replaced without touching a copy's own. */
  lemma CopyStays(s: Log, s': Log, before: nat, copy: seq<Cell>)
    requires CopyHolds(s, before, copy) && s.next <= s'.next
    requires s.history != [] ==> s'.history != [] && Head(s'.history) == Head(s.history)
    requires s'.folds == s.folds && s'.summary == s.summary
    requires forall i, j :: 0 <= i < |copy| && 0 <= j < |s'.entries| && copy[i].address == s'.entries[j].address ==>
               s'.entries[j] in s.entries
    requires forall i :: 0 <= i < |s.entries| && s.entries[i].entry.User? ==> s.entries[i] in s'.entries
    ensures CopyHolds(s', before, copy)
  {
    if before == s.folds {
      forall i | 0 <= i < |copy| && copy[i].entry.User?
        ensures copy[i] in s'.entries
      {
        assert copy[i] in s.entries;
      }
    }
  }

  ghost predicate CopiesHold(s: Log)
  {
    forall c :: c in s.captured ==> CopyHolds(s, c.0, c.1)
  }

  ghost predicate AnchorsHold(s: Log)
  {
    forall anchor :: anchor in s.anchors ==> AnchorHolds(s, anchor)
  }

  ghost predicate LogHolds(s: Log)
  {
    IsLive(s) && HistoryHolds(s) && NewestUserKept(s)
  }

  ghost predicate Addressed(s: Log)
  {
    Distinct(s.entries) && Below(s.entries, s.next)
  }

  ghost predicate Invariant(s: Log)
  {
    LogHolds(s) && Addressed(s) && CopiesHold(s) && AnchorsHold(s)
  }

  lemma HasUserConcat(a: seq<Cell>, b: seq<Cell>)
    ensures HasUser(a + b) <==> HasUser(a) || HasUser(b)
  {
    if k :| 0 <= k < |a| && a[k].entry.User? {
      assert (a + b)[k].entry.User?;
    }
    if k :| 0 <= k < |b| && b[k].entry.User? {
      assert (a + b)[|a| + k].entry.User?;
    }
  }

  lemma AppendKeepsNewest(history: seq<Cell>, start: nat, c: Cell)
    requires start <= |history| && (HasUser(history) ==> HasUser(history[start..]))
    ensures HasUser(history + [c]) ==> HasUser((history + [c])[start..])
  {
    HasUserConcat(history, [c]);
    HasUserConcat(history[start..], [c]);
    assert (history + [c])[start..] == history[start..] + [c];
  }

  lemma FirstPushIsLive(s: Log, c: Cell)
    requires LogHolds(s) && s.history == [] && !c.entry.Compaction?
    ensures LogHolds(Pushed(s, c))
  {
    assert s.history + [c] == [c];
  }

  lemma NextPushIsLive(s: Log, c: Cell)
    requires LogHolds(s) && s.history != [] && !c.entry.Compaction?
    ensures LogHolds(Pushed(s, c))
  {
    LiveAppend(s.history, Head(s.history), s.archived, Middle(s), c);
    AppendKeepsNewest(s.history, Head(s.history) + s.archived, c);
  }

  lemma PushKeepsLog(s: Log, c: Cell)
    requires LogHolds(s) && !c.entry.Compaction?
    ensures LogHolds(Pushed(s, c))
  {
    if s.history == [] {
      FirstPushIsLive(s, c);
    } else {
      NextPushIsLive(s, c);
    }
  }

  lemma PushKeepsCopies(s: Log, s': Log, c: Cell)
    requires CopiesHold(s) && AnchorsHold(s) && c.address == s.next
    requires s'.entries == s.entries + [c] && s'.history == s.history + [c] && s'.next == s.next + 1
    requires s'.captured == s.captured && s'.folds == s.folds && s'.summary == s.summary
    ensures CopiesHold(s')
  {
    FreshIsNotHeld(s);
    CopiesStay(s, s');
  }

  lemma PushKeepsAddresses(s: Log, c: Cell)
    requires Addressed(s) && c.address == s.next
    ensures Addressed(Pushed(s, c))
  {
  }

  lemma PushKeepsAnchors(s: Log, c: Cell)
    requires LogHolds(s) && AnchorsHold(s) && c.address == s.next
    ensures AnchorsHold(Pushed(s, c))
  {
    forall anchor | anchor in s.anchors
      ensures AnchorHolds(Pushed(s, c), anchor)
    {
      assert AnchorHolds(s, anchor);
    }
  }

  lemma PushKeeps(s: Log, c: Cell)
    requires Invariant(s) && !c.entry.Compaction? && c.address == s.next
    ensures Invariant(Pushed(s, c))
  {
    PushKeepsLog(s, c);
    PushKeepsAddresses(s, c);
    PushKeepsCopies(s, Pushed(s, c), c);
    PushKeepsAnchors(s, c);
  }

  lemma SlotIsInTail(s: Log, callId: string)
    requires LogHolds(s) && ResultSlot(s.entries, callId).Some?
    ensures var i := ResultSlot(s.entries, callId).value.0;
            && FrontLength(s) <= i && Head(s.history) + s.archived <= InHistory(s, i) < |s.history|
            && s.history[InHistory(s, i)] == s.entries[i]
  {
    LivePlaces(s, ResultSlot(s.entries, callId).value.0);
  }

  lemma UpdateKeepsUsers(entries: seq<Cell>, j: nat, c: Cell)
    requires j < |entries| && !entries[j].entry.User? && !c.entry.User?
    ensures HasUser(entries[j := c]) <==> HasUser(entries)
  {
    if k :| 0 <= k < |entries| && entries[k].entry.User? {
      assert entries[j := c][k].entry.User?;
    }
    var updated := entries[j := c];
    if k :| 0 <= k < |updated| && updated[k].entry.User? {
      assert entries[k].entry.User?;
    }
  }

  lemma ReplaceKeepsLog(s: Log, i: nat, c: Cell, next: nat)
    requires LogHolds(s) && FrontLength(s) <= i < |s.entries|
    requires s.entries[i].entry.Assistant? && c.entry.Assistant?
    requires 0 <= InHistory(s, i) < |s.history| && s.history[InHistory(s, i)] == s.entries[i]
    ensures LogHolds(s.(entries := s.entries[i := c], next := next, history := s.history[InHistory(s, i) := c]))
  {
    var j := InHistory(s, i);
    LiveUpdate(s.history, Head(s.history), s.archived, Middle(s), j, c);
    UpdateKeepsUsers(s.history, j, c);
    var start := Head(s.history) + s.archived;
    UpdateKeepsUsers(s.history[start..], j - start, c);
    assert s.history[j := c][start..] == s.history[start..][j - start := c];
  }

  lemma ReplacePlaces(entries: seq<Cell>, i: nat, c: Cell)
    requires i < |entries|
    ensures var out := entries[i := c];
            && out[i] == c && (forall j :: 0 <= j < |entries| && j != i ==> out[j] == entries[j] && entries[j] in out)
  {
    var out := entries[i := c];
    forall j | 0 <= j < |entries| && j != i
      ensures out[j] == entries[j] && entries[j] in out
    {
      assert out[j] == entries[j];
    }
  }

  lemma ReplacedKeepsRest(s: Log, i: nat, c: Cell, s': Log)
    requires Invariant(s) && FrontLength(s) <= i < |s.entries| && !s.entries[i].entry.User?
    requires s'.entries == s.entries[i := c] && s'.captured == s.captured && s'.anchors == s.anchors
    requires s'.folds == s.folds && s'.summary == s.summary && s.next <= s'.next
    requires s.history != [] && s'.history != [] && Head(s'.history) == Head(s.history)
    requires !HeldByCopy(s, c.address)
    ensures CopiesHold(s') && AnchorsHold(s')
  {
    ReplacePlaces(s.entries, i, c);
    CopiesStay(s, s');
    AnchorsStay(s, s');
  }

  lemma ReplacedIsAddressed(entries: seq<Cell>, i: nat, c: Cell, before: nat, next: nat)
    requires i < |entries| && Distinct(entries) && Below(entries, before) && before <= next && c.address < next
    requires c.address == entries[i].address || c.address == before
    ensures Distinct(entries[i := c]) && Below(entries[i := c], next)
  {
    ReplacePlaces(entries, i, c);
  }

  lemma HeadOfReplaced(history: seq<Cell>, j: nat, c: Cell)
    requires j < |history| && history[j].entry.Assistant? && c.entry.Assistant?
    ensures Head(history[j := c]) == Head(history)
  {
  }

  /** An entry behind the front replaced, under its own address or the next free one. */
  lemma ReplaceKeeps(s: Log, i: nat, c: Cell, next: nat)
    requires Invariant(s) && FrontLength(s) <= i < |s.entries|
    requires s.entries[i].entry.Assistant? && c.entry.Assistant?
    requires 0 <= InHistory(s, i) < |s.history| && s.history[InHistory(s, i)] == s.entries[i]
    requires s.next <= next && c.address < next && !HeldByCopy(s, c.address)
    requires c.address == s.entries[i].address || c.address == s.next
    ensures Invariant(s.(entries := s.entries[i := c], next := next, history := s.history[InHistory(s, i) := c]))
  {
    var s' := s.(entries := s.entries[i := c], next := next, history := s.history[InHistory(s, i) := c]);
    ReplaceKeepsLog(s, i, c, next);
    ReplacedIsAddressed(s.entries, i, c, s.next, next);
    HeadOfReplaced(s.history, InHistory(s, i), c);
    ReplacedKeepsRest(s, i, c, s');
  }

  lemma StepReplaces(s: Log, callId: string, result: ExchangeResult, isShared: bool, i: nat, c: Cell)
    requires Enabled(s, Record(callId, result, isShared)) && ResultSlot(s.entries, callId).Some?
    requires i == ResultSlot(s.entries, callId).value.0 && 0 <= InHistory(s, i) < |s.history|
    requires c == Fill(s.entries[i], ResultSlot(s.entries, callId).value.1, result,
                       if isShared then s.next else s.entries[i].address)
    ensures Step(s, Record(callId, result, isShared)) ==
            s.(entries := s.entries[i := c], next := if isShared then s.next + 1 else s.next,
               history := s.history[InHistory(s, i) := c])
  {
  }

  lemma RecordKeeps(s: Log, callId: string, result: ExchangeResult, isShared: bool)
    requires Invariant(s) && Enabled(s, Record(callId, result, isShared))
    ensures Invariant(Step(s, Record(callId, result, isShared)))
  {
    if ResultSlot(s.entries, callId).Some? {
      var i, k := ResultSlot(s.entries, callId).value.0, ResultSlot(s.entries, callId).value.1;
      var c := Fill(s.entries[i], k, result, if isShared then s.next else s.entries[i].address);
      SlotIsInTail(s, callId);
      FreshIsNotHeld(s);
      ReplaceKeeps(s, i, c, if isShared then s.next + 1 else s.next);
      StepReplaces(s, callId, result, isShared, i, c);
    }
  }

  lemma CopyOfNow(s: Log)
    requires LogHolds(s) && Addressed(s)
    ensures CopyHolds(s, s.folds, s.entries)
  {
    if s.entries != [] {
      LivePlaces(s, 0);
    }
  }

  lemma SameLog(s: Log, s': Log)
    requires LogHolds(s)
    requires s'.entries == s.entries && s'.history == s.history && s'.archived == s.archived
    requires s'.summary == s.summary && s'.folds == s.folds
    ensures LogHolds(s')
  {
  }

  lemma CaptureKeepsCopies(s: Log, s': Log)
    requires LogHolds(s) && Addressed(s) && CopiesHold(s)
    requires s' == s.(captured := s.captured + {(s.folds, s.entries)})
    ensures CopiesHold(s')
  {
    CopyOfNow(s);
    forall c | c in s'.captured
      ensures CopyHolds(s', c.0, c.1)
    {
      assert CopyHolds(s, c.0, c.1);
    }
  }

  lemma SameAnchors(s: Log, s': Log)
    requires AnchorsHold(s) && s'.anchors == s.anchors && s'.next == s.next
    requires s'.entries == s.entries && s'.history == s.history && s'.summary == s.summary
    ensures AnchorsHold(s')
  {
    forall a | a in s'.anchors
      ensures AnchorHolds(s', a)
    {
      assert AnchorHolds(s, a);
    }
  }

  lemma CaptureKeeps(s: Log)
    requires Invariant(s)
    ensures Invariant(Step(s, Capture))
  {
    var s' := s.(captured := s.captured + {(s.folds, s.entries)});
    SameLog(s, s');
    CaptureKeepsCopies(s, s');
    SameAnchors(s, s');
  }

  /** A commit that passes its check folds exactly what was planned, and no other fold came between. */
  lemma IntactMeansUnfolded(s: Log, before: nat, copy: seq<Cell>)
    requires Invariant(s) && (before, copy) in s.captured && PrefixIntact(s.entries, copy)
    ensures var plan := PlanOf(copy).value;
            && before == s.folds && plan.head == Head(s.history)
            && Fits(plan, s.entries) && s.entries[..plan.tailStart] == copy[..plan.tailStart]
  {
    var plan := PlanOf(copy).value;
    assert CopyHolds(s, before, copy);
    assert copy[plan.head].address == s.entries[plan.head].address;
    LivePlaces(s, plan.head);
  }

  /** And the check passes whenever that is so: the commit goes ahead exactly when no other fold came between
      and the planned range is still what it was. */
  lemma IntactIff(s: Log, before: nat, copy: seq<Cell>)
    requires Invariant(s) && (before, copy) in s.captured && PlanOf(copy).Some?
    ensures var start := PlanOf(copy).value.tailStart;
            PrefixIntact(s.entries, copy) <==>
            before == s.folds && start <= |s.entries| && s.entries[..start] == copy[..start]
  {
    var start := PlanOf(copy).value.tailStart;
    if PrefixIntact(s.entries, copy) {
      IntactMeansUnfolded(s, before, copy);
    } else if start <= |s.entries| && s.entries[..start] == copy[..start] {
      SamePrefix(s.entries, copy, start);
    }
  }

  lemma SamePrefix<T>(a: seq<T>, b: seq<T>, n: nat)
    requires n <= |a| && n <= |b| && a[..n] == b[..n]
    ensures forall i :: 0 <= i < n ==> a[i] == b[i]
  {
    assert forall i :: 0 <= i < n ==> a[..n][i] == a[i] && b[..n][i] == b[i];
  }

  lemma LaterIsNotBefore(entries: seq<Cell>, copy: seq<Cell>, start: nat, w: nat)
    requires Distinct(copy) && start <= w < |copy| && start <= |entries| && entries[..start] == copy[..start]
    ensures forall i :: 0 <= i < start ==> entries[i] != copy[w]
  {
    SamePrefix(entries, copy, start);
  }

  lemma UserFrom(entries: seq<Cell>, start: nat, j: nat)
    requires start <= j < |entries| && entries[j].entry.User?
    ensures HasUser(entries[start..])
  {
    assert entries[start..][j - start] == entries[j];
  }

  lemma {:induction false} CopyHasAUser(entries: seq<Cell>, copy: seq<Cell>, start: nat, u: nat)
    requires start <= |copy| && start <= |entries| && entries[..start] == copy[..start]
    requires u < start && entries[u].entry.User?
    ensures LastUser(copy).Some?
  {
    SamePrefix(entries, copy, start);
    assert copy[u].entry.User?;
  }

  /** A user entry is left behind the planned range: the plan kept one, and users do not go away. */
  lemma {:induction false} RangeKeepsAUser(entries: seq<Cell>, copy: seq<Cell>, start: nat, u: nat)
    requires Distinct(copy) && start <= |copy| && start <= |entries| && entries[..start] == copy[..start]
    requires forall i :: 0 <= i < |copy| && copy[i].entry.User? ==> copy[i] in entries
    requires LastUser(copy).Some? ==> start <= LastUser(copy).value
    requires u < |entries| && entries[u].entry.User?
    ensures HasUser(entries[start..])
  {
    if u < start {
      CopyHasAUser(entries, copy, start, u);
      var w := LastUser(copy).value;
      LaterIsNotBefore(entries, copy, start, w);
      var j :| 0 <= j < |entries| && entries[j] == copy[w];
      UserFrom(entries, start, j);
    } else {
      UserFrom(entries, start, u);
    }
  }

  lemma FoldKeepsNewestUser(s: Log, before: nat, copy: seq<Cell>, u: nat)
    requires Invariant(s) && (before, copy) in s.captured && PrefixIntact(s.entries, copy)
    requires u < |s.entries| && s.entries[u].entry.User?
    ensures PlanOf(copy).value.tailStart <= |s.entries| && HasUser(s.entries[PlanOf(copy).value.tailStart..])
  {
    IntactMeansUnfolded(s, before, copy);
    assert CopyHolds(s, before, copy);
    RangeKeepsAUser(s.entries, copy, PlanOf(copy).value.tailStart, u);
  }

  /** The planned range reaches past the front. */
  lemma RangePassesFront(s: Log, before: nat, copy: seq<Cell>)
    requires Invariant(s) && (before, copy) in s.captured && PrefixIntact(s.entries, copy)
    ensures var plan := PlanOf(copy).value;
            FrontLength(s) < plan.tailStart <= |s.entries| && plan.head == Head(s.history)
  {
    var plan := PlanOf(copy).value;
    IntactMeansUnfolded(s, before, copy);
    LivePlaces(s, plan.head);
    assert s.entries[plan.head] == copy[..plan.tailStart][plan.head] == copy[plan.head];
  }

  lemma LiveTail<T>(history: seq<T>, h: nat, n: nat, middle: seq<T>, start: nat)
    requires h + n <= |history| && h + |middle| <= start <= |Live(history, h, n, middle)|
    ensures var m := start - h - |middle|;
            h + n + m <= |history| && Live(history, h, n, middle)[start..] == history[h + n + m..]
  {
  }

  lemma FoldIsLive(s: Log, plan: Plan, x: Cell, m: nat)
    requires IsLive(s) && plan.head == Head(s.history)
    requires FrontLength(s) < plan.tailStart <= |s.entries| && m == plan.tailStart - FrontLength(s)
    ensures Head(s.history) + s.archived + m <= |s.history|
    ensures s.entries[..plan.head] + [x] + s.entries[plan.tailStart..] ==
            Live(s.history, Head(s.history), s.archived + m, [x])
    ensures s.history[Head(s.history) + s.archived + m..] == s.entries[plan.tailStart..]
  {
    LiveFold(s.history, plan.head, s.archived, Middle(s), plan.tailStart, x);
    LiveTail(s.history, plan.head, s.archived, Middle(s), plan.tailStart);
  }

  /** A fold reports exactly the entries it takes that are not the summary. */
  lemma FreshLength(s: Log, plan: Plan)
    requires LogHolds(s) && plan.head == Head(s.history) && FrontLength(s) < plan.tailStart <= |s.entries|
    ensures |Fresh(plan, s.entries)| == plan.tailStart - FrontLength(s)
  {
    LivePlaces(s, plan.head);
    assert Archived(plan, s.entries)[0] == s.entries[plan.head];
  }

  lemma FoldedLog(s: Log, before: nat, copy: seq<Cell>, text: string)
    requires Invariant(s) && (before, copy) in s.captured && PrefixIntact(s.entries, copy)
    ensures var s', plan := Step(s, CommitFold(before, copy, text)), PlanOf(copy).value;
            && FrontLength(s) < plan.tailStart
            && IsLive(s') && HistoryHolds(s')
            && Head(s.history) + s'.archived <= |s.history| && plan.tailStart <= |s.entries|
            && s.history[Head(s.history) + s'.archived..] == s.entries[plan.tailStart..]
  {
    var plan := PlanOf(copy).value;
    RangePassesFront(s, before, copy);
    IntactMeansUnfolded(s, before, copy);
    FreshLength(s, plan);
    FoldIsLive(s, plan, Summary(plan, s.entries, text, s.next), plan.tailStart - FrontLength(s));
  }

  lemma TailUserIsLive(s: Log) returns (u: nat)
    requires LogHolds(s) && HasUser(s.history)
    ensures u < |s.entries| && s.entries[u].entry.User?
  {
    var tail := s.history[Head(s.history) + s.archived..];
    var k :| 0 <= k < |tail| && tail[k].entry.User?;
    u := FrontLength(s) + k;
    assert s.entries[u] == tail[k];
  }

  lemma FoldKeepsLog(s: Log, before: nat, copy: seq<Cell>, text: string)
    requires Invariant(s) && (before, copy) in s.captured && PrefixIntact(s.entries, copy)
    ensures LogHolds(Step(s, CommitFold(before, copy, text)))
  {
    FoldedLog(s, before, copy, text);
    if HasUser(s.history) {
      var u := TailUserIsLive(s);
      FoldKeepsNewestUser(s, before, copy, u);
    }
  }

  lemma FoldPlaces(entries: seq<Cell>, plan: Plan, text: string, next: nat)
    requires Fits(plan, entries)
    ensures var out, gap := Fold(entries, plan, text, next), plan.tailStart - plan.head - 1;
            && |out| == |entries| - gap && out[plan.head] == Summary(plan, entries, text, next)
            && (forall i :: 0 <= i < plan.head ==> out[i] == entries[i])
            && (forall i :: plan.head < i < |out| ==> out[i] == entries[i + gap])
  {
  }

  /** Folding changes addresses only by bringing in a fresh one. */
  lemma FoldIsAddressed(entries: seq<Cell>, plan: Plan, text: string, next: nat)
    requires Fits(plan, entries) && Distinct(entries) && Below(entries, next)
    ensures var out := Fold(entries, plan, text, next);
            && Distinct(out) && Below(out, next + 1)
            && (forall i :: 0 <= i < |out| && i != plan.head ==> out[i] in entries)
            && out[plan.head].address == next && out[..plan.head] == entries[..plan.head]
  {
    FoldPlaces(entries, plan, text, next);
  }

  lemma FoldKeeps(s: Log, before: nat, copy: seq<Cell>, text: string)
    requires Invariant(s) && (before, copy) in s.captured
    ensures Invariant(Step(s, CommitFold(before, copy, text)))
  {
    var s' := Step(s, CommitFold(before, copy, text));
    if PrefixIntact(s.entries, copy) {
      var plan := PlanOf(copy).value;
      FoldKeepsLog(s, before, copy, text);
      IntactMeansUnfolded(s, before, copy);
      FoldIsAddressed(s.entries, plan, text, s.next);
      forall c | c in s'.captured
        ensures CopyHolds(s', c.0, c.1)
      {
        CopyOutlivesFold(s, s', c.0, c.1, plan.head);
      }
      forall anchor | anchor in s'.anchors
        ensures AnchorHolds(s', anchor)
      {
        assert AnchorHolds(s, anchor);
        assert s'.entries[..plan.head] == s.entries[..plan.head];
      }
    }
  }

  lemma CopyOutlivesFold(s: Log, s': Log, before: nat, copy: seq<Cell>, head: nat)
    requires CopyHolds(s, before, copy) && s'.next == s.next + 1 && s'.folds == s.folds + 1
    requires s'.history == s.history && s'.summary.Some? && s'.summary.value.address == s.next
    requires head < |s'.entries| && s'.entries[head].address == s.next
    requires forall i :: 0 <= i < |s'.entries| && i != head ==> s'.entries[i] in s.entries
    ensures CopyHolds(s', before, copy)
  {
  }

  lemma OpenRequestKeeps(s: Log)
    requires Invariant(s) && Enabled(s, OpenRequest)
    ensures Invariant(Step(s, OpenRequest))
  {
    var s' := Step(s, OpenRequest);
    var u, last := LastUser(s.entries).value, |s.entries| - 1;
    LivePlaces(s, u);
    assert FrontLength(s) <= u;
    assert AnchorHolds(s', s.entries[last].address);
    forall c | c in s'.captured
      ensures CopyHolds(s', c.0, c.1)
    {
      assert CopyHolds(s, c.0, c.1);
    }
  }

  lemma InsertPlaces<T>(s: seq<T>, j: nat, x: T)
    requires j <= |s|
    ensures var out := InsertAt(s, j, x);
            && |out| == |s| + 1 && out[j] == x
            && (forall k :: 0 <= k < j ==> out[k] == s[k])
            && (forall k :: j < k < |out| ==> out[k] == s[k - 1])
  {
  }

  lemma InsertKeepsMembers<T>(s: seq<T>, j: nat, x: T)
    requires j <= |s|
    ensures forall y :: y in InsertAt(s, j, x) <==> y in s || y == x
  {
    assert s == s[..j] + s[j..];
  }

  lemma InsertKeepsUsers(entries: seq<Cell>, j: nat, c: Cell)
    requires j <= |entries| && !c.entry.User?
    ensures HasUser(InsertAt(entries, j, c)) <==> HasUser(entries)
  {
    HasUserConcat(entries[..j] + [c], entries[j..]);
    HasUserConcat(entries[..j], [c]);
    HasUserConcat(entries[..j], entries[j..]);
    assert entries == entries[..j] + entries[j..];
  }

  lemma InsertKeepsNewest(history: seq<Cell>, start: nat, j: nat, c: Cell)
    requires start <= j <= |history| && !c.entry.User?
    requires HasUser(history) ==> HasUser(history[start..])
    ensures var out := InsertAt(history, j, c);
            HasUser(out) ==> HasUser(out[start..])
  {
    InsertKeepsUsers(history, j, c);
    InsertKeepsUsers(history[start..], j - start, c);
    assert InsertAt(history, j, c)[start..] == InsertAt(history[start..], j - start, c);
  }

  lemma HeadOfInsert(history: seq<Cell>, j: nat, c: Cell)
    requires 0 < j <= |history|
    ensures Head(InsertAt(history, j, c)) == Head(history)
  {
    InsertPlaces(history, j, c);
  }

  lemma InsertPlace(s: Log, i: nat)
    requires IsLive(s) && FrontLength(s) <= i < |s.entries|
    ensures Head(s.history) + s.archived <= InHistory(s, i) + 1 <= |s.history| && 0 < InHistory(s, i) + 1
    ensures InHistory(s, i) + 1 - s.archived + |Middle(s)| == i + 1
  {
    LivePlaces(s, i);
  }

  lemma InsertKeepsLive(s: Log, i: nat, j: nat, c: Cell)
    requires IsLive(s) && i < |s.entries| && Head(s.history) + s.archived <= j <= |s.history| && 0 < j
    requires j - s.archived + |Middle(s)| == i + 1
    ensures IsLive(s.(entries := InsertAt(s.entries, i + 1, c), next := s.next + 1,
                      history := InsertAt(s.history, j, c)))
  {
    HeadOfInsert(s.history, j, c);
    LiveInsert(s.history, Head(s.history), s.archived, Middle(s), j, c);
  }

  lemma InsertKeepsLog(s: Log, i: nat, c: Cell)
    requires LogHolds(s) && FrontLength(s) <= i < |s.entries| && c.entry.Assistant?
    ensures 0 <= InHistory(s, i) + 1 <= |s.history| && s.history != []
    ensures LogHolds(s.(entries := InsertAt(s.entries, i + 1, c), next := s.next + 1,
                        history := InsertAt(s.history, InHistory(s, i) + 1, c)))
    ensures Head(InsertAt(s.history, InHistory(s, i) + 1, c)) == Head(s.history)
  {
    InsertPlace(s, i);
    var j := InHistory(s, i) + 1;
    InsertKeepsLive(s, i, j, c);
    InsertKeepsPlain(s.history, j, c);
    InsertKeepsNewest(s.history, Head(s.history) + s.archived, j, c);
  }

  lemma InsertKeepsPlain(history: seq<Cell>, j: nat, c: Cell)
    requires j <= |history| && !c.entry.Compaction?
    requires forall i :: 0 <= i < |history| ==> !history[i].entry.Compaction?
    ensures var out := InsertAt(history, j, c);
            && (forall i :: 0 <= i < |out| ==> !out[i].entry.Compaction?)
            && (0 < j ==> Head(out) == Head(history))
            && (j == 0 && history != [] && !c.entry.System? ==> Head(out) == 0)
  {
    InsertPlaces(history, j, c);
  }

  /** An inserted cell moves the ones behind it by one place. */
  lemma InsertIsAddressed(entries: seq<Cell>, i: nat, c: Cell)
    requires i < |entries| && Distinct(entries) && Below(entries, c.address)
    ensures var out := InsertAt(entries, i + 1, c);
            Distinct(out) && Below(out, c.address + 1)
  {
    InsertPlaces(entries, i + 1, c);
  }

  lemma CopiesStay(s: Log, s': Log)
    requires CopiesHold(s) && s'.captured == s.captured && s.next <= s'.next
    requires s.history != [] ==> s'.history != [] && Head(s'.history) == Head(s.history)
    requires s'.folds == s.folds && s'.summary == s.summary
    requires forall j :: 0 <= j < |s'.entries| ==>
               s'.entries[j] in s.entries || !HeldByCopy(s, s'.entries[j].address)
    requires forall i :: 0 <= i < |s.entries| && s.entries[i].entry.User? ==> s.entries[i] in s'.entries
    ensures CopiesHold(s')
  {
    forall c | c in s'.captured
      ensures CopyHolds(s', c.0, c.1)
    {
      assert CopyHolds(s, c.0, c.1);
      CopyStays(s, s', c.0, c.1);
    }
  }

  lemma FreshIsNotHeld(s: Log)
    requires CopiesHold(s) && AnchorsHold(s)
    ensures !HeldByCopy(s, s.next)
  {
    forall c, i | c in s.captured && 0 <= i < |c.1|
      ensures c.1[i].address != s.next
    {
      assert CopyHolds(s, c.0, c.1);
    }
    assert s.next in s.anchors ==> AnchorHolds(s, s.next);
  }

  lemma AnchorsStay(s: Log, s': Log)
    requires AnchorsHold(s) && s'.anchors == s.anchors && s.next <= s'.next
    requires FrontLength(s') == FrontLength(s) <= |s.entries|
    requires forall k :: 0 <= k < FrontLength(s) && k < |s'.entries| ==> s'.entries[k] == s.entries[k]
    ensures AnchorsHold(s')
  {
    forall a | a in s'.anchors
      ensures AnchorHolds(s', a)
    {
      assert AnchorHolds(s, a);
    }
  }

  lemma InsertKeepsCopies(s: Log, s': Log, i: nat, c: Cell)
    requires CopiesHold(s) && AnchorsHold(s) && i < |s.entries| && c.address == s.next
    requires s'.entries == InsertAt(s.entries, i + 1, c)
    requires s'.captured == s.captured && s.next <= s'.next && s'.folds == s.folds && s'.summary == s.summary
    requires s.history != [] ==> s'.history != [] && Head(s'.history) == Head(s.history)
    ensures CopiesHold(s')
  {
    InsertKeepsMembers(s.entries, i + 1, c);
    FreshIsNotHeld(s);
    CopiesStay(s, s');
  }

  lemma InsertKeepsAnchors(s: Log, s': Log, i: nat, c: Cell)
    requires AnchorsHold(s) && FrontLength(s) <= i < |s.entries|
    requires s'.entries == InsertAt(s.entries, i + 1, c)
    requires s'.anchors == s.anchors && s.next <= s'.next && FrontLength(s') == FrontLength(s)
    ensures AnchorsHold(s')
  {
    AnchorsStay(s, s');
  }

  lemma InsertedKeeps(s: Log, i: nat, c: Cell)
    requires Invariant(s) && FrontLength(s) <= i < |s.entries| && c.entry.Assistant? && c.address == s.next
    ensures 0 <= InHistory(s, i) + 1 <= |s.history|
    ensures Invariant(s.(entries := InsertAt(s.entries, i + 1, c), next := s.next + 1,
                         history := InsertAt(s.history, InHistory(s, i) + 1, c)))
  {
    InsertKeepsLog(s, i, c);
    var s' := s.(entries := InsertAt(s.entries, i + 1, c), next := s.next + 1,
                 history := InsertAt(s.history, InHistory(s, i) + 1, c));
    InsertIsAddressed(s.entries, i, c);
    InsertKeepsCopies(s, s', i, c);
    InsertKeepsAnchors(s, s', i, c);
  }

  lemma AnchorIsPastFront(s: Log, anchor: nat, i: nat)
    requires AnchorsHold(s) && anchor in s.anchors && i < |s.entries| && s.entries[i].address == anchor
    ensures FrontLength(s) <= i
  {
    assert AnchorHolds(s, anchor);
  }

  lemma {:induction false} StepInserts(s: Log, anchor: nat, reply: string, reasoning: string, i: nat, c: Cell)
    requires anchor in s.anchors && IndexOf(s.entries, anchor) == Some(i)
             && c == PartialReply(s.next, 0, reply, reasoning)
    requires 0 <= InHistory(s, i) + 1 <= |s.history|
    ensures Step(s, InsertPartial(anchor, reply, reasoning)) ==
            s.(entries := InsertAt(s.entries, i + 1, c), next := s.next + 1,
               history := InsertAt(s.history, InHistory(s, i) + 1, c))
  {
  }

  lemma InsertKeeps(s: Log, anchor: nat, reply: string, reasoning: string)
    requires Invariant(s) && anchor in s.anchors
    ensures Invariant(Step(s, InsertPartial(anchor, reply, reasoning)))
  {
    if IndexOf(s.entries, anchor).Some? {
      var i, c := IndexOf(s.entries, anchor).value, PartialReply(s.next, 0, reply, reasoning);
      AnchorIsPastFront(s, anchor, i);
      InsertedKeeps(s, i, c);
      StepInserts(s, anchor, reply, reasoning, i, c);
    }
  }

  // ----- Where runs start

  lemma EmptyHolds()
    ensures Invariant(EMPTY)
  {
  }

  /** Cells read back from storage: the same entries under new addresses. */
  function Readdressed(cells: seq<Cell>, offset: nat): (r: seq<Cell>)
    ensures |r| == |cells|
    ensures forall i :: 0 <= i < |cells| ==> r[i] == cells[i].(address := cells[i].address + offset)
  {
    seq(|cells|, i requires 0 <= i < |cells| => cells[i].(address := cells[i].address + offset))
  }

  /** The session saved and loaded: no copy and no anchor of the old process is left. */
  function Reloaded(s: Log): Log
  {
    Log(Readdressed(s.entries, s.next), 2 * s.next, Readdressed(s.history, s.next), s.archived,
        if s.summary.Some? then Some(s.summary.value.(address := s.summary.value.address + s.next)) else None,
        s.folds, {}, {})
  }

  lemma ReaddressedLive(history: seq<Cell>, h: nat, n: nat, middle: seq<Cell>, offset: nat)
    requires h + n <= |history|
    ensures Readdressed(Live(history, h, n, middle), offset) ==
            Live(Readdressed(history, offset), h, n, Readdressed(middle, offset))
  {
  }

  lemma ReaddressedUsers(cells: seq<Cell>, offset: nat)
    ensures HasUser(Readdressed(cells, offset)) <==> HasUser(cells)
  {
    var r := Readdressed(cells, offset);
    if k :| 0 <= k < |cells| && cells[k].entry.User? {
      assert r[k].entry.User?;
    }
    if k :| 0 <= k < |r| && r[k].entry.User? {
      assert cells[k].entry.User?;
    }
  }

  lemma {:induction false} ReaddressedWire(cells: seq<Cell>, offset: nat)
    ensures Wire(Readdressed(cells, offset)) == Wire(cells)
  {
    if cells != [] {
      ReaddressedWire(cells[1..], offset);
      assert Readdressed(cells, offset)[1..] == Readdressed(cells[1..], offset);
    }
  }

  lemma ReloadedLog(s: Log)
    requires LogHolds(s)
    ensures LogHolds(Reloaded(s))
  {
    var r, start := Reloaded(s), Head(s.history) + s.archived;
    ReaddressedLive(s.history, Head(s.history), s.archived, Middle(s), s.next);
    assert Readdressed(Middle(s), s.next) == Middle(r);
    ReaddressedUsers(s.history, s.next);
    ReaddressedUsers(s.history[start..], s.next);
    assert Readdressed(s.history, s.next)[start..] == Readdressed(s.history[start..], s.next);
  }

  /** A session taken up again can start a run, and says the same on the wire. */
  lemma ReloadedHolds(s: Log)
    requires Invariant(s)
    ensures Invariant(Reloaded(s)) && Wire(Reloaded(s).entries) == Wire(s.entries)
  {
    ReloadedLog(s);
    ReaddressedWire(s.entries, s.next);
  }

  // ----- Runs

  lemma StepKeepsInvariant(s: Log, a: Action)
    requires Enabled(s, a) && Invariant(s)
    ensures Invariant(Step(s, a))
  {
    match a
    case Push(turn, entry) => PushKeeps(s, Cell(s.next, turn, entry));
    case Record(callId, result, isShared) => RecordKeeps(s, callId, result, isShared);
    case Capture => CaptureKeeps(s);
    case CommitFold(before, copy, text) => FoldKeeps(s, before, copy, text);
    case OpenRequest => OpenRequestKeeps(s);
    case InsertPartial(anchor, reply, reasoning) => InsertKeeps(s, anchor, reply, reasoning);
  }

  /** A run from any log that satisfies the invariant: an empty one, or a session taken up again. */
  ghost predicate IsRun(run: seq<Log>, actions: seq<Action>)
  {
    && |run| == |actions| + 1
    && Invariant(run[0])
    && forall i :: 0 <= i < |actions| ==> Enabled(run[i], actions[i]) && run[i + 1] == Step(run[i], actions[i])
  }

  lemma {:induction false} RunInvariant(run: seq<Log>, actions: seq<Action>, i: nat)
    requires IsRun(run, actions) && i < |run|
    ensures Invariant(run[i])
  {
    if i > 0 {
      RunInvariant(run, actions, i - 1);
      StepKeepsInvariant(run[i - 1], actions[i - 1]);
    }
  }

  /** After any run there is at most one summary and it stands right behind the optional leading system
      entry; the rest is the newest part of everything pushed, with the newest user entry in it; what the
      folds reported plus what is live is everything ever pushed; and the wire is well paired. */
  lemma RunKeepsTheConversation(run: seq<Log>, actions: seq<Action>, i: nat)
    requires IsRun(run, actions) && i < |run|
    ensures var s := run[i];
            && FrontLength(s) <= |s.entries| && Head(s.history) + s.archived <= |s.history|
            && (forall k :: 0 <= k < |s.entries| && s.entries[k].entry.Compaction? ==> k == Head(s.history))
            && s.entries[FrontLength(s)..] == s.history[Head(s.history) + s.archived..]
            && (LastUser(s.history).Some? ==> s.history[LastUser(s.history).value] in s.entries[FrontLength(s)..])
            && s.archived + Plain(s.entries) == |s.history|
            && Paired(Wire(s.entries))
  {
    RunInvariant(run, actions, i);
    LiveShape(run[i]);
    NewestUserIsLive(run[i]);
    LivePlain(run[i]);
    WireIsPaired(run[i].entries);
  }

  lemma NewestUserIsLive(s: Log)
    requires LogHolds(s)
    ensures FrontLength(s) <= |s.entries|
    ensures LastUser(s.history).Some? ==> s.history[LastUser(s.history).value] in s.entries[FrontLength(s)..]
  {
    LiveShape(s);
    NewestUserIsInTail(s.history, Head(s.history) + s.archived);
  }

  lemma LiveShape(s: Log)
    requires LogHolds(s)
    ensures FrontLength(s) <= |s.entries| && Head(s.history) + s.archived <= |s.history|
    ensures forall k :: 0 <= k < |s.entries| && s.entries[k].entry.Compaction? ==> k == Head(s.history)
    ensures s.entries[FrontLength(s)..] == s.history[Head(s.history) + s.archived..]
  {
    forall k | 0 <= k < |s.entries| && s.entries[k].entry.Compaction?
      ensures k == Head(s.history)
    {
      LivePlaces(s, k);
    }
  }

  lemma {:induction false} NewestUserIsInTail(history: seq<Cell>, start: nat)
    requires start <= |history| && (HasUser(history) ==> HasUser(history[start..]))
    ensures LastUser(history).Some? ==> history[LastUser(history).value] in history[start..]
  {
    if LastUser(history).Some? {
      var u, tail := LastUser(history).value, history[start..];
      assert HasUser(history);
      var k :| 0 <= k < |tail| && tail[k].entry.User?;
      assert history[start + k] == tail[k];
      assert tail[u - start] == history[u];
    }
  }

  lemma {:induction false} AllPlain(entries: seq<Cell>)
    requires forall i :: 0 <= i < |entries| ==> !entries[i].entry.Compaction?
    ensures Plain(entries) == |entries|
  {
    if entries != [] {
      AllPlain(entries[1..]);
    }
  }

  lemma LivePlain(s: Log)
    requires LogHolds(s)
    ensures s.archived + Plain(s.entries) == |s.history|
  {
    var h := Head(s.history);
    var front, middle, tail := s.history[..h], Middle(s), s.history[h + s.archived..];
    PlainConcat(front + middle, tail);
    PlainConcat(front, middle);
    AllPlain(front);
    AllPlain(tail);
    if s.summary.Some? {
      assert middle[1..] == [];
    }
  }

  /** In a run every committed fold makes progress: it archives something that is not a summary. */
  lemma FoldMakesProgress(s: Log, before: nat, copy: seq<Cell>, text: string)
    requires Invariant(s) && (before, copy) in s.captured && PrefixIntact(s.entries, copy)
    ensures Plain(Step(s, CommitFold(before, copy, text)).entries) < Plain(s.entries)
  {
    var plan := PlanOf(copy).value;
    IntactMeansUnfolded(s, before, copy);
    RangePassesFront(s, before, copy);
    ShorterByAPlain(s, plan, text);
  }

  lemma ShorterByAPlain(s: Log, plan: Plan, text: string)
    requires LogHolds(s) && Fits(plan, s.entries) && FrontLength(s) < plan.tailStart && plan.head == Head(s.history)
    ensures Plain(Fold(s.entries, plan, text, s.next)) < Plain(s.entries)
  {
    FoldAccounts(s.entries, plan, text, s.next);
    LastIsPlain(s, plan.tailStart - 1);
  }

  lemma LastIsPlain(s: Log, k: nat)
    requires LogHolds(s) && FrontLength(s) <= k < |s.entries|
    ensures !s.entries[k].entry.Compaction?
  {
    LivePlaces(s, k);
  }

  lemma RecordAddsItsResult(s: Log, callId: string, result: ExchangeResult, isShared: bool)
    requires Enabled(s, Record(callId, result, isShared)) && ResultSlot(s.entries, callId).Some?
    ensures Results(Step(s, Record(callId, result, isShared)).entries) ==
            Results(s.entries) + multiset{(callId, result)}
  {
    var (i, k) := ResultSlot(s.entries, callId).value;
    RecordKeepsEarlierResults(s.entries, callId, i, k, result, if isShared then s.next else s.entries[i].address);
  }

  lemma {:induction false} InsertKeepsResults(s: Log, anchor: nat, reply: string, reasoning: string)
    requires anchor in s.anchors && IndexOf(s.entries, anchor).Some?
    ensures Results(Step(s, InsertPartial(anchor, reply, reasoning)).entries) == Results(s.entries)
  {
    var at := IndexOf(s.entries, anchor).value;
    PartialReplyHasNoResults(s.entries, at, PartialReply(s.next, 0, reply, reasoning));
  }

  lemma FoldTakesItsResults(s: Log, before: nat, copy: seq<Cell>, text: string)
    requires (before, copy) in s.captured && PrefixIntact(s.entries, copy)
    ensures Fits(PlanOf(copy).value, s.entries)
    ensures Results(s.entries) ==
            Results(Step(s, CommitFold(before, copy, text)).entries) + Results(Archived(PlanOf(copy).value, s.entries))
  {
    FoldSplits(s.entries, PlanOf(copy).value, text, s.next);
  }

  /** What each action does to the recorded results: only a fold removes any, and only those of the
      entries it archives; recording adds its own and overwrites none. */
  lemma StepKeepsResults(s: Log, a: Action)
    requires Enabled(s, a) && Invariant(s)
    ensures var s' := Step(s, a);
            && (!a.CommitFold? ==> Results(s.entries) <= Results(s'.entries))
            && (a.Record? && ResultSlot(s.entries, a.callId).Some? ==>
                  Results(s'.entries) == Results(s.entries) + multiset{(a.callId, a.result)})
            && (a.CommitFold? && PrefixIntact(s.entries, a.copy) ==>
                  Fits(PlanOf(a.copy).value, s.entries)
                  && Results(s.entries) == Results(s'.entries) + Results(Archived(PlanOf(a.copy).value, s.entries)))
  {
    match a
    case Push(turn, entry) =>
      ResultsConcat(s.entries, [Cell(s.next, turn, entry)]);
    case Record(callId, result, isShared) =>
      if ResultSlot(s.entries, callId).Some? {
        RecordAddsItsResult(s, callId, result, isShared);
      }
    case CommitFold(before, copy, text) =>
      if PrefixIntact(s.entries, copy) {
        FoldTakesItsResults(s, before, copy, text);
      }
    case InsertPartial(anchor, reply, reasoning) =>
      if IndexOf(s.entries, anchor).Some? {
        InsertKeepsResults(s, anchor, reply, reasoning);
      }
    case _ =>
  }
}
