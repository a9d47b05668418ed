/** Folding the history of a session: which entries a compaction archives, what replaces them, and
    what stays true over any run of pushes, results, late replies and folds. */
module Compaction {
  import opened Wrappers
  import opened Messages
  import opened Sequences
  import opened Session

  const RECENT_TAIL_ENTRIES: nat := 5

  /** `head..tailStart` is archived; `carried` is the previous summary when the range opens with one. */
  datatype Plan = Plan(head: nat, tailStart: nat, carried: Option<string>)

  function Head(entries: seq<Cell>): nat
  {
    if entries != [] && entries[0].entry.System? then 1 else 0
  }

  function LastUser(entries: seq<Cell>): (at: Option<nat>)
    ensures at.Some? ==> at.value < |entries| && entries[at.value].entry.User?
    ensures forall i :: (if at.Some? then at.value < i else 0 <= i) && i < |entries| ==> !entries[i].entry.User?
  {
    if entries == [] then None
    else
      var last := |entries| - 1;
      if entries[last].entry.User? then Some(last) else LastUser(entries[..last])
  }

  function TailStart(entries: seq<Cell>): nat
    requires |entries| >= RECENT_TAIL_ENTRIES
  {
    var recent := |entries| - RECENT_TAIL_ENTRIES;
    match LastUser(entries)
    case Some(u) => if u < recent then u else recent
    case None => recent
  }

  /** `plan_compaction` as a function of the entries. */
  function PlanOf(entries: seq<Cell>): (plan: Option<Plan>)
    ensures plan.Some? ==>
              var Plan(head, start, _) := plan.value;
              && head == Head(entries) < start <= |entries| - RECENT_TAIL_ENTRIES
              && !(start == head + 1 && entries[head].entry.Compaction?)
              && (LastUser(entries).Some? ==> start <= LastUser(entries).value)
  {
    if |entries| <= RECENT_TAIL_ENTRIES + 1 then None
    else
      var head, start := Head(entries), TailStart(entries);
      if start <= head then None
      else if start == head + 1 && entries[head].entry.Compaction? then None
      else Some(Plan(head, start, if entries[head].entry.Compaction? then Some(entries[head].entry.summary) else None))
  }

  method FindLastUser(entries: seq<Cell>) returns (at: Option<nat>)
    ensures at == LastUser(entries)
  {
    var i := |entries|;
    while i > 0 && !entries[i - 1].entry.User?
      invariant 0 <= i <= |entries|
      invariant LastUser(entries) == LastUser(entries[..i])
    {
      i := i - 1;
      assert entries[..i + 1][..i] == entries[..i];
    }
    return if i > 0 then Some(i - 1) else None;
  }

  method PlanCompaction(entries: seq<Cell>) returns (plan: Option<Plan>)
    ensures plan == PlanOf(entries)
  {
    if |entries| <= RECENT_TAIL_ENTRIES + 1 {
      return None;
    }
    var head := if entries[0].entry.System? then 1 else 0;
    var tailStart := |entries| - RECENT_TAIL_ENTRIES;
    var lastUser := FindLastUser(entries);
    if lastUser.Some? && lastUser.value < tailStart {
      tailStart := lastUser.value;
    }
    if tailStart <= head {
      return None;
    }
    if tailStart == head + 1 && entries[head].entry.Compaction? {
      return None;
    }
    var carried := if entries[head].entry.Compaction? then Some(entries[head].entry.summary) else None;
    return Some(Plan(head, tailStart, carried));
  }

  predicate Fits(plan: Plan, entries: seq<Cell>)
  {
    plan.head < plan.tailStart <= |entries|
  }

  function Archived(plan: Plan, entries: seq<Cell>): seq<Cell>
    requires Fits(plan, entries)
  {
    entries[plan.head..plan.tailStart]
  }

  /** The archived entries without the summary carried at their head. */
  function Fresh(plan: Plan, entries: seq<Cell>): seq<Cell>
    requires Fits(plan, entries)
  {
    var archived := Archived(plan, entries);
    if archived[0].entry.Compaction? then archived[1..] else archived
  }

  function Summary(plan: Plan, entries: seq<Cell>, summary: string, address: nat): Cell
    requires Fits(plan, entries)
  {
    Cell(address, None, Entry.Compaction(summary, |Fresh(plan, entries)|))
  }

  function Fold(entries: seq<Cell>, plan: Plan, summary: string, address: nat): seq<Cell>
    requires Fits(plan, entries)
  {
    entries[..plan.head] + [Summary(plan, entries, summary, address)] + entries[plan.tailStart..]
  }

  method ApplyCompaction(entries: seq<Cell>, plan: Plan, summary: string, address: nat)
    returns (out: seq<Cell>, archivedCount: nat)
    requires Fits(plan, entries)
    ensures out == Fold(entries, plan, summary, address)
    ensures archivedCount == |Fresh(plan, entries)|
    ensures |out| == |entries| - (plan.tailStart - plan.head) + 1
    ensures out[..plan.head] == entries[..plan.head] && out[plan.head + 1..] == entries[plan.tailStart..]
    ensures out[plan.head] == Cell(address, None, Entry.Compaction(summary, archivedCount))
    ensures archivedCount == plan.tailStart - plan.head - if entries[plan.head].entry.Compaction? then 1 else 0
  {
    archivedCount := |Fresh(plan, entries)|;
    out := entries[..plan.head];
    out := out + [Cell(address, None, Entry.Compaction(summary, archivedCount))];
    out := out + entries[plan.tailStart..];
  }

  // ----- The plan, without its code

  /** The range to archive may end here: the recent entries stay, and so does the newest user entry. */
  ghost predicate MayEndAt(entries: seq<Cell>, start: nat)
  {
    && start + RECENT_TAIL_ENTRIES <= |entries|
    && ((exists i :: 0 <= i < |entries| && entries[i].entry.User?) ==>
          exists i :: start <= i < |entries| && entries[i].entry.User?)
  }

  /** A plan archives as much as it may, from behind the leading system entry; there is none for a short list,
      an empty range, or a range that is the last summary alone. */
  lemma PlanIsLargest(entries: seq<Cell>, start: nat)
    requires MayEndAt(entries, start) && forall s: nat :: MayEndAt(entries, s) ==> s <= start
    ensures var head := if entries != [] && entries[0].entry.System? then 1 else 0;
            PlanOf(entries) ==
            if |entries| <= RECENT_TAIL_ENTRIES + 1 || start <= head
               || (start == head + 1 && entries[head].entry.Compaction?) then None
            else Some(Plan(head, start,
                           if entries[head].entry.Compaction? then Some(entries[head].entry.summary) else None))
  {
    if |entries| > RECENT_TAIL_ENTRIES + 1 {
      assert MayEndAt(entries, TailStart(entries)) by {
        if LastUser(entries).Some? {
          assert entries[LastUser(entries).value].entry.User?;
        }
      }
      assert start <= TailStart(entries);
    }
  }

  // ----- One fold

  /** On the wire a fold is one system message with the summary in place of what it archives. */
  lemma FoldOnTheWire(entries: seq<Cell>, plan: Plan, summary: string, address: nat) returns (m: Message)
    requires Fits(plan, entries)
    ensures Wire(Fold(entries, plan, summary, address)) ==
            Wire(entries[..plan.head]) + [m] + Wire(entries[plan.tailStart..])
    ensures m.role == SystemRole && m.content == COMPACTION_SUMMARY_PREFIX + summary
    ensures m.images == [] && m.reasoning.None? && m.callId.None? && m.calls == []
  {
    var out, mark := Fold(entries, plan, summary, address), Summary(plan, entries, summary, address);
    assert out[..plan.head] == entries[..plan.head] && out[plan.head] == mark;
    assert out[plan.head + 1..] == entries[plan.tailStart..];
    FlatMapAround(CellWire, out, plan.head);
    m := EntryWire(mark.entry)[0];
    assert CellWire(mark) == [m];
  }

  /** One fold reaches a fixed point: whatever the entries and the summary, there is nothing left to plan. */
  lemma FoldIsAFixedPoint(entries: seq<Cell>, summary: string, address: nat)
    requires PlanOf(entries).Some?
    ensures PlanOf(Fold(entries, PlanOf(entries).value, summary, address)).None?
  {
    var plan := PlanOf(entries).value;
    var out := Fold(entries, plan, summary, address);
    var tail := entries[plan.tailStart..];
    assert forall i :: plan.head < i < |out| ==> out[i] == tail[i - plan.head - 1];
    if LastUser(entries) == Some(plan.tailStart) {
      assert out[plan.head + 1].entry.User?;
    }
    assert out[plan.head].entry.Compaction?;
  }

  /** Entries that are not summaries. */
  function Plain(entries: seq<Cell>): nat
  {
    if entries == [] then 0
    else (if entries[0].entry.Compaction? then 0 else 1) + Plain(entries[1..])
  }

  lemma {:induction false} PlainConcat(a: seq<Cell>, b: seq<Cell>)
    ensures Plain(a + b) == Plain(a) + Plain(b)
  {
    if a == [] {
      assert a + b == b;
    } else {
      assert (a + b)[1..] == a[1..] + b;
      PlainConcat(a[1..], b);
    }
  }

  lemma {:induction false} PlainIsPositive(entries: seq<Cell>)
    ensures Plain(entries) > 0 <==> exists i :: 0 <= i < |entries| && !entries[i].entry.Compaction?
  {
    if entries != [] {
      PlainIsPositive(entries[1..]);
      if Plain(entries[1..]) > 0 {
        var i :| 0 <= i < |entries[1..]| && !entries[1..][i].entry.Compaction?;
        assert !entries[i + 1].entry.Compaction?;
      }
    }
  }

  lemma {:induction false} FoldSplits(entries: seq<Cell>, plan: Plan, summary: string, address: nat)
    requires Fits(plan, entries)
    ensures var out, archived := Fold(entries, plan, summary, address), Archived(plan, entries);
            && Plain(out) + Plain(archived) == Plain(entries)
            && Results(out) + Results(archived) == Results(entries)
  {
    var front, archived, tail := entries[..plan.head], Archived(plan, entries), entries[plan.tailStart..];
    var mark := [Summary(plan, entries, summary, address)];
    assert entries == front + (archived + tail);
    PlainConcat(front, archived + tail);
    PlainConcat(archived, tail);
    PlainConcat(front + mark, tail);
    PlainConcat(front, mark);
    ResultsConcat(front, archived + tail);
    ResultsConcat(archived, tail);
    ResultsConcat(front + mark, tail);
    ResultsConcat(front, mark);
    assert mark[1..] == [];
  }

  /** A fold removes the archived entries, with their results, and no others; it makes progress exactly
      when the archived range holds something that is not a summary. */
  lemma {:induction false} FoldAccounts(entries: seq<Cell>, plan: Plan, summary: string, address: nat)
    requires Fits(plan, entries)
    ensures var out, archived := Fold(entries, plan, summary, address), Archived(plan, entries);
            && Plain(out) + Plain(archived) == Plain(entries)
            && Results(out) + Results(archived) == Results(entries)
            && (Plain(out) < Plain(entries) <==>
                  exists i :: plan.head <= i < plan.tailStart && !entries[i].entry.Compaction?)
  {
    FoldSplits(entries, plan, summary, address);
    var archived := Archived(plan, entries);
    PlainIsPositive(archived);
    if Plain(archived) > 0 {
      var i :| 0 <= i < |archived| && !archived[i].entry.Compaction?;
      assert !entries[plan.head + i].entry.Compaction?;
    }
    if i :| plan.head <= i < plan.tailStart && !entries[i].entry.Compaction? {
      assert !archived[i - plan.head].entry.Compaction?;
    }
  }

  /** Without the invariant of real runs a fold need not make progress: two summaries in a row. */
  lemma TwoSummariesMakeNoProgress()
    ensures exists entries: seq<Cell>, summary, address ::
              && PlanOf(entries).Some?
              && Plain(Fold(entries, PlanOf(entries).value, summary, address)) == Plain(entries)
  {
    var c := Cell(0, None, Entry.Compaction("", 0));
    var u := Cell(0, None, User("", []));
    var entries := [c, c, u, u, u, u, u];
    var plan := PlanOf(entries).value;
    assert plan.tailStart == 2;
    FoldAccounts(entries, plan, "", 0);
    assert Plain(Fold(entries, plan, "", 0)) == Plain(entries);
  }
}
