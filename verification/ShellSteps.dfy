/** Unattended commands: the flat gated step loop of the shell tool against the shell's own recursive
    reading of `&&` and `;` (section 2.9.3, "Lists", of the POSIX Shell Command Language). */
module ShellSteps {
  import opened Wrappers

  datatype RunIf = Always | PreviousSucceeded

  datatype Form = ShellText(command: string) | Argv(words: seq<string>)

  datatype Step = Step(form: Form, runIf: RunIf)

  datatype Status = Completed | Failed | Cancelled | TimedOut

  /** What came of trying to run one command. */
  datatype Attempt =
    | CannotStart(error: string)
    | CannotWait(error: string)
    | Exited(code: Option<int>)
    | CancelHit
    | TimeoutHit

  /** The commands' effects: each attempt may depend on, and change, everything the earlier ones did. */
  type Host<!W> = (W, Form) -> (Attempt, W)

  // ----- What is run

  datatype Authority = Approved | Parse

  datatype Plan = Steps(steps: seq<Step>) | Refused

  /** Approved text goes to the shell whole; text nobody read runs only as the parser's own words. */
  function StepsFor(command: string, authority: Authority,
                    parse: string -> Option<seq<(seq<string>, RunIf)>>): (r: Plan)
    ensures authority == Parse ==> (r.Refused? <==> parse(command).None?)
    ensures authority == Parse && r.Steps? ==>
              && |r.steps| == |parse(command).value|
              && forall i :: 0 <= i < |r.steps| ==>
                   r.steps[i].form == Argv(parse(command).value[i].0) && r.steps[i].runIf == parse(command).value[i].1
    ensures authority == Approved ==> r == Steps(Flatten(Single(Command(ShellText(command)))))
  {
    match authority
    case Approved => Steps([Step(ShellText(command), Always)])
    case Parse =>
      match parse(command)
      case None => Refused
      case Some(commands) =>
        Steps(seq(|commands|, i requires 0 <= i < |commands| => Step(Argv(commands[i].0), commands[i].1)))
  }

  // ----- One command

  /** Where a run stands: what was tried and how it went, the status so far, and the error that ended it. */
  datatype Progress<W> = Progress(
    world: W,
    tried: seq<(Form, Attempt)>,
    errors: seq<string>,
    status: Status,
    code: Option<int>,
    failure: Option<string>)

  function Begin<W>(world: W): Progress<W>
  {
    Progress(world, [], [], Completed, Some(0), None)
  }

  predicate Halted<W>(p: Progress<W>)
  {
    p.failure.Some? || p.status == Cancelled || p.status == TimedOut
  }

  /** Runs one command. `alone` says it is the only one: then failing to start is the caller's error,
      and otherwise it is status 127. */
  function Tried<W>(host: Host<W>, alone: bool, p: Progress<W>, form: Form): Progress<W>
  {
    var (attempt, world) := host(p.world, form);
    var q := p.(world := world, tried := p.tried + [(form, attempt)]);
    match attempt
    case CannotStart(error) =>
      if alone then q.(failure := Some(error))
      else q.(errors := q.errors + [error], status := Failed, code := Some(127))
    case CannotWait(error) => q.(failure := Some(error))
    case Exited(code) => q.(status := if code == Some(0) then Completed else Failed, code := code)
    case CancelHit => q.(status := Cancelled, code := None)
    case TimeoutHit => q.(status := TimedOut, code := None)
  }

  // ----- The shell's reading

  /** `a && b && …`, grouped to the left. */
  datatype AndList = Command(form: Form) | And(left: AndList, right: Form)

  /** AND lists joined by `;`, grouped to the left. */
  datatype CommandList = Single(first: AndList) | Then(before: CommandList, next: AndList)

  function EvalAnd<W>(host: Host<W>, alone: bool, a: AndList, p: Progress<W>): Progress<W>
  {
    match a
    case Command(form) => Tried(host, alone, p, form)
    case And(left, right) =>
      var q := EvalAnd(host, alone, left, p);
      if Halted(q) || q.status != Completed then q else Tried(host, alone, q, right)
  }

  function EvalList<W>(host: Host<W>, alone: bool, l: CommandList, p: Progress<W>): Progress<W>
  {
    match l
    case Single(a) => EvalAnd(host, alone, a, p)
    case Then(before, a) =>
      var q := EvalList(host, alone, before, p);
      if Halted(q) then q else EvalAnd(host, alone, a, q)
  }

  // ----- The flat list

  function FlattenAnd(a: AndList): (steps: seq<Step>)
    ensures steps != [] && steps[0].runIf == Always
  {
    match a
    case Command(form) => [Step(form, Always)]
    case And(left, right) => FlattenAnd(left) + [Step(right, PreviousSucceeded)]
  }

  function Flatten(l: CommandList): (steps: seq<Step>)
    ensures steps != [] && steps[0].runIf == Always
  {
    match l
    case Single(a) => FlattenAnd(a)
    case Then(before, a) => Flatten(before) + FlattenAnd(a)
  }

  /** The gated loop over steps, one after the other. */
  function RunFlat<W>(host: Host<W>, alone: bool, steps: seq<Step>, p: Progress<W>): Progress<W>
    decreases |steps|
  {
    if steps == [] || Halted(p) then p
    else if steps[0].runIf == PreviousSucceeded && p.status != Completed then RunFlat(host, alone, steps[1..], p)
    else RunFlat(host, alone, steps[1..], Tried(host, alone, p, steps[0].form))
  }

  lemma {:induction false} RunFlatComposes<W>(host: Host<W>, alone: bool, a: seq<Step>, b: seq<Step>, p: Progress<W>)
    ensures RunFlat(host, alone, a + b, p) == RunFlat(host, alone, b, RunFlat(host, alone, a, p))
    decreases |a|
  {
    if a == [] {
      assert a + b == b;
    } else if !Halted(p) {
      assert (a + b)[1..] == a[1..] + b;
      if a[0].runIf == PreviousSucceeded && p.status != Completed {
        RunFlatComposes(host, alone, a[1..], b, p);
      } else {
        RunFlatComposes(host, alone, a[1..], b, Tried(host, alone, p, a[0].form));
      }
    }
  }

  lemma {:induction false} FlatAndIsNested<W>(host: Host<W>, alone: bool, a: AndList, p: Progress<W>)
    requires !Halted(p)
    ensures RunFlat(host, alone, FlattenAnd(a), p) == EvalAnd(host, alone, a, p)
  {
    match a
    case Command(form) =>
      assert FlattenAnd(a)[1..] == [];
    case And(left, right) =>
      FlatAndIsNested(host, alone, left, p);
      var last := [Step(right, PreviousSucceeded)];
      assert last[1..] == [];
      RunFlatComposes(host, alone, FlattenAnd(left), last, p);
  }

  /** The loop tries the same commands, in the same order and with the same status and effects, as the
      recursive reading of the list. */
  lemma {:induction false} FlatIsNested<W>(host: Host<W>, alone: bool, l: CommandList, p: Progress<W>)
    requires !Halted(p)
    ensures RunFlat(host, alone, Flatten(l), p) == EvalList(host, alone, l, p)
  {
    match l
    case Single(a) =>
      FlatAndIsNested(host, alone, a, p);
    case Then(before, a) =>
      FlatIsNested(host, alone, before, p);
      RunFlatComposes(host, alone, Flatten(before), FlattenAnd(a), p);
      var q := EvalList(host, alone, before, p);
      if !Halted(q) {
        FlatAndIsNested(host, alone, a, q);
      }
  }

  /** Every step list that opens ungated is the flat form of exactly one list. */
  function Group(steps: seq<Step>): (l: CommandList)
    requires steps != [] && steps[0].runIf == Always
    ensures Flatten(l) == steps
  {
    var n := |steps| - 1;
    var last := steps[n];
    assert steps == steps[..n] + [last];
    if n == 0 then Single(Command(last.form))
    else
      var before := Group(steps[..n]);
      if last.runIf == Always then Then(before, Command(last.form))
      else
        match before
        case Single(a) => Single(And(a, last.form))
        case Then(b, a) =>
          assert Flatten(b) + (FlattenAnd(a) + [last]) == steps;
          Then(b, And(a, last.form))
  }

  lemma {:induction false} GroupIsUnique(l: CommandList)
    ensures Group(Flatten(l)) == l
    decreases |Flatten(l)|
  {
    var steps := Flatten(l);
    var n := |steps| - 1;
    match l
    case Single(Command(_)) =>
    case Single(And(left, right)) =>
      GroupIsUnique(Single(left));
      assert steps[..n] == Flatten(Single(left));
    case Then(before, Command(_)) =>
      GroupIsUnique(before);
      assert steps[..n] == Flatten(before);
    case Then(before, And(left, right)) =>
      GroupIsUnique(Then(before, left));
      assert steps[..n] == Flatten(Then(before, left));
  }

  // ----- Nothing starts after a stop

  predicate Stops(alone: bool, attempt: Attempt)
  {
    attempt.CancelHit? || attempt.TimeoutHit? || attempt.CannotWait? || (alone && attempt.CannotStart?)
  }

  /** The errors of the commands that could not start. */
  function StartErrors(tried: seq<(Form, Attempt)>): seq<string>
  {
    if tried == [] then []
    else
      var last := tried[|tried| - 1].1;
      StartErrors(tried[..|tried| - 1]) + if last.CannotStart? then [last.error] else []
  }

  /** Only the last attempt can have stopped the run, it did so if and only if the run is halted, and the
      status, or the error that ended the run, is the one that last attempt gave. */
  ghost predicate Consistent<W>(alone: bool, p: Progress<W>)
  {
    var n := |p.tried|;
    && (forall i :: 0 <= i < n - 1 ==> !Stops(alone, p.tried[i].1))
    && (Halted(p) <==> n > 0 && Stops(alone, p.tried[n - 1].1))
    && (n == 0 ==> p.status == Completed && p.code == Some(0) && p.failure.None?)
    && (n > 0 ==> IsLeftBy(alone, p.tried[n - 1].1, p))
    && p.errors == if alone then [] else StartErrors(p.tried)
  }

  /** How a run stands right after this attempt. */
  predicate IsLeftBy<W>(alone: bool, attempt: Attempt, p: Progress<W>)
  {
    match attempt
    case CannotStart(error) =>
      if alone then p.failure == Some(error) else p.failure.None? && p.status == Failed && p.code == Some(127)
    case CannotWait(error) => p.failure == Some(error)
    case Exited(code) =>
      p.failure.None? && p.code == code && (p.status == if code == Some(0) then Completed else Failed)
    case CancelHit => p.failure.None? && p.status == Cancelled && p.code.None?
    case TimeoutHit => p.failure.None? && p.status == TimedOut && p.code.None?
  }

  lemma TriedLeaves<W>(host: Host<W>, alone: bool, p: Progress<W>, form: Form)
    requires !Halted(p)
    ensures var q, attempt := Tried(host, alone, p, form), host(p.world, form).0;
            && IsLeftBy(alone, attempt, q) && (Halted(q) <==> Stops(alone, attempt))
            && q.tried == p.tried + [(form, attempt)]
            && q.errors == p.errors + if attempt.CannotStart? && !alone then [attempt.error] else []
  {
  }

  lemma TriedKeepsConsistent<W>(host: Host<W>, alone: bool, p: Progress<W>, form: Form)
    requires Consistent(alone, p) && !Halted(p)
    ensures Consistent(alone, Tried(host, alone, p, form))
  {
    TriedLeaves(host, alone, p, form);
    NotStoppedYet(alone, p);
    StartErrorsSnoc(p.tried, (form, host(p.world, form).0));
    OneMoreTried(alone, p, Tried(host, alone, p, form), form, host(p.world, form).0);
  }

  lemma OneMoreTried<W>(alone: bool, p: Progress<W>, q: Progress<W>, form: Form, attempt: Attempt)
    requires forall i :: 0 <= i < |p.tried| ==> !Stops(alone, p.tried[i].1)
    requires q.tried == p.tried + [(form, attempt)] && IsLeftBy(alone, attempt, q)
    requires Halted(q) <==> Stops(alone, attempt)
    requires q.errors == if alone then [] else StartErrors(q.tried)
    ensures Consistent(alone, q)
  {
  }

  lemma NotStoppedYet<W>(alone: bool, p: Progress<W>)
    requires Consistent(alone, p) && !Halted(p)
    ensures forall i :: 0 <= i < |p.tried| ==> !Stops(alone, p.tried[i].1)
  {
  }

  lemma {:induction false} StartErrorsSnoc(tried: seq<(Form, Attempt)>, last: (Form, Attempt))
    ensures StartErrors(tried + [last]) == StartErrors(tried) + if last.1.CannotStart? then [last.1.error] else []
  {
    assert (tried + [last])[..|tried|] == tried;
  }

  lemma {:induction false} NothingStartsAfterAStop<W>(host: Host<W>, alone: bool, steps: seq<Step>, p: Progress<W>)
    requires Consistent(alone, p)
    ensures Consistent(alone, RunFlat(host, alone, steps, p))
    decreases |steps|
  {
    if steps != [] && !Halted(p) {
      if steps[0].runIf == PreviousSucceeded && p.status != Completed {
        NothingStartsAfterAStop(host, alone, steps[1..], p);
      } else {
        TriedKeepsConsistent(host, alone, p, steps[0].form);
        NothingStartsAfterAStop(host, alone, steps[1..], Tried(host, alone, p, steps[0].form));
      }
    }
  }

  /** These attempts are what the host really answers, each to the world the ones before it left. */
  ghost predicate Happened<W>(host: Host<W>, start: W, tried: seq<(Form, Attempt)>, end: W)
    decreases |tried|
  {
    if tried == [] then start == end
    else
      var (attempt, world) := host(start, tried[0].0);
      attempt == tried[0].1 && Happened(host, world, tried[1..], end)
  }

  lemma {:induction false} HappenedSnoc<W>(host: Host<W>, start: W, tried: seq<(Form, Attempt)>, end: W, form: Form)
    requires Happened(host, start, tried, end)
    ensures var (attempt, world) := host(end, form); Happened(host, start, tried + [(form, attempt)], world)
    decreases |tried|
  {
    var (attempt, world) := host(end, form);
    if tried == [] {
      assert tried + [(form, attempt)] == [(form, attempt)] && [(form, attempt)][1..] == [];
    } else {
      assert (tried + [(form, attempt)])[1..] == tried[1..] + [(form, attempt)];
      HappenedSnoc(host, host(start, tried[0].0).1, tried[1..], end, form);
    }
  }

  /** A run reports what happened: every attempt and the world after the last one. */
  lemma {:induction false} RunHappened<W>(host: Host<W>, alone: bool, steps: seq<Step>, start: W, p: Progress<W>)
    requires Happened(host, start, p.tried, p.world)
    ensures var q := RunFlat(host, alone, steps, p); Happened(host, start, q.tried, q.world)
    decreases |steps|
  {
    if steps != [] && !Halted(p) {
      if steps[0].runIf == PreviousSucceeded && p.status != Completed {
        RunHappened(host, alone, steps[1..], start, p);
      } else {
        HappenedSnoc(host, start, p.tried, p.world, steps[0].form);
        RunHappened(host, alone, steps[1..], start, Tried(host, alone, p, steps[0].form));
      }
    }
  }

  // ----- The loop

  /** The result of the whole run: an error, or the status and exit code the job is left with. */
  datatype Sequence = Ran(status: Status, code: Option<int>) | Error(error: string)

  function ResultOf<W>(p: Progress<W>): Sequence
  {
    if p.failure.Some? then Error(p.failure.value) else Ran(p.status, p.code)
  }

  /** What a run that ended like this leaves its caller with. */
  ghost predicate Reports(alone: bool, tried: seq<(Form, Attempt)>, result: Sequence)
  {
    if tried == [] then result == Ran(Completed, Some(0))
    else
      match tried[|tried| - 1].1
      case CannotStart(error) => result == if alone then Error(error) else Ran(Failed, Some(127))
      case CannotWait(error) => result == Error(error)
      case Exited(code) => result == Ran(if code == Some(0) then Completed else Failed, code)
      case CancelHit => result == Ran(Cancelled, None)
      case TimeoutHit => result == Ran(TimedOut, None)
  }

  /** The result is that of the last attempt; the errors shown are those of the commands that could not start. */
  lemma {:induction false} RunReports<W>(host: Host<W>, steps: seq<Step>, start: W)
    ensures var alone, p := |steps| == 1, RunFlat(host, |steps| == 1, steps, Begin(start));
            && Reports(alone, p.tried, ResultOf(p)) && Happened(host, start, p.tried, p.world)
            && p.errors == if alone then [] else StartErrors(p.tried)
  {
    NothingStartsAfterAStop(host, |steps| == 1, steps, Begin(start));
    RunHappened(host, |steps| == 1, steps, start, Begin(start));
  }

  /** What the loop still has to do, before and after one step. */
  lemma {:induction false} NextStep<W>(host: Host<W>, alone: bool, steps: seq<Step>, i: nat, p: Progress<W>)
    requires i < |steps| && !Halted(p)
    ensures RunFlat(host, alone, steps[i..], p) ==
            if steps[i].runIf == PreviousSucceeded && p.status != Completed then RunFlat(host, alone, steps[i + 1..], p)
            else RunFlat(host, alone, steps[i + 1..], Tried(host, alone, p, steps[i].form))
  {
    assert steps[i..][0] == steps[i] && steps[i..][1..] == steps[i + 1..];
  }

  /** The loop's variables as one value. */
  function Now<W>(world: W, tried: seq<(Form, Attempt)>, errors: seq<string>, status: Status,
                  code: Option<int>): Progress<W>
  {
    Progress(world, tried, errors, status, code, None)
  }

  method RunSteps<W>(host: Host<W>, steps: seq<Step>, start: W)
    returns (result: Sequence, world: W, tried: seq<(Form, Attempt)>, errors: seq<string>)
    ensures var p := RunFlat(host, |steps| == 1, steps, Begin(start));
            result == ResultOf(p) && world == p.world && tried == p.tried && errors == p.errors
    ensures steps != [] && steps[0].runIf == Always ==>
              var p := EvalList(host, |steps| == 1, Group(steps), Begin(start));
              result == ResultOf(p) && world == p.world && tried == p.tried && errors == p.errors
    ensures Reports(|steps| == 1, tried, result) && Happened(host, start, tried, world)
    ensures errors == if |steps| == 1 then [] else StartErrors(tried)
  {
    result, world, tried, errors := RunLoop(host, steps, start);
    RunReports(host, steps, start);
    if steps != [] && steps[0].runIf == Always {
      FlatIsNested(host, |steps| == 1, Group(steps), Begin(start));
    }
  }

  method RunLoop<W>(host: Host<W>, steps: seq<Step>, start: W)
    returns (result: Sequence, world: W, tried: seq<(Form, Attempt)>, errors: seq<string>)
    ensures var p := RunFlat(host, |steps| == 1, steps, Begin(start));
            result == ResultOf(p) && world == p.world && tried == p.tried && errors == p.errors
  {
    ghost var goal := RunFlat(host, |steps| == 1, steps, Begin(start));
    var outcome, previousSucceeded := (Completed, Some(0)), true;
    world, tried, errors := start, [], [];
    assert steps[0..] == steps;
    for i := 0 to |steps|
      invariant previousSucceeded <==> outcome.0 == Completed
      invariant outcome.0 != Cancelled && outcome.0 != TimedOut
      invariant RunFlat(host, |steps| == 1, steps[i..], Now(world, tried, errors, outcome.0, outcome.1)) == goal
    {
      var step := steps[i];
      NextStep(host, |steps| == 1, steps, i, Now(world, tried, errors, outcome.0, outcome.1));
      if step.runIf == PreviousSucceeded && !previousSucceeded {
        continue;
      }
      var (attempt, after) := host(world, step.form);
      world, tried := after, tried + [(step.form, attempt)];
      match attempt {
        case CannotStart(error) =>
          if |steps| == 1 {
            return Error(error), world, tried, errors;
          }
          errors := errors + [error];
          outcome, previousSucceeded := (Failed, Some(127)), false;
          continue;
        case CannotWait(error) =>
          return Error(error), world, tried, errors;
        case Exited(code) =>
          outcome := (if code == Some(0) then Completed else Failed, code);
        case CancelHit =>
          outcome := (Cancelled, None);
        case TimeoutHit =>
          outcome := (TimedOut, None);
      }
      previousSucceeded := outcome.0 == Completed;
      if outcome.0 == Cancelled || outcome.0 == TimedOut {
        return Ran(outcome.0, outcome.1), world, tried, errors;
      }
    }
    result := Ran(outcome.0, outcome.1);
  }
}
