/** The turn, approval and cancel protocol of `AgentRuntime`.

    Every scope of the state mutex is one atomic step. The tasks that run between the scopes (the
    model loop, approval tasks, `begin_turn`, turn handles) interleave freely.
 */
module TurnProtocol {
  import opened Wrappers

  type TurnId = nat
  type Token = nat
  type ApprovalId = nat

  /** `PendingToolBatch`: tool calls parked on an approval, with the turn and token of their parker. */
  datatype Batch = Batch(approval: ApprovalId, turn: TurnId, token: Token)

  /** A steered prompt; `aimedAt` is the turn that was in flight when it was accepted. */
  datatype Steer = Steer(text: string, aimedAt: TurnId)

  /** What the mutex guards, and the cancellation tokens, which are shared beyond it. */
  datatype Shared = Shared(
    pending: Option<Batch>,
    current: Option<TurnId>,
    token: Token,
    steering: seq<Steer>,
    cancelled: set<Token>)

  datatype ApprovalError = NoPendingApproval | StaleApproval

  // ----- The lock scopes

  /** `begin_turn`, first scope: the turn still in flight is told to stop. */
  function BeginCancelling(s: Shared): Shared
  {
    if s.current.Some? then s.(cancelled := s.cancelled + {s.token}) else s
  }

  /** `begin_turn`, second scope: the new turn takes over. */
  function BeginCommitting(s: Shared, turn: TurnId, token: Token): Shared
  {
    s.(pending := None, current := Some(turn), token := token, steering := [])
  }

  /** `owns_turn`: the question a task asks before it goes on. */
  predicate Owns(s: Shared, turn: TurnId, token: Token)
  {
    s.current == Some(turn) && token !in s.cancelled
  }

  predicate MayPark(s: Shared, batch: Batch)
  {
    batch.token !in s.cancelled && s.current == Some(batch.turn)
  }

  /** The park sites of `process_tool_batch` and `handle_approval`. */
  function Park(s: Shared, batch: Batch): Shared
  {
    if MayPark(s, batch) then s.(pending := Some(batch)) else s
  }

  function Answer(s: Shared, approval: ApprovalId): (Shared, Option<Batch>)
  {
    if s.pending.Some? && s.pending.value.approval == approval then (s.(pending := None), s.pending) else (s, None)
  }

  predicate Concerns(s: Shared, onlyIf: Option<TurnId>)
  {
    onlyIf.None? || s.current == onlyIf
  }

  /** `cancel_turn_inner`: the batch it takes, and the token it flips under the same lock. */
  function Cancel(s: Shared, onlyIf: Option<TurnId>): (Shared, Option<Batch>)
  {
    if !Concerns(s, onlyIf) then (s, None)
    else
      var flips := s.pending.Some? || s.current.Some?;
      (s.(pending := None, steering := [], cancelled := if flips then s.cancelled + {s.token} else s.cancelled),
       s.pending)
  }

  function FinishTurn(s: Shared, turn: TurnId): Shared
  {
    if s.current == Some(turn) then s.(current := None) else s
  }

  function SteerTurn(s: Shared, text: string): Shared
  {
    if s.current.Some? then s.(steering := s.steering + [Steer(text, s.current.value)]) else s
  }

  function DrainSteering(s: Shared, turn: TurnId): (Shared, seq<Steer>)
  {
    if s.current == Some(turn) then (s.(steering := []), s.steering) else (s, [])
  }

  /** `RuntimeState` behind its mutex; every method is one lock scope. */
  class Runtime {
    var pending: Option<Batch>
    var current: Option<TurnId>
    var token: Token
    var steering: seq<Steer>
    var cancelled: set<Token>

    ghost function View(): Shared
      reads this
    {
      Shared(pending, current, token, steering, cancelled)
    }

    constructor (token: Token)
      ensures View() == Shared(None, None, token, [], {})
    {
      pending, current, steering, cancelled := None, None, [], {};
      this.token := token;
    }

    method BeginFirstScope()
      modifies this`cancelled
      ensures View() == BeginCancelling(old(View()))
      ensures cancelled == old(cancelled) + if current.Some? then {token} else {}
    {
      if current.Some? {
        cancelled := cancelled + {token};
      }
    }

    method BeginSecondScope(turn: TurnId, next: Token)
      modifies this
      ensures View() == BeginCommitting(old(View()), turn, next)
    {
      pending := None;
      current := Some(turn);
      token := next;
      steering := [];
    }

    /** Takes the lock, re-checks the parker's own token and turn, and only then parks. */
    method TryPark(batch: Batch) returns (unparked: Option<Batch>)
      modifies this`pending
      ensures View() == Park(old(View()), batch)
      ensures unparked == if MayPark(old(View()), batch) then None else Some(batch)
      ensures pending == if batch.token !in cancelled && current == Some(batch.turn) then Some(batch) else old(pending)
    {
      if batch.token in cancelled || current != Some(batch.turn) {
        return Some(batch);
      }
      pending := Some(batch);
      return None;
    }

    method SubmitApproval(approval: ApprovalId) returns (batch: Option<Batch>, error: Option<ApprovalError>)
      modifies this`pending
      ensures (View(), batch) == Answer(old(View()), approval)
      ensures batch.Some? ==> batch == old(pending) && batch.value.approval == approval && pending.None?
      ensures batch.None? ==> pending == old(pending) && (pending.Some? ==> pending.value.approval != approval)
      ensures batch.Some? <==> error.None?
      ensures error == Some(NoPendingApproval) <==> old(pending).None?
    {
      if pending.None? {
        return None, Some(NoPendingApproval);
      }
      if pending.value.approval != approval {
        return None, Some(StaleApproval);
      }
      batch, error := pending, None;
      pending := None;
    }

    method CancelTurnInner(onlyIf: Option<TurnId>) returns (batch: Option<Batch>)
      modifies this
      ensures (View(), batch) == Cancel(old(View()), onlyIf)
      ensures onlyIf.None? || old(current) == onlyIf ==>
                && batch == old(pending) && pending.None? && steering == []
                && current == old(current) && token == old(token)
                && cancelled == old(cancelled) + if batch.Some? || current.Some? then {token} else {}
      ensures onlyIf.Some? && old(current) != onlyIf ==> batch.None? && View() == old(View())
    {
      if onlyIf.Some? && current != onlyIf {
        return None;
      }
      batch := pending;
      pending := None;
      if batch.Some? || current.Some? {
        cancelled := cancelled + {token};
      }
      steering := [];
    }

    method Finish(turn: TurnId)
      modifies this`current
      ensures View() == FinishTurn(old(View()), turn)
      ensures current == if old(current) == Some(turn) then None else old(current)
    {
      if current != Some(turn) {
        return;
      }
      current := None;
    }

    method SteerIn(text: string) returns (accepted: bool)
      modifies this`steering
      ensures View() == SteerTurn(old(View()), text)
      ensures accepted <==> old(current).Some?
      ensures accepted ==> steering == old(steering) + [Steer(text, current.value)]
      ensures !accepted ==> steering == old(steering)
    {
      if current.None? {
        return false;
      }
      steering := steering + [Steer(text, current.value)];
      return true;
    }

    method Drain(turn: TurnId) returns (drained: seq<Steer>)
      modifies this`steering
      ensures (View(), drained) == DrainSteering(old(View()), turn)
      ensures current == Some(turn) ==> drained == old(steering) && steering == []
      ensures current != Some(turn) ==> drained == [] && steering == old(steering)
    {
      if current != Some(turn) {
        return [];
      }
      drained := steering;
      steering := [];
    }

    method OwnsTurn(turn: TurnId, own: Token) returns (owns: bool)
      ensures owns <==> Owns(View(), turn, own)
    {
      return current == Some(turn) && own !in cancelled;
    }
  }

  // ----- Runs

  /** The shared state with what the run has done so far. */
  datatype System = System(
    shared: Shared,
    // the token made for each turn ever begun, the newest of them, and those given a task
    tokens: map<TurnId, Token>,
    latest: Option<TurnId>,
    started: set<TurnId>,
    // turns with a task running: a parked turn has none
    working: set<TurnId>,
    // `begin_turn` calls between their two scopes, and handles that flipped their token outside the
    // lock and have not made their `cancel_turn_if` yet
    begins: nat,
    handles: set<TurnId>,
    // every approval ever parked, and how it left
    parked: set<ApprovalId>,
    answered: set<ApprovalId>,
    withdrawn: set<ApprovalId>,
    discarded: set<ApprovalId>,
    // steers recorded in a turn's history
    delivered: seq<(TurnId, Steer)>)

  datatype Action =
    | BeginFirst
    | FinishOrphan(turn: TurnId)
    | BeginSecond(turn: TurnId, token: Token)
    | StartTask(turn: TurnId)
    | ParkBatch(turn: TurnId, approval: ApprovalId)
    | SubmitApproval(approval: ApprovalId)
    | CancelTurn(onlyIf: Option<TurnId>)
    | FlipHandle(turn: TurnId)
    | FinishTask(turn: TurnId)
    | SteerText(text: string)
    | DrainSteers(turn: TurnId)

  const INITIAL: System :=
    System(Shared(None, None, 0, [], {}), map[], None, {}, {}, 0, {}, {}, {}, {}, {}, [])

  /** When an action can happen. New turns, tokens and approvals are fresh; a turn's task is started
      once, after its `begin_turn`; only a running task parks, drains or finishes its own turn. */
  ghost predicate Enabled(s: System, a: Action)
  {
    match a
    case BeginFirst => true
    case FinishOrphan(turn) => s.begins > 0
    case BeginSecond(turn, token) => s.begins > 0 && turn !in s.tokens && token !in s.tokens.Values
    case StartTask(turn) => turn !in s.started && s.shared.current == Some(turn)
    case ParkBatch(turn, approval) => turn in s.working && turn in s.tokens && approval !in s.parked
    case SubmitApproval(_) => true
    case CancelTurn(_) => true
    case FlipHandle(turn) => turn in s.tokens
    case FinishTask(turn) => turn in s.working
    case SteerText(_) => true
    case DrainSteers(turn) => turn in s.working
  }

  function Ids(batch: Option<Batch>): set<ApprovalId>
  {
    if batch.Some? then {batch.value.approval} else {}
  }

  function Turns(batch: Option<Batch>): set<TurnId>
  {
    if batch.Some? then {batch.value.turn} else {}
  }

  ghost function Step(s: System, a: Action): System
    requires Enabled(s, a)
  {
    match a
    case BeginFirst => s.(shared := BeginCancelling(s.shared), begins := s.begins + 1)
    case FinishOrphan(turn) => s.(shared := FinishTurn(s.shared, turn))
    case BeginSecond(turn, token) =>
      s.(shared := BeginCommitting(s.shared, turn, token), tokens := s.tokens[turn := token], latest := Some(turn),
         begins := s.begins - 1, discarded := s.discarded + Ids(s.shared.pending))
    case StartTask(turn) => s.(started := s.started + {turn}, working := s.working + {turn})
    case ParkBatch(turn, approval) =>
      var batch := Batch(approval, turn, s.tokens[turn]);
      if MayPark(s.shared, batch) then
        s.(shared := Park(s.shared, batch), working := s.working - {turn}, parked := s.parked + {approval})
      else s.(shared := Park(s.shared, batch))
    case SubmitApproval(approval) =>
      var (shared, taken) := Answer(s.shared, approval);
      s.(shared := shared, working := s.working + Turns(taken), answered := s.answered + Ids(taken))
    case CancelTurn(onlyIf) =>
      var (shared, taken) := Cancel(s.shared, onlyIf);
      s.(shared := shared, working := s.working + Turns(taken), withdrawn := s.withdrawn + Ids(taken),
         handles := if onlyIf.Some? then s.handles - {onlyIf.value} else s.handles)
    case FlipHandle(turn) =>
      s.(shared := s.shared.(cancelled := s.shared.cancelled + {s.tokens[turn]}), handles := s.handles + {turn})
    case FinishTask(turn) => s.(shared := FinishTurn(s.shared, turn), working := s.working - {turn})
    case SteerText(text) => s.(shared := SteerTurn(s.shared, text))
    case DrainSteers(turn) =>
      var (shared, drained) := DrainSteering(s.shared, turn);
      s.(shared := shared, delivered := s.delivered
        + seq(|drained|, i requires 0 <= i < |drained| => (turn, drained[i])))
  }

  // ----- What every reachable state satisfies

  ghost predicate TokensMatch(s: System)
  {
    && (forall t, u :: t in s.tokens && u in s.tokens && s.tokens[t] == s.tokens[u] ==> t == u)
    && s.working <= s.started <= s.tokens.Keys
    && (s.shared.current.Some? ==>
          && s.latest == s.shared.current
          && s.shared.current.value in s.tokens && s.tokens[s.shared.current.value] == s.shared.token)
    && (s.shared.pending.Some? ==>
          var b := s.shared.pending.value;
          b.turn in s.started && b.turn in s.tokens && s.tokens[b.turn] == b.token)
  }

  /** A parked batch belongs to the current turn, its turn has no task running, and its token is live,
      unless a `begin_turn` is between its scopes or the turn's own handle is cancelling it. */
  ghost predicate ParkedIsAnswerable(s: System)
  {
    s.shared.pending.Some? ==>
      var b := s.shared.pending.value;
      && b.turn !in s.working
      && (s.shared.current.Some? ==> s.shared.current.value == b.turn)
      && (s.shared.current.None? ==> s.begins > 0)
      && (b.token in s.shared.cancelled ==> s.begins > 0 || b.turn in s.handles)
  }

  /** Every batch ever parked is still parked or has left in exactly one way. */
  ghost predicate EachBatchOnce(s: System)
  {
    && s.parked == Ids(s.shared.pending) + s.answered + s.withdrawn + s.discarded
    && Ids(s.shared.pending) !! s.answered !! s.withdrawn !! s.discarded
  }

  ghost predicate SteersOnTarget(s: System)
  {
    && (forall i :: 0 <= i < |s.shared.steering| ==> Some(s.shared.steering[i].aimedAt) == s.latest)
    && (forall i :: 0 <= i < |s.delivered| ==> s.delivered[i].0 == s.delivered[i].1.aimedAt)
  }

  /** A handle between its flip and its `cancel_turn_if` has flipped its own turn's token. */
  ghost predicate HandlesFlipped(s: System)
  {
    forall t :: t in s.handles ==> t in s.tokens && s.tokens[t] in s.shared.cancelled
  }

  /** No token is cancelled before it was made, and the stored one is the newest turn's. */
  ghost predicate CancelledWereMade(s: System)
  {
    && s.shared.cancelled <= s.tokens.Values
    && (s.latest.Some? ==> s.latest.value in s.tokens && s.shared.token == s.tokens[s.latest.value])
    && (s.shared.pending.Some? || s.shared.current.Some? ==> s.latest.Some?)
    && (s.latest.None? ==> s.tokens == map[])
  }

  ghost predicate Invariant(s: System)
  {
    && CancelledWereMade(s) && TokensMatch(s) && ParkedIsAnswerable(s) && EachBatchOnce(s) && SteersOnTarget(s)
    && HandlesFlipped(s)
  }

  lemma StepKeepsTokens(s: System, a: Action)
    requires Enabled(s, a) && Invariant(s)
    ensures TokensMatch(Step(s, a))
  {
    if a.BeginSecond? {
      forall t | t in s.tokens
        ensures s.tokens[t] != a.token
      {
        assert s.tokens[t] in s.tokens.Values;
      }
    }
  }

  lemma StepKeepsAnswerable(s: System, a: Action)
    requires Enabled(s, a) && Invariant(s)
    ensures ParkedIsAnswerable(Step(s, a))
  {
  }

  lemma StepKeepsBatches(s: System, a: Action)
    requires Enabled(s, a) && Invariant(s)
    ensures EachBatchOnce(Step(s, a))
  {
  }

  lemma StepKeepsSteers(s: System, a: Action)
    requires Enabled(s, a) && Invariant(s)
    ensures SteersOnTarget(Step(s, a))
  {
  }

  lemma StepKeepsHandles(s: System, a: Action)
    requires Enabled(s, a) && Invariant(s)
    ensures HandlesFlipped(Step(s, a))
  {
  }

  lemma StepKeepsMade(s: System, a: Action)
    requires Enabled(s, a) && Invariant(s)
    ensures CancelledWereMade(Step(s, a))
  {
    if a.BeginSecond? {
      MadeStay(s.tokens, a.turn, a.token);
    }
  }

  lemma MadeStay(tokens: map<TurnId, Token>, turn: TurnId, token: Token)
    requires turn !in tokens
    ensures tokens.Values <= tokens[turn := token].Values
  {
    forall v | v in tokens.Values
      ensures v in tokens[turn := token].Values
    {
      var t :| t in tokens && tokens[t] == v;
      assert tokens[turn := token][t] == v;
    }
  }

  /** Every lock scope, taken in any state with the invariant, keeps it. */
  lemma StepKeepsInvariant(s: System, a: Action)
    requires Enabled(s, a) && Invariant(s)
    ensures Invariant(Step(s, a))
  {
    StepKeepsMade(s, a);
    StepKeepsTokens(s, a);
    StepKeepsAnswerable(s, a);
    StepKeepsBatches(s, a);
    StepKeepsSteers(s, a);
    StepKeepsHandles(s, a);
  }

  /** A run: states `run[0]`, `run[1]`, ... linked by `actions`. */
  ghost predicate IsRun(run: seq<System>, actions: seq<Action>)
  {
    && |run| == |actions| + 1
    && run[0] == INITIAL
    && forall i :: 0 <= i < |actions| ==> Enabled(run[i], actions[i]) && run[i + 1] == Step(run[i], actions[i])
  }

  /** Every state of every interleaving satisfies the invariant. */
  lemma {:induction false} RunInvariant(run: seq<System>, actions: seq<Action>, i: nat)
    requires IsRun(run, actions) && i < |run|
    ensures Invariant(run[i])
  {
    if i > 0 {
      RunInvariant(run, actions, i - 1);
      StepKeepsInvariant(run[i - 1], actions[i - 1]);
    }
  }

  // ----- What follows for users of the runtime

  /** The batch an action takes out of the parking place. */
  function TakenBy(s: System, a: Action): Option<Batch>
  {
    match a
    case SubmitApproval(approval) => Answer(s.shared, approval).1
    case CancelTurn(onlyIf) => Cancel(s.shared, onlyIf).1
    case _ => None
  }

  ghost function Settled(s: System): set<ApprovalId>
  {
    s.answered + s.withdrawn + s.discarded
  }

  lemma {:induction false} SettledGrows(run: seq<System>, actions: seq<Action>, i: nat, j: nat)
    requires IsRun(run, actions) && i <= j < |run|
    ensures Settled(run[i]) <= Settled(run[j])
    decreases j - i
  {
    if i < j {
      SettledGrows(run, actions, i, j - 1);
      assert run[j] == Step(run[j - 1], actions[j - 1]);
    }
  }

  /** A parked batch is taken at most once, over any run. */
  lemma TakenAtMostOnce(run: seq<System>, actions: seq<Action>, i: nat, j: nat)
    requires IsRun(run, actions) && i < j < |actions|
    requires TakenBy(run[i], actions[i]).Some? && TakenBy(run[j], actions[j]).Some?
    ensures TakenBy(run[i], actions[i]).value.approval != TakenBy(run[j], actions[j]).value.approval
  {
    var first, second := TakenBy(run[i], actions[i]).value, TakenBy(run[j], actions[j]).value;
    assert run[i + 1] == Step(run[i], actions[i]);
    assert first.approval in Settled(run[i + 1]);
    SettledGrows(run, actions, i + 1, j);
    RunInvariant(run, actions, j);
    assert second.approval in Ids(run[j].shared.pending);
  }

  /** An accepted answer resumes the batch parked under that very id; any other answer changes nothing. */
  lemma AnswerResumesItsOwnBatch(run: seq<System>, actions: seq<Action>, i: nat, approval: ApprovalId)
    requires IsRun(run, actions) && i < |run|
    ensures var s := run[i];
            var taken := TakenBy(s, SubmitApproval(approval));
            && (taken.Some? <==> s.shared.pending.Some? && s.shared.pending.value.approval == approval)
            && (taken.Some? ==> taken == s.shared.pending && approval !in Settled(s))
            && (taken.Some? ==>
                  var s' := Step(s, SubmitApproval(approval));
                  s'.shared == s.shared.(pending := None) && s'.working == s.working + {taken.value.turn})
            && (taken.None? ==> Step(s, SubmitApproval(approval)) == s)
            && (approval in Settled(s) ==> taken.None?)
  {
    RunInvariant(run, actions, i);
    var s := run[i];
    if TakenBy(s, SubmitApproval(approval)).None? {
      var s' := Step(s, SubmitApproval(approval));
      assert s'.working == s.working && s'.answered == s.answered;
    }
  }

  /** The user's own cancel, and one aimed at the turn in flight: whatever is parked is taken, waiting steers
      are dropped, and the turn in flight can neither go on nor park. */
  lemma CancelStopsTheTurn(run: seq<System>, actions: seq<Action>, i: nat, onlyIf: Option<TurnId>)
    requires IsRun(run, actions) && i < |run| && (onlyIf.None? || run[i].shared.current == onlyIf)
    ensures var s := run[i];
            var s' := Step(s, CancelTurn(onlyIf));
            && TakenBy(s, CancelTurn(onlyIf)) == s.shared.pending && s'.shared.pending.None?
            && (s.shared.pending.Some? ==>
                  && s.shared.pending.value.approval in s'.withdrawn
                  && s'.working == s.working + {s.shared.pending.value.turn})
            && s'.shared.steering == [] && s'.shared.current == s.shared.current
            && (s.shared.pending.Some? ==> s.shared.token in s'.shared.cancelled)
            && (s.shared.current.Some? ==>
                  var turn := s.shared.current.value;
                  && turn in s.tokens && s.tokens[turn] in s'.shared.cancelled
                  && !Owns(s'.shared, turn, s.tokens[turn])
                  && forall approval :: !MayPark(s'.shared, Batch(approval, turn, s.tokens[turn])))
  {
    RunInvariant(run, actions, i);
  }

  /** `cancel_turn_if(turn)` flips no token but the turn's own, takes no batch but the turn's own, and
      does nothing once the turn is no longer current. */
  lemma CancelIfSparesOtherTurns(run: seq<System>, actions: seq<Action>, i: nat, turn: TurnId)
    requires IsRun(run, actions) && i < |run|
    ensures var s := run[i];
            var s' := Step(s, CancelTurn(Some(turn)));
            && (forall other :: other in s.tokens && other != turn ==>
                  (s.tokens[other] in s'.shared.cancelled <==> s.tokens[other] in s.shared.cancelled))
            && (s.shared.pending.Some? && s.shared.pending.value.turn != turn ==> s'.shared.pending == s.shared.pending)
            && (s.shared.current != Some(turn) ==> s'.shared == s.shared) && s'.handles == s.handles - {turn}
            && (s.shared.current == Some(turn) ==>
                  s'.shared.pending.None? && turn in s.tokens && s.tokens[turn] in s'.shared.cancelled)
  {
    RunInvariant(run, actions, i);
  }

  /** A park never overwrites another parked batch. */
  lemma ParkFindsThePlaceEmpty(run: seq<System>, actions: seq<Action>, i: nat, turn: TurnId, approval: ApprovalId)
    requires IsRun(run, actions) && i < |run| && Enabled(run[i], ParkBatch(turn, approval))
    requires MayPark(run[i].shared, Batch(approval, turn, run[i].tokens[turn]))
    ensures run[i].shared.pending.None?
  {
    RunInvariant(run, actions, i);
  }

  /** While no `begin_turn` is between its scopes, a parked batch belongs to the current turn, and its
      token is cancelled if and only if the turn's handle is between its flip and its `cancel_turn_if`. */
  lemma ParkedBatchIsLive(run: seq<System>, actions: seq<Action>, i: nat)
    requires IsRun(run, actions) && i < |run| && run[i].shared.pending.Some?
    requires run[i].begins == 0
    ensures var s, b := run[i], run[i].shared.pending.value;
            && s.shared.current == Some(b.turn) && s.shared.token == b.token
            && (b.token in s.shared.cancelled <==> b.turn in s.handles)
  {
    RunInvariant(run, actions, i);
  }

  /** The window of a handle is real: it flips its token outside the lock, under a batch already parked. */
  lemma HandleFlipsUnderAParkedBatch() returns (run: seq<System>, actions: seq<Action>)
    ensures IsRun(run, actions)
    ensures var end := run[|actions|];
            end.begins == 0 && end.shared.pending.Some? && end.shared.pending.value.token in end.shared.cancelled
  {
    actions := [BeginFirst, BeginSecond(1, 1), StartTask(1), ParkBatch(1, 7), FlipHandle(1)];
    var s1 := Step(INITIAL, BeginFirst);
    var s2 := Step(s1, BeginSecond(1, 1));
    var s3 := Step(s2, StartTask(1));
    var s4 := Step(s3, ParkBatch(1, 7));
    var s5 := Step(s4, FlipHandle(1));
    run := [INITIAL, s1, s2, s3, s4, s5];
  }

  /** The window of `begin_turn` is real too: it cancels the turn in flight in one scope and drops its
      batch in another. */
  lemma BeginCancelsUnderAParkedBatch() returns (run: seq<System>, actions: seq<Action>)
    ensures IsRun(run, actions)
    ensures var end := run[|actions|];
            end.handles == {} && end.shared.pending.Some? && end.shared.pending.value.token in end.shared.cancelled
  {
    actions := [BeginFirst, BeginSecond(1, 1), StartTask(1), ParkBatch(1, 7), BeginFirst];
    var s1 := Step(INITIAL, BeginFirst);
    var s2 := Step(s1, BeginSecond(1, 1));
    var s3 := Step(s2, StartTask(1));
    var s4 := Step(s3, ParkBatch(1, 7));
    var s5 := Step(s4, BeginFirst);
    run := [INITIAL, s1, s2, s3, s4, s5];
  }

  /** What a task whose turn it owns may rely on: no other turn is owned, nothing but its own batch is
      parked, the waiting steers are aimed at it, and while it runs it can still park. */
  lemma OwnerWorksAlone(run: seq<System>, actions: seq<Action>, i: nat, turn: TurnId)
    requires IsRun(run, actions) && i < |run| && turn in run[i].tokens
    requires Owns(run[i].shared, turn, run[i].tokens[turn])
    ensures var s := run[i];
            && s.shared.token == s.tokens[turn] && turn !in s.handles
            && (forall other :: other in s.tokens && other != turn ==> !Owns(s.shared, other, s.tokens[other]))
            && (s.shared.pending.Some? ==> s.shared.pending.value.turn == turn)
            && (forall k :: 0 <= k < |s.shared.steering| ==> s.shared.steering[k].aimedAt == turn)
            && (turn in s.working ==>
                  && s.shared.pending.None?
                  && forall approval :: MayPark(s.shared, Batch(approval, turn, s.tokens[turn])))
  {
    RunInvariant(run, actions, i);
  }

  /** A turn that has begun is its task's own. */
  lemma BegunTurnIsOwned(run: seq<System>, actions: seq<Action>, i: nat)
    requires IsRun(run, actions) && i < |actions| && actions[i].BeginSecond?
    ensures Owns(run[i + 1].shared, actions[i].turn, actions[i].token)
    ensures run[i + 1].tokens[actions[i].turn] == actions[i].token
  {
    RunInvariant(run, actions, i);
    assert run[i + 1] == Step(run[i], actions[i]);
  }

  /** What takes a turn from its task: another `begin_turn`, the end of the turn, a cancel or its handle. */
  predicate Ends(a: Action, turn: TurnId)
  {
    match a
    case BeginFirst => true
    case BeginSecond(_, _) => true
    case FinishOrphan(t) => t == turn
    case FinishTask(t) => t == turn
    case CancelTurn(onlyIf) => onlyIf.None? || onlyIf == Some(turn)
    case FlipHandle(t) => t == turn
    case _ => false
  }

  /** And nothing else does. */
  lemma OwnedUntilEnded(run: seq<System>, actions: seq<Action>, i: nat, turn: TurnId)
    requires IsRun(run, actions) && i < |actions| && turn in run[i].tokens
    requires Owns(run[i].shared, turn, run[i].tokens[turn])
    ensures turn in run[i + 1].tokens && run[i + 1].tokens[turn] == run[i].tokens[turn]
    ensures Owns(run[i + 1].shared, turn, run[i].tokens[turn]) <==> !Ends(actions[i], turn)
  {
    RunInvariant(run, actions, i);
    assert run[i + 1] == Step(run[i], actions[i]);
  }

  /** A turn that has lost its ownership never gets it back, so a task that was told no can stop. */
  lemma {:induction false} OwnershipIsNeverRegained(run: seq<System>, actions: seq<Action>, i: nat, j: nat,
                                                    turn: TurnId)
    requires IsRun(run, actions) && i <= j < |run| && turn in run[i].tokens
    requires !Owns(run[i].shared, turn, run[i].tokens[turn])
    ensures turn in run[j].tokens && run[j].tokens[turn] == run[i].tokens[turn]
    ensures !Owns(run[j].shared, turn, run[j].tokens[turn])
    decreases j - i
  {
    if i < j {
      OwnershipIsNeverRegained(run, actions, i, j - 1, turn);
      assert run[j - 1 + 1] == Step(run[j - 1], actions[j - 1]);
    }
  }

  /** A steer accepted during a turn waits behind the others, and the turn's own drain delivers all of them in
      that order. */
  lemma SteersWaitTheirTurn(run: seq<System>, actions: seq<Action>, i: nat, turn: TurnId, text: string)
    requires IsRun(run, actions) && i < |run| && run[i].shared.current == Some(turn)
    ensures var s := run[i];
            && Step(s, SteerText(text)).shared.steering == s.shared.steering + [Steer(text, turn)]
            && (turn in s.working ==>
                  var s' := Step(s, DrainSteers(turn));
                  && s'.shared.steering == [] && |s'.delivered| == |s.delivered| + |s.shared.steering|
                  && s'.delivered[..|s.delivered|] == s.delivered
                  && forall k :: 0 <= k < |s.shared.steering| ==>
                       s'.delivered[|s.delivered| + k] == (turn, s.shared.steering[k]))
  {
  }

  /** What is parked is the batch its own task parked, and a task that owns its turn can park. */
  lemma ParkedAsGiven(run: seq<System>, actions: seq<Action>, i: nat)
    requires IsRun(run, actions) && i < |actions| && actions[i].ParkBatch?
    ensures var s, s', turn := run[i], run[i + 1], actions[i].turn;
            && turn in s.tokens
            && (Owns(s.shared, turn, s.tokens[turn]) ==>
                  s'.shared.pending == Some(Batch(actions[i].approval, turn, s.tokens[turn])) && turn !in s'.working)
            && (!Owns(s.shared, turn, s.tokens[turn]) ==> s' == s)
  {
    assert run[i + 1] == Step(run[i], actions[i]);
  }

  /** A steered prompt is never recorded in a turn it was not aimed at. */
  lemma SteersReachTheirOwnTurn(run: seq<System>, actions: seq<Action>, i: nat, k: nat)
    requires IsRun(run, actions) && i < |run| && k < |run[i].delivered|
    ensures run[i].delivered[k].0 == run[i].delivered[k].1.aimedAt
  {
    RunInvariant(run, actions, i);
  }
}
