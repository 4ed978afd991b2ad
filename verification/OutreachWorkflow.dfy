/** The durable outreach loop: draft, wait for an approval signal, send, wait for a reply, sleep
    (apps/temporal-worker/src/workflows/outreach-sequence-workflow.ts:49-148).
    Between any two awaits, those inside the expiry activity included, signals may arrive and
    others may draft new executions or change the stored ones. */
module OutreachWorkflow {
  import opened Foundations
  import opened StoredExecutions
  import Message = MessageExecution
  import Outreach = OutreachSequence

  // ---- the workflow ----

  /** An approval signal; `ordinal` tells the signals apart. */
  datatype Approval = Approval(executionId: string, approvalId: string, ordinal: nat)

  datatype SendStatus = SendCompleted | SendRetryable | SendFailed

  datatype Result = SequenceOver(status: Outreach.Status) | GaveUp | TimedOut | Threw

  /** `AtExpirySave` is inside the expiry activity, between its load and its save. */
  datatype Pc =
    | AtSequence | AtDraft | AtApproval | AtExpiry | AtExpirySave(loaded: Option<Message.Execution>) | AtSend | AtReply | AtRecord
    | AtInterpret | AtSleep | Ended(result: Result)

  datatype Workflow = Workflow(
    pc: Pc,
    iteration: nat,
    pendingApproval: Option<Approval>,
    pendingReply: Option<string>,
    drafted: string,
    signals: nat,
    sends: seq<Approval>,
    executions: Executions)

  datatype Input = Input(maxIterations: int, approvalTimeout: bool)

  /** What an await answers; `Fails` is an activity that throws. `prepareDraft` fails before it has
      drafted anything, finds an execution, or saves a new one. */
  datatype Answer =
    | SequenceIs(status: Outreach.Status)
    | DraftRefused
    | DraftFound(executionId: string)
    | DraftMade(newId: string, created: Message.Execution, personalization: Personalization)
    | ApprovalSeen
    | ApprovalTimeout
    | SendIs(sent: SendStatus)
    | ReplySeen
    | ReplyTimeout
    | ActivityDone
    | SleepOver
    | Fails

  datatype Move =
    | ApprovalArrives(executionId: string, approvalId: string)
    | ReplyArrives(content: string)
    | OthersDraft(id: string, created: Message.Execution, personalization: Personalization)
    | OthersAct(id: string, op: StoredOp)
    | Own(answer: Answer)

  predicate Over(s: Outreach.Status) {
    s == Outreach.Completed || s == Outreach.Cancelled || s == Outreach.Failed
  }

  /** The head of the loop. */
  function Begin(w: Workflow, iteration: nat, input: Input): Workflow {
    w.(iteration := iteration, pc := if iteration < input.maxIterations then AtSequence else Ended(GaveUp))
  }

  function Start(input: Input, executions: Executions): Workflow {
    Begin(Workflow(AtSequence, 0, None, None, "", 0, [], executions), 0, input)
  }

  const TIMEOUT_REASON := "Timed out waiting for approval signal"

  /** A new execution has an id that is not taken. */
  predicate CanDraft(executions: Executions, id: string, created: Message.Execution) {
    id != "" && id !in executions && Message.Fresh(created)
  }

  function AwaitApproval(w: Workflow, executionId: string): Workflow {
    if executionId == "" then w.(pc := Ended(GaveUp)) else w.(pc := AtApproval, drafted := executionId)
  }

  /** The workflow's next action, when the answer fits what it awaits. */
  function Resume(w: Workflow, answer: Answer, input: Input): Option<Workflow> {
    match w.pc
    case AtSequence =>
      if answer.SequenceIs? then Some(w.(pc := if Over(answer.status) then Ended(SequenceOver(answer.status)) else AtDraft))
      else Thrown(w, answer)
    case AtDraft =>
      if answer.DraftRefused? then Some(w.(pc := Ended(GaveUp)))
      else if answer.DraftFound? then if answer.executionId in w.executions then Some(AwaitApproval(w, answer.executionId)) else None
      else if answer.DraftMade? then
        if !CanDraft(w.executions, answer.newId, answer.created) then None
        else
          var saved := w.(executions := w.executions[answer.newId := Drafted(answer.created, answer.personalization)]);
          Some(if answer.personalization.Personalized? then AwaitApproval(saved, answer.newId) else saved.(pc := Ended(GaveUp)))
      else Thrown(w, answer)
    case AtApproval =>
      if answer.ApprovalSeen? && w.pendingApproval.Some? then Some(w.(pc := AtSend, sends := w.sends + [w.pendingApproval.value]))
      else if answer.ApprovalTimeout? && input.approvalTimeout then Some(w.(pc := AtExpiry))
      else None
    case AtExpiry =>
      if answer.ActivityDone? then Some(w.(pc := AtExpirySave(Found(w.executions, w.drafted)))) else Thrown(w, answer)
    case AtExpirySave(loaded) =>
      if answer.ActivityDone? then
        var after := AfterExpiry(w.executions, w.drafted, loaded, TIMEOUT_REASON);
        Some(if after.Some? then w.(pc := Ended(TimedOut), executions := after.value) else w.(pc := Ended(Threw)))
      else Thrown(w, answer)
    case AtSend =>
      if answer.SendIs? then
        var done := w.(pendingApproval := None);
        Some(match answer.sent
             case SendFailed => done.(pc := Ended(GaveUp))
             case SendCompleted => done.(pc := AtReply)
             case SendRetryable => done.(pc := AtSleep))
      else Thrown(w, answer)
    case AtReply =>
      if answer.ReplySeen? && w.pendingReply.Some? then Some(w.(pc := AtRecord))
      else if answer.ReplyTimeout? then Some(w.(pc := AtSleep))
      else None
    case AtRecord => if answer.ActivityDone? then Some(w.(pc := AtInterpret)) else Thrown(w, answer)
    case AtInterpret => if answer.ActivityDone? then Some(w.(pc := AtSleep, pendingReply := None)) else Thrown(w, answer)
    case AtSleep => if answer.SleepOver? then Some(Begin(w, w.iteration + 1, input)) else None
    case Ended(_) => None
  }

  function Thrown(w: Workflow, answer: Answer): Option<Workflow> {
    if answer.Fails? then Some(w.(pc := Ended(Threw))) else None
  }

  /** One move; an own move that does not fit changes nothing. */
  function Step(w: Workflow, m: Move, input: Input): Workflow {
    match m
    case ApprovalArrives(executionId, approvalId) =>
      if w.pc.Ended? then w
      else w.(signals := w.signals + 1, pendingApproval := Some(Approval(executionId, approvalId, w.signals)))
    case ReplyArrives(content) => if w.pc.Ended? then w else w.(pendingReply := Some(content))
    case OthersDraft(id, created, personalization) =>
      if CanDraft(w.executions, id, created) then w.(executions := w.executions[id := Drafted(created, personalization)]) else w
    case OthersAct(id, op) =>
      if id in w.executions then w.(executions := w.executions[id := Message.Apply(w.executions[id], op).execution]) else w
    case Own(answer) => var next := Resume(w, answer, input); if next.Some? then next.value else w
  }

  function Run(w: Workflow, moves: seq<Move>, input: Input): Workflow
    decreases |moves|
  {
    if moves == [] then w else Run(Step(w, moves[0], input), moves[1..], input)
  }

  // ---- each send consumes a signal of its own ----

  /** The sends so far are of different signals, in the order they arrived; a signal still
      pending is newer than all of them, or the one being sent. */
  predicate InOrder(w: Workflow) {
    && (forall i, j :: 0 <= i < j < |w.sends| ==> w.sends[i].ordinal < w.sends[j].ordinal)
    && (forall i :: 0 <= i < |w.sends| ==> w.sends[i].ordinal < w.signals)
    && (w.pendingApproval.Some? ==> w.pendingApproval.value.ordinal < w.signals)
    && (w.pendingApproval.Some? && !w.pc.Ended? && w.pc != AtSend ==>
          forall i :: 0 <= i < |w.sends| ==> w.sends[i].ordinal < w.pendingApproval.value.ordinal)
  }

  predicate Sound(w: Workflow, input: Input) {
    InOrder(w) && SendsFit(w, input)
  }

  predicate SendsFit(w: Workflow, input: Input) {
    && (w.pc == AtSequence || w.pc == AtDraft || w.pc == AtApproval || w.pc == AtExpiry || w.pc.AtExpirySave? ==>
          |w.sends| <= w.iteration < input.maxIterations)
    && (w.pc == AtSend || w.pc == AtReply || w.pc == AtRecord || w.pc == AtInterpret || w.pc == AtSleep ==>
          |w.sends| <= w.iteration + 1 <= input.maxIterations)
    && (w.pc.Ended? ==> |w.sends| <= Max(input.maxIterations, 0))
  }

  /** Only the end of the wait sends; only the end of a send takes the signal away. */
  lemma OwnMovesSignals(w: Workflow, answer: Answer, input: Input)
    requires Resume(w, answer, input).Some?
    ensures var next := Resume(w, answer, input).value;
            && next.signals == w.signals
            && next.pc != w.pc
            && (if w.pc == AtApproval && w.pendingApproval.Some? && next.pc == AtSend
                then next.sends == w.sends + [w.pendingApproval.value] else next.sends == w.sends && next.pc != AtSend)
            && (next.pendingApproval == w.pendingApproval || next.pendingApproval.None?)
            && (w.pc == AtSend && !next.pc.Ended? ==> next.pendingApproval.None?)
  {
  }

  lemma OwnKeepsOrder(w: Workflow, answer: Answer, input: Input)
    requires InOrder(w) && Resume(w, answer, input).Some?
    ensures InOrder(Resume(w, answer, input).value)
  {
    OwnMovesSignals(w, answer, input);
    var next := Resume(w, answer, input).value;
    assert forall i :: 0 <= i < |w.sends| ==> next.sends[i] == w.sends[i];
  }

  lemma StepKeepsSound(w: Workflow, m: Move, input: Input)
    requires Sound(w, input)
    ensures Sound(Step(w, m, input), input)
  {
    OwnMovesUseUp(w, m, input);
    if m.Own? && Resume(w, m.answer, input).Some? { OwnKeepsOrder(w, m.answer, input); }
  }

  /** Main theorem: for every order in which signals arrive, there are at most `maxIterations`
      sends, each of a signal of its own, in the order of arrival. So after a retryable send
      only a fresh approval leads to the next one. */
  lemma {:induction false} SendsAreDistinctAndBounded(w: Workflow, moves: seq<Move>, input: Input)
    requires Sound(w, input)
    ensures var later := Run(w, moves, input);
            && Sound(later, input)
            && |later.sends| <= Max(input.maxIterations, 0)
            && (forall i, j :: 0 <= i < j < |later.sends| ==> later.sends[i] != later.sends[j])
    decreases |moves|
  {
    if moves != [] {
      StepKeepsSound(w, moves[0], input);
      SendsAreDistinctAndBounded(Step(w, moves[0], input), moves[1..], input);
    }
  }

  /** The same from the start of the workflow. */
  lemma WorkflowSendsAreDistinctAndBounded(executions: Executions, moves: seq<Move>, input: Input)
    ensures var later := Run(Start(input, executions), moves, input);
            && |later.sends| <= Max(input.maxIterations, 0)
            && (forall i, j :: 0 <= i < j < |later.sends| ==> later.sends[i].ordinal < later.sends[j].ordinal)
  {
    SendsAreDistinctAndBounded(Start(input, executions), moves, input);
  }

  // ---- termination ----

  /** How many own moves can still follow. */
  function Remaining(w: Workflow, input: Input): int {
    8 * (input.maxIterations - w.iteration) -
    (match w.pc
     case AtSequence => 0
     case AtDraft => 1
     case AtApproval => 2
     case AtExpiry => 3
     case AtExpirySave(_) => 4
     case AtSend => 3
     case AtReply => 4
     case AtRecord => 5
     case AtInterpret => 6
     case AtSleep => 7
     case Ended(_) => 8 * (input.maxIterations - w.iteration))
  }

  /** The own moves of a run that were answered. */
  function OwnMoves(w: Workflow, moves: seq<Move>, input: Input): nat
    decreases |moves|
  {
    if moves == [] then 0
    else
      (if moves[0].Own? && Resume(w, moves[0].answer, input).Some? then 1 else 0) + OwnMoves(Step(w, moves[0], input), moves[1..], input)
  }

  lemma OwnMovesUseUp(w: Workflow, m: Move, input: Input)
    requires SendsFit(w, input)
    ensures SendsFit(Step(w, m, input), input) && Remaining(w, input) >= 0
    ensures if m.Own? && Resume(w, m.answer, input).Some? then Remaining(Step(w, m, input), input) < Remaining(w, input)
            else Remaining(Step(w, m, input), input) == Remaining(w, input)
  {
  }

  /** Termination: no run makes more own moves than eight for each iteration left. */
  lemma {:induction false} RunsEnd(w: Workflow, moves: seq<Move>, input: Input)
    requires SendsFit(w, input)
    ensures SendsFit(Run(w, moves, input), input)
    ensures OwnMoves(w, moves, input) + Remaining(Run(w, moves, input), input) <= Remaining(w, input)
    ensures Remaining(Run(w, moves, input), input) >= 0
    decreases |moves|
  {
    if moves != [] {
      OwnMovesUseUp(w, moves[0], input);
      RunsEnd(Step(w, moves[0], input), moves[1..], input);
    } else {
      OwnMovesUseUp(w, ReplyArrives(""), input);
    }
  }

  /** Nothing else can hold the workflow up: unless it has ended, or waits for an approval
      without a time limit, some answer moves it on. */
  lemma OnlyTheApprovalIsAwaitedForever(w: Workflow, input: Input)
    ensures (exists answer :: Resume(w, answer, input).Some?) <==>
            !w.pc.Ended? && (w.pc == AtApproval ==> w.pendingApproval.Some? || input.approvalTimeout)
  {
    var answer := match w.pc
      case AtSequence => Fails
      case AtDraft => Fails
      case AtApproval => if w.pendingApproval.Some? then ApprovalSeen else ApprovalTimeout
      case AtReply => ReplyTimeout
      case AtSleep => SleepOver
      case _ => Fails;
    assert Resume(w, answer, input).Some? <==> !w.pc.Ended? && (w.pc == AtApproval ==> w.pendingApproval.Some? || input.approvalTimeout);
  }

  // ---- a timeout leaves no awaited approval behind ----

  /** What every run keeps about the drafted execution while its approval is waited for. */
  predicate DraftSettled(w: Workflow) {
    && (w.pc == AtApproval || w.pc == AtExpiry ==> w.drafted in w.executions)
    && (w.pc.AtExpirySave? ==>
          && w.drafted in w.executions && w.pc.loaded.Some?
          && Descends(w.pc.loaded.value, w.executions[w.drafted]))
    && (w.pc == Ended(TimedOut) ==> w.drafted in w.executions && !Awaiting(w.executions, w.drafted))
  }

  lemma OthersKeepSettled(w: Workflow, m: Move, input: Input)
    requires DraftSettled(w) && m.OthersAct?
    ensures DraftSettled(Step(w, m, input))
  {
    if m.id == w.drafted && m.id in w.executions {
      var e := w.executions[m.id];
      if e.status != Message.PendingApproval { StoredCallNeverAwaits(e, m.op); }
      if w.pc.AtExpirySave? { CallDescends(w.pc.loaded.value, e, m.op); }
    }
  }

  lemma OwnKeepsSettled(w: Workflow, answer: Answer, input: Input)
    requires DraftSettled(w) && Resume(w, answer, input).Some?
    ensures DraftSettled(Resume(w, answer, input).value)
  {
    if w.pc.AtExpirySave? {
      ExpiryOnlyFailsAwaited(w.executions, w.drafted, w.pc.loaded.value, TIMEOUT_REASON);
    }
  }

  lemma StepKeepsSettled(w: Workflow, m: Move, input: Input)
    requires DraftSettled(w)
    ensures DraftSettled(Step(w, m, input))
  {
    if m.OthersAct? { OthersKeepSettled(w, m, input); }
    if m.Own? && Resume(w, m.answer, input).Some? { OwnKeepsSettled(w, m.answer, input); }
  }

  lemma {:induction false} RunKeepsSettled(w: Workflow, moves: seq<Move>, input: Input)
    requires DraftSettled(w)
    ensures DraftSettled(Run(w, moves, input))
    decreases |moves|
  {
    if moves != [] {
      StepKeepsSettled(w, moves[0], input);
      RunKeepsSettled(Step(w, moves[0], input), moves[1..], input);
    }
  }

  /** When a run has timed out, the drafted execution does not await approval, whatever others did
      between the wait, the load and the save of the expiry. */
  lemma TimeoutEndsTheWait(executions: Executions, moves: seq<Move>, input: Input)
    requires Run(Start(input, executions), moves, input).pc == Ended(TimedOut)
    ensures var w := Run(Start(input, executions), moves, input);
            w.drafted in w.executions && !Awaiting(w.executions, w.drafted)
  {
    RunKeepsSettled(Start(input, executions), moves, input);
  }

  lemma {:induction false} EndedStays(w: Workflow, moves: seq<Move>, input: Input)
    requires w.pc.Ended?
    ensures Run(w, moves, input).pc == w.pc && Run(w, moves, input).drafted == w.drafted
    decreases |moves|
  {
    if moves != [] { EndedStays(Step(w, moves[0], input), moves[1..], input); }
  }

  /** A TIMEOUT is lasting: whatever others do afterwards, the drafted execution never awaits
      approval again. */
  lemma TimeoutIsLasting(executions: Executions, moves: seq<Move>, later: seq<Move>, input: Input)
    requires Run(Start(input, executions), moves, input).pc == Ended(TimedOut)
    ensures var w := Run(Start(input, executions), moves, input);
            !Awaiting(Run(w, later, input).executions, w.drafted)
  {
    var w := Run(Start(input, executions), moves, input);
    RunKeepsSettled(Start(input, executions), moves, input);
    RunKeepsSettled(w, later, input);
    EndedStays(w, later, input);
  }

  /** The expiry never undoes an approval: in every run its save fails an execution that still
      awaits approval, or changes nothing. */
  lemma ExpiryNeverUndoesApproval(executions: Executions, moves: seq<Move>, answer: Answer, input: Input)
    requires Run(Start(input, executions), moves, input).pc.AtExpirySave?
    ensures var w := Run(Start(input, executions), moves, input);
            var after := Step(w, Own(answer), input).executions;
            after == w.executions ||
              (Awaiting(w.executions, w.drafted) && after == w.executions[w.drafted := after[w.drafted]]
               && after[w.drafted].status == Message.Failed)
  {
    var w := Run(Start(input, executions), moves, input);
    RunKeepsSettled(Start(input, executions), moves, input);
    ExpiryOnlyFailsAwaited(w.executions, w.drafted, w.pc.loaded.value, TIMEOUT_REASON);
  }

  // ---- an awaited approval that an ended workflow leaves behind ----

  /** Exactly when an ending leaves the drafted execution awaiting its approval: it did so before,
      and the workflow did not end by completing the expiry, not even by a conflict in it. */
  lemma EndLeavesAwaitedExactly(executions: Executions, moves: seq<Move>, answer: Answer, input: Input)
    requires !Run(Start(input, executions), moves, input).pc.Ended?
    requires Step(Run(Start(input, executions), moves, input), Own(answer), input).pc.Ended?
    ensures var w := Run(Start(input, executions), moves, input);
            Awaiting(Step(w, Own(answer), input).executions, w.drafted) <==>
              Awaiting(w.executions, w.drafted) && !(w.pc.AtExpirySave? && answer.ActivityDone?)
  {
    var w := Run(Start(input, executions), moves, input);
    RunKeepsSettled(Start(input, executions), moves, input);
    EndLeavesAwaited(w, answer, input);
  }

  lemma EndLeavesAwaited(w: Workflow, answer: Answer, input: Input)
    requires DraftSettled(w) && !w.pc.Ended? && Step(w, Own(answer), input).pc.Ended?
    ensures Awaiting(Step(w, Own(answer), input).executions, w.drafted) <==>
              Awaiting(w.executions, w.drafted) && !(w.pc.AtExpirySave? && answer.ActivityDone?)
  {
    if w.pc.AtExpirySave? {
      ExpiryOnlyFailsAwaited(w.executions, w.drafted, w.pc.loaded.value, TIMEOUT_REASON);
    }
    if w.pc == AtDraft && answer.DraftMade? && CanDraft(w.executions, answer.newId, answer.created) {
      DraftedAwaitsExactly(answer.created, answer.personalization);
    }
  }

  /** The failing run: the wait times out, and the activity that should end it throws. It is tried once. */
  function ExpiryThrows(id: string): seq<Move> {
    [Own(SequenceIs(Outreach.Running)), Own(DraftFound(id)), Own(ApprovalTimeout), Own(Fails)]
  }

  lemma FailedExpiryLeavesAwaited(executions: Executions, id: string, maxIterations: int)
    requires id != "" && Awaiting(executions, id) && maxIterations > 0
    ensures var input := Input(maxIterations, true);
            var w := Run(Start(input, executions), ExpiryThrows(id), input);
            w.pc == Ended(Threw) && w.drafted == id && Awaiting(w.executions, id)
  {
    var input, moves := Input(maxIterations, true), ExpiryThrows(id);
    var w := Start(input, executions);
    RunCons(w, moves, input);
    var begun := Step(w, moves[0], input);
    RunCons(begun, moves[1..], input);
    var drafted := Step(begun, moves[1], input);
    RunCons(drafted, moves[1..][1..], input);
    var waited := Step(drafted, moves[2], input);
    assert moves[1..][1..][1..] == [moves[3]] && [moves[3]][1..] == [];
    RunCons(waited, [moves[3]], input);
  }

  lemma RunCons(w: Workflow, moves: seq<Move>, input: Input)
    requires moves != []
    ensures Run(w, moves, input) == Run(Step(w, moves[0], input), moves[1..], input)
  {
  }

  // ---- waiting for the approval of a message that can never be sent ----

  /** A provider attempt of the drafted execution of `w` has been counted by the end of the moves. */
  predicate AttemptedBy(w: Workflow, moves: seq<Move>, input: Input)
    requires w.drafted in w.executions
  {
    var later := Run(w, moves, input).executions;
    w.drafted in later && later[w.drafted].attempts > w.executions[w.drafted].attempts
  }

  /** Not in a status a provider attempt can still follow, with n attempts counted. */
  predicate Hopeless(executions: Executions, id: string, n: int) {
    id in executions && !Sendable(executions[id].status) && executions[id].attempts == n
  }

  lemma CallStaysHopeless(e: Message.Execution, op: StoredOp)
    requires !Sendable(e.status)
    ensures var after := Message.Apply(e, op).execution;
            !Sendable(after.status) && after.attempts == e.attempts
  {
    Message.StepFrame(e, op);
    Message.StepShape(e, op);
    StoredCallNeverAwaits(e, op);
    var after := Message.Apply(e, op).execution;
    assert after.status == Message.Sending ==> e.status == Message.Approved || e.status == Message.Sending by {
      if !op.MarkReconciledDelivered? && !op.MarkReconciledFailed? && after.status != e.status {
        assert after.status in Message.Transitions(e.status);
      }
    }
  }

  lemma StepStaysHopeless(w: Workflow, m: Move, input: Input, id: string, n: int)
    requires DraftSettled(w) && Hopeless(w.executions, id, n)
    ensures Hopeless(Step(w, m, input).executions, id, n)
  {
    if m.OthersAct? && m.id == id { CallStaysHopeless(w.executions[id], m.op); }
    if m.Own? && w.pc.AtExpirySave? {
      ExpiryOnlyFailsAwaited(w.executions, w.drafted, w.pc.loaded.value, TIMEOUT_REASON);
    }
  }

  lemma {:induction false} RunStaysHopeless(w: Workflow, moves: seq<Move>, input: Input, id: string, n: int)
    requires DraftSettled(w) && Hopeless(w.executions, id, n)
    ensures Hopeless(Run(w, moves, input).executions, id, n)
    decreases |moves|
  {
    if moves != [] {
      StepStaysHopeless(w, moves[0], input, id, n);
      StepKeepsSettled(w, moves[0], input);
      RunStaysHopeless(Step(w, moves[0], input), moves[1..], input, id, n);
    }
  }

  /** The calls that are left up to the provider attempt. */
  lemma {:induction false} SendableCanBeAttempted(w: Workflow, input: Input) returns (moves: seq<Move>)
    requires w.drafted in w.executions && Sendable(w.executions[w.drafted].status)
    ensures AttemptedBy(w, moves, input)
    decreases if w.executions[w.drafted].status == Message.PendingApproval then 2
              else if w.executions[w.drafted].status == Message.Approved then 1 else 0
  {
    var e := w.executions[w.drafted];
    var op := if e.status == Message.PendingApproval then Message.Approve("")
              else if e.status == Message.Approved then Message.MarkSending else Message.MarkProviderAttempt("");
    var call := OthersAct(w.drafted, op);
    var next := Step(w, call, input);
    assert next.executions[w.drafted] == Message.Apply(e, op).execution && next.drafted == w.drafted;
    var rest := [];
    if e.status != Message.Sending { rest := SendableCanBeAttempted(next, input); }
    moves := [call] + rest;
    assert moves[1..] == rest;
    RunCons(w, moves, input);
  }

  /** Exactly when the message whose approval the workflow waits for can still be sent: it awaits
      the approval, or an earlier send left it APPROVED or SENDING. */
  lemma AwaitedCanBeSentExactly(executions: Executions, moves: seq<Move>, input: Input)
    requires Run(Start(input, executions), moves, input).pc == AtApproval
    ensures var w := Run(Start(input, executions), moves, input);
            && w.drafted in w.executions
            && ((exists later :: AttemptedBy(w, later, input)) <==> Sendable(w.executions[w.drafted].status))
  {
    var w := Run(Start(input, executions), moves, input);
    RunKeepsSettled(Start(input, executions), moves, input);
    if Sendable(w.executions[w.drafted].status) {
      var later := SendableCanBeAttempted(w, input);
    } else {
      forall later ensures !AttemptedBy(w, later, input) {
        RunStaysHopeless(w, later, input, w.drafted, w.executions[w.drafted].attempts);
      }
    }
  }

  /** The failing run: after a failed personalization the execution is stored in DRAFTING, found
      under its idempotency key by the next `prepareDraft`, and its approval waited for. */
  function Unpersonalizable(id: string, created: Message.Execution): seq<Move> {
    [OthersDraft(id, created, Unpersonalized("")), Own(SequenceIs(Outreach.Running)), Own(DraftFound(id))]
  }

  lemma UnpersonalizedIsAwaited(executions: Executions, id: string, created: Message.Execution, input: Input)
    requires CanDraft(executions, id, created) && input.maxIterations > 0
    ensures var w := Run(Start(input, executions), Unpersonalizable(id, created), input);
            && w.pc == AtApproval && w.drafted == id && id in w.executions && w.executions[id].status == Message.Drafting
            && (forall later :: !AttemptedBy(w, later, input))
  {
    var w, moves := Start(input, executions), Unpersonalizable(id, created);
    var drafted := Step(w, moves[0], input);
    var begun := Step(drafted, moves[1], input);
    DraftedAwaitsExactly(created, Unpersonalized(""));
    assert moves[1..][1..] == [moves[2]] && [moves[2]][1..] == [];
    RunCons(w, moves, input);
    RunCons(drafted, moves[1..], input);
    RunCons(begun, [moves[2]], input);
    AwaitedCanBeSentExactly(executions, moves, input);
  }
}
