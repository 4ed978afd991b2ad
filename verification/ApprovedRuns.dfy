/** Whole runs of approvals and sends: any number of workers load, judge and save in any order, while
    approvals are requested and decided and others call the stored executions
    (packages/outreach/src/application/outreach-execution.service.ts:161-299). */
module ApprovedRuns {
  import opened Foundations
  import opened StoredExecutions
  import opened ApprovedSend
  import Message = MessageExecution

  /** A send between its load, its judgement and its save. */
  datatype Worker =
    | HasLoaded(id: string, approvalId: string, loaded: Message.Execution)
    | HasJudged(id: string, approvalId: string, loadedVersion: nat, judged: Judgement)

  /** A provider call for an execution under an approval. */
  datatype Submission = Submission(id: string, approvalId: string)

  datatype World = World(
    executions: Executions,
    approvals: Approvals,
    workers: map<nat, Worker>,
    submissions: seq<Submission>)

  /** Calls of others on stored executions: approvals and provider attempts are recorded by sends alone. */
  type OtherOp = op: Message.Op | OnStored(op) && !op.Approve? && !op.MarkProviderAttempt? witness Message.MarkOpened

  /** Only what needs it is reconciled. */
  predicate MayCall(e: Message.Execution, op: OtherOp) {
    op.MarkReconciledDelivered? || op.MarkReconciledFailed? ==> Message.Reconcilable(e.status)
  }

  datatype Action =
    | Request(approvalId: string, approval: Approval)
    | Decide(approvalId: string, to: ApprovalStatus)
    | Draft(id: string, created: Message.Execution, personalization: Personalization)
    | Call(id: string, op: OtherOp)
    | LoadForSend(worker: nat, id: string, approvalId: string)
    | JudgeSend(worker: nat, c: Circumstances)
    | SaveSend(worker: nat)

  predicate NewExecution(executions: Executions, id: string, created: Message.Execution) {
    id !in executions && Message.Fresh(created) && created.approvalId.None? && created.attempts == 0
  }

  function TargetOf(targets: string -> Target, id: string): Target {
    targets(id).(executionId := id)
  }

  function Saved(w: World, n: nat, worker: Worker): World
    requires worker.HasJudged?
  {
    var done := w.(workers := w.workers - {n});
    if worker.judged.Stop? || worker.id !in w.executions || Version(w.executions[worker.id]) != worker.loadedVersion then done
    else
      var stored := done.(executions := w.executions[worker.id := worker.judged.execution]);
      if worker.judged.Attempt? then stored.(submissions := w.submissions + [Submission(worker.id, worker.approvalId)]) else stored
  }

  /** One action; one that does not fit changes nothing. */
  function Act(w: World, a: Action, targets: string -> Target): World {
    match a
    case Request(approvalId, approval) =>
      if approvalId !in w.approvals && approval.status == Undecided then w.(approvals := w.approvals[approvalId := approval]) else w
    case Decide(approvalId, to) => w.(approvals := Decided(w.approvals, approvalId, to))
    case Draft(id, created, personalization) =>
      if NewExecution(w.executions, id, created) then w.(executions := w.executions[id := Drafted(created, personalization)]) else w
    case Call(id, op) =>
      if id in w.executions && MayCall(w.executions[id], op)
      then w.(executions := w.executions[id := Message.Apply(w.executions[id], op).execution]) else w
    case LoadForSend(n, id, approvalId) =>
      if n !in w.workers && id in w.executions then w.(workers := w.workers[n := HasLoaded(id, approvalId, w.executions[id])]) else w
    case JudgeSend(n, c) =>
      if n in w.workers && w.workers[n].HasLoaded? then
        var k := w.workers[n];
        var judged := Judge(k.loaded, k.approvalId, Lookup(w.approvals, k.approvalId), TargetOf(targets, k.id), c);
        w.(workers := w.workers[n := HasJudged(k.id, k.approvalId, Version(k.loaded), judged)])
      else w
    case SaveSend(n) => if n in w.workers && w.workers[n].HasJudged? then Saved(w, n, w.workers[n]) else w
  }

  function Run(w: World, actions: seq<Action>, targets: string -> Target): World
    decreases |actions|
  {
    if actions == [] then w else Run(Act(w, actions[0], targets), actions[1..], targets)
  }

  function Empty(): World {
    World(map[], map[], map[], [])
  }

  // ---- the invariant ----

  /** The approval an execution has recorded was given for it, unless the send failed before submission;
      and whatever is in flight has recorded one. */
  predicate Backed(e: Message.Execution, approvals: Approvals, t: Target) {
    && (e.approvalId.Some? && e.status != Message.FailedPreSubmission ==> Genuine(approvals, e.approvalId.value, t))
    && (Message.InFlight(e.status) ==> e.approvalId.Some?)
    && (Message.Early(e.status) ==> e.approvalId.None?)
  }

  predicate WorkerBacked(k: Worker, approvals: Approvals, t: Target) {
    match k
    case HasLoaded(_, _, loaded) => Backed(loaded, approvals, t)
    case HasJudged(_, approvalId, _, judged) =>
      && (!judged.Stop? ==> Backed(judged.execution, approvals, t))
      && (judged.Attempt? ==> Genuine(approvals, approvalId, t))
  }

  ghost predicate Inv(w: World, targets: string -> Target) {
    && (forall id :: id in w.executions ==> Backed(w.executions[id], w.approvals, TargetOf(targets, id)))
    && (forall n :: n in w.workers ==> WorkerBacked(w.workers[n], w.approvals, TargetOf(targets, w.workers[n].id)))
    && (forall s :: s in w.submissions ==> Genuine(w.approvals, s.approvalId, TargetOf(targets, s.id)))
  }

  /** Genuine approvals are still genuine later. */
  ghost predicate Keeps(before: Approvals, after: Approvals) {
    forall approvalId, t :: Genuine(before, approvalId, t) ==> Genuine(after, approvalId, t)
  }

  lemma ApprovalsKeep(w: World, a: Action, targets: string -> Target)
    ensures Keeps(w.approvals, Act(w, a, targets).approvals)
  {
    forall approvalId, t | Genuine(w.approvals, approvalId, t) ensures Genuine(Act(w, a, targets).approvals, approvalId, t) {
      if a.Decide? { GenuineStays(w.approvals, a.approvalId, a.to, approvalId, t); }
    }
  }

  lemma KeptInv(w: World, approvals: Approvals, targets: string -> Target)
    requires Inv(w, targets) && Keeps(w.approvals, approvals)
    ensures Inv(w.(approvals := approvals), targets)
  {
    var after := w.(approvals := approvals);
    forall n | n in after.workers ensures WorkerBacked(after.workers[n], approvals, TargetOf(targets, after.workers[n].id)) {
      assert WorkerBacked(w.workers[n], w.approvals, TargetOf(targets, w.workers[n].id));
    }
    forall id | id in after.executions ensures Backed(after.executions[id], approvals, TargetOf(targets, id)) {
      assert Backed(w.executions[id], w.approvals, TargetOf(targets, id));
    }
  }

  lemma DraftIsBacked(created: Message.Execution, p: Personalization, approvals: Approvals, t: Target)
    requires Message.Fresh(created) && created.approvalId.None?
    ensures Backed(Drafted(created, p), approvals, t)
  {
    DraftedAwaitsExactly(created, p);
    var started := Message.Apply(created, Message.StartDrafting).execution;
    Message.StepFrame(created, Message.StartDrafting);
    if p.Personalized? { Message.StepFrame(started, Message.SetDraft(p.messageId, p.draft)); }
  }

  /** Outside a send no call brings an execution into flight, out of failure, or to an approval. */
  lemma CallKeepsBacked(e: Message.Execution, op: OtherOp, approvals: Approvals, t: Target)
    requires Backed(e, approvals, t) && MayCall(e, op)
    ensures Backed(Message.Apply(e, op).execution, approvals, t)
  {
    var after := Message.Apply(e, op).execution;
    Message.StepFrame(e, op);
    Message.StepShape(e, op);
    if e.status == Message.PendingApproval && after.status == Message.Approved { CallNeverApproves(e, op); }
    if e.status == Message.FailedPreSubmission { FailedStaysFailed(e, op); }
  }

  lemma CallNeverApproves(e: Message.Execution, op: OtherOp)
    requires e.status == Message.PendingApproval
    ensures Message.Apply(e, op).execution.status != Message.Approved
  {
  }

  lemma FailedStaysFailed(e: Message.Execution, op: OtherOp)
    requires e.status == Message.FailedPreSubmission && MayCall(e, op)
    ensures Message.Apply(e, op).execution.status == Message.FailedPreSubmission
  {
  }

  /** A send keeps its execution backed, and calls the provider only under a genuine approval. */
  lemma JudgementIsBacked(loaded: Message.Execution, approvalId: string, approvals: Approvals, t: Target, c: Circumstances)
    requires Backed(loaded, approvals, t)
    ensures var judged := Judge(loaded, approvalId, Lookup(approvals, approvalId), t, c);
            && (!judged.Stop? ==> Backed(judged.execution, approvals, t))
            && (judged.Attempt? ==> Genuine(approvals, approvalId, t))
  {
    var e := Sending(loaded, approvalId);
    SendingExactly(loaded, approvalId);
    VerifiedExactly(approvals, approvalId, t, c.now);
    AttemptExactly(loaded, approvals, approvalId, t, c);
    if e.status == Message.Sending {
      Message.StepFrame(e, Message.MarkFailed(Message.NonRetryable, "", None));
      Message.StepFrame(e, Message.MarkFailed(Message.RateLimited, "", None));
      if c.providerId.Some? { Message.StepFrame(e, Message.MarkProviderAttempt(c.providerId.value)); }
    }
  }

  lemma ExecutionKeepsInv(w: World, id: string, e: Message.Execution, targets: string -> Target)
    requires Inv(w, targets) && Backed(e, w.approvals, TargetOf(targets, id))
    ensures Inv(w.(executions := w.executions[id := e]), targets)
  {
  }

  lemma WorkerKeepsInv(w: World, n: nat, k: Worker, targets: string -> Target)
    requires Inv(w, targets) && WorkerBacked(k, w.approvals, TargetOf(targets, k.id))
    ensures Inv(w.(workers := w.workers[n := k]), targets)
  {
  }

  lemma SaveKeepsInv(w: World, n: nat, targets: string -> Target)
    requires Inv(w, targets) && n in w.workers && w.workers[n].HasJudged?
    ensures Inv(Saved(w, n, w.workers[n]), targets)
  {
    var k := w.workers[n];
    assert WorkerBacked(k, w.approvals, TargetOf(targets, k.id));
    var done := w.(workers := w.workers - {n});
    assert Inv(done, targets);
    if !k.judged.Stop? { ExecutionKeepsInv(done, k.id, k.judged.execution, targets); }
  }

  lemma StepKeepsInv(w: World, a: Action, targets: string -> Target)
    requires Inv(w, targets)
    ensures Inv(Act(w, a, targets), targets)
  {
    match a
    case Request(_, _) =>
      ApprovalsKeep(w, a, targets);
      KeptInv(w, Act(w, a, targets).approvals, targets);
    case Decide(_, _) =>
      ApprovalsKeep(w, a, targets);
      KeptInv(w, Act(w, a, targets).approvals, targets);
    case Draft(id, created, p) =>
      if NewExecution(w.executions, id, created) {
        DraftIsBacked(created, p, w.approvals, TargetOf(targets, id));
        ExecutionKeepsInv(w, id, Drafted(created, p), targets);
      }
    case Call(id, op) =>
      if id in w.executions && MayCall(w.executions[id], op) {
        CallKeepsBacked(w.executions[id], op, w.approvals, TargetOf(targets, id));
        ExecutionKeepsInv(w, id, Message.Apply(w.executions[id], op).execution, targets);
      }
    case LoadForSend(n, id, approvalId) =>
      if n !in w.workers && id in w.executions { WorkerKeepsInv(w, n, HasLoaded(id, approvalId, w.executions[id]), targets); }
    case JudgeSend(n, c) =>
      if n in w.workers && w.workers[n].HasLoaded? {
        var k := w.workers[n];
        assert WorkerBacked(k, w.approvals, TargetOf(targets, k.id));
        JudgementIsBacked(k.loaded, k.approvalId, w.approvals, TargetOf(targets, k.id), c);
        WorkerKeepsInv(w, n, Act(w, a, targets).workers[n], targets);
      }
    case SaveSend(n) =>
      if n in w.workers && w.workers[n].HasJudged? { SaveKeepsInv(w, n, targets); }
  }

  lemma {:induction false} RunKeepsInv(w: World, actions: seq<Action>, targets: string -> Target)
    requires Inv(w, targets)
    ensures Inv(Run(w, actions, targets), targets)
    decreases |actions|
  {
    if actions != [] {
      StepKeepsInv(w, actions[0], targets);
      RunKeepsInv(Act(w, actions[0], targets), actions[1..], targets);
    }
  }

  // ---- what every run keeps ----

  /** Main theorem: however sends, decisions and other calls interleave, the provider is called only
      under approvals that were given for the very execution. A rejected, expired or undecided one
      is never used. */
  lemma SubmissionsAreApproved(actions: seq<Action>, targets: string -> Target)
    ensures var w := Run(Empty(), actions, targets);
            forall s :: s in w.submissions ==> Genuine(w.approvals, s.approvalId, TargetOf(targets, s.id))
  {
    RunKeepsInv(Empty(), actions, targets);
  }

  /** And an approval that is recorded on an execution was given for it, unless the execution failed
      before submission; what is in flight has recorded one. */
  lemma RecordedApprovalIsGenuine(actions: seq<Action>, targets: string -> Target, id: string)
    requires id in Run(Empty(), actions, targets).executions
    ensures var w := Run(Empty(), actions, targets);
            var e := w.executions[id];
            && (e.approvalId.Some? && e.status != Message.FailedPreSubmission ==>
                  Genuine(w.approvals, e.approvalId.value, TargetOf(targets, id)))
            && (Message.InFlight(e.status) ==> e.approvalId.Some?)
  {
    RunKeepsInv(Empty(), actions, targets);
  }

  /** The failing run: a rejection is signalled like an approval, recorded on the execution as one,
      and ends it. */
  function Rejection(id: string, approvalId: string, approval: Approval, created: Message.Execution, p: Personalization, c: Circumstances): seq<Action> {
    [Request(approvalId, approval), Decide(approvalId, Rejected), Draft(id, created, p), LoadForSend(0, id, approvalId), JudgeSend(0, c), SaveSend(0)]
  }

  lemma RunCons(w: World, actions: seq<Action>, targets: string -> Target)
    requires actions != []
    ensures Run(w, actions, targets) == Run(Act(w, actions[0], targets), actions[1..], targets)
  {
  }

  /** The execution awaits an approval that has been refused. */
  function AfterRejection(id: string, approvalId: string, approval: Approval, e: Message.Execution): World {
    World(map[id := e], map[approvalId := approval.(status := Rejected)], map[], [])
  }

  lemma RejectedAndDrafted(id: string, approvalId: string, approval: Approval, created: Message.Execution, p: Personalization,
                           c: Circumstances, targets: string -> Target)
    requires approval.status == Undecided && NewExecution(map[], id, created)
    ensures Run(Empty(), Rejection(id, approvalId, approval, created, p, c), targets) ==
            Run(AfterRejection(id, approvalId, approval, Drafted(created, p)),
                [LoadForSend(0, id, approvalId), JudgeSend(0, c), SaveSend(0)], targets)
  {
    var actions := Rejection(id, approvalId, approval, created, p, c);
    var requested := World(map[], map[approvalId := approval], map[], []);
    var decided := World(map[], map[approvalId := approval.(status := Rejected)], map[], []);
    RunCons(Empty(), actions, targets);
    assert Act(Empty(), actions[0], targets) == requested;
    RunCons(requested, actions[1..], targets);
    assert Act(requested, actions[1], targets) == decided;
    RunCons(decided, actions[2..], targets);
    assert actions[3..] == [LoadForSend(0, id, approvalId), JudgeSend(0, c), SaveSend(0)];
  }

  /** An undisturbed send. */
  lemma SendAlone(e: Message.Execution, approvals: Approvals, id: string, approvalId: string, c: Circumstances, targets: string -> Target)
    ensures var w := World(map[id := e], approvals, map[], []);
            var judged := Judge(e, approvalId, Lookup(approvals, approvalId), TargetOf(targets, id), c);
            Run(w, [LoadForSend(0, id, approvalId), JudgeSend(0, c), SaveSend(0)], targets) ==
            Saved(w.(workers := map[0 := HasJudged(id, approvalId, Version(e), judged)]), 0, HasJudged(id, approvalId, Version(e), judged))
  {
    var w := World(map[id := e], approvals, map[], []);
    var actions := [LoadForSend(0, id, approvalId), JudgeSend(0, c), SaveSend(0)];
    var judged := HasJudged(id, approvalId, Version(e), Judge(e, approvalId, Lookup(approvals, approvalId), TargetOf(targets, id), c));
    var loaded := w.(workers := map[0 := HasLoaded(id, approvalId, e)]);
    RunCons(w, actions, targets);
    assert Act(w, actions[0], targets) == loaded;
    RunCons(loaded, actions[1..], targets);
    assert Act(loaded, actions[1], targets) == w.(workers := map[0 := judged]);
    RunCons(w.(workers := map[0 := judged]), actions[2..], targets);
  }

  lemma RejectionIsRecorded(id: string, approvalId: string, approval: Approval, created: Message.Execution, p: Personalization,
                            c: Circumstances, targets: string -> Target)
    requires approval.status == Undecided && p.Personalized? && NewExecution(map[], id, created)
    requires c.stepFound && c.recipientRecovered
    ensures var w := Run(Empty(), Rejection(id, approvalId, approval, created, p, c), targets);
            && approvalId in w.approvals && w.approvals[approvalId].status == Rejected && w.submissions == []
            && id in w.executions && w.executions[id].approvalId == Some(approvalId)
            && w.executions[id].status == Message.FailedPreSubmission
  {
    var e := Drafted(created, p);
    var before := AfterRejection(id, approvalId, approval, e);
    DraftedAwaitsExactly(created, p);
    RejectedAndDrafted(id, approvalId, approval, created, p, c, targets);
    SendAlone(e, before.approvals, id, approvalId, c, targets);
    UngivenIsRecordedExactly(e, before.approvals, approvalId, TargetOf(targets, id), c);
  }
}
