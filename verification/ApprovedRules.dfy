/** The send and its runs, rule by rule: what a decision does, what a judgement saves, and that saves
    lose nothing
    (packages/mission-orchestrator/src/domain/approval/approval-status.ts:8-18 and
    packages/outreach/src/application/outreach-execution.service.ts:161-299). */
module ApprovedRules {
  import opened Foundations
  import opened JsText
  import opened StoredExecutions
  import opened ApprovedSend
  import opened ApprovedRuns
  import Message = MessageExecution

  // ---- decisions ----

  /** A known approval that is not yet decided takes any decision; one that waits for a higher
      instance is not passed on again; a decided one keeps its decision. */
  lemma DecidedExactly(approvals: Approvals, approvalId: string, to: ApprovalStatus)
    ensures var after := Decided(approvals, approvalId, to);
            if approvalId in approvals && to != Undecided
               && (approvals[approvalId].status == Undecided || (approvals[approvalId].status == Escalated && to != Escalated))
            then after == approvals[approvalId := approvals[approvalId].(status := to)]
            else after == approvals
  {
  }

  // ---- judgements ----

  /** The first of the gate's checks that fails, if any, decides. */
  lemma EvaluateExactly(e: Message.Execution, approval: Option<Approval>, t: Target, c: Circumstances)
    ensures var refused := !c.tenantsAgree || !c.allowlisted || c.suppressed || Verify(approval, t, c.now) != Valid;
            var decision := Evaluate(e, approval, t, c);
            && (refused ==> decision == Deny)
            && (!refused && c.rateLimited ==> decision == RetryLater)
            && (!refused && !c.rateLimited && (!c.withinBudget || e.draft.None? || Blank(e.draft.value)) ==> decision == Deny)
            && (!refused && !c.rateLimited && c.withinBudget && e.draft.Some? && !Blank(e.draft.value) ==>
                  decision == if c.claimed then Allow else Duplicate)
  {
  }

  /** What a judgement saves: a denied send, or one without a provider, has failed before submission;
      a limited one stays in SENDING for another try; an attempt is counted for its provider. */
  lemma JudgeExactly(loaded: Message.Execution, approvalId: string, approval: Option<Approval>, t: Target, c: Circumstances)
    ensures var e, judged := Sending(loaded, approvalId), Judge(loaded, approvalId, approval, t, c);
            var decision := Evaluate(e, approval, t, c);
            && (!Sendable(loaded.status) || !c.stepFound || !c.recipientRecovered ==> judged == Stop)
            && (Sendable(loaded.status) && c.stepFound && c.recipientRecovered ==>
                  && (decision == Duplicate <==> judged == Stop)
                  && (decision == Deny || (decision == Allow && c.providerId.None?) ==>
                        judged.SaveOnly? && judged.execution.status == Message.FailedPreSubmission
                        && judged.execution.retryClassification == Some(Message.NonRetryable))
                  && (decision == RetryLater ==>
                        judged.SaveOnly? && judged.execution.status == Message.Sending && judged.execution.events == e.events
                        && judged.execution.retryClassification == Some(Message.RateLimited))
                  && (decision == Allow && c.providerId.Some? ==>
                        judged == Attempt(e.(providerId := c.providerId, attempts := e.attempts + 1))))
  {
    SendingExactly(loaded, approvalId);
  }

  lemma SendingAppends(loaded: Message.Execution, approvalId: string)
    ensures var e := Sending(loaded, approvalId);
            loaded.events <= e.events && e.attempts == loaded.attempts
  {
    var approved := Message.Apply(loaded, Message.Approve(approvalId)).execution;
    Message.StepShape(loaded, Message.Approve(approvalId));
    Message.StepShape(loaded, Message.MarkSending);
    Message.StepShape(approved, Message.MarkSending);
    Message.StepFrame(loaded, Message.Approve(approvalId));
  }

  lemma JudgementAppends(loaded: Message.Execution, approvalId: string, approval: Option<Approval>, t: Target, c: Circumstances)
    ensures var judged := Judge(loaded, approvalId, approval, t, c);
            !judged.Stop? ==>
              && loaded.events <= judged.execution.events
              && judged.execution.attempts == loaded.attempts + if judged.Attempt? then 1 else 0
  {
    var e := Sending(loaded, approvalId);
    SendingAppends(loaded, approvalId);
    Message.StepShape(e, Message.MarkFailed(Message.NonRetryable, "", None));
    Message.StepShape(e, Message.MarkFailed(Message.RateLimited, "", None));
  }

  /** A worker saves over the version it loaded, and nothing else. */
  predicate SavesOver(w: World, a: Action, id: string) {
    && a.SaveSend? && a.worker in w.workers && w.workers[a.worker].HasJudged?
    && var k := w.workers[a.worker];
       k.id == id && !k.judged.Stop? && id in w.executions && |w.executions[id].events| == k.loadedVersion
  }

  /** What is stored of an execution changes by a call made on it, and by a save over the version that was loaded. */
  lemma StoredChangesExactly(w: World, a: Action, targets: string -> Target, id: string)
    requires id in w.executions
    ensures id in Act(w, a, targets).executions
    ensures Act(w, a, targets).executions[id] ==
            if a.Call? && a.id == id && MayCall(w.executions[id], a.op) then Message.Apply(w.executions[id], a.op).execution
            else if SavesOver(w, a, id) then w.workers[a.worker].judged.execution
            else w.executions[id]
  {
  }

  // ---- what saves keep ----

  /** How many provider calls were made for an execution. */
  function CallsFor(submissions: seq<Submission>, id: string): nat {
    if submissions == [] then 0
    else CallsFor(submissions[..|submissions| - 1], id) + if submissions[|submissions| - 1].id == id then 1 else 0
  }

  /** A worker has in hand a version that the stored execution goes on from, and counts no attempt that
      was not a provider call. */
  predicate HandFits(k: Worker, executions: Executions, submissions: seq<Submission>) {
    k.id in executions &&
    var stored, calls := executions[k.id].events, CallsFor(submissions, k.id);
    match k
    case HasLoaded(_, _, loaded) => loaded.events <= stored && loaded.attempts <= calls
    case HasJudged(_, _, version, judged) =>
      version <= |stored| &&
      (!judged.Stop? ==>
        && version <= |judged.execution.events| && judged.execution.events[..version] == stored[..version]
        && judged.execution.attempts <= calls + if judged.Attempt? then 1 else 0)
  }

  /** No attempt is counted that was not a provider call. */
  ghost predicate Counted(w: World) {
    forall id :: id in w.executions ==> w.executions[id].attempts <= CallsFor(w.submissions, id)
  }

  ghost predicate Fits(w: World) {
    Counted(w) && forall n :: n in w.workers ==> HandFits(w.workers[n], w.executions, w.submissions)
  }

  /** Executions stay, and their events only grow; provider calls are not forgotten. */
  ghost predicate Grows(w: World, after: World) {
    && (forall id :: id in w.executions ==> id in after.executions && w.executions[id].events <= after.executions[id].events)
    && (forall id :: CallsFor(w.submissions, id) <= CallsFor(after.submissions, id))
  }

  lemma HandStays(k: Worker, w: World, after: World)
    requires HandFits(k, w.executions, w.submissions) && Grows(w, after)
    ensures HandFits(k, after.executions, after.submissions)
  {
    assert CallsFor(w.submissions, k.id) <= CallsFor(after.submissions, k.id);
    assert w.executions[k.id].events <= after.executions[k.id].events;
  }

  lemma OneMoreCall(submissions: seq<Submission>, s: Submission, id: string)
    ensures CallsFor(submissions + [s], id) == CallsFor(submissions, id) + if s.id == id then 1 else 0
  {
    assert (submissions + [s])[..|submissions|] == submissions;
  }

  /** What is written of one execution keeps its events and counts only its calls. */
  lemma PutGrows(w: World, after: World, id: string, e: Message.Execution)
    requires Counted(w) && after.executions == w.executions[id := e]
    requires after.submissions == w.submissions || exists s :: after.submissions == w.submissions + [s]
    requires e.attempts <= CallsFor(after.submissions, id)
    requires id in w.executions ==> w.executions[id].events <= e.events
    ensures Grows(w, after) && Counted(after)
  {
    forall other ensures CallsFor(w.submissions, other) <= CallsFor(after.submissions, other) {
      if after.submissions != w.submissions {
        var s :| after.submissions == w.submissions + [s];
        OneMoreCall(w.submissions, s, other);
      }
    }
  }

  lemma SaveGrows(w: World, n: nat)
    requires Fits(w) && n in w.workers && w.workers[n].HasJudged?
    ensures Grows(w, Saved(w, n, w.workers[n])) && Counted(Saved(w, n, w.workers[n]))
  {
    var k, after := w.workers[n], Saved(w, n, w.workers[n]);
    assert HandFits(k, w.executions, w.submissions);
    if !k.judged.Stop? && Version(w.executions[k.id]) == k.loadedVersion {
      assert w.executions[k.id].events[..k.loadedVersion] == w.executions[k.id].events;
      OneMoreCall(w.submissions, Submission(k.id, k.approvalId), k.id);
      PutGrows(w, after, k.id, k.judged.execution);
    }
  }

  lemma CallGrows(w: World, id: string, op: OtherOp)
    requires Counted(w) && id in w.executions
    ensures var after := w.(executions := w.executions[id := Message.Apply(w.executions[id], op).execution]);
            Grows(w, after) && Counted(after)
  {
    var e := Message.Apply(w.executions[id], op).execution;
    Message.StepShape(w.executions[id], op);
    PutGrows(w, w.(executions := w.executions[id := e]), id, e);
  }

  lemma DraftGrows(w: World, id: string, created: Message.Execution, p: Personalization)
    requires Counted(w) && NewExecution(w.executions, id, created)
    ensures var after := w.(executions := w.executions[id := Drafted(created, p)]);
            Grows(w, after) && Counted(after)
  {
    DraftCountsNothing(created, p);
    PutGrows(w, w.(executions := w.executions[id := Drafted(created, p)]), id, Drafted(created, p));
  }

  lemma ActGrows(w: World, a: Action, targets: string -> Target)
    requires Fits(w)
    ensures Grows(w, Act(w, a, targets)) && Counted(Act(w, a, targets))
  {
    match a
    case Call(id, op) => if id in w.executions { CallGrows(w, id, op); }
    case Draft(id, created, p) => if NewExecution(w.executions, id, created) { DraftGrows(w, id, created, p); }
    case SaveSend(n) => if n in w.workers && w.workers[n].HasJudged? { SaveGrows(w, n); }
    case _ =>
  }

  lemma DraftCountsNothing(created: Message.Execution, p: Personalization)
    ensures Drafted(created, p).attempts == created.attempts
  {
    var started := Message.Apply(created, Message.StartDrafting).execution;
    if p.Unpersonalized? { Message.StepFrame(started, Message.Reject(p.reason)); }
  }

  lemma ActFits(w: World, a: Action, targets: string -> Target)
    requires Fits(w)
    ensures Fits(Act(w, a, targets))
  {
    var after := Act(w, a, targets);
    ActGrows(w, a, targets);
    forall n | n in after.workers ensures HandFits(after.workers[n], after.executions, after.submissions) {
      if n in w.workers && after.workers[n] == w.workers[n] {
        HandStays(w.workers[n], w, after);
      } else {
        NewHandFits(w, a, targets, n);
      }
    }
  }

  lemma NewHandFits(w: World, a: Action, targets: string -> Target, n: nat)
    requires Fits(w) && n in Act(w, a, targets).workers
    requires n !in w.workers || Act(w, a, targets).workers[n] != w.workers[n]
    ensures HandFits(Act(w, a, targets).workers[n], Act(w, a, targets).executions, Act(w, a, targets).submissions)
  {
    if a.JudgeSend? {
      var k := w.workers[n];
      assert HandFits(k, w.executions, w.submissions);
      var t := TargetOf(targets, k.id);
      JudgementAppends(k.loaded, k.approvalId, Lookup(w.approvals, k.approvalId), t, a.c);
      var judged := Judge(k.loaded, k.approvalId, Lookup(w.approvals, k.approvalId), t, a.c);
      if !judged.Stop? {
        assert judged.execution.events[..|k.loaded.events|] == k.loaded.events == w.executions[k.id].events[..|k.loaded.events|];
      }
    }
  }

  lemma {:induction false} RunFits(w: World, actions: seq<Action>, targets: string -> Target)
    requires Fits(w)
    ensures Fits(Run(w, actions, targets)) && Grows(w, Run(w, actions, targets))
    decreases |actions|
  {
    if actions != [] {
      var next := Act(w, actions[0], targets);
      ActGrows(w, actions[0], targets);
      ActFits(w, actions[0], targets);
      RunFits(next, actions[1..], targets);
    }
  }

  /** In every run no save loses an event another one wrote: what is stored of an execution only grows. */
  lemma NothingIsOverwritten(actions: seq<Action>, later: seq<Action>, targets: string -> Target, id: string)
    requires id in Run(Empty(), actions, targets).executions
    ensures var w := Run(Empty(), actions, targets);
            var after := Run(w, later, targets);
            id in after.executions && w.executions[id].events <= after.executions[id].events
  {
    RunFits(Empty(), actions, targets);
    RunFits(Run(Empty(), actions, targets), later, targets);
  }

  /** And every attempt that is counted was a call of the provider. */
  lemma AttemptsAreCalls(actions: seq<Action>, targets: string -> Target, id: string)
    requires id in Run(Empty(), actions, targets).executions
    ensures var w := Run(Empty(), actions, targets); w.executions[id].attempts <= CallsFor(w.submissions, id)
  {
    RunFits(Empty(), actions, targets);
  }

  // ---- approvals were decided, calls were judged ----

  lemma {:induction false} ApprovedByDecision(w: World, actions: seq<Action>, targets: string -> Target, approvalId: string)
    requires approvalId in Run(w, actions, targets).approvals && Run(w, actions, targets).approvals[approvalId].status == Approved
    ensures (approvalId in w.approvals && w.approvals[approvalId].status == Approved) || Decide(approvalId, Approved) in actions
    decreases |actions|
  {
    if actions != [] {
      ApprovedByDecision(Act(w, actions[0], targets), actions[1..], targets, approvalId);
      if Decide(approvalId, Approved) in actions[1..] { assert Decide(approvalId, Approved) in actions; }
    }
  }

  /** In every run the approval under which the provider was called had been decided so, by name. */
  lemma SubmissionsWereDecided(actions: seq<Action>, targets: string -> Target, s: Submission)
    requires s in Run(Empty(), actions, targets).submissions
    ensures Decide(s.approvalId, Approved) in actions
  {
    SubmissionsAreApproved(actions, targets);
    ApprovedByDecision(Empty(), actions, targets, s.approvalId);
  }

  function Judgements(actions: seq<Action>): nat {
    if actions == [] then 0 else (if actions[0].JudgeSend? then 1 else 0) + Judgements(actions[1..])
  }

  /** Workers with a judgement in hand. */
  function Judging(workers: map<nat, Worker>): set<nat> {
    set n | n in workers && workers[n].HasJudged?
  }

  lemma SaveJudges(w: World, n: nat)
    requires n in w.workers && w.workers[n].HasJudged?
    ensures var after := Saved(w, n, w.workers[n]);
            |after.submissions| + |Judging(after.workers)| <= |w.submissions| + |Judging(w.workers)|
  {
    assert Judging(Saved(w, n, w.workers[n]).workers) == Judging(w.workers) - {n};
  }

  /** A worker without a judgement that takes another piece of work in hand. */
  lemma OneMoreWorker(workers: map<nat, Worker>, n: nat, k: Worker)
    requires n in workers ==> !workers[n].HasJudged?
    ensures Judging(workers[n := k]) == Judging(workers) + if k.HasJudged? then {n} else {}
  {
  }

  lemma ActJudges(w: World, a: Action, targets: string -> Target)
    ensures var after := Act(w, a, targets);
            |after.submissions| + |Judging(after.workers)| <= |w.submissions| + |Judging(w.workers)| + if a.JudgeSend? then 1 else 0
  {
    match a
    case JudgeSend(n, _) =>
      if n in w.workers && w.workers[n].HasLoaded? { OneMoreWorker(w.workers, n, Act(w, a, targets).workers[n]); }
    case SaveSend(n) =>
      if n in w.workers && w.workers[n].HasJudged? { SaveJudges(w, n); }
    case LoadForSend(n, id, approvalId) =>
      if n !in w.workers && id in w.executions { OneMoreWorker(w.workers, n, HasLoaded(id, approvalId, w.executions[id])); }
    case _ =>
  }

  lemma {:induction false} RunJudges(w: World, actions: seq<Action>, targets: string -> Target)
    ensures |Run(w, actions, targets).submissions| <= |w.submissions| + |Judging(w.workers)| + Judgements(actions)
    decreases |actions|
  {
    if actions != [] {
      ActJudges(w, actions[0], targets);
      RunJudges(Act(w, actions[0], targets), actions[1..], targets);
    }
  }

  /** In every run each provider call has a judgement of its own. */
  lemma OneCallForAJudgement(actions: seq<Action>, targets: string -> Target)
    ensures |Run(Empty(), actions, targets).submissions| <= Judgements(actions)
  {
    RunJudges(Empty(), actions, targets);
    assert Judging(Empty().workers) == {};
  }
}
