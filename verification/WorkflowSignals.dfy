/** Which approval signal a send uses, and which signals are ever sent
    (apps/temporal-worker/src/workflows/outreach-sequence-workflow.ts:52-60, 87-105). */
module WorkflowSignals {
  import opened Foundations
  import opened StoredExecutions
  import opened OutreachWorkflow
  import Outreach = OutreachSequence

  /** A run of the workflow from its start. */
  datatype History = History(input: Input, executions: Executions, moves: seq<Move>)

  /** The workflow after the first n moves. */
  function At(h: History, n: nat): Workflow
    requires n <= |h.moves|
  {
    Run(Start(h.input, h.executions), h.moves[..n], h.input)
  }

  lemma {:induction false} RunSnoc(w: Workflow, moves: seq<Move>, m: Move, input: Input)
    ensures Run(w, moves + [m], input) == Step(Run(w, moves, input), m, input)
    decreases |moves|
  {
    if moves == [] {
      assert [] + [m] == [m] && [m][1..] == [];
      assert Run(w, [m], input) == Run(Step(w, m, input), [], input);
    } else {
      assert (moves + [m])[0] == moves[0] && (moves + [m])[1..] == moves[1..] + [m];
      RunSnoc(Step(w, moves[0], input), moves[1..], m, input);
    }
  }

  // ---- what happens at a move ----

  predicate Arrives(h: History, k: nat) {
    k < |h.moves| && h.moves[k].ApprovalArrives? && !At(h, k).pc.Ended?
  }

  function Arrival(h: History, k: nat): Approval
    requires Arrives(h, k)
  {
    Approval(h.moves[k].executionId, h.moves[k].approvalId, At(h, k).signals)
  }

  /** A send comes back, with whatever status. */
  predicate Returns(h: History, k: nat) {
    k < |h.moves| && h.moves[k].Own? && h.moves[k].answer.SendIs? && At(h, k).pc == AtSend
  }

  /** The wait for an approval ends and a send begins. */
  predicate Sends(h: History, k: nat) {
    k < |h.moves| && h.moves[k] == Own(ApprovalSeen) && At(h, k).pc == AtApproval && At(h, k).pendingApproval.Some?
  }

  predicate Unheard(h: History, from: nat, to: nat) {
    forall k :: from <= k < to ==> !Arrives(h, k)
  }

  predicate Quiet(h: History, from: nat, to: nat) {
    forall k :: from <= k < to ==> !Arrives(h, k) && !Returns(h, k)
  }

  lemma MoveShape(w: Workflow, m: Move, input: Input)
    ensures var next := Step(w, m, input);
            && next.pendingApproval ==
                 (if m.ApprovalArrives? && !w.pc.Ended? then Some(Approval(m.executionId, m.approvalId, w.signals))
                  else if m.Own? && m.answer.SendIs? && w.pc == AtSend then None else w.pendingApproval)
            && next.signals == w.signals + (if m.ApprovalArrives? && !w.pc.Ended? then 1 else 0)
  {
  }

  lemma MoveSends(w: Workflow, m: Move, input: Input)
    ensures var next := Step(w, m, input);
            && next.sends == w.sends +
                 (if m == Own(ApprovalSeen) && w.pc == AtApproval && w.pendingApproval.Some? then [w.pendingApproval.value] else [])
            && (w.pc == AtSend && !(m.Own? && m.answer.SendIs?) ==> next.pc == AtSend || next.pc.Ended?)
            && (w.pc.Ended? ==> next.pc == w.pc)
  {
  }

  lemma Next(h: History, k: nat)
    requires k < |h.moves|
    ensures At(h, k + 1) == Step(At(h, k), h.moves[k], h.input)
    ensures At(h, k + 1).pendingApproval ==
            if Arrives(h, k) then Some(Arrival(h, k)) else if Returns(h, k) then None else At(h, k).pendingApproval
    ensures At(h, k + 1).signals == At(h, k).signals + (if Arrives(h, k) then 1 else 0)
    ensures At(h, k + 1).sends == At(h, k).sends + (if Sends(h, k) then [At(h, k).pendingApproval.value] else [])
  {
    assert h.moves[..k + 1] == h.moves[..k] + [h.moves[k]];
    RunSnoc(Start(h.input, h.executions), h.moves[..k], h.moves[k], h.input);
    MoveShape(At(h, k), h.moves[k], h.input);
    MoveSends(At(h, k), h.moves[k], h.input);
  }

  // ---- the pending approval ----

  /** `a` arrived at j, and since then nothing has arrived and no send has returned. */
  predicate IsLatest(h: History, j: nat, n: nat, a: Approval) {
    j < n && Arrives(h, j) && Arrival(h, j) == a && Quiet(h, j + 1, n)
  }

  predicate HasLatest(h: History, n: nat, a: Approval) {
    exists j: nat :: j < n && IsLatest(h, j, n, a)
  }

  /** In every run the pending approval is the latest arrival since the last send returned. */
  lemma {:induction false} PendingIsLatest(h: History, n: nat, a: Approval)
    requires n <= |h.moves|
    ensures At(h, n).pendingApproval == Some(a) <==> HasLatest(h, n, a)
  {
    if n == 0 {
      assert h.moves[..0] == [];
    } else {
      Next(h, n - 1);
      PendingIsLatest(h, n - 1, a);
      LatestAfterOneMore(h, n - 1, n, a);
    }
  }

  /** A move replaces the latest arrival, ends it, or leaves it. */
  lemma LatestAfterOneMore(h: History, n: nat, m: nat, a: Approval)
    requires m == n + 1 <= |h.moves|
    ensures HasLatest(h, m, a) <==> if Arrives(h, n) then Arrival(h, n) == a else !Returns(h, n) && HasLatest(h, n, a)
  {
    forall j: nat ensures IsLatest(h, j, m, a) <==>
                          if Arrives(h, n) then j == n && Arrival(h, n) == a else !Returns(h, n) && IsLatest(h, j, n, a)
    {
      if j < n && (Arrives(h, n) || Returns(h, n)) { assert !Quiet(h, j + 1, m); }
    }
    if Arrives(h, n) && Arrival(h, n) == a { assert IsLatest(h, n, m, a); }
  }

  lemma TheLatest(h: History, n: nat, a: Approval) returns (j: nat)
    requires n <= |h.moves| && At(h, n).pendingApproval == Some(a)
    ensures j < n && Arrives(h, j) && Arrival(h, j) == a && Quiet(h, j + 1, n)
  {
    PendingIsLatest(h, n, a);
    j :| j < n && IsLatest(h, j, n, a);
  }

  lemma {:induction false} SignalsGrow(h: History, i: nat, k: nat)
    requires i <= k <= |h.moves|
    ensures At(h, i).signals <= At(h, k).signals
    ensures Arrives(h, i) && i < k ==> At(h, i).signals < At(h, k).signals
  {
    if i < k {
      Next(h, k - 1);
      SignalsGrow(h, i, k - 1);
    }
  }

  lemma ArrivalsDiffer(h: History, i: nat, j: nat)
    requires Arrives(h, i) && Arrives(h, j) && Arrival(h, i) == Arrival(h, j)
    ensures i == j
  {
    SignalsGrow(h, Min(i, j), Max(i, j));
  }

  // ---- where a send goes ----

  /** Exactly when a send goes to the drafted execution: the latest signal to arrive since the
      last send returned names it. */
  lemma SendGoesToDraftExactly(h: History, n: nat)
    requires Sends(h, n)
    ensures var sends, drafted := At(h, n + 1).sends, At(h, n).drafted;
            && |sends| == |At(h, n).sends| + 1
            && (sends[|sends| - 1].executionId == drafted <==>
                  exists j: nat :: j < n && Arrives(h, j) && h.moves[j].executionId == drafted && Quiet(h, j + 1, n))
  {
    var a := At(h, n).pendingApproval.value;
    Next(h, n);
    var j := TheLatest(h, n, a);
    forall k: nat | k < n && Arrives(h, k) && Quiet(h, k + 1, n) ensures k == j {
      OnlyOneIsLatest(h, j, k, n);
    }
  }

  lemma OnlyOneIsLatest(h: History, j: nat, k: nat, n: nat)
    requires j < n && k < n && Arrives(h, j) && Arrives(h, k) && Quiet(h, j + 1, n) && Quiet(h, k + 1, n)
    ensures j == k
  {
  }

  // ---- which signals are sent ----

  predicate SendsAt(h: History, n: nat, a: Approval) {
    Sends(h, n) && At(h, n).pendingApproval == Some(a)
  }

  lemma {:induction false} SentSomewhere(h: History, n: nat, a: Approval)
    requires n <= |h.moves|
    ensures a in At(h, n).sends <==> exists k: nat :: k < n && SendsAt(h, k, a)
  {
    if n == 0 {
      assert h.moves[..0] == [];
    } else {
      Next(h, n - 1);
      SentSomewhere(h, n - 1, a);
      assert a in At(h, n).sends <==> a in At(h, n - 1).sends || SendsAt(h, n - 1, a);
    }
  }

  lemma {:induction false} SendingUntilReturn(h: History, j: nat, n: nat)
    requires j <= n <= |h.moves| && At(h, j).pc == AtSend && forall k :: j <= k < n ==> !Returns(h, k)
    ensures At(h, n).pc == AtSend || At(h, n).pc.Ended?
  {
    if j < n {
      SendingUntilReturn(h, j, n - 1);
      Next(h, n - 1);
      MoveSends(At(h, n - 1), h.moves[n - 1], h.input);
    }
  }

  /** A send after j, with nothing heard in between, uses the signal that arrived at j. */
  lemma UnheardSendUsesIt(h: History, j: nat, n: nat)
    requires Arrives(h, j) && j < n && Sends(h, n) && Unheard(h, j + 1, n)
    ensures At(h, n).pendingApproval == Some(Arrival(h, j)) && At(h, j).pc != AtSend
  {
    var a := At(h, n).pendingApproval.value;
    var k := TheLatest(h, n, a);
    assert k == j;
    if At(h, j).pc == AtSend {
      assert !Returns(h, j);
      SendingUntilReturn(h, j, n);
    }
  }

  /** Exactly when a signal is ever sent: it did not arrive during a send, and some later send
      begins before another signal arrives. */
  lemma SignalIsSentExactly(h: History, j: nat)
    requires Arrives(h, j)
    ensures Arrival(h, j) in At(h, |h.moves|).sends <==>
            At(h, j).pc != AtSend && exists n: nat :: j < n && Sends(h, n) && Unheard(h, j + 1, n)
  {
    SentSomewhere(h, |h.moves|, Arrival(h, j));
    if Arrival(h, j) in At(h, |h.moves|).sends {
      var n := SentMeansUnheard(h, j);
    }
    if n: nat :| j < n && Sends(h, n) && Unheard(h, j + 1, n) {
      UnheardSendUsesIt(h, j, n);
      assert SendsAt(h, n, Arrival(h, j));
    }
  }

  lemma SentMeansUnheard(h: History, j: nat) returns (n: nat)
    requires Arrives(h, j) && Arrival(h, j) in At(h, |h.moves|).sends
    ensures j < n && Sends(h, n) && Unheard(h, j + 1, n) && At(h, j).pc != AtSend
  {
    var a := Arrival(h, j);
    SentSomewhere(h, |h.moves|, a);
    n :| n < |h.moves| && SendsAt(h, n, a);
    var k := TheLatest(h, n, a);
    ArrivalsDiffer(h, j, k);
    UnheardSendUsesIt(h, j, n);
  }

  /** A signal that arrives during a send is never sent. */
  lemma ArrivalDuringSendIsLost(h: History, j: nat)
    requires Arrives(h, j) && At(h, j).pc == AtSend
    ensures Arrival(h, j) !in At(h, |h.moves|).sends
  {
    SignalIsSentExactly(h, j);
  }

  /** Nor is one that another follows before the next send begins. */
  lemma OverwrittenApprovalIsLost(h: History, j: nat, k: nat)
    requires Arrives(h, j) && Arrives(h, k) && j < k && forall n :: j < n < k ==> !Sends(h, n)
    ensures Arrival(h, j) !in At(h, |h.moves|).sends
  {
    SignalIsSentExactly(h, j);
    assert forall n: nat :: j < n && Sends(h, n) && Unheard(h, j + 1, n) ==> n <= k;
  }

  // ---- a stale approval ----

  /** The failing input: an approval of another execution that arrives first is sent in place of the draft. */
  function Stale(executions: Executions): History {
    History(Input(50, false), executions,
            [ApprovalArrives("old", "a1"), Own(SequenceIs(Outreach.Running)), Own(DraftFound("new")), Own(ApprovalSeen)])
  }

  lemma StaleApprovalIsSent(executions: Executions)
    requires Awaiting(executions, "old") && Awaiting(executions, "new")
    ensures var h := Stale(executions);
            Sends(h, 3) && At(h, 3).drafted == "new" && At(h, 4).sends == [Approval("old", "a1", 0)]
  {
    var h := Stale(executions);
    assert h.moves[..0] == [];
    Next(h, 0);
    Next(h, 1);
    Next(h, 2);
    Next(h, 3);
  }

  // ---- replies ----

  predicate Replied(h: History, k: nat) {
    k < |h.moves| && h.moves[k].ReplyArrives? && !At(h, k).pc.Ended?
  }

  /** The interpretation of a reply is over. */
  predicate Interpreted(h: History, k: nat) {
    k < |h.moves| && h.moves[k] == Own(ActivityDone) && At(h, k).pc == AtInterpret
  }

  lemma NextReply(h: History, k: nat)
    requires k < |h.moves|
    ensures At(h, k + 1).pendingReply ==
            if Replied(h, k) then Some(h.moves[k].content) else if Interpreted(h, k) then None else At(h, k).pendingReply
  {
    Next(h, k);
  }

  /** A reply of this content arrived at j, and since then none has arrived and none been interpreted. */
  predicate IsLatestReply(h: History, j: nat, n: nat, content: string) {
    && j < n && Replied(h, j) && h.moves[j].content == content
    && forall k :: j < k < n ==> !Replied(h, k) && !Interpreted(h, k)
  }

  predicate HasLatestReply(h: History, n: nat, content: string) {
    exists j: nat :: j < n && IsLatestReply(h, j, n, content)
  }

  /** In every run the pending reply is the latest arrival since a reply was last interpreted: neither a
      send nor a wait that ran out clears it. */
  lemma {:induction false} PendingReplyIsLatest(h: History, n: nat, content: string)
    requires n <= |h.moves|
    ensures At(h, n).pendingReply == Some(content) <==> HasLatestReply(h, n, content)
  {
    if n == 0 {
      assert h.moves[..0] == [];
    } else {
      NextReply(h, n - 1);
      PendingReplyIsLatest(h, n - 1, content);
      LatestReplyAfterOneMore(h, n - 1, n, content);
    }
  }

  lemma LatestReplyAfterOneMore(h: History, n: nat, m: nat, content: string)
    requires m == n + 1 <= |h.moves|
    ensures HasLatestReply(h, m, content) <==>
            if Replied(h, n) then h.moves[n].content == content else !Interpreted(h, n) && HasLatestReply(h, n, content)
  {
    forall j: nat ensures IsLatestReply(h, j, m, content) <==>
                          if Replied(h, n) then j == n && h.moves[n].content == content
                          else !Interpreted(h, n) && IsLatestReply(h, j, n, content)
    {
    }
    if Replied(h, n) && h.moves[n].content == content { assert IsLatestReply(h, n, m, content); }
  }

  /** The failing input: a reply that came before anything was sent is taken for the answer to the first send. */
  function Early(executions: Executions): History {
    History(Input(50, false), executions,
            [ReplyArrives("r"), ApprovalArrives("new", "a"), Own(SequenceIs(Outreach.Running)), Own(DraftFound("new")),
             Own(ApprovalSeen), Own(SendIs(SendCompleted)), Own(ReplySeen)])
  }

  lemma EarlyReplyIsRead(executions: Executions)
    requires Awaiting(executions, "new")
    ensures var h := Early(executions);
            Replied(h, 0) && At(h, 0).sends == [] && At(h, 7).pc == AtRecord && At(h, 7).pendingReply == Some("r")
  {
    var h := Early(executions);
    assert h.moves[..0] == [];
    Next(h, 0);
    Next(h, 1);
    Next(h, 2);
    Next(h, 3);
    Next(h, 4);
    Next(h, 5);
    Next(h, 6);
  }
}
