/**
 That the service can do what it is for: whatever its history, a draft whose devices are
 free can be submitted, approved, started and run to success.
 */
module SuccessHistories {
  import opened Common
  import opened Execution
  import opened Workflow
  import opened Engine
  import opened EngineRuns
  import RolloutHistories
  import ExecutionRuns
  import ExecutionOutcomes

  lemma Extend(es: seq<Engine.Event>, s: State, e: Engine.Event, s': State)
    requires History(es, s) && Engine.Next(s, e) == Some(s')
    ensures History(es + [e], s')
  {
    assert (es + [e])[..|es|] == es;
  }

  /** The row of change id is `row`, everything else is as in s0. */
  ghost predicate OnlyRow(s0: State, s: State, id: int, row: Row) {
    id in s0.rows && s == s0.(rows := s0.rows[id := row])
  }

  /** The approvals that are missing, one after the other. */
  lemma {:induction false} Approve(es: seq<Engine.Event>, s: State, id: int, users: seq<int>)
    returns (es': seq<Engine.Event>, s': State)
    requires History(es, s) && id in s.rows && RowOk(s.rows[id]) && s.rows[id].status == Pending
    requires MayApprove(s.rows[id], users) && |s.rows[id].votes| + |users| <= s.rows[id].required
    ensures es <= es' && History(es', s') && ApprovedBy(s.rows[id], users).Ok?
    ensures OnlyRow(s, s', id, ApprovedBy(s.rows[id], users).value)
    decreases |users|
  {
    MissingApprovals(s.rows[id], users);
    if users == [] {
      es', s' := es, s;
      assert s.rows[id := s.rows[id]] == s.rows;
    } else {
      var init, user := users[..|users| - 1], users[|users| - 1];
      var before;
      es', before := Approve(es, s, id, init);
      s' := Engine.Next(before, Engine.Vote(id, user, true)).value;
      Extend(es', before, Engine.Vote(id, user, true), s');
      es' := es' + [Engine.Vote(id, user, true)];
    }
  }

  /** A draft is submitted and gets its approvals. */
  lemma SubmitAndApprove(es: seq<Engine.Event>, s: State, id: int, users: seq<int>) returns (es': seq<Engine.Event>, s': State)
    requires History(es, s) && id in s.rows && RowOk(s.rows[id]) && s.rows[id].status == Draft
    requires MayApprove(s.rows[id], users) && |users| == s.rows[id].required
    ensures es <= es' && History(es', s')
    ensures OnlyRow(s, s', id, s.rows[id].(status := Approved, votes := ApprovalsOf(users)))
  {
    var row := s.rows[id];
    SubmitRowOk(row);
    var s1 := Engine.Next(s, Submit(id)).value;
    Extend(es, s, Submit(id), s1);
    es' := es + [Submit(id)];
    if row.required == 0 {
      s' := s1;
      assert ApprovalsOf(users) == row.votes;
    } else {
      MissingApprovals(s1.rows[id], users);
      es', s' := Approve(es', s1, id, users);
      assert row.votes + ApprovalsOf(users) == ApprovalsOf(users);
    }
  }

  /** The three steps of a pass over this change alone. */
  lemma StartSteps(s: State, id: int) returns (s1: State, s2: State, s3: State)
    requires s.sched == Resting && id in s.rows && s.rows[id].status == Approved && s.running !! Devices(s, id)
    ensures Engine.Next(s, TickBegin([Entry(id, true)])) == Some(s1)
    ensures Engine.Next(s1, TickTry) == Some(s2) && Engine.Next(s2, TickUpdate) == Some(s3)
    ensures id in s3.execs && s3.execs[id] == Exec(Loading, 0, seq(|s.rows[id].targets|, _ => Idle)) && s3.cancel == s.cancel
    ensures s3.rows == s.rows[id := s.rows[id].(status := Running)] && s3.running == s.running + Devices(s, id)
  {
    s1 := Engine.Next(s, TickBegin([Entry(id, true)])).value;
    s2 := Engine.Next(s1, TickTry).value;
    s3 := Engine.Next(s2, TickUpdate).value;
  }

  lemma FreshlyApproved(s: State, id: int)
    requires Engine.Inv(s) && id in s.rows && s.rows[id].status == Approved
    ensures id !in s.cancel && s.rows[id].targets == seq(|s.rows[id].targets|, _ => TPending)
    ensures s.rows[id].cfg.concurrency >= 1 && |s.rows[id].targets| > 0
  {
    assert RowOk(s.rows[id]);
  }

  /** The scheduler starts it. */
  lemma Start(es: seq<Engine.Event>, s: State, id: int) returns (es': seq<Engine.Event>, s': State)
    requires History(es, s) && s.sched == Resting && id in s.rows && s.rows[id].status == Approved
    requires id !in s.cancel && s.rows[id].targets == seq(|s.rows[id].targets|, _ => TPending)
    requires s.running !! Devices(s, id)
    ensures es <= es' && History(es', s') && id in s'.rows && id in s'.execs
    ensures s'.rows == s.rows[id := s.rows[id].(status := Running)] && s'.running == s.running + Devices(s, id)
    ensures View(s', id) == Init(s.rows[id].cfg, |s.rows[id].targets|)
  {
    var s1, s2;
    s1, s2, s' := StartSteps(s, id);
    var begin := TickBegin([Entry(id, true)]);
    Extend(es, s, begin, s1);
    Extend(es + [begin], s1, TickTry, s2);
    Extend(es + [begin] + [TickTry], s2, TickUpdate, s');
    es' := es + [begin] + [TickTry] + [TickUpdate];
  }

  /** A step of the execution is a step of the service. */
  lemma OneStep(es: seq<Engine.Event>, s: State, id: int, x: Execution.Event, r: Rollout) returns (s': State)
    requires History(es, s) && id in s.rows && id in s.execs && x != CancelFlag && Execution.Next(View(s, id), x) == Some(r)
    ensures History(es + [Step(id, x)], s') && id in s'.rows && id in s'.execs && View(s', id) == r
    ensures s'.running == s.running && Devices(s', id) == Devices(s, id)
  {
    s' := NextStep(s, id, x).value;
    RolloutHistories.StepView(s, id, x, s');
    Extend(es, s, Step(id, x), s');
  }

  /** Every run of its own machine is a history of the service. */
  lemma {:induction false} Execute(es: seq<Engine.Event>, s: State, id: int, xs: seq<Execution.Event>, r: Rollout)
    returns (es': seq<Engine.Event>, s': State)
    requires History(es, s) && id in s.rows && id in s.execs && ExecutionRuns.Run(View(s, id), xs) == Some(r)
    requires CancelFlag !in xs
    ensures es <= es' && History(es', s') && id in s'.rows && id in s'.execs && View(s', id) == r
    ensures s'.running == s.running && Devices(s', id) == Devices(s, id)
    decreases |xs|
  {
    if xs == [] {
      es', s' := es, s;
    } else {
      var init, x := xs[..|xs| - 1], xs[|xs| - 1];
      ExecutionRuns.LastStep(View(s, id), xs);
      var before;
      es', before := Execute(es, s, id, init, ExecutionRuns.Run(View(s, id), init).value);
      s' := OneStep(es', before, id, x, r);
      es' := es' + [Step(id, x)];
    }
  }

  lemma StatusWritten(s: State, id: int)
    requires Engine.Inv(s) && id in s.rows && id in s.execs && s.execs[id].phase.Written?
    ensures s.rows[id].status == s.execs[id].phase.status
  {
    assert ExecOk(s, id);
  }

  lemma StatusStored(es: seq<Engine.Event>, s: State, id: int)
    requires History(es, s) && id in s.rows && id in s.execs && s.execs[id].phase.Written?
    ensures s.rows[id].status == s.execs[id].phase.status
  {
    HistoryInv(es, s);
    StatusWritten(s, id);
  }

  /** Once it is done its devices are released. */
  lemma Release(es: seq<Engine.Event>, s: State, id: int) returns (s': State)
    requires History(es, s) && id in s.rows && id in s.execs && s.execs[id].phase.Written?
    ensures History(es + [Unlock(id)], s') && s'.rows == s.rows && s'.running == s.running - Devices(s, id)
  {
    s' := NextUnlock(s, id).value;
    Extend(es, s, Unlock(id), s');
  }

  /** A started change can be run to success. */
  lemma RunStarted(es: seq<Engine.Event>, s: State, id: int, cfg: Config, n: nat) returns (es': seq<Engine.Event>, s': State)
    requires History(es, s) && id in s.rows && id in s.execs && View(s, id) == Init(cfg, n) && cfg.concurrency >= 1 && n > 0
    ensures es <= es' && History(es', s') && id in s'.rows && s'.rows[id].status == Succeeded
    ensures s'.running == s.running - Devices(s, id)
    ensures forall i :: 0 <= i < |s'.rows[id].targets| ==> s'.rows[id].targets[i] == TSucceeded
  {
    var xs, r := ExecutionOutcomes.SomeRunSucceeds(cfg, n);
    var done;
    es', done := Execute(es, s, id, xs, r);
    assert done.execs[id].phase == r.phase && done.rows[id].targets == r.targets;
    StatusStored(es', done, id);
    s' := Release(es', done, id);
    es' := es' + [Unlock(id)];
  }

  /** An approved change whose devices are free can be run to success. */
  lemma RunApproved(es: seq<Engine.Event>, s: State, id: int) returns (es': seq<Engine.Event>, s': State)
    requires History(es, s) && s.sched == Resting && id in s.rows && s.rows[id].status == Approved && s.running !! Devices(s, id)
    ensures es <= es' && History(es', s') && id in s'.rows && s'.rows[id].status == Succeeded && s'.running == s.running
    ensures forall i :: 0 <= i < |s'.rows[id].targets| ==> s'.rows[id].targets[i] == TSucceeded
  {
    HistoryInv(es, s);
    FreshlyApproved(s, id);
    var started;
    es', started := Start(es, s, id);
    es', s' := RunStarted(es', started, id, s.rows[id].cfg, |s.rows[id].targets|);
  }

  /**
   Whatever happened before: while the scheduler rests and its devices are free, a draft goes
   through to success with the approvals of any users it needs, and leaves the locks as they were.
   */
  lemma DraftsCanSucceed(es: seq<Engine.Event>, s: State, id: int, users: seq<int>) returns (es': seq<Engine.Event>, s': State)
    requires History(es, s) && s.sched == Resting && id in s.rows && s.rows[id].status == Draft && s.running !! Devices(s, id)
    requires MayApprove(s.rows[id], users) && |users| == s.rows[id].required
    ensures es <= es' && History(es', s') && id in s'.rows && s'.rows[id].status == Succeeded && s'.running == s.running
    ensures forall i :: 0 <= i < |s'.rows[id].targets| ==> s'.rows[id].targets[i] == TSucceeded
  {
    HistoryInv(es, s);
    var approved;
    es', approved := SubmitAndApprove(es, s, id, users);
    es', s' := RunApproved(es', approved, id);
  }

  /** A service that starts with an empty table and is asked to create a change. */
  lemma FirstChange(id: int, row: Row) returns (es: seq<Engine.Event>, s: State)
    requires NewRow(row)
    ensures History(es, s) && s.rows == map[id := row] && s.sched == Resting && s.running == {}
  {
    assert RecoverRows(0, map[]) == map[] && RecoverRows(1, map[]) == map[] && RecoverRows(2, map[]) == map[];
    var s1, s2, s3 := START.(sched := Recovering(1)), START.(sched := Recovering(2)), START.(sched := Resting);
    Extend([], START, Recover, s1);
    Extend([] + [Recover], s1, Recover, s2);
    Extend([] + [Recover] + [Recover], s2, Recover, s3);
    s := s3.(rows := map[id := row]);
    Extend([] + [Recover] + [Recover] + [Recover], s3, Engine.Create(id, row), s);
    es := [] + [Recover] + [Recover] + [Recover] + [Engine.Create(id, row)];
  }

  /** So every change that can be created can be run to success by some history. */
  lemma ChangesCanSucceed(id: int, row: Row, users: seq<int>) returns (es: seq<Engine.Event>, s: State)
    requires NewRow(row) && MayApprove(row, users) && |users| == row.required
    ensures History(es, s) && id in s.rows && s.rows[id].status == Succeeded && s.running == {}
    ensures forall i :: 0 <= i < |s.rows[id].targets| ==> s.rows[id].targets[i] == TSucceeded
  {
    var draft;
    es, draft := FirstChange(id, row);
    es, s := DraftsCanSucceed(es, draft, id, users);
  }

  // ----- a running change can be stopped

  /** A request to cancel a change in execution reaches its flag. */
  lemma Flag(es: seq<Engine.Event>, s: State, id: int) returns (s': State)
    requires History(es, s) && id in s.rows && id in s.execs && s.rows[id].status == Running
    ensures History(es + [AskCancel(id)] + [FlagCancel(id)], s') && id in s'.rows && id in s'.execs
    ensures View(s', id) == View(s, id).(cancel := true)
  {
    var s1 := s.(asking := s.asking + multiset{id});
    s' := s1.(asking := s1.asking - multiset{id}, cancel := s1.cancel + {id});
    Extend(es, s, AskCancel(id), s1);
    Extend(es + [AskCancel(id)], s1, FlagCancel(id), s');
  }

  /** A cancelled machine that has not chosen its status ends cancelled, whatever steps it takes. */
  lemma {:induction false} EndsCancelled(r: Rollout, xs: seq<Execution.Event>, end: Rollout)
    requires Execution.Inv(r) && ExecutionRuns.Run(r, xs) == Some(end) && CancelFlag !in xs
    requires ExecutionRuns.Undecided(r.phase) && r.cancel
    ensures if ExecutionRuns.Undecided(end.phase) then end.cancel else ExecutionRuns.Chosen(end.phase) == Cancelled
    decreases |xs|
  {
    if xs != [] {
      var init := xs[..|xs| - 1];
      ExecutionRuns.LastStep(r, xs);
      var before := ExecutionRuns.Run(r, init).value;
      EndsCancelled(r, init, before);
      ExecutionRuns.DecideOnce(before, xs[|xs| - 1], end);
    }
  }

  lemma FinishCancelled(r: Rollout) returns (xs: seq<Execution.Event>, end: Rollout)
    requires Execution.Inv(r) && ExecutionRuns.Undecided(r.phase) && r.cancel && !r.phase.Aborted? && !r.phase.Loading?
    ensures ExecutionRuns.Run(r, xs) == Some(end) && CancelFlag !in xs && end.phase == Written(Cancelled)
  {
    ExecutionRuns.MeasureNat(r);
    xs, end := ExecutionOutcomes.GoesOnWell(r, [], r, ExecutionRuns.Measure(r));
    assert xs[0..] == xs;
    EndsCancelled(r, xs, end);
    NeverAborts(r, xs, end);
  }

  lemma {:induction false} NeverAborts(r: Rollout, xs: seq<Execution.Event>, end: Rollout)
    requires ExecutionRuns.Run(r, xs) == Some(end) && !r.phase.Aborted? && !r.phase.Loading?
    ensures !end.phase.Aborted? && !end.phase.Loading?
    decreases |xs|
  {
    if xs != [] {
      ExecutionRuns.LastStep(r, xs);
      NeverAborts(r, xs[..|xs| - 1], ExecutionRuns.Run(r, xs[..|xs| - 1]).value);
    }
  }

  lemma InExecution(es: seq<Engine.Event>, s: State, id: int)
    requires History(es, s) && id in s.execs
    ensures id in s.rows && Execution.Inv(View(s, id)) && (!s.execs[id].phase.Written? ==> s.rows[id].status == Running)
  {
    HistoryInv(es, s);
    assert ExecOk(s, id);
  }

  /** Whatever happened before: a change in execution that has not chosen its status can be cancelled, and ends so. */
  lemma RunningCanBeCancelled(es: seq<Engine.Event>, s: State, id: int) returns (es': seq<Engine.Event>, s': State)
    requires History(es, s) && id in s.execs && ExecutionRuns.Undecided(s.execs[id].phase)
    requires !s.execs[id].phase.Loading? && !s.execs[id].phase.Aborted?
    ensures es <= es' && FlagCancel(id) in es' && History(es', s') && id in s'.rows && s'.rows[id].status == Cancelled
  {
    InExecution(es, s, id);
    var flagged := Flag(es, s, id);
    var mid := es + [AskCancel(id)] + [FlagCancel(id)];
    assert mid[|es| + 1] == FlagCancel(id);
    InExecution(mid, flagged, id);
    var xs, end := FinishCancelled(View(flagged, id));
    es', s' := Execute(mid, flagged, id, xs, end);
    StatusStored(es', s', id);
    assert es'[|es| + 1] == FlagCancel(id);
  }
}
