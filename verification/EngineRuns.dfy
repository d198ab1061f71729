/** Theorems over every run of the change service, with any number of crashes and restarts. */
module EngineRuns {
  import opened Common
  import opened Execution
  import opened Workflow
  import opened Engine

  ghost function Run(s: State, es: seq<Engine.Event>): Option<State>
    decreases |es|
  {
    if es == [] then Some(s)
    else
      var before := Run(s, es[..|es| - 1]);
      if before.None? then None else Engine.Next(before.value, es[|es| - 1])
  }

  /** es is a possible history of the service that leads to s. */
  ghost predicate History(es: seq<Engine.Event>, s: State) {
    Run(START, es) == Some(s)
  }

  lemma LastStep(es: seq<Engine.Event>, s: State)
    requires es != [] && History(es, s)
    ensures Run(START, es[..|es| - 1]).Some?
    ensures Engine.Next(Run(START, es[..|es| - 1]).value, es[|es| - 1]) == Some(s)
  {}

  lemma {:induction false} HistoryInv(es: seq<Engine.Event>, s: State)
    requires History(es, s)
    ensures Engine.Inv(s)
    decreases |es|
  {
    if es != [] {
      LastStep(es, s);
      var before := Run(START, es[..|es| - 1]).value;
      HistoryInv(es[..|es| - 1], before);
      Engine.StepInv(before, es[|es| - 1], s);
    }
  }

  /** The state before the last event of a history. */
  lemma Last(es: seq<Engine.Event>, s: State) returns (before: State)
    requires es != [] && History(es, s)
    ensures History(es[..|es| - 1], before) && Engine.Inv(before) && Engine.Next(before, es[|es| - 1]) == Some(s)
    ensures es == es[..|es| - 1] + [es[|es| - 1]]
  {
    LastStep(es, s);
    before := Run(START, es[..|es| - 1]).value;
    HistoryInv(es[..|es| - 1], before);
  }

  // ----- devices

  /**
   In every state the changes in execution have pairwise disjoint devices, the map
   `running` holds exactly these devices and those the scheduler just claimed, and a
   change in execution keeps all its devices locked until its final status is stored.
   */
  lemma LocksAreExact(es: seq<Engine.Event>, s: State)
    requires History(es, s)
    ensures Holders(s) <= s.rows.Keys
    ensures forall a, b :: a in s.execs && b in s.execs && a != b ==> a in s.rows && b in s.rows && Devices(s, a) !! Devices(s, b)
    ensures forall d :: d in s.running <==> exists h :: h in Holders(s) && d in Devices(s, h)
    ensures forall id :: id in s.execs ==> id in s.rows && Devices(s, id) <= s.running
    ensures forall id :: id in s.execs && !s.execs[id].phase.Written? ==> id in s.rows && s.rows[id].status == Running
  {
    HistoryInv(es, s);
    forall a | a in s.execs ensures a in s.rows && a in Holders(s) && ExecOk(s, a) {}
    forall id, d | id in s.execs && d in Devices(s, id) ensures d in s.running {
      assert id in Holders(s) && d in Devices(s, id);
    }
    assert forall a, b :: a in Holders(s) && b in Holders(s) && a != b ==> Devices(s, a) !! Devices(s, b);
  }

  /** Since the last restart the targets of change id could not be loaded. */
  ghost predicate LoadFailed(es: seq<Engine.Event>, id: int) {
    exists j :: 0 <= j < |es| && es[j] == Step(id, Load(false)) && forall k :: j < k < |es| ==> es[k] != Crash
  }

  lemma LoadFailedNext(es: seq<Engine.Event>, e: Engine.Event, id: int)
    requires e == Step(id, Load(false)) || (LoadFailed(es, id) && e != Crash)
    ensures LoadFailed(es + [e], id)
  {
    var all := es + [e];
    if e == Step(id, Load(false)) {
      assert all[|es|] == e;
    } else {
      var j :| 0 <= j < |es| && es[j] == Step(id, Load(false)) && forall k :: j < k < |es| ==> es[k] != Crash;
      assert all[j] == es[j];
    }
  }

  /** An execution that stopped early, and what it left behind, come from such a failure. */
  predicate Stranded(s: State, id: int) {
    id in s.orphans || (id in s.execs && s.execs[id].phase.Aborted?)
  }

  lemma StrandedNext(s: State, e: Engine.Event, s': State, id: int)
    requires Engine.Inv(s) && Engine.Next(s, e) == Some(s') && Stranded(s', id)
    ensures e == Step(id, Load(false)) || (Stranded(s, id) && e != Crash)
  {
    if e.Step? && e.id == id {
      assert ExecOk(s, id);
      StrandedStep(s, e.e, s', id);
    }
  }

  lemma StrandedStep(s: State, e: Execution.Event, s': State, id: int)
    requires NextStep(s, id, e) == Some(s') && id in s.rows && Execution.Inv(View(s, id)) && Stranded(s', id)
    ensures e == Load(false) || Stranded(s, id)
  {}

  lemma {:induction false} StrandedIsTold(es: seq<Engine.Event>, s: State, id: int)
    requires History(es, s) && Stranded(s, id)
    ensures LoadFailed(es, id)
    decreases |es|
  {
    assert es != [];
    var init, e := es[..|es| - 1], es[|es| - 1];
    var before := Last(es, s);
    StrandedNext(before, e, s, id);
    if e != Step(id, Load(false)) {
      StrandedIsTold(init, before, id);
    }
    LoadFailedNext(init, e, id);
  }

  /** Outside a restart, a change stored as running is in execution or its targets failed to load since the last one. */
  lemma RunningIsInProcess(es: seq<Engine.Event>, s: State, id: int)
    requires History(es, s) && !s.sched.Recovering?
    requires id in s.rows && s.rows[id].status == Running
    ensures id in s.execs || LoadFailed(es, id)
  {
    HistoryInv(es, s);
    if id !in s.execs {
      StrandedIsTold(es, s, id);
    }
  }

  // ----- the failure limit across restarts

  /** No stored change ever has more than MaxFailures + Concurrency failed targets, restarts included. */
  lemma StoredFailureBound(es: seq<Engine.Event>, s: State, id: int)
    requires History(es, s) && id in s.rows
    ensures multiset(s.rows[id].targets)[TFailed] <= s.rows[id].cfg.maxFailures + s.rows[id].cfg.concurrency
  {
    HistoryInv(es, s);
    assert RowOk(s.rows[id]);
  }

  /** In every history a stored target outside the canaries ran only if every stored canary succeeded. */
  lemma StoredCanariesFirst(es: seq<Engine.Event>, s: State, id: int, i: nat)
    requires History(es, s) && id in s.rows
    requires Min(s.rows[id].cfg.canary, |s.rows[id].targets|) <= i < |s.rows[id].targets| && Ran(s.rows[id].targets[i])
    ensures forall j :: 0 <= j < Min(s.rows[id].cfg.canary, |s.rows[id].targets|) ==> s.rows[id].targets[j] == TSucceeded
  {
    HistoryInv(es, s);
    assert RowOk(s.rows[id]);
    assert CanariesOk(s.rows[id]);
  }

  // ----- what the stored status says about the targets

  lemma StoredVerdict(es: seq<Engine.Event>, s: State, id: int)
    requires History(es, s) && id in s.rows
    ensures var row := s.rows[id];
      && (row.status == Succeeded ==> (forall i :: 0 <= i < |row.targets| ==> row.targets[i] == TSucceeded))
      && (row.status == Partial ==> multiset(row.targets)[TSucceeded] > 0)
      && (row.status == Partial ==> (exists i :: 0 <= i < |row.targets| && row.targets[i] != TSucceeded))
      && (Rank(row.status) == 4 && row.status != Rejected ==> (forall i :: 0 <= i < |row.targets| ==> !Undone(row.targets[i])))
      && (row.status == Rejected || Rank(row.status) <= 2 ==> (forall i :: 0 <= i < |row.targets| ==> row.targets[i] == TPending))
  {
    HistoryInv(es, s);
    assert RowOk(s.rows[id]);
  }

  predicate NoneSucceeded(row: Row) { multiset(row.targets)[TSucceeded] == 0 }

  /** Without a crash no change is running when recovery runs, and failed ones have no succeeded target. */
  ghost predicate Unbroken(s: State) {
    && (s.sched.Recovering? ==> forall id :: id in s.rows ==> s.rows[id].status != Running)
    && (forall id :: id in s.rows && s.rows[id].status == Failed ==> NoneSucceeded(s.rows[id]))
  }

  lemma ExecutedFailure(s: State, id: int)
    requires id in s.rows && id in s.execs && ExecOk(s, id) && s.rows[id].status == Failed
    ensures NoneSucceeded(s.rows[id])
  {
    var r := View(s, id);
    ExecutionRuns.SweptSettles(r);
    ExecutionRuns.ConclusiveVerdict(r, r.phase.status);
  }

  lemma UnbrokenStep(s: State, id: int, e: Execution.Event, s': State)
    requires Engine.Inv(s) && Unbroken(s) && NextStep(s, id, e) == Some(s')
    ensures Unbroken(s')
  {
    StepExec(s, id, e, s');
    StepIsLocal(s, id, e, s');
    if s'.rows[id].status == Failed {
      ExecutedFailure(s', id);
    }
  }

  lemma UnbrokenRecovery(s: State, s': State)
    requires Engine.Inv(s) && Unbroken(s) && Engine.Next(s, Recover) == Some(s')
    ensures Unbroken(s')
  {
    forall id | id in s.rows ensures s'.rows[id] == s.rows[id] {
      assert RowOk(s.rows[id]);
      RestIsUntouched(s.sched.step, s.rows[id]);
    }
  }

  lemma UnbrokenRequest(s: State, e: Engine.Event, s': State)
    requires e.Submit? || e.Vote? || e.Withdraw? || e.RunNow?
    requires Engine.Inv(s) && Unbroken(s) && Engine.Next(s, e) == Some(s')
    ensures Unbroken(s')
  {
    assert e.id in s.rows ==> RowOk(s.rows[e.id]);
    RequestRow(s, e, s');
  }

  lemma UnbrokenNext(s: State, e: Engine.Event, s': State)
    requires Engine.Inv(s) && Unbroken(s) && Engine.Next(s, e) == Some(s') && e != Crash
    ensures Unbroken(s')
  {
    if e.Step? {
      UnbrokenStep(s, e.id, e.e, s');
    } else if e.Recover? {
      UnbrokenRecovery(s, s');
    } else if e.Submit? || e.Vote? || e.Withdraw? || e.RunNow? {
      UnbrokenRequest(s, e, s');
    } else {
      UnbrokenOther(s, e, s');
    }
  }

  /** No other event makes a change failed or touches a failed one. */
  lemma UnbrokenOther(s: State, e: Engine.Event, s': State)
    requires Unbroken(s) && Engine.Next(s, e) == Some(s') && e != Crash && !e.Step? && !e.Recover?
    requires !(e.Submit? || e.Vote? || e.Withdraw? || e.RunNow?)
    ensures Unbroken(s')
  {}

  lemma {:induction false} HistoryUnbroken(es: seq<Engine.Event>, s: State)
    requires History(es, s) && Crash !in es
    ensures Unbroken(s)
    decreases |es|
  {
    if es != [] {
      var before := Last(es, s);
      HistoryUnbroken(es[..|es| - 1], before);
      UnbrokenNext(before, es[|es| - 1], s);
    }
  }

  /** A failed change of a service that never crashed has no succeeded target; only recovery fails others. */
  lemma FailedMeansNone(es: seq<Engine.Event>, s: State, id: int)
    requires History(es, s) && Crash !in es && id in s.rows && s.rows[id].status == Failed
    ensures forall i :: 0 <= i < |s.rows[id].targets| ==> s.rows[id].targets[i] == TFailed || s.rows[id].targets[i] == TSkipped
  {
    HistoryUnbroken(es, s);
    StoredVerdict(es, s, id);
    forall i | 0 <= i < |s.rows[id].targets| ensures s.rows[id].targets[i] != TSucceeded {
      assert s.rows[id].targets[i] in multiset(s.rows[id].targets);
    }
  }

  // ----- approvals

  /**
   A change that is approved, runs or has run carries exactly the approvals it needed,
   from different users, none of them its creator, and no rejection.
   */
  lemma ApprovedExactly(es: seq<Engine.Event>, s: State, id: int)
    requires History(es, s) && id in s.rows && PastApproval(s.rows[id].status)
    ensures var row := s.rows[id];
      && |row.votes| == row.required == |Voters(row.votes)|
      && (forall i :: 0 <= i < |row.votes| ==> row.votes[i].approve)
      && (forall u :: u in Voters(row.votes) ==> row.creator != Some(u))
  {
    HistoryInv(es, s);
    assert RowOk(s.rows[id]);
    VotersDistinct(s.rows[id].votes);
  }

  lemma {:induction false} VotersDistinct(votes: seq<Workflow.Vote>)
    requires forall i, j :: 0 <= i < j < |votes| ==> votes[i].user != votes[j].user
    ensures |Voters(votes)| == |votes|
  {
    if votes != [] {
      var last := |votes| - 1;
      VotersDistinct(votes[..last]);
      var user := votes[last].user;
      assert votes == votes[..last] + [votes[last]];
      assert Voters(votes) == Voters(votes[..last]) + {user};
      assert user !in Voters(votes[..last]);
    }
  }

  /** From any earlier moment of a history to a later one every row moves forward. */
  lemma {:induction false} HistoryForward(es: seq<Engine.Event>, i: nat, early: State, s: State, id: int)
    requires i <= |es| && History(es[..i], early) && History(es, s) && id in early.rows
    ensures id in s.rows && Forward(early.rows[id], s.rows[id])
    decreases |es|
  {
    if i == |es| {
      assert es[..i] == es;
    } else {
      var shorter := es[..|es| - 1];
      var before := Last(es, s);
      assert shorter[..i] == es[..i];
      HistoryForward(shorter, i, early, before, id);
      Engine.StepForward(before, es[|es| - 1], s);
    }
  }

  /** Once approved, the votes are frozen: whatever happens later, they stay exactly the required approvals. */
  lemma ApprovalIsForGood(es: seq<Engine.Event>, i: nat, early: State, s: State, id: int)
    requires i <= |es| && History(es[..i], early) && History(es, s)
    requires id in early.rows && PastApproval(early.rows[id].status)
    ensures id in s.rows && s.rows[id].votes == early.rows[id].votes && |s.rows[id].votes| == s.rows[id].required
    ensures s.rows[id].status != Rejected
  {
    HistoryForward(es, i, early, s, id);
    ApprovedExactly(es[..i], early, id);
  }

  /** A finished, cancelled or rejected change keeps its status for ever. */
  lemma FinalIsFinal(es: seq<Engine.Event>, i: nat, early: State, s: State, id: int)
    requires i <= |es| && History(es[..i], early) && History(es, s)
    requires id in early.rows && Rank(early.rows[id].status) == 4
    ensures id in s.rows && s.rows[id].status == early.rows[id].status
  {
    HistoryForward(es, i, early, s, id);
  }

  /** The event that starts the execution of change id. */
  predicate Starts(s: State, e: Engine.Event, id: int) {
    e.TickUpdate? && s.sched.Claimed? && s.sched.id == id && id in s.rows && s.rows[id].status == Approved
  }

  lemma StartRank(s: State, id: int, s': State)
    requires Starts(s, TickUpdate, id) && Engine.Next(s, TickUpdate) == Some(s')
    ensures id in s'.rows && Rank(s'.rows[id].status) == 3
  {}

  /** A change enters execution at most once in a history, restarts included. */
  lemma StartsOnce(es: seq<Engine.Event>, i: nat, j: nat, first: State, between: State, second: State, id: int)
    requires i < j < |es|
    requires History(es[..i], first) && History(es[..i + 1], between) && History(es[..j], second)
    requires Starts(first, es[i], id)
    ensures !Starts(second, es[j], id)
  {
    assert es[..i + 1][..i] == es[..i];
    LastStep(es[..i + 1], between);
    StartRank(first, id, between);
    assert es[..j][..i + 1] == es[..i + 1];
    HistoryForward(es[..j], i + 1, between, second, id);
  }

  // ----- restarts

  /** A request that names change id. */
  predicate Asks(e: Engine.Event, id: int) {
    (e.Submit? || e.Vote? || e.Withdraw? || e.RunNow?) && e.id == id
  }

  /** The statements of recovery that are through, however often they ran, have done their part of `row`. */
  ghost predicate Partly(step: nat, row: Row, r: Row) {
    && r.status == row.status && Recovered(r) == Recovered(row)
    && (step >= 1 ==> forall i :: 0 <= i < |r.targets| ==> r.targets[i] != TRunning)
    && (step >= 2 ==> forall i :: 0 <= i < |r.targets| ==> r.targets[i] != TPending)
  }

  /** One step of a restart seen from a row: recovery goes on, or the row stays. */
  lemma RestartStep(s: State, e: Engine.Event, s': State, id: int)
    requires Engine.Inv(s) && s.sched.Recovering? && Engine.Next(s, e) == Some(s') && e != Crash && id in s.rows
    requires !Asks(e, id) || s.rows[id].status == Running
    ensures id in s'.rows && (e == Recover || (s'.rows[id] == s.rows[id] && s'.sched == s.sched))
    ensures e == Recover ==> s'.rows[id] == RecoverRow(s.sched.step, s.rows[id])
  {
    if e.Submit? || e.Vote? || e.Withdraw? || e.RunNow? {
      assert e.id in s.rows ==> RowOk(s.rows[e.id]);
      RequestRow(s, e, s');
    }
  }

  /** What a restart has made of a row so far: a running change is partly recovered, another as it was. */
  ghost predicate Recovering(row: Row, s: State, id: int) {
    && s.sched.Recovering? && s.sched.step <= 2 && id in s.rows
    && if row.status == Running then Partly(s.sched.step, row, s.rows[id]) else s.rows[id] == row
  }

  /** One more statement. */
  lemma PartlyNext(step: nat, row: Row, r: Row)
    requires step < 2 && row.status == Running && Partly(step, row, r)
    ensures Partly(step + 1, row, RecoverRow(step, r))
  {
    var failed := FailRunning(r.targets);
    assert FailRunning(failed) == failed;
    assert FailRunning(Sweep(failed)) == Sweep(failed);
    assert Sweep(Sweep(failed)) == Sweep(failed);
    if step == 1 {
      assert failed == r.targets;
    }
  }

  lemma PartlyDone(row: Row, r: Row)
    requires row.status == Running && Partly(2, row, r)
    ensures RecoverRow(2, r) == Recovered(row)
  {
    assert FailRunning(r.targets) == r.targets;
    assert Sweep(r.targets) == r.targets;
  }

  lemma RecoverMoves(s: State, s': State)
    requires s.sched.Recovering? && Engine.Next(s, Recover) == Some(s') && s'.sched.Recovering?
    ensures s'.sched.step == s.sched.step + 1 <= 2
  {}

  /** One event of a restart, another crash included. */
  lemma RecoveringNext(row: Row, s: State, e: Engine.Event, s': State, id: int)
    requires Engine.Inv(s) && Engine.Next(s, e) == Some(s') && s'.sched.Recovering?
    requires Recovering(row, s, id) && (row.status == Running || !Asks(e, id))
    ensures Recovering(row, s', id)
  {
    if e == Recover {
      RecoverMoves(s, s');
      RestartStep(s, e, s', id);
      if row.status == Running {
        PartlyNext(s.sched.step, row, s.rows[id]);
      } else {
        assert RowOk(s.rows[id]);
        RestIsUntouched(s.sched.step, s.rows[id]);
      }
    } else if e != Crash {
      RestartStep(s, e, s', id);
    }
  }

  /** The last statement leaves the row recovered. */
  lemma RecoveringEnds(row: Row, s: State, s': State, id: int)
    requires Engine.Inv(s) && Engine.Next(s, Recover) == Some(s') && s'.sched == Resting
    requires Recovering(row, s, id)
    ensures id in s'.rows && s'.rows[id] == if row.status == Running then Recovered(row) else row
  {
    RestartStep(s, Recover, s', id);
    if row.status == Running {
      PartlyDone(row, s.rows[id]);
    } else {
      assert RowOk(s.rows[id]);
      RestIsUntouched(s.sched.step, s.rows[id]);
    }
  }

  /** After a crash and these events the service is still in recovery. */
  ghost predicate Down(pre: seq<Engine.Event>, mid: seq<Engine.Event>) {
    var end := Run(START, pre + [Crash] + mid);
    end.Some? && end.value.sched.Recovering?
  }

  /** From the crash on the service never came back up. */
  ghost predicate StaysDown(pre: seq<Engine.Event>, mid: seq<Engine.Event>) {
    forall i :: 0 <= i <= |mid| ==> Down(pre, mid[..i])
  }

  /** The state before the last event since the crash. */
  lemma RestartBefore(pre: seq<Engine.Event>, init: seq<Engine.Event>, e: Engine.Event, mid: seq<Engine.Event>, s: State)
    returns (before: State)
    requires mid == init + [e] && History(pre + [Crash] + mid, s)
    ensures History(pre + [Crash] + init, before) && Engine.Inv(before) && Engine.Next(before, e) == Some(s)
    ensures Down(pre, init) <==> before.sched.Recovering?
    ensures Down(pre, mid) <==> s.sched.Recovering?
  {
    var es := pre + [Crash] + mid;
    assert es[..|es| - 1] == pre + [Crash] + init && es[|es| - 1] == e;
    LastStep(es, s);
    before := Run(START, pre + [Crash] + init).value;
    HistoryInv(pre + [Crash] + init, before);
  }

  lemma DownLonger(pre: seq<Engine.Event>, init: seq<Engine.Event>, mid: seq<Engine.Event>, e: Engine.Event)
    requires mid == init + [e] && Down(pre, mid)
    ensures StaysDown(pre, init) ==> StaysDown(pre, mid)
  {
    assert mid[..|mid|] == mid;
    assert forall i :: 0 <= i <= |init| ==> init[..i] == mid[..i];
  }

  /** Only a crash takes the service back into recovery. */
  lemma StillRecovering(s: State, e: Engine.Event, s': State)
    requires Engine.Next(s, e) == Some(s') && s'.sched.Recovering? && e != Crash
    ensures s.sched.Recovering?
  {}

  /** Without a further crash it is enough that recovery is still on. */
  lemma {:induction false} DownWithoutCrash(pre: seq<Engine.Event>, mid: seq<Engine.Event>, s: State)
    requires History(pre + [Crash] + mid, s) && s.sched.Recovering? && Crash !in mid
    ensures StaysDown(pre, mid)
    decreases |mid|
  {
    if mid == [] {
      assert mid[..0] == mid;
    } else {
      var init, e := mid[..|mid| - 1], mid[|mid| - 1];
      var before := RestartBefore(pre, init, e, mid, s);
      StillRecovering(before, e, s);
      DownWithoutCrash(pre, init, before);
      DownLonger(pre, init, mid, e);
    }
  }

  lemma DownShorter(pre: seq<Engine.Event>, init: seq<Engine.Event>, mid: seq<Engine.Event>, e: Engine.Event)
    requires mid == init + [e] && StaysDown(pre, mid)
    ensures StaysDown(pre, init) && Down(pre, init) && Down(pre, mid)
  {
    assert mid[..|mid|] == mid && mid[..|init|] == init;
    assert forall i :: 0 <= i <= |init| ==> init[..i] == mid[..i];
  }

  lemma JustCrashed(pre: seq<Engine.Event>, crashed: State)
    requires History(pre + [Crash], crashed)
    ensures crashed.sched == Engine.Sched.Recovering(0)
  {
    LastStep(pre + [Crash], crashed);
  }

  lemma {:induction false} RestartSoFar(pre: seq<Engine.Event>, mid: seq<Engine.Event>, crashed: State, s: State, id: int)
    requires History(pre + [Crash], crashed) && History(pre + [Crash] + mid, s) && StaysDown(pre, mid)
    requires id in crashed.rows
    requires crashed.rows[id].status == Running || forall i :: 0 <= i < |mid| ==> !Asks(mid[i], id)
    ensures Recovering(crashed.rows[id], s, id)
    decreases |mid|
  {
    if mid == [] {
      assert pre + [Crash] + mid == pre + [Crash];
      JustCrashed(pre, crashed);
    } else {
      var init, e := mid[..|mid| - 1], mid[|mid| - 1];
      var before := RestartBefore(pre, init, e, mid, s);
      DownShorter(pre, init, mid, e);
      RestartSoFar(pre, init, crashed, before, id);
      RecoveringNext(crashed.rows[id], before, e, s, id);
    }
  }

  /**
   Over a whole restart, from the crash to the last statement of recovery, whatever requests
   and further crashes come in between: every change that was running when the service first
   crashed is failed with all targets decided, and a change without a request of its own is as
   it was then.
   */
  lemma RestartSettles(pre: seq<Engine.Event>, mid: seq<Engine.Event>, up: State, s: State, id: int)
    requires History(pre, up) && History(pre + [Crash] + mid + [Recover], s) && StaysDown(pre, mid)
    requires s.sched == Resting && id in up.rows
    requires up.rows[id].status == Running || forall i :: 0 <= i < |mid| ==> !Asks(mid[i], id)
    ensures id in s.rows
    ensures up.rows[id].status == Running ==>
      && s.rows[id] == Recovered(up.rows[id]) && s.rows[id].status == Failed
      && forall i :: 0 <= i < |s.rows[id].targets| ==> !Undone(s.rows[id].targets[i])
    ensures up.rows[id].status != Running ==> s.rows[id] == up.rows[id]
  {
    var es := pre + [Crash] + mid + [Recover];
    assert es[..|es| - 1] == pre + [Crash] + mid;
    LastStep(es, s);
    var before := Run(START, pre + [Crash] + mid).value;
    HistoryInv(pre + [Crash] + mid, before);
    var crashed := CrashKeepsRows(pre, up);
    RestartSoFar(pre, mid, crashed, before, id);
    RecoveringEnds(crashed.rows[id], before, s, id);
    HistoryInv(pre, up);
    assert RowOk(up.rows[id]);
    RecoveredSettles(up.rows[id]);
  }

  /** A crash loses what the process held in memory and no row. */
  lemma CrashKeepsRows(pre: seq<Engine.Event>, up: State) returns (crashed: State)
    requires History(pre, up)
    ensures History(pre + [Crash], crashed) && crashed.rows == up.rows
    ensures crashed.running == {} && crashed.cancel == {} && crashed.execs == map[]
  {
    assert (pre + [Crash])[..|pre|] == pre;
    crashed := Run(START, pre + [Crash]).value;
  }

  lemma RecoveredSettles(row: Row)
    requires RowOk(row)
    ensures row.status != Running ==> Recovered(row) == row
    ensures row.status == Running ==> Recovered(row).status == Failed
    ensures row.status == Running ==> forall i :: 0 <= i < |Recovered(row).targets| ==> !Undone(Recovered(row).targets[i])
  {
    RecoveredRow(row);
  }

  /** When recovery is through nothing is stored as running. */
  lemma NothingRunsAfterRecovery(es: seq<Engine.Event>, s: State, id: int)
    requires es != [] && History(es, s) && es[|es| - 1] == Recover && s.sched == Resting && id in s.rows
    ensures s.rows[id].status != Running
  {
    LastStep(es, s);
    HistoryInv(es, s);
  }
}
