/**
 The targets of one stored change told from a history of the service: what the runner
 reported, what a restart interrupted, why the rest was skipped. An execution inside a
 history is a run of its own machine, so what holds over all runs holds for stored rows.
 */
module TargetHistories {
  import opened Common
  import opened Execution
  import opened Workflow
  import opened Engine
  import opened EngineRuns
  import opened RolloutHistories
  import ExecutionRuns
  import ExecutionOutcomes

  // ----- stored outcomes

  /** A restart found target i running. */
  ghost predicate Interrupted(es: seq<Engine.Event>, id: int, i: nat) {
    exists a, b :: 0 <= a < b < |es| && es[a] == Step(id, Begin(i)) && es[b] == Recover
  }

  ghost predicate TargetTold(es: seq<Engine.Event>, t: Target, id: int, i: nat) {
    && (t == TSucceeded <==> Step(id, End(i, true)) in es)
    && (t == TFailed <==> Step(id, End(i, false)) in es || (Step(id, End(i, true)) !in es && Interrupted(es, id, i)))
    && (Ran(t) <==> Step(id, Begin(i)) in es)
  }

  /** Only recovery interrupts, and it interrupts whatever has begun. */
  lemma InterruptedNext(es: seq<Engine.Event>, e: Engine.Event, id: int, i: nat)
    ensures Interrupted(es + [e], id, i) <==> Interrupted(es, id, i) || (e == Recover && Step(id, Begin(i)) in es)
  {
    var all := es + [e];
    if a, b :| 0 <= a < b < |es| && es[a] == Step(id, Begin(i)) && es[b] == Recover {
      assert all[a] == Step(id, Begin(i)) && all[b] == Recover;
    }
    if e == Recover && Step(id, Begin(i)) in es {
      var a :| 0 <= a < |es| && es[a] == Step(id, Begin(i));
      assert all[a] == Step(id, Begin(i)) && all[|es|] == Recover;
    }
    if a, b :| 0 <= a < b < |all| && all[a] == Step(id, Begin(i)) && all[b] == Recover {
      assert es[a] == Step(id, Begin(i));
    }
  }

  /** An event after which the row of target i is as before, or skipped instead of pending. */
  lemma TargetKept(es: seq<Engine.Event>, e: Engine.Event, t: Target, t': Target, id: int, i: nat)
    requires TargetTold(es, t, id, i) && (t' == t || (t == TPending && t' == TSkipped))
    requires e != Recover && e != Step(id, Begin(i)) && e != Step(id, End(i, true)) && e != Step(id, End(i, false))
    ensures TargetTold(es + [e], t', id, i)
  {
    InterruptedNext(es, e, id, i);
  }

  lemma TargetSteps(es: seq<Engine.Event>, e: Execution.Event, t: Target, t': Target, id: int, i: nat)
    requires TargetTold(es, t, id, i)
    requires e == Begin(i) ==> t == TPending && t' == TRunning
    requires e == End(i, true) ==> t == TRunning && t' == TSucceeded
    requires e == End(i, false) ==> t == TRunning && t' == TFailed
    requires e != Begin(i) && e != End(i, true) && e != End(i, false) ==> t' == t || (t == TPending && t' == TSkipped)
    ensures TargetTold(es + [Step(id, e)], t', id, i)
  {
    InterruptedNext(es, Step(id, e), id, i);
  }

  lemma TargetRecovers(es: seq<Engine.Event>, t: Target, t': Target, id: int, i: nat)
    requires TargetTold(es, t, id, i)
    requires if t == TRunning then t' == TFailed else t' == t || (t == TPending && t' == TSkipped)
    ensures TargetTold(es + [Recover], t', id, i)
  {
    InterruptedNext(es, Recover, id, i);
  }

  lemma StepTarget(es: seq<Engine.Event>, s: State, id: int, e: Execution.Event, s': State, i: nat)
    requires Engine.Inv(s) && NextStep(s, id, e) == Some(s') && id in s.rows && i < |s.rows[id].targets|
    requires TargetTold(es, s.rows[id].targets[i], id, i)
    ensures id in s'.rows && i < |s'.rows[id].targets| && TargetTold(es + [Step(id, e)], s'.rows[id].targets[i], id, i)
  {
    assert ExecOk(s, id);
    StepView(s, id, e, s');
    ExecutionOutcomes.RowNext(View(s, id), e, View(s', id), i);
    TargetSteps(es, e, s.rows[id].targets[i], s'.rows[id].targets[i], id, i);
  }

  /** Recovery fails a running target whatever statement it is at. */
  lemma RecoverTarget(es: seq<Engine.Event>, s: State, s': State, id: int, i: nat)
    requires Engine.Inv(s) && Engine.Next(s, Recover) == Some(s') && id in s.rows && i < |s.rows[id].targets|
    requires TargetTold(es, s.rows[id].targets[i], id, i)
    ensures id in s'.rows && i < |s'.rows[id].targets| && TargetTold(es + [Recover], s'.rows[id].targets[i], id, i)
  {
    var row := s.rows[id];
    assert RowOk(row) && SweptTo(s.sched.step, row);
    assert s.sched.step >= 1 ==> row.targets[i] != TRunning;
    TargetRecovers(es, row.targets[i], s'.rows[id].targets[i], id, i);
  }

  /** Requests, locks and crashes leave the rows of targets, or skip the pending ones. */
  lemma OtherTarget(s: State, e: Engine.Event, s': State, id: int, i: nat)
    requires Engine.Inv(s) && Engine.Next(s, e) == Some(s') && id in s.rows && i < |s.rows[id].targets|
    requires e != Recover && !(e.Step? && e.id == id)
    ensures id in s'.rows && i < |s'.rows[id].targets|
    ensures var t, t' := s.rows[id].targets[i], s'.rows[id].targets[i]; t' == t || (t == TPending && t' == TSkipped)
  {
    if !Names(s, e, id) {
      OtherEvents(s, e, s', id);
    }
  }

  lemma TargetNext(es: seq<Engine.Event>, s: State, e: Engine.Event, s': State, id: int, i: nat)
    requires Engine.Inv(s) && Engine.Next(s, e) == Some(s') && id in s.rows && i < |s.rows[id].targets|
    requires TargetTold(es, s.rows[id].targets[i], id, i)
    ensures id in s'.rows && i < |s'.rows[id].targets| && TargetTold(es + [e], s'.rows[id].targets[i], id, i)
  {
    if e == Recover {
      RecoverTarget(es, s, s', id, i);
    } else if e.Step? && e.id == id {
      StepTarget(es, s, id, e.e, s', i);
    } else {
      OtherTarget(s, e, s', id, i);
      TargetKept(es, e, s.rows[id].targets[i], s'.rows[id].targets[i], id, i);
    }
  }

  lemma TargetCreated(es: seq<Engine.Event>, s: State, e: Engine.Event, s': State, id: int, i: nat)
    requires Engine.Inv(s) && Engine.Next(s, e) == Some(s') && id !in s.rows && id in s'.rows && i < |s'.rows[id].targets|
    requires forall k :: 0 <= k < |es| ==> !Marks(es[k], id)
    ensures TargetTold(es + [e], s'.rows[id].targets[i], id, i)
  {
    assert e.Create? && e.id == id;
    assert s'.rows[id].targets[i] == TPending;
    InterruptedNext(es, e, id, i);
  }

  lemma {:induction false} HistoryTargets(es: seq<Engine.Event>, s: State, id: int, i: nat)
    requires History(es, s) && id in s.rows && i < |s.rows[id].targets|
    ensures TargetTold(es, s.rows[id].targets[i], id, i)
    decreases |es|
  {
    if es != [] {
      var init, e := es[..|es| - 1], es[|es| - 1];
      var before := Last(es, s);
      if id in before.rows {
        TargetsStay(before, e, s, id);
        HistoryTargets(init, before, id, i);
        TargetNext(init, before, e, s, id, i);
      } else {
        HistoryTold(init, before, id);
        TargetCreated(init, before, e, s, id, i);
      }
    }
  }

  lemma TargetsStay(s: State, e: Engine.Event, s': State, id: int)
    requires Engine.Inv(s) && Engine.Next(s, e) == Some(s') && id in s.rows
    ensures id in s'.rows && |s'.rows[id].targets| == |s.rows[id].targets|
  {
    StepForward(s, e, s');
    Engine.StepInv(s, e, s');
    assert Forward(s.rows[id], s'.rows[id]) && RowOk(s.rows[id]) && RowOk(s'.rows[id]);
  }

  /**
   In every history, restarts included, a stored target succeeded exactly if its runner
   reported success; it failed exactly if the runner reported a failure, or a restart came
   before it reported anything; it is running exactly in between.
   */
  lemma StoredOutcome(es: seq<Engine.Event>, s: State, id: int, i: nat)
    requires History(es, s) && id in s.rows && i < |s.rows[id].targets|
    ensures var t, good, bad := s.rows[id].targets[i], Step(id, End(i, true)) in es, Step(id, End(i, false)) in es;
      && (t == TSucceeded <==> good)
      && (t == TFailed <==> bad || (!good && Interrupted(es, id, i)))
      && (t == TRunning <==> Step(id, Begin(i)) in es && !good && !bad && !Interrupted(es, id, i))
  {
    HistoryTargets(es, s, id, i);
  }

  // ----- an execution inside a history is a run

  /** What a history does to the execution of change id. */
  function Own(es: seq<Engine.Event>, id: int): seq<Execution.Event> {
    if es == [] then []
    else
      var e := es[|es| - 1];
      Own(es[..|es| - 1], id)
      + if e.Step? && e.id == id then [e.e] else if e == FlagCancel(id) then [CancelFlag] else []
  }

  lemma OwnNext(es: seq<Engine.Event>, e: Engine.Event, id: int)
    ensures Own(es + [e], id) == Own(es, id)
      + if e.Step? && e.id == id then [e.e] else if e == FlagCancel(id) then [CancelFlag] else []
  {
    assert (es + [e])[..|es|] == es;
  }

  lemma {:induction false} NothingOwn(es: seq<Engine.Event>, id: int)
    requires forall k :: 0 <= k < |es| ==> !Marks(es[k], id)
    ensures Own(es, id) == []
  {
    if es != [] {
      NothingOwn(es[..|es| - 1], id);
    }
  }

  lemma {:induction false} OwnMember(es: seq<Engine.Event>, id: int, e: Execution.Event)
    ensures e in Own(es, id) <==> if e == CancelFlag then FlagCancel(id) in es || Step(id, e) in es else Step(id, e) in es
  {
    if es != [] {
      var init, last := es[..|es| - 1], es[|es| - 1];
      OwnMember(init, id, e);
      assert es == init + [last];
    }
  }

  /** The execution of change id has come as far as the events of its own since it started. */
  ghost predicate Runs(es: seq<Engine.Event>, s: State, id: int) {
    && id in s.rows && id in s.execs
    && ExecutionRuns.Reaches(s.rows[id].cfg, |s.rows[id].targets|, Own(es, id), View(s, id))
  }

  lemma RunsStart(es: seq<Engine.Event>, s: State, s': State, id: int)
    requires Engine.Inv(s) && Engine.Next(s, TickUpdate) == Some(s') && id !in s.execs && id in s'.execs
    requires ToldOf(es, s, id)
    ensures Runs(es + [TickUpdate], s', id)
  {
    var row := s.rows[id];
    assert RowOk(row) && Told(es, s, id);
    NothingOwn(es, id);
    OwnNext(es, TickUpdate, id);
    assert row.targets == seq(|row.targets|, _ => TPending);
    assert View(s', id) == Init(row.cfg, |row.targets|);
  }

  lemma RunsStep(es: seq<Engine.Event>, s: State, e: Execution.Event, s': State, id: int)
    requires Engine.Inv(s) && NextStep(s, id, e) == Some(s') && Runs(es, s, id)
    ensures Runs(es + [Step(id, e)], s', id)
  {
    StepView(s, id, e, s');
    StepKeeps(View(s, id), e, View(s', id));
    OwnNext(es, Step(id, e), id);
    ExecutionRuns.Extend(Init(s.rows[id].cfg, |s.rows[id].targets|), Own(es, id), View(s, id), e, View(s', id));
  }

  lemma FlagView(s: State, s': State, id: int)
    requires Engine.Next(s, FlagCancel(id)) == Some(s') && id in s.rows && id in s.execs
    ensures id in s'.rows && id in s'.execs && View(s', id) == View(s, id).(cancel := true)
  {}

  lemma RunsFlag(es: seq<Engine.Event>, s: State, s': State, id: int)
    requires Runs(es, s, id) && id in s'.rows && id in s'.execs && View(s', id) == View(s, id).(cancel := true)
    ensures Runs(es + [FlagCancel(id)], s', id)
  {
    OwnNext(es, FlagCancel(id), id);
    ExecutionRuns.Extend(Init(s.rows[id].cfg, |s.rows[id].targets|), Own(es, id), View(s, id), CancelFlag, View(s', id));
  }

  lemma RunsOther(es: seq<Engine.Event>, s: State, e: Engine.Event, s': State, id: int)
    requires Runs(es, s, id) && SameFor(s, s', id) && !Marks(e, id)
    ensures Runs(es + [e], s', id)
  {
    OwnNext(es, e, id);
    assert Own(es, id) + [] == Own(es, id);
    assert View(s', id) == View(s, id);
  }

  /** Nothing but its own steps and its flag touches a change in execution, unless it ends. */
  lemma ExecutingIsLeft(s: State, e: Engine.Event, s': State, id: int)
    requires Engine.Inv(s) && Engine.Next(s, e) == Some(s') && id in s.rows && id in s.execs && Rank(s.rows[id].status) >= 3
    requires id in s'.execs && !Marks(e, id)
    ensures SameFor(s, s', id)
  {
    if !Names(s, e, id) {
      OtherEvents(s, e, s', id);
    } else if e.Submit? || e.Vote? || e.Withdraw? || e.RunNow? {
      assert RowOk(s.rows[id]);
      RequestRow(s, e, s');
    }
  }

  lemma RunsNext(es: seq<Engine.Event>, s: State, e: Engine.Event, s': State, id: int)
    requires Engine.Inv(s) && Engine.Next(s, e) == Some(s') && Runs(es, s, id) && id in s'.execs
    ensures Runs(es + [e], s', id)
  {
    if e == FlagCancel(id) {
      FlagView(s, s', id);
      RunsFlag(es, s, s', id);
    } else if e.Step? && e.id == id {
      RunsStep(es, s, e.e, s', id);
    } else {
      assert ExecOk(s, id);
      ExecRank(s, id);
      ExecutingIsLeft(s, e, s', id);
      RunsOther(es, s, e, s', id);
    }
  }

  /** The events of its own that a history gives a change in execution are a run that leads to where it is. */
  lemma {:induction false} OwnRun(es: seq<Engine.Event>, s: State, id: int)
    requires History(es, s) && id in s.execs
    ensures Runs(es, s, id)
    decreases |es|
  {
    assert es != [];
    var init, e := es[..|es| - 1], es[|es| - 1];
    var before := Last(es, s);
    if id in before.execs {
      OwnRun(init, before, id);
      RunsNext(init, before, e, s, id);
    } else {
      OwnStarts(init, before, e, s, id);
    }
  }

  lemma OwnStarts(init: seq<Engine.Event>, before: State, e: Engine.Event, s: State, id: int)
    requires History(init, before) && Engine.Inv(before) && Engine.Next(before, e) == Some(s)
    requires id !in before.execs && id in s.execs
    ensures Runs(init + [e], s, id)
  {
    OnlyUpdateStarts(before, e, s, id);
    HistoryTold(init, before, id);
    RunsStart(init, before, s, id);
  }

  lemma OnlyUpdateStarts(s: State, e: Engine.Event, s': State, id: int)
    requires Engine.Next(s, e) == Some(s') && id !in s.execs && id in s'.execs
    ensures e == TickUpdate
  {}

  // ----- a change whose execution stored its status

  /** The row is what the run of its execution left when it stored the status. */
  ghost predicate LeftBy(es: seq<Engine.Event>, s: State, id: int, k: nat, r: Rollout) {
    && k <= |es| && id in s.rows && r.phase.Written?
    && ExecutionRuns.Reaches(s.rows[id].cfg, |s.rows[id].targets|, Own(es[..k], id), r)
    && s.rows[id].targets == r.targets && s.rows[id].status == r.phase.status && Rank(r.phase.status) == 4
  }

  /** A change that has ended is changed by nothing any more. */
  lemma EndedStays(s: State, e: Engine.Event, s': State, id: int)
    requires Engine.Inv(s) && Engine.Next(s, e) == Some(s') && id in s.rows && Rank(s.rows[id].status) == 4
    ensures id in s'.rows && s'.rows[id] == s.rows[id]
  {
    assert RowOk(s.rows[id]);
    if !Names(s, e, id) {
      OtherEvents(s, e, s', id);
    } else if e.Submit? || e.Vote? || e.Withdraw? || e.RunNow? {
      RequestRow(s, e, s');
    } else if e == Recover {
      RestIsUntouched(s.sched.step, s.rows[id]);
    } else if e.Step? {
      StepExec(s, id, e.e, s');
    }
  }

  lemma WriteWrites(s: State, id: int, s': State)
    requires NextStep(s, id, WriteStatus) == Some(s')
    ensures id in s'.rows && id in s'.execs && s'.execs[id].phase.Written?
  {}

  lemma WriteLeaves(es: seq<Engine.Event>, s: State, id: int)
    requires History(es, s) && id in s.rows && id in s.execs && ExecOk(s, id) && s.execs[id].phase.Written?
    ensures LeftBy(es, s, id, |es|, View(s, id))
  {
    OwnRun(es, s, id);
    assert es[..|es|] == es;
    WrittenStatus(s, id);
  }

  lemma LeftStays(init: seq<Engine.Event>, es: seq<Engine.Event>, s: State, s': State, id: int, k: nat, r: Rollout)
    requires LeftBy(init, s, id, k, r) && init <= es && id in s'.rows && s'.rows[id] == s.rows[id]
    ensures LeftBy(es, s', id, k, r)
  {
    assert es[..k] == init[..k];
  }

  /** What an execution stored in a history is what a run of it left, for good. */
  lemma {:induction false} WrittenByRun(es: seq<Engine.Event>, s: State, id: int) returns (k: nat, r: Rollout)
    requires History(es, s) && Step(id, WriteStatus) in es
    ensures LeftBy(es, s, id, k, r)
    decreases |es|
  {
    var init, e := es[..|es| - 1], es[|es| - 1];
    var before := Last(es, s);
    if e == Step(id, WriteStatus) {
      WriteWrites(before, id, s);
      HistoryInv(es, s);
      WriteLeaves(es, s, id);
      k, r := |es|, View(s, id);
    } else {
      k, r := WrittenByRun(init, before, id);
      EndedStays(before, e, s, id);
      LeftStays(init, es, before, s, id, k, r);
    }
  }

  lemma OwnPrefix(es: seq<Engine.Event>, k: nat, id: int, e: Execution.Event)
    requires k <= |es| && e in Own(es[..k], id)
    ensures if e == CancelFlag then FlagCancel(id) in es || Step(id, e) in es else Step(id, e) in es
  {
    OwnMember(es[..k], id, e);
    assert es == es[..k] + es[k..];
  }

  /** A step of an execution is never the flag. */
  lemma {:induction false} NoFlagStep(es: seq<Engine.Event>, s: State, id: int)
    requires History(es, s)
    ensures Step(id, CancelFlag) !in es
    decreases |es|
  {
    if es != [] {
      var before := Last(es, s);
      NoFlagStep(es[..|es| - 1], before, id);
    }
  }

  /**
   Why a stored change that ran to its end, and was not asked to stop, has a skipped target. A
   canary: exactly when more than MaxFailures of the canaries before it failed. Another target:
   always when a canary did not succeed, otherwise only after more than MaxFailures failures.
   */
  lemma StoredSkips(es: seq<Engine.Event>, s: State, id: int, i: nat)
    requires History(es, s) && Step(id, WriteStatus) in es && FlagCancel(id) !in es
    requires id in s.rows && i < |s.rows[id].targets|
    ensures var row := s.rows[id];
      var c := Min(row.cfg.canary, |row.targets|);
      && (i < c ==> (row.targets[i] == TSkipped <==> ExecutionOutcomes.FailedBefore(row.targets, i) > row.cfg.maxFailures))
      && (c <= i && (exists j :: 0 <= j < c && row.targets[j] != TSucceeded) ==> row.targets[i] == TSkipped)
      && (c <= i && (forall j :: 0 <= j < c ==> row.targets[j] == TSucceeded) ==>
            (row.targets[i] == TSkipped ==> multiset(row.targets)[TFailed] > row.cfg.maxFailures))
  {
    var k, r := WrittenByRun(es, s, id);
    NoFlagStep(es, s, id);
    if CancelFlag in Own(es[..k], id) {
      OwnPrefix(es, k, id, CancelFlag);
      assert false;
    }
    HistoryInv(es, s);
    assert RowOk(s.rows[id]);
    ExecutionOutcomes.SkippedForAReason(s.rows[id].cfg, |s.rows[id].targets|, Own(es[..k], id), r, i);
  }

  /** A change that ran to its end without a failure, and was not asked to stop, succeeded on every device. */
  lemma StoredSuccess(es: seq<Engine.Event>, s: State, id: int)
    requires History(es, s) && Step(id, WriteStatus) in es && FlagCancel(id) !in es
    requires forall i :: Step(id, End(i, false)) !in es
    ensures id in s.rows && s.rows[id].status == Succeeded
    ensures forall i :: 0 <= i < |s.rows[id].targets| ==> s.rows[id].targets[i] == TSucceeded
  {
    var k, r := WrittenByRun(es, s, id);
    NoFlagStep(es, s, id);
    var own := Own(es[..k], id);
    forall e | e in own ensures e != CancelFlag && !(e.End? && !e.ok) {
      OwnPrefix(es, k, id, e);
    }
    HistoryInv(es, s);
    var row := s.rows[id];
    assert RowOk(row);
    ExecutionOutcomes.NothingLoaded(row.cfg, |row.targets|, own, r);
    forall i ensures End(i, false) !in own {}
    ExecutionOutcomes.AllWellSucceeds(row.cfg, |row.targets|, own, r);
  }
}
