/**
 One change followed through a history of the service, between the requests, executions,
 crashes and restarts of all others: how many steps it takes and whether it ends cancelled.
 */
module RolloutHistories {
  import opened Common
  import opened Execution
  import opened Workflow
  import opened Engine
  import opened EngineRuns
  import ExecutionRuns

  // ----- what concerns a change

  predicate Names(s: State, e: Engine.Event, id: int) {
    match e
    case Submit(x) => x == id
    case Vote(x, _, _) => x == id
    case Withdraw(x) => x == id
    case RunNow(x) => x == id
    case FlagCancel(x) => x == id
    case Step(x, _) => x == id
    case Unlock(x) => x == id
    case TickUpdate => s.sched.Claimed? && s.sched.id == id
    case Crash => true
    case Recover => true
    case _ => false
  }

  /** The change, its execution and its flag are as before. */
  ghost predicate SameFor(s: State, s': State, id: int) {
    && id in s.rows && id in s'.rows && s'.rows[id] == s.rows[id]
    && (id in s'.execs <==> id in s.execs) && (id in s.execs ==> s'.execs[id] == s.execs[id])
    && (id in s'.cancel <==> id in s.cancel)
  }

  lemma OtherEvents(s: State, e: Engine.Event, s': State, id: int)
    requires id in s.rows && Engine.Next(s, e) == Some(s') && !Names(s, e, id)
    ensures SameFor(s, s', id)
  {}

  /** A step of the execution is a step of its machine. */
  lemma StepView(s: State, id: int, e: Execution.Event, s': State)
    requires NextStep(s, id, e) == Some(s')
    ensures id in s'.rows && id in s'.execs && Execution.Next(View(s, id), e) == Some(View(s', id)) && e != Execution.CancelFlag
  {
    StepCancel(View(s, id), e, Execution.Next(View(s, id), e).value);
    StepKeeps(View(s, id), e, Execution.Next(View(s, id), e).value);
  }

  // ----- how many steps it takes

  /** The steps of change id's execution. */
  function Steps(es: seq<Engine.Event>, id: int): nat {
    if es == [] then 0
    else Steps(es[..|es| - 1], id) + if es[|es| - 1].Step? && es[|es| - 1].id == id then 1 else 0
  }

  /** The steps it can still take. */
  function Budget(s: State, id: int): int
    requires id in s.rows
  {
    if id in s.execs then ExecutionRuns.Measure(View(s, id))
    else if Rank(s.rows[id].status) <= 2 then 10 * |s.rows[id].targets| + 11
    else 0
  }

  lemma BudgetNat(s: State, id: int)
    requires Engine.Inv(s) && id in s.rows
    ensures Budget(s, id) >= 0
  {
    if id in s.execs {
      assert ExecOk(s, id);
      ExecutionRuns.MeasureNat(View(s, id));
    }
  }

  lemma FlagBudget(s: State, id: int, s': State)
    requires id in s.rows && Engine.Next(s, FlagCancel(id)) == Some(s')
    ensures id in s'.rows && Budget(s', id) == Budget(s, id)
  {
    if id in s.execs {
      assert View(s', id) == View(s, id).(cancel := true);
    }
  }

  lemma StartBudget(s: State, s': State)
    requires Engine.Inv(s) && s.sched.Claimed? && NextUpdate(s) == Some(s')
    ensures s.sched.id in s.rows && s.sched.id in s'.rows && Budget(s', s.sched.id) <= Budget(s, s.sched.id)
  {
    var id := s.sched.id;
    assert id !in s.execs;
    if s.rows[id].status == Approved {
      var row := s.rows[id];
      assert RowOk(row);
      assert View(s', id).work == seq(|row.targets|, _ => Idle);
      ExecutionRuns.InitialWork(|row.targets|);
    }
  }

  lemma StepBudget(s: State, id: int, e: Execution.Event, s': State)
    requires Engine.Inv(s) && NextStep(s, id, e) == Some(s')
    ensures id in s.rows && id in s'.rows && Budget(s', id) < Budget(s, id)
  {
    assert ExecOk(s, id);
    StepView(s, id, e, s');
    ExecutionRuns.StepDecreases(View(s, id), e, View(s', id));
  }

  /** What ends an execution, a crash too, leaves the change with no step to take. */
  lemma EndBudget(s: State, e: Engine.Event, s': State, id: int)
    requires Engine.Inv(s) && id in s.rows && Engine.Next(s, e) == Some(s') && (e == Unlock(id) || e == Crash)
    ensures id in s'.rows && Budget(s', id) <= Budget(s, id)
  {
    BudgetNat(s, id);
    if id in s.execs {
      ExecRank(s, id);
    }
  }

  lemma RequestBudget(s: State, e: Engine.Event, s': State, id: int)
    requires Engine.Inv(s) && (e.Submit? || e.Vote? || e.Withdraw? || e.RunNow?) && e.id == id
    requires Engine.Next(s, e) == Some(s')
    ensures id in s.rows && id in s'.rows && Budget(s', id) <= Budget(s, id)
  {
    assert id in s.rows ==> RowOk(s.rows[id]);
    RequestRow(s, e, s');
    NotExecuting(s);
    assert |s'.rows[id].targets| == |s.rows[id].targets|;
  }

  lemma RecoverBudget(s: State, s': State, id: int)
    requires Engine.Inv(s) && id in s.rows && Engine.Next(s, Recover) == Some(s')
    ensures id in s'.rows && Budget(s', id) <= Budget(s, id)
  {
    assert RowOk(s.rows[id]);
    if s.rows[id].status != Running {
      RestIsUntouched(s.sched.step, s.rows[id]);
    }
  }

  lemma NextBudget(s: State, e: Engine.Event, s': State, id: int)
    requires Engine.Inv(s) && id in s.rows && Engine.Next(s, e) == Some(s')
    ensures id in s'.rows && Budget(s', id) + (if e.Step? && e.id == id then 1 else 0) <= Budget(s, id)
  {
    if !Names(s, e, id) {
      OtherEvents(s, e, s', id);
      assert id in s.execs ==> View(s', id) == View(s, id);
    } else {
      match e
      case Step(_, re) => StepBudget(s, id, re, s');
      case FlagCancel(_) => FlagBudget(s, id, s');
      case TickUpdate => StartBudget(s, s');
      case Unlock(_) => EndBudget(s, e, s', id);
      case Crash => EndBudget(s, e, s', id);
      case Recover => RecoverBudget(s, s', id);
      case _ => RequestBudget(s, e, s', id);
    }
  }

  /** A change has no steps before it is created; then they are paid for by its devices. */
  lemma {:induction false} StepsPaid(es: seq<Engine.Event>, s: State, id: int)
    requires History(es, s)
    ensures id !in s.rows ==> Steps(es, id) == 0
    ensures id in s.rows ==> Steps(es, id) + Budget(s, id) <= 10 * |s.rows[id].devices| + 11
    decreases |es|
  {
    if es != [] {
      var init, e := es[..|es| - 1], es[|es| - 1];
      LastStep(es, s);
      var before := Run(START, init).value;
      HistoryInv(init, before);
      StepsPaid(init, before, id);
      if id in before.rows {
        NextBudget(before, e, s, id);
        StepForward(before, e, s);
        assert Forward(before.rows[id], s.rows[id]);
      } else {
        CreatedBudget(before, e, s, id);
      }
    }
  }

  lemma CreatedBudget(s: State, e: Engine.Event, s': State, id: int)
    requires Engine.Inv(s) && id !in s.rows && Engine.Next(s, e) == Some(s')
    ensures !(e.Step? && e.id == id)
    ensures id in s'.rows ==> Budget(s', id) == 10 * |s'.rows[id].devices| + 11
  {
    if id in s'.rows {
      assert e.Create? && e.id == id;
      assert id !in s.execs;
    }
  }

  /** In any history, restarts included, a change takes a number of steps linear in its devices. */
  lemma StepsAreBounded(es: seq<Engine.Event>, s: State, id: int)
    requires History(es, s) && id in s.rows
    ensures Steps(es, id) <= 10 * |s.rows[id].devices| + 11
  {
    HistoryInv(es, s);
    StepsPaid(es, s, id);
    BudgetNat(s, id);
  }

  // ----- whether it ends cancelled

  /** The request was flagged before the final switch of the execution. */
  ghost predicate FlaggedInTime(es: seq<Engine.Event>, id: int) {
    exists i, j :: 0 <= i < j < |es| && es[i] == FlagCancel(id) && es[j] == Step(id, Decide)
  }

  /** The event is the flag or a step of the change. */
  predicate Marks(e: Engine.Event, id: int) {
    e == FlagCancel(id) || (e.Step? && e.id == id)
  }

  /** What the history says about the flag and the status of the change. */
  ghost predicate Told(es: seq<Engine.Event>, s: State, id: int)
    requires id in s.rows
  {
    && (Rank(s.rows[id].status) <= 2 ==> forall i :: 0 <= i < |es| ==> !Marks(es[i], id))
    && (id in s.execs ==> ToldLive(es, s, id))
    && (Step(id, WriteStatus) in es ==>
          Rank(s.rows[id].status) == 4 && (s.rows[id].status == Cancelled <==> FlaggedInTime(es, id)))
    && (id !in s.execs && Rank(s.rows[id].status) <= 2 ==> id !in s.cancel)
  }

  ghost predicate ToldLive(es: seq<Engine.Event>, s: State, id: int)
    requires id in s.rows && id in s.execs
  {
    var p := s.execs[id].phase;
    && (ExecutionRuns.Undecided(p) ==> Step(id, Decide) !in es && (id in s.cancel <==> FlagCancel(id) in es))
    && (!ExecutionRuns.Undecided(p) ==> (ExecutionRuns.Chosen(p) == Cancelled <==> FlaggedInTime(es, id)))
    && (Step(id, WriteStatus) in es <==> p.Written?)
  }

  lemma FlaggedExtends(es: seq<Engine.Event>, e: Engine.Event, id: int)
    requires e != Step(id, Decide)
    ensures FlaggedInTime(es + [e], id) <==> FlaggedInTime(es, id)
  {
    var all := es + [e];
    if i, j :| 0 <= i < j < |es| && es[i] == FlagCancel(id) && es[j] == Step(id, Decide) {
      assert all[i] == FlagCancel(id) && all[j] == Step(id, Decide);
    }
    if i, j :| 0 <= i < j < |all| && all[i] == FlagCancel(id) && all[j] == Step(id, Decide) {
      assert es[i] == FlagCancel(id) && es[j] == Step(id, Decide);
    }
  }

  lemma FlaggedNow(es: seq<Engine.Event>, id: int)
    requires Step(id, Decide) !in es
    ensures FlaggedInTime(es + [Step(id, Decide)], id) <==> FlagCancel(id) in es
  {
    var all := es + [Step(id, Decide)];
    if FlagCancel(id) in es {
      var i :| 0 <= i < |es| && es[i] == FlagCancel(id);
      assert all[i] == FlagCancel(id) && all[|es|] == Step(id, Decide);
    }
    if i, j :| 0 <= i < j < |all| && all[i] == FlagCancel(id) && all[j] == Step(id, Decide) {
      assert es[i] == FlagCancel(id);
    }
  }

  lemma ToldLiveStep(es: seq<Engine.Event>, s: State, id: int, e: Execution.Event, s': State)
    requires Engine.Inv(s) && NextStep(s, id, e) == Some(s') && ToldLive(es, s, id)
    ensures id in s'.rows && id in s'.execs && ToldLive(es + [Step(id, e)], s', id)
  {
    var r, r' := View(s, id), View(s', id);
    assert ExecOk(s, id);
    StepView(s, id, e, s');
    ExecutionRuns.DecideOnce(r, e, r');
    OnlyWriteWrites(r, e, r');
    if e == Decide {
      FlaggedNow(es, id);
    } else {
      FlaggedExtends(es, Step(id, e), id);
    }
  }

  /** A written status is final and is the one that was chosen. */
  lemma WrittenStatus(s: State, id: int)
    requires id in s.rows && id in s.execs && ExecOk(s, id) && s.execs[id].phase.Written?
    ensures s.rows[id].status == s.execs[id].phase.status && Rank(s.rows[id].status) == 4
  {}

  lemma ToldStep(es: seq<Engine.Event>, s: State, id: int, e: Execution.Event, s': State)
    requires Engine.Inv(s) && NextStep(s, id, e) == Some(s') && Told(es, s, id)
    ensures id in s'.rows && Told(es + [Step(id, e)], s', id)
  {
    ToldLiveStep(es, s, id, e, s');
    StepExec(s, id, e, s');
    ExecRank(s', id);
    if s'.execs[id].phase.Written? {
      WrittenStatus(s', id);
    }
  }

  /** Events that neither mark the change nor touch its execution. */
  lemma ToldOther(es: seq<Engine.Event>, s: State, e: Engine.Event, s': State, id: int)
    requires id in s.rows && Told(es, s, id) && SameFor(s, s', id) && !Marks(e, id)
    ensures Told(es + [e], s', id)
  {
    FlaggedExtends(es, e, id);
    assert Step(id, WriteStatus) in es + [e] <==> Step(id, WriteStatus) in es;
  }

  lemma ToldFlag(es: seq<Engine.Event>, s: State, s': State, id: int)
    requires Engine.Inv(s) && id in s.rows && Told(es, s, id) && Engine.Next(s, FlagCancel(id)) == Some(s')
    ensures Told(es + [FlagCancel(id)], s', id)
  {
    var e := Engine.FlagCancel(id);
    FlaggedExtends(es, e, id);
    assert Step(id, WriteStatus) in es + [e] <==> Step(id, WriteStatus) in es;
    assert Step(id, Decide) in es + [e] <==> Step(id, Decide) in es;
    assert (es + [e])[|es|] == e;
  }

  /** The change is not executing any more, or not yet, and its status is only told when written. */
  lemma ToldIdle(es: seq<Engine.Event>, s: State, e: Engine.Event, s': State, id: int)
    requires Engine.Inv(s) && id in s.rows && Told(es, s, id) && !Marks(e, id) && id in s'.rows && id !in s'.execs
    requires Rank(s'.rows[id].status) >= Rank(s.rows[id].status)
    requires Rank(s.rows[id].status) == 4 ==> s'.rows[id].status == s.rows[id].status
    requires Rank(s'.rows[id].status) <= 2 ==> id !in s'.cancel
    ensures Told(es + [e], s', id)
  {
    FlaggedExtends(es, e, id);
    assert Step(id, WriteStatus) in es + [e] <==> Step(id, WriteStatus) in es;
  }

  lemma ToldStart(es: seq<Engine.Event>, s: State, s': State, id: int)
    requires Engine.Inv(s) && s.sched.Claimed? && s.sched.id == id && id in s.rows && s.rows[id].status == Approved
    requires Told(es, s, id) && NextUpdate(s) == Some(s')
    ensures id in s'.rows && Told(es + [TickUpdate], s', id)
  {
    FlaggedExtends(es, TickUpdate, id);
    NotExecuting(s);
    assert forall i :: 0 <= i < |es| ==> !Marks(es[i], id);
    assert Step(id, WriteStatus) !in es + [TickUpdate] && Step(id, Decide) !in es + [TickUpdate];
    assert FlagCancel(id) !in es + [TickUpdate];
  }

  lemma IdleRanks(s: State, e: Engine.Event, s': State, id: int)
    requires Engine.Inv(s) && id in s.rows && Engine.Next(s, e) == Some(s')
    ensures id in s'.rows && Rank(s'.rows[id].status) >= Rank(s.rows[id].status)
    ensures Rank(s.rows[id].status) == 4 ==> s'.rows[id].status == s.rows[id].status
    ensures Rank(s'.rows[id].status) <= 2 ==> id !in s'.cancel
  {
    StepForward(s, e, s');
    ForwardRanks(s, s', id);
    Engine.StepInv(s, e, s');
    NoEarlyFlag(s', id);
  }

  lemma ForwardRanks(s: State, s': State, id: int)
    requires StateForward(s, s') && id in s.rows
    ensures id in s'.rows && Rank(s'.rows[id].status) >= Rank(s.rows[id].status)
    ensures Rank(s.rows[id].status) == 4 ==> s'.rows[id].status == s.rows[id].status
  {
    assert Forward(s.rows[id], s'.rows[id]);
  }

  lemma NoEarlyFlag(s: State, id: int)
    requires Engine.Inv(s) && id in s.rows
    ensures Rank(s.rows[id].status) <= 2 ==> id !in s.cancel
  {}

  lemma ToldNext(es: seq<Engine.Event>, s: State, e: Engine.Event, s': State, id: int)
    requires Engine.Inv(s) && id in s.rows && Told(es, s, id) && Engine.Next(s, e) == Some(s')
    ensures id in s'.rows && Told(es + [e], s', id)
  {
    IdleRanks(s, e, s', id);
    if !Names(s, e, id) {
      OtherEvents(s, e, s', id);
      ToldOther(es, s, e, s', id);
    } else if e.Step? {
      ToldStep(es, s, id, e.e, s');
    } else if e.FlagCancel? {
      ToldFlag(es, s, s', id);
    } else if e == TickUpdate && s.rows[id].status == Approved {
      ToldStart(es, s, s', id);
    } else {
      NamedIdle(s, e, s', id);
      ToldIdle(es, s, e, s', id);
    }
  }

  lemma NamedIdle(s: State, e: Engine.Event, s': State, id: int)
    requires Engine.Inv(s) && id in s.rows && Engine.Next(s, e) == Some(s') && Names(s, e, id)
    requires !e.Step? && !e.FlagCancel? && !(e == TickUpdate && s.rows[id].status == Approved)
    ensures id !in s'.execs
  {
    if e.Submit? || e.Vote? || e.Withdraw? || e.RunNow? {
      assert RowOk(s.rows[id]);
      RequestRow(s, e, s');
      NotExecuting(s);
    }
  }

  lemma ToldCreated(es: seq<Engine.Event>, s: State, e: Engine.Event, s': State, id: int)
    requires ExecsOk(s) && FlagsOk(s) && id !in s.rows && Engine.Next(s, e) == Some(s')
    requires forall i :: 0 <= i < |es| ==> !Marks(es[i], id)
    ensures !Marks(e, id) && (id in s'.rows ==> Told(es + [e], s', id))
  {
    if id in s'.rows {
      assert id !in s.execs && id !in s.cancel;
      assert forall i :: 0 <= i < |es + [e]| ==> !Marks((es + [e])[i], id);
    }
  }

  /** The change is told of once it exists; before, nothing marks it. */
  ghost predicate ToldOf(es: seq<Engine.Event>, s: State, id: int) {
    if id in s.rows then Told(es, s, id) else forall i :: 0 <= i < |es| ==> !Marks(es[i], id)
  }

  lemma ToldOfNext(es: seq<Engine.Event>, s: State, e: Engine.Event, s': State, id: int, es': seq<Engine.Event>)
    requires Engine.Inv(s) && Engine.Next(s, e) == Some(s') && ToldOf(es, s, id) && es' == es + [e]
    ensures ToldOf(es', s', id)
  {
    if id in s.rows {
      ToldNext(es, s, e, s', id);
    } else {
      ToldCreated(es, s, e, s', id);
    }
  }

  lemma {:induction false} HistoryTold(es: seq<Engine.Event>, s: State, id: int)
    requires History(es, s)
    ensures ToldOf(es, s, id)
    decreases |es|
  {
    if es == [] {
      StartTold(id);
    } else {
      var before := Last(es, s);
      HistoryTold(es[..|es| - 1], before, id);
      ToldOfNext(es[..|es| - 1], before, es[|es| - 1], s, id, es);
    }
  }

  lemma StartTold(id: int)
    ensures ToldOf([], START, id)
  {}

  /**
   In any history a change whose execution stored its final status is cancelled if and only
   if a request was flagged before the execution chose the status.
   */
  lemma StoredCancelledIffInTime(es: seq<Engine.Event>, s: State, id: int)
    requires History(es, s) && id in s.rows && Step(id, WriteStatus) in es
    ensures s.rows[id].status == Cancelled <==> FlaggedInTime(es, id)
  {
    HistoryTold(es, s, id);
  }
}
