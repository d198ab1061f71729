/**
 The whole change service as one machine: stored rows, the mutex-guarded maps `running`
 and `cancel`, the scheduler (Tick), the executions in progress and restarts. Requests,
 scheduler steps, execution steps and crashes interleave freely; each transaction and
 each lock region is one step. Whether a listed change is due is left open here, so
 every result holds for all windows and clocks.
 */
module Engine {
  import opened Common
  import opened Execution
  import opened Workflow
  import ExecutionRuns

  /** One change listed by Tick, with the outcome dueAt will have for it. */
  datatype Entry = Entry(id: int, due: bool)

  datatype Sched =
    | Resting
    | Scan(list: seq<Entry>)                // head is tried next
    | Claimed(id: int, rest: seq<Entry>)    // devices locked, UPDATE to running ahead
    | Recovering(step: nat)

  /** What one goroutine running execute keeps in memory. */
  datatype Exec = Exec(phase: Phase, failures: nat, work: seq<Work>)

  datatype State = State(
    rows: map<int, Row>,
    running: set<int>,      // device ids
    cancel: set<int>,       // change ids
    asking: multiset<int>,  // Cancel requests that saw the change running, flag not set yet
    execs: map<int, Exec>,
    sched: Sched,
    orphans: set<int>)      // changes whose targets could not be loaded, since the last restart

  datatype Event =
    | Create(id: int, row: Row)
    | Submit(id: int)
    | Vote(id: int, user: int, approve: bool)
    | Withdraw(id: int)      // Cancel before the change runs
    | AskCancel(id: int)     // Cancel found the change running
    | FlagCancel(id: int)
    | RunNow(id: int)
    | TickBegin(list: seq<Entry>)
    | TickTry
    | TickUpdate
    | TickEnd
    | Step(id: int, e: Execution.Event)
    | Unlock(id: int)
    | Crash
    | Recover

  /** A row as Create inserts it: a draft for at least one device. */
  ghost predicate NewRow(row: Row) {
    && row.status == Draft && row.votes == [] && row.cfg.concurrency >= 1
    && |row.devices| > 0
    && row.targets == seq(|row.devices|, _ => TPending)
  }

  /** The execution of change id as a machine of its own. */
  function View(s: State, id: int): Rollout
    requires id in s.rows && id in s.execs
  {
    var row, x := s.rows[id], s.execs[id];
    Rollout(row.cfg, row.targets, id in s.cancel, x.phase, x.failures, x.work)
  }

  function Devices(s: State, id: int): set<int>
    requires id in s.rows
  {
    DeviceIds(s.rows[id].devices)
  }

  /** lock: all devices or none. */
  function Lock(running: set<int>, devices: set<int>): Option<set<int>> {
    if running !! devices then Some(running + devices) else None
  }

  function PutRow(s: State, id: int, result: Result<Row, Error>): Option<State> {
    if result.Ok? then Some(s.(rows := s.rows[id := result.value])) else None
  }

  function NextTry(s: State): Option<State>
    requires s.sched.Scan?
  {
    if s.sched.list == [] then None
    else
      var head, rest := s.sched.list[0], s.sched.list[1..];
      if head.id !in s.rows then None
      else
        var locked := Lock(s.running, Devices(s, head.id));
        if head.due && locked.Some? then Some(s.(running := locked.value, sched := Claimed(head.id, rest)))
        else Some(s.(sched := Scan(rest)))
  }

  function NextUpdate(s: State): Option<State>
    requires s.sched.Claimed?
  {
    var id, rest := s.sched.id, s.sched.rest;
    if id !in s.rows then None
    else if s.rows[id].status == Approved then
      var row := s.rows[id];
      Some(s.(rows := s.rows[id := row.(status := Running)],
              execs := s.execs[id := Exec(Loading, 0, seq(|row.targets|, _ => Idle))],
              sched := Scan(rest)))
    else Some(s.(running := s.running - Devices(s, id), sched := Scan(rest)))
  }

  function NextStep(s: State, id: int, e: Execution.Event): Option<State> {
    if id !in s.rows || id !in s.execs || e.CancelFlag? then None
    else
      var next := Execution.Next(View(s, id), e);
      if next.None? then None
      else
        var r, row := next.value, s.rows[id];
        Some(s.(rows := s.rows[id := row.(targets := r.targets, status := if e.WriteStatus? then r.phase.status else row.status)],
                cancel := if e.ClearCancel? then s.cancel - {id} else s.cancel,
                execs := s.execs[id := Exec(r.phase, r.failures, r.work)]))
  }

  function NextUnlock(s: State, id: int): Option<State> {
    if id !in s.rows || id !in s.execs || !ExecutionRuns.Done(s.execs[id].phase) then None
    else Some(s.(running := s.running - Devices(s, id), execs := s.execs - {id},
                 orphans := if s.execs[id].phase.Aborted? then s.orphans + {id} else s.orphans))
  }

  ghost function Next(s: State, e: Event): Option<State> {
    match e
    case Create(id, row) =>
      if id !in s.rows && NewRow(row) then Some(s.(rows := s.rows[id := row])) else None
    case Submit(id) => if id in s.rows then PutRow(s, id, SubmitRow(s.rows[id])) else None
    case Vote(id, user, approve) => if id in s.rows then PutRow(s, id, DecideRow(s.rows[id], user, approve)) else None
    case Withdraw(id) => if id in s.rows then PutRow(s, id, CancelRow(s.rows[id])) else None
    case AskCancel(id) =>
      if id in s.rows && s.rows[id].status == Running then Some(s.(asking := s.asking + multiset{id})) else None
    case FlagCancel(id) =>
      if id in s.asking then Some(s.(asking := s.asking - multiset{id}, cancel := s.cancel + {id})) else None
    case RunNow(id) => if id in s.rows then PutRow(s, id, RunNowRow(s.rows[id])) else None
    case TickBegin(list) =>
      if s.sched == Resting && forall i :: 0 <= i < |list| ==> list[i].id in s.rows && s.rows[list[i].id].status == Approved
      then Some(s.(sched := Scan(list))) else None
    case TickTry => if s.sched.Scan? then NextTry(s) else None
    case TickUpdate => if s.sched.Claimed? then NextUpdate(s) else None
    case TickEnd => if s.sched == Scan([]) then Some(s.(sched := Resting)) else None
    case Step(id, re) => NextStep(s, id, re)
    case Unlock(id) => NextUnlock(s, id)
    case Crash => Some(State(s.rows, {}, {}, multiset{}, map[], Recovering(0), {}))
    case Recover =>
      if !s.sched.Recovering? then None
      else Some(s.(rows := RecoverRows(s.sched.step, s.rows),
                   sched := if s.sched.step >= 2 then Resting else Recovering(s.sched.step + 1)))
  }

  const START := State(map[], {}, {}, multiset{}, map[], Recovering(0), {})

  // ----- the inductive invariant

  /** Changes whose devices are held: executions, and the claim of the scheduler. */
  function Holders(s: State): set<int> {
    s.execs.Keys + (if s.sched.Claimed? then {s.sched.id} else {})
  }

  /** The map `running` is exactly the union of the holders' device sets, which are pairwise disjoint. */
  ghost predicate LocksOk(s: State) {
    && Holders(s) <= s.rows.Keys
    && (s.sched.Claimed? ==> s.sched.id !in s.execs)
    && (forall d :: d in s.running <==> exists h :: h in Holders(s) && d in Devices(s, h))
    && (forall a, b :: a in Holders(s) && b in Holders(s) && a != b ==> Devices(s, a) !! Devices(s, b))
  }

  ghost predicate RowsOk(s: State) {
    forall id :: id in s.rows ==> RowOk(s.rows[id])
  }

  /** The stored status of a change in execution. */
  predicate ExecStatus(phase: Phase, status: Status) {
    if phase.Written? then status == phase.status else status == Running
  }

  ghost predicate ExecOk(s: State, id: int)
    requires id in s.rows && id in s.execs
  {
    Execution.Inv(View(s, id)) && ExecStatus(s.execs[id].phase, s.rows[id].status)
  }

  ghost predicate ExecsOk(s: State) {
    forall id :: id in s.execs ==> id in s.rows && ExecOk(s, id)
  }

  ghost predicate FlagsOk(s: State) {
    forall id :: id in s.cancel || id in s.asking ==> id in s.rows && Rank(s.rows[id].status) >= 3
  }

  /** A change is stored as running only while it executes, after a load error, or before recovery reached it. */
  ghost predicate RunningOk(s: State) {
    && (!s.sched.Recovering? ==> forall id :: id in s.rows && s.rows[id].status == Running ==> id in s.execs || id in s.orphans)
    && (s.sched.Recovering? ==> s.execs == map[] && s.running == {})
  }

  ghost predicate SweptTo(step: nat, row: Row) {
    row.status == Running ==>
      && (step >= 1 ==> forall i :: 0 <= i < |row.targets| ==> row.targets[i] != TRunning)
      && (step >= 2 ==> forall i :: 0 <= i < |row.targets| ==> row.targets[i] != TPending)
  }

  ghost predicate RecoveryOk(s: State) {
    s.sched.Recovering? ==> s.sched.step <= 2 && forall id :: id in s.rows ==> SweptTo(s.sched.step, s.rows[id])
  }

  ghost predicate Inv(s: State) {
    LocksOk(s) && RowsOk(s) && ExecsOk(s) && FlagsOk(s) && RunningOk(s) && RecoveryOk(s)
  }

  /** Every row moved forward or not at all; none disappears. */
  ghost predicate StateForward(s: State, s': State) {
    forall id :: id in s.rows ==> id in s'.rows && Forward(s.rows[id], s'.rows[id])
  }

  // ----- what a step leaves alone

  /** Holders and their devices are as before. */
  lemma LocksKept(s: State, s': State)
    requires LocksOk(s) && s'.running == s.running
    requires s'.execs.Keys == s.execs.Keys && s'.sched.Claimed? == s.sched.Claimed?
    requires s.sched.Claimed? ==> s'.sched.id == s.sched.id
    requires forall h :: h in Holders(s) ==> h in s'.rows && s'.rows[h].devices == s.rows[h].devices
    ensures LocksOk(s')
  {
    assert Holders(s') == Holders(s);
    assert forall h :: h in Holders(s) ==> h in s'.rows;
    assert forall h :: h in Holders(s) ==> Devices(s', h) == Devices(s, h);
    forall d ensures d in s'.running <==> exists h :: h in Holders(s') && d in Devices(s', h) {
      if d in s.running {
        var h :| h in Holders(s) && d in Devices(s, h);
        assert h in Holders(s') && d in Devices(s', h);
      }
    }
  }

  /** Every execution but id's is as before. */
  lemma ExecsKept(s: State, s': State, id: int)
    requires ExecsOk(s)
    requires forall x :: x in s'.execs && x != id ==>
      x in s.execs && s'.execs[x] == s.execs[x] && x in s.rows && x in s'.rows && s'.rows[x] == s.rows[x]
    requires forall x :: x != id ==> (x in s'.cancel <==> x in s.cancel)
    requires id in s'.execs ==> id in s'.rows && ExecOk(s', id)
    ensures ExecsOk(s')
  {
    forall x | x in s'.execs ensures x in s'.rows && ExecOk(s', x) {
      if x != id {
        assert ExecOk(s, x) && View(s', x) == View(s, x);
      }
    }
  }

  lemma ExecRank(s: State, id: int)
    requires id in s.execs && id in s.rows && ExecOk(s, id)
    ensures Rank(s.rows[id].status) >= 3
  {}

  /** A change that has not started is not in execution and has no cancel flag. */
  lemma NotExecuting(s: State)
    requires ExecsOk(s)
    ensures forall id :: id in s.rows && Rank(s.rows[id].status) <= 2 ==> id !in s.execs
  {
    forall id | id in s.execs ensures id in s.rows && Rank(s.rows[id].status) >= 3 {
      ExecRank(s, id);
    }
  }

  // ----- requests change one row

  lemma PutRowTables(s: State, id: int, row': Row, s': State)
    requires RowsOk(s) && FlagsOk(s) && RunningOk(s) && RecoveryOk(s)
    requires id in s.rows && s' == s.(rows := s.rows[id := row'])
    requires RowOk(row') && Rank(row'.status) >= Rank(s.rows[id].status) && row'.status != Running
    ensures RowsOk(s') && FlagsOk(s') && RunningOk(s') && RecoveryOk(s')
  {}

  lemma PutRowInv(s: State, id: int, row': Row, s': State)
    requires Inv(s) && id in s.rows && s' == s.(rows := s.rows[id := row'])
    requires RowOk(row') && Forward(s.rows[id], row') && Rank(s.rows[id].status) <= 2 && row'.status != Running
    ensures Inv(s')
  {
    PutRowExecs(s, id, row', s');
    PutRowTables(s, id, row', s');
  }

  lemma PutRowExecs(s: State, id: int, row': Row, s': State)
    requires LocksOk(s) && ExecsOk(s) && id in s.rows && s' == s.(rows := s.rows[id := row'])
    requires SameRequest(s.rows[id], row') && Rank(s.rows[id].status) <= 2
    ensures LocksOk(s') && ExecsOk(s')
  {
    LocksKept(s, s');
    if id in s.execs {
      ExecRank(s, id);
      assert false;
    }
    ExecsKept(s, s', id);
  }

  lemma NewRowOk(row: Row)
    requires NewRow(row)
    ensures RowOk(row)
  {
    assert forall t :: t in row.targets ==> t == TPending;
  }

  lemma CreateTables(s: State, id: int, row: Row, s': State)
    requires RowsOk(s) && FlagsOk(s) && RunningOk(s) && RecoveryOk(s)
    requires id !in s.rows && RowOk(row) && row.status == Draft && s' == s.(rows := s.rows[id := row])
    ensures RowsOk(s') && FlagsOk(s') && RunningOk(s') && RecoveryOk(s')
  {}

  lemma CreateInv(s: State, id: int, row: Row, s': State)
    requires Inv(s) && id !in s.rows && NewRow(row) && s' == s.(rows := s.rows[id := row])
    ensures Inv(s')
  {
    NewRowOk(row);
    CreateTables(s, id, row, s');
    assert id !in s.execs && id !in Holders(s);
    LocksKept(s, s');
    ExecsKept(s, s', id);
  }

  /** What a request makes of its row. */
  lemma RequestRow(s: State, e: Event, s': State)
    requires e.Submit? || e.Vote? || e.Withdraw? || e.RunNow?
    requires e.id in s.rows ==> RowOk(s.rows[e.id])
    requires Next(s, e) == Some(s')
    ensures e.id in s.rows && e.id in s'.rows && s' == s.(rows := s.rows[e.id := s'.rows[e.id]])
    ensures RowOk(s'.rows[e.id]) && Forward(s.rows[e.id], s'.rows[e.id])
    ensures Rank(s.rows[e.id].status) <= 2 && s'.rows[e.id].status != Running && s'.rows[e.id].status != Failed
  {
    var row := s.rows[e.id];
    match e
    case Submit(_) => SubmitRowOk(row);
    case Vote(_, user, approve) => DecideRowOk(row, user, approve, DecideRow(row, user, approve).value);
    case Withdraw(_) => CancelRowOk(row);
    case RunNow(_) => RunNowRowOk(row);
  }

  lemma RequestInv(s: State, e: Event, s': State)
    requires e.Submit? || e.Vote? || e.Withdraw? || e.RunNow?
    requires Inv(s) && Next(s, e) == Some(s')
    ensures Inv(s')
  {
    RequestRow(s, e, s');
    PutRowInv(s, e.id, s'.rows[e.id], s');
  }

  // ----- cancelling a running change

  lemma FlagExec(s: State, id: int, s': State)
    requires ExecsOk(s) && id in s.execs
    requires s' == s.(asking := s.asking - multiset{id}, cancel := s.cancel + {id})
    ensures id in s'.rows && ExecOk(s', id)
  {
    assert ExecOk(s, id);
    var r := View(s, id);
    Execution.StepInv(r, CancelFlag, r.(cancel := true));
    assert View(s', id) == r.(cancel := true);
  }

  lemma AskInv(s: State, id: int, s': State)
    requires Inv(s) && Next(s, AskCancel(id)) == Some(s')
    ensures Inv(s')
  {
    LocksKept(s, s');
    SameExecs(s, s');
  }

  lemma FlagInv(s: State, id: int, s': State)
    requires Inv(s) && Next(s, FlagCancel(id)) == Some(s')
    ensures Inv(s')
  {
    LocksKept(s, s');
    if id in s.execs {
      FlagExec(s, id, s');
    }
    ExecsKept(s, s', id);
  }

  // ----- the scheduler

  /** The devices of a claimed change were free, so no other holder has one of them. */
  lemma ClaimDisjoint(s: State, id: int)
    requires LocksOk(s) && id in s.rows && s.running !! Devices(s, id) && s.rows[id].devices != [] && !s.sched.Claimed?
    ensures id !in Holders(s)
    ensures forall h :: h in Holders(s) ==> Devices(s, h) !! Devices(s, id)
  {
    var first := s.rows[id].devices[0].id;
    assert first in Devices(s, id);
    forall h, d | h in Holders(s) && d in Devices(s, h) ensures d in s.running {}
    assert forall h :: h in Holders(s) && first in Devices(s, h) ==> first in s.running;
  }

  lemma ClaimLocks(s: State, id: int, s': State)
    requires LocksOk(s) && id in s.rows && s.running !! Devices(s, id) && s.rows[id].devices != [] && !s.sched.Claimed?
    requires s'.sched.Claimed? && s'.sched.id == id && s' == s.(running := s.running + Devices(s, id), sched := s'.sched)
    ensures LocksOk(s')
  {
    ClaimDisjoint(s, id);
    assert Holders(s') == Holders(s) + {id};
    forall d ensures d in s'.running <==> exists h :: h in Holders(s') && d in Devices(s', h) {
      if d in s.running {
        var h :| h in Holders(s) && d in Devices(s, h);
        assert h in Holders(s') && d in Devices(s', h);
      }
      if d in Devices(s, id) {
        assert id in Holders(s') && d in Devices(s', id);
      }
    }
    assert forall h :: h in Holders(s') ==> Devices(s', h) == Devices(s, h);
  }

  lemma TryLocks(s: State, s': State)
    requires LocksOk(s) && RowsOk(s) && s.sched.Scan? && NextTry(s) == Some(s')
    ensures LocksOk(s')
  {
    var head := s.sched.list[0];
    if s'.sched.Claimed? {
      assert RowOk(s.rows[head.id]);
      ClaimLocks(s, head.id, s');
    } else {
      LocksKept(s, s');
    }
  }

  lemma TickInv(s: State, e: Event, s': State)
    requires e.TickBegin? || e.TickTry? || e.TickEnd?
    requires Inv(s) && Next(s, e) == Some(s')
    ensures Inv(s')
  {
    if e.TickTry? {
      TryLocks(s, s');
    } else {
      LocksKept(s, s');
    }
    SameExecs(s, s');
  }

  lemma SameExecs(s: State, s': State)
    requires ExecsOk(s) && s'.execs == s.execs && s'.rows == s.rows && s'.cancel == s.cancel
    ensures ExecsOk(s')
  {
    forall x | x in s'.execs ensures x in s'.rows && ExecOk(s', x) {
      assert ExecOk(s, x) && View(s', x) == View(s, x);
    }
  }

  lemma ReleaseLocks(s: State, id: int, s': State)
    requires LocksOk(s) && id in Holders(s)
    requires s'.rows.Keys == s.rows.Keys && forall h :: h in s.rows ==> s'.rows[h].devices == s.rows[h].devices
    requires Holders(s') == Holders(s) - {id} && s'.running == s.running - Devices(s, id)
    requires s'.sched.Claimed? ==> s'.sched.id !in s'.execs
    ensures LocksOk(s')
  {
    assert forall h :: h in Holders(s) ==> Devices(s', h) == Devices(s, h);
    forall d ensures d in s'.running <==> exists h :: h in Holders(s') && d in Devices(s', h) {
      if d in s'.running {
        var h :| h in Holders(s) && d in Devices(s, h);
        assert h in Holders(s') && d in Devices(s', h);
      }
      if exists h :: h in Holders(s') && d in Devices(s', h) {
        var h :| h in Holders(s') && d in Devices(s', h);
        assert h in Holders(s) && d in Devices(s, h) && h != id;
      }
    }
  }

  lemma StartLocks(s: State, s': State)
    requires LocksOk(s) && s.sched.Claimed? && s.sched.id in s.rows && s.rows[s.sched.id].status == Approved
    requires NextUpdate(s) == Some(s')
    ensures LocksOk(s')
  {
    assert Holders(s') == Holders(s);
    assert forall h :: h in Holders(s) ==> Devices(s', h) == Devices(s, h);
  }

  lemma StartExec(s: State, s': State)
    requires ExecsOk(s) && FlagsOk(s) && RowsOk(s) && s.sched.Claimed? && s.sched.id in s.rows
    requires s.rows[s.sched.id].status == Approved && NextUpdate(s) == Some(s')
    ensures ExecsOk(s')
  {
    var id := s.sched.id;
    var row := s.rows[id];
    assert RowOk(row);
    NotExecuting(s);
    InitInv(row.cfg, |row.targets|);
    assert row.targets == seq(|row.targets|, _ => TPending);
    assert View(s', id) == Init(row.cfg, |row.targets|);
    ExecsKept(s, s', id);
  }

  lemma StartTables(s: State, s': State)
    requires RowsOk(s) && FlagsOk(s) && RunningOk(s) && RecoveryOk(s) && s.sched.Claimed? && s.sched.id in s.rows
    requires s.rows[s.sched.id].status == Approved && NextUpdate(s) == Some(s')
    ensures RowsOk(s') && FlagsOk(s') && RunningOk(s') && RecoveryOk(s')
  {
    assert RowOk(s.rows[s.sched.id]);
  }

  lemma StartInv(s: State, s': State)
    requires Inv(s) && s.sched.Claimed? && s.sched.id in s.rows && s.rows[s.sched.id].status == Approved
    requires NextUpdate(s) == Some(s')
    ensures Inv(s')
  {
    StartLocks(s, s');
    StartExec(s, s');
    StartTables(s, s');
  }

  /** The change was withdrawn between the listing and the UPDATE: its devices are released. */
  lemma GiveUpInv(s: State, s': State)
    requires Inv(s) && s.sched.Claimed? && s.sched.id in s.rows && s.rows[s.sched.id].status != Approved
    requires NextUpdate(s) == Some(s')
    ensures Inv(s')
  {
    var id := s.sched.id;
    assert Holders(s') == Holders(s) - {id};
    ReleaseLocks(s, id, s');
    SameExecs(s, s');
  }

  lemma UpdateInv(s: State, s': State)
    requires Inv(s) && s.sched.Claimed? && NextUpdate(s) == Some(s')
    ensures Inv(s')
  {
    if s.rows[s.sched.id].status == Approved {
      StartInv(s, s');
    } else {
      GiveUpInv(s, s');
    }
  }

  // ----- executions

  /** Nothing happens in an execution that is done. */
  lemma DoneIsQuiet(r: Rollout, e: Execution.Event)
    requires Execution.Inv(r) && ExecutionRuns.Done(r.phase) && !e.CancelFlag?
    ensures Execution.Next(r, e).None?
  {
    QuietWork(r);
  }

  /** The row an execution step writes. */
  function SteppedRow(row: Row, e: Execution.Event, r: Rollout): Row
    requires e.WriteStatus? ==> r.phase.Written?
  {
    row.(targets := r.targets, status := if e.WriteStatus? then r.phase.status else row.status)
  }

  lemma FinalRowOk(row: Row, r: Rollout)
    requires RowOk(row) && row.status == Running
    requires Execution.Inv(r) && r.phase.Written? && r.cfg == row.cfg && |r.targets| == |row.targets|
    ensures RowOk(row.(targets := r.targets, status := r.phase.status)) && Rank(r.phase.status) == 4
    ensures r.phase.status != Rejected
  {
    ExecutionRuns.SweptSettles(r);
    ExecutionRuns.ConclusiveVerdict(r, r.phase.status);
    forall i | 0 <= i < |r.targets| ensures !Undone(r.targets[i]) {
      assert r.targets[i] in multiset(r.targets);
    }
  }

  lemma SteppedRowOk(row: Row, r: Rollout, e: Execution.Event, r': Rollout)
    requires RowOk(row) && row.status == Running && row.cfg == r.cfg && row.targets == r.targets
    requires Execution.Inv(r) && Execution.Next(r, e) == Some(r') && !e.CancelFlag?
    ensures e.WriteStatus? <==> r'.phase.Written?
    ensures RowOk(SteppedRow(row, e, r')) && Forward(row, SteppedRow(row, e, r'))
    ensures ExecStatus(r'.phase, SteppedRow(row, e, r').status)
    ensures Execution.Inv(r') && r'.cfg == r.cfg
  {
    Execution.StepInv(r, e, r');
    StepKeeps(r, e, r');
    OnlyWriteWrites(r, e, r');
    if e.WriteStatus? {
      FinalRowOk(row, r');
    } else {
      RunningRowOk(row, r');
    }
  }

  lemma OnlyWriteWrites(r: Rollout, e: Execution.Event, r': Rollout)
    requires Execution.Inv(r) && Execution.Next(r, e) == Some(r') && !e.CancelFlag?
    ensures e.WriteStatus? <==> r'.phase.Written?
    ensures !ExecutionRuns.Done(r.phase)
  {
    if ExecutionRuns.Done(r.phase) {
      DoneIsQuiet(r, e);
    }
  }

  lemma RunningRowOk(row: Row, r: Rollout)
    requires RowOk(row) && row.status == Running
    requires Execution.Inv(r) && r.cfg == row.cfg && |r.targets| == |row.targets|
    ensures RowOk(row.(targets := r.targets))
  {}

  lemma StepCancel(r: Rollout, e: Execution.Event, r': Rollout)
    requires Execution.Next(r, e) == Some(r') && !e.CancelFlag?
    ensures r'.cancel == (r.cancel && !e.ClearCancel?)
  {}

  /** The stored row and the execution's memory after one of its steps. */
  lemma StepExec(s: State, id: int, e: Execution.Event, s': State)
    requires RowsOk(s) && ExecsOk(s) && NextStep(s, id, e) == Some(s')
    ensures s.rows[id].status == Running && RowOk(s'.rows[id]) && Forward(s.rows[id], s'.rows[id])
    ensures ExecOk(s', id)
  {
    var r := View(s, id);
    var r' := Execution.Next(r, e).value;
    assert ExecOk(s, id) && RowOk(s.rows[id]);
    OnlyWriteWrites(r, e, r');
    SteppedRowOk(s.rows[id], r, e, r');
    StepCancel(r, e, r');
    assert s'.rows[id] == SteppedRow(s.rows[id], e, r');
    assert View(s', id) == r';
  }

  lemma StepTables(s: State, id: int, e: Execution.Event, s': State)
    requires RowsOk(s) && FlagsOk(s) && RunningOk(s) && RecoveryOk(s) && NextStep(s, id, e) == Some(s')
    requires RowOk(s'.rows[id]) && Rank(s'.rows[id].status) >= Rank(s.rows[id].status)
    ensures RowsOk(s') && FlagsOk(s') && RunningOk(s') && RecoveryOk(s')
  {}

  /** The step of one execution seen from the others. */
  ghost predicate OneExec(s: State, id: int, s': State) {
    && id in s.rows && id in s'.rows && id in s.execs && id in s'.execs
    && s' == s.(rows := s.rows[id := s'.rows[id]], cancel := s'.cancel, execs := s.execs[id := s'.execs[id]])
    && s'.rows[id].devices == s.rows[id].devices
    && forall x :: x != id ==> (x in s'.cancel <==> x in s.cancel)
  }

  lemma StepIsLocal(s: State, id: int, e: Execution.Event, s': State)
    requires NextStep(s, id, e) == Some(s')
    ensures OneExec(s, id, s')
  {}

  lemma OneExecInv(s: State, id: int, s': State)
    requires LocksOk(s) && ExecsOk(s) && OneExec(s, id, s') && ExecOk(s', id)
    ensures LocksOk(s') && ExecsOk(s')
  {
    assert s'.execs.Keys == s.execs.Keys;
    LocksKept(s, s');
    ExecsKept(s, s', id);
  }

  lemma ExecutionInv(s: State, id: int, e: Execution.Event, s': State)
    requires Inv(s) && NextStep(s, id, e) == Some(s')
    ensures Inv(s')
  {
    StepExec(s, id, e, s');
    StepTables(s, id, e, s');
    StepIsLocal(s, id, e, s');
    OneExecInv(s, id, s');
  }

  lemma UnlockExecs(s: State, id: int, s': State)
    requires LocksOk(s) && ExecsOk(s) && id in s.execs && id in s.rows
    requires s' == s.(running := s.running - Devices(s, id), execs := s.execs - {id}, orphans := s'.orphans)
    ensures LocksOk(s') && ExecsOk(s')
  {
    assert Holders(s') == Holders(s) - {id};
    ReleaseLocks(s, id, s');
    ExecsKept(s, s', id);
  }

  lemma UnlockInv(s: State, id: int, s': State)
    requires Inv(s) && NextUnlock(s, id) == Some(s')
    ensures Inv(s')
  {
    UnlockExecs(s, id, s');
    UnlockTables(s, id, s');
  }

  lemma WrittenIsFinal(s: State, id: int)
    requires id in s.rows && id in s.execs && ExecOk(s, id) && s.execs[id].phase.Written?
    ensures s.rows[id].status != Running
  {}

  lemma UnlockTables(s: State, id: int, s': State)
    requires RowsOk(s) && FlagsOk(s) && RunningOk(s) && RecoveryOk(s) && ExecsOk(s) && NextUnlock(s, id) == Some(s')
    ensures RowsOk(s') && FlagsOk(s') && RunningOk(s') && RecoveryOk(s')
  {
    assert ExecOk(s, id);
    if s.execs[id].phase.Written? {
      WrittenIsFinal(s, id);
    }
  }

  // ----- restarts

  lemma CrashInv(s: State, s': State)
    requires Inv(s) && s' == State(s.rows, {}, {}, multiset{}, map[], Recovering(0), {})
    ensures Inv(s')
  {}

  lemma {:induction false} FailRunningTally(s: seq<Target>)
    ensures multiset(FailRunning(s))[TFailed] == multiset(s)[TFailed] + multiset(s)[TRunning]
    ensures multiset(FailRunning(s))[TRunning] == 0
    ensures forall t :: t != TFailed && t != TRunning ==> multiset(FailRunning(s))[t] == multiset(s)[t]
  {
    if s != [] {
      var last := |s| - 1;
      FailRunningTally(s[..last]);
      assert s == s[..last] + [s[last]];
      assert FailRunning(s) == FailRunning(s[..last]) + FailRunning([s[last]]);
      assert FailRunning([s[last]]) == [if s[last] == TRunning then TFailed else s[last]];
    }
  }

  lemma RecoverRowOk(step: nat, row: Row)
    requires step <= 2 && RowOk(row) && SweptTo(step, row)
    ensures RowOk(RecoverRow(step, row)) && Forward(row, RecoverRow(step, row))
    ensures step < 2 ==> SweptTo(step + 1, RecoverRow(step, row))
    ensures step == 2 ==> RecoverRow(step, row).status != Running
  {
    if step == 0 {
      FailRunningTally(row.targets);
      if row.status != Running {
        assert FailRunning(row.targets) == row.targets;
      }
    } else if step == 1 {
      SweepTally(row.targets, TFailed);
      SweepTally(row.targets, TRunning);
    }
  }

  /** Each row after a statement of recovery. */
  lemma RecoverEach(s: State, rows': map<int, Row>)
    requires RowsOk(s) && RecoveryOk(s) && s.sched.Recovering? && rows' == RecoverRows(s.sched.step, s.rows)
    ensures s.sched.step <= 2
    ensures forall id :: id in rows' ==> id in s.rows && RowOk(rows'[id]) && Forward(s.rows[id], rows'[id])
    ensures s.sched.step < 2 ==> forall id :: id in rows' ==> SweptTo(s.sched.step + 1, rows'[id])
    ensures s.sched.step == 2 ==> forall id :: id in rows' ==> rows'[id].status != Running
  {
    forall id | id in rows' ensures RowOk(rows'[id]) && Forward(s.rows[id], rows'[id])
      && (s.sched.step < 2 ==> SweptTo(s.sched.step + 1, rows'[id]))
      && (s.sched.step == 2 ==> rows'[id].status != Running)
    {
      assert RowOk(s.rows[id]) && SweptTo(s.sched.step, s.rows[id]);
      RecoverRowOk(s.sched.step, s.rows[id]);
    }
  }

  lemma RecoverTables(s: State, s': State)
    requires RowsOk(s) && FlagsOk(s) && RunningOk(s) && RecoveryOk(s) && Next(s, Recover) == Some(s')
    ensures RowsOk(s') && FlagsOk(s') && RunningOk(s') && RecoveryOk(s')
  {
    RecoverEach(s, s'.rows);
  }

  lemma RecoverInv(s: State, s': State)
    requires Inv(s) && Next(s, Recover) == Some(s')
    ensures Inv(s')
  {
    RecoverTables(s, s');
    assert s'.execs == map[] && s'.running == {} && Holders(s') == {};
  }

  /** Every step of the service keeps the invariant. */
  lemma StepInv(s: State, e: Event, s': State)
    requires Inv(s) && Next(s, e) == Some(s')
    ensures Inv(s')
  {
    match e
    case Create(id, row) => CreateInv(s, id, row, s');
    case Submit(_) => RequestInv(s, e, s');
    case Vote(_, _, _) => RequestInv(s, e, s');
    case Withdraw(_) => RequestInv(s, e, s');
    case RunNow(_) => RequestInv(s, e, s');
    case AskCancel(id) => AskInv(s, id, s');
    case FlagCancel(id) => FlagInv(s, id, s');
    case TickBegin(_) => TickInv(s, e, s');
    case TickTry => TickInv(s, e, s');
    case TickEnd => TickInv(s, e, s');
    case TickUpdate => UpdateInv(s, s');
    case Step(id, re) => ExecutionInv(s, id, re, s');
    case Unlock(id) => UnlockInv(s, id, s');
    case Crash => CrashInv(s, s');
    case Recover => RecoverInv(s, s');
  }

  lemma RequestForward(s: State, e: Event, s': State)
    requires e.Submit? || e.Vote? || e.Withdraw? || e.RunNow?
    requires RowsOk(s) && Next(s, e) == Some(s')
    ensures StateForward(s, s')
  {
    RequestRow(s, e, s');
    OneRowForward(s, e.id, s');
  }

  lemma OneRowForward(s: State, id: int, s': State)
    requires id in s.rows && id in s'.rows && s'.rows == s.rows[id := s'.rows[id]] && Forward(s.rows[id], s'.rows[id])
    ensures StateForward(s, s')
  {}

  lemma ExecutionForward(s: State, id: int, e: Execution.Event, s': State)
    requires RowsOk(s) && ExecsOk(s) && NextStep(s, id, e) == Some(s')
    ensures StateForward(s, s')
  {
    StepExec(s, id, e, s');
    OneRowForward(s, id, s');
  }

  lemma RecoverForward(s: State, s': State)
    requires RowsOk(s) && RecoveryOk(s) && s.sched.Recovering? && s'.rows == RecoverRows(s.sched.step, s.rows)
    ensures StateForward(s, s')
  {
    forall id | id in s.rows ensures Forward(s.rows[id], s'.rows[id]) {
      assert RowOk(s.rows[id]) && SweptTo(s.sched.step, s.rows[id]);
      RecoverRowOk(s.sched.step, s.rows[id]);
    }
  }

  /** Every step moves every row forward in its lifecycle or not at all. */
  lemma StepForward(s: State, e: Event, s': State)
    requires Inv(s) && Next(s, e) == Some(s')
    ensures StateForward(s, s')
  {
    if e.Submit? || e.Vote? || e.Withdraw? || e.RunNow? {
      RequestForward(s, e, s');
    } else if e.Step? {
      ExecutionForward(s, e.id, e.e, s');
    } else if e.Recover? {
      RecoverForward(s, s');
    } else {
      OtherForward(s, e, s');
    }
  }

  lemma OtherForward(s: State, e: Event, s': State)
    requires Next(s, e) == Some(s')
    requires !(e.Submit? || e.Vote? || e.Withdraw? || e.RunNow? || e.Step? || e.Recover?)
    ensures StateForward(s, s')
  {}
}
