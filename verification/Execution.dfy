/**
 One execution of a change (internal/changes/engine.go, execute and runTarget) as a
 small-step machine. Every lock region, statement and channel operation that another
 goroutine can observe is one event, so a run of the machine is one interleaving.

 `work[i]` is how far the code that handles target i has come; `targets[i]` is the
 row stored for it. Canary targets are handled by the main goroutine, the others by
 a goroutine each, holding one of `concurrency` semaphore slots.
 */
module Execution {
  import opened Common

  datatype Status = Draft | Pending | Approved | Running | Succeeded | Failed | Partial | Cancelled | Rejected

  datatype Target = TPending | TRunning | TSucceeded | TFailed | TSkipped

  datatype Config = Config(maxFailures: nat, concurrency: nat, canary: nat)

  datatype Work =
    | Idle      // not reached
    | Spawned   // goroutine started, second stop() check ahead
    | Cleared   // stop() returned false, runTarget ahead
    | Working   // row says running
    | Failing   // row says failed, failures not incremented yet
    | Leaving   // done, semaphore slot still held
    | Gone

  datatype Phase =
    | Loading
    | Aborted                        // loading the targets failed: execute returned early
    | Canary(next: nat)
    | CanaryBusy(next: nat)
    | Launch(next: nat)              // first stop() check for target next
    | Acquire(next: nat)             // waiting for a semaphore slot
    | Drain                          // wg.Wait
    | Skipping
    | Counting
    | Deciding(ok: nat, failed: nat)
    | Clearing(status: Status)       // status chosen, cancel flag still set
    | Writing(status: Status)
    | Written(status: Status)

  datatype Rollout = Rollout(
    cfg: Config,
    targets: seq<Target>,
    cancel: bool,
    phase: Phase,
    failures: nat,
    work: seq<Work>)
  {
    function CanaryCount(): nat { Min(cfg.canary, |targets|) }

    /** stop(): the failure limit is exceeded or a cancel was requested. */
    predicate StopNow() { failures > cfg.maxFailures || cancel }

    function Tally(t: Target): nat { multiset(targets)[t] }

    function Workers(w: Work): nat { multiset(work)[w] }

    /** Slots of the semaphore in use. */
    function Held(): nat {
      Workers(Spawned) + Workers(Cleared) + Workers(Working) + Workers(Failing) + Workers(Leaving)
    }

    /** Targets past their last stop() check whose outcome is not counted yet. */
    function PastCheck(): nat { Workers(Cleared) + Workers(Working) + Workers(Failing) }
  }

  datatype Event =
    | Load(found: bool)
    | CanaryCheck | CanaryJoin
    | LaunchCheck | Spawn
    | WorkerCheck(i: nat) | Begin(i: nat) | End(i: nat, ok: bool) | CountFailure(i: nat) | Leave(i: nat)
    | WaitAll | SkipRest | CountTargets | Decide | ClearCancel | WriteStatus
    | CancelFlag   // another goroutine sets s.cancel[id]

  function Init(cfg: Config, n: nat): Rollout {
    Rollout(cfg, seq(n, _ => TPending), false, Loading, 0, seq(n, _ => Idle))
  }

  /** The canary loop is over: run the rest only when no canary failed. */
  function AfterCanaries(r: Rollout): Rollout {
    r.(phase := if r.failures > 0 then Skipping else Launch(r.CanaryCount()))
  }

  predicate At(r: Rollout, i: nat, w: Work) {
    i < |r.work| && |r.work| == |r.targets| && r.work[i] == w
  }

  function Move(r: Rollout, i: nat, w: Work): Rollout
    requires i < |r.work|
  {
    r.(work := r.work[i := w])
  }

  function Sweep(targets: seq<Target>): seq<Target> {
    seq(|targets|, i requires 0 <= i < |targets| => if targets[i] == TPending then TSkipped else targets[i])
  }

  /** The switch that chooses the final status from the counts. */
  function FinalStatus(cancelled: bool, ok: nat, failed: nat): Status {
    if cancelled then Cancelled else if ok == 0 then Failed else if failed > 0 then Partial else Succeeded
  }

  predicate IsWorkerEvent(e: Event) {
    e.WorkerCheck? || e.Begin? || e.End? || e.CountFailure? || e.Leave?
  }

  predicate IsFinishEvent(e: Event) {
    e.SkipRest? || e.CountTargets? || e.Decide? || e.ClearCancel? || e.WriteStatus?
  }

  /** One step; None when the event cannot happen in r. */
  function Next(r: Rollout, e: Event): Option<Rollout> {
    if IsWorkerEvent(e) then WorkerNext(r, e)
    else if IsFinishEvent(e) then FinishNext(r, e)
    else DispatchNext(r, e)
  }

  /** The main goroutine up to wg.Wait, and the cancel request of another one. */
  function DispatchNext(r: Rollout, e: Event): Option<Rollout>
    requires !IsWorkerEvent(e) && !IsFinishEvent(e)
  {
    match e
    case Load(found) =>
      if r.phase.Loading? then Some(r.(phase := if found then Canary(0) else Aborted)) else None
    case CanaryCheck =>
      if !r.phase.Canary? then None
      else if r.phase.next >= r.CanaryCount() || r.StopNow() then Some(AfterCanaries(r))
      else if At(r, r.phase.next, Idle) then Some(Move(r, r.phase.next, Cleared).(phase := CanaryBusy(r.phase.next)))
      else None
    case CanaryJoin =>
      if r.phase.CanaryBusy? && At(r, r.phase.next, Gone) then Some(r.(phase := Canary(r.phase.next + 1))) else None
    case LaunchCheck =>
      if !r.phase.Launch? then None
      else if r.phase.next >= |r.targets| || r.StopNow() then Some(r.(phase := Drain))
      else Some(r.(phase := Acquire(r.phase.next)))
    case Spawn =>
      if r.phase.Acquire? && r.Held() < r.cfg.concurrency && At(r, r.phase.next, Idle)
      then Some(Move(r, r.phase.next, Spawned).(phase := Launch(r.phase.next + 1))) else None
    case WaitAll =>
      if r.phase.Drain? && r.Held() == 0 then Some(r.(phase := Skipping)) else None
    case CancelFlag =>
      Some(r.(cancel := true))
  }

  /** The code that handles target e.i. */
  function WorkerNext(r: Rollout, e: Event): Option<Rollout>
    requires IsWorkerEvent(e)
  {
    match e
    case WorkerCheck(i) =>
      if At(r, i, Spawned) then Some(Move(r, i, if r.StopNow() then Leaving else Cleared)) else None
    case Begin(i) =>
      if At(r, i, Cleared) then Some(Move(r, i, Working).(targets := r.targets[i := TRunning])) else None
    case End(i, ok) =>
      if At(r, i, Working)
      then Some(Move(r, i, if ok then Leaving else Failing).(targets := r.targets[i := if ok then TSucceeded else TFailed]))
      else None
    case CountFailure(i) =>
      if At(r, i, Failing) then Some(Move(r, i, Leaving).(failures := r.failures + 1)) else None
    case Leave(i) =>
      if At(r, i, Leaving) then Some(Move(r, i, Gone)) else None
  }

  /** The main goroutine after wg.Wait. */
  function FinishNext(r: Rollout, e: Event): Option<Rollout>
    requires IsFinishEvent(e)
  {
    match e
    case SkipRest =>
      if r.phase.Skipping? then Some(r.(targets := Sweep(r.targets), phase := Counting)) else None
    case CountTargets =>
      if r.phase.Counting?
      then Some(r.(phase := Deciding(r.Tally(TSucceeded), r.Tally(TFailed) + r.Tally(TSkipped)))) else None
    case Decide =>
      if r.phase.Deciding? then Some(r.(phase := Clearing(FinalStatus(r.cancel, r.phase.ok, r.phase.failed)))) else None
    case ClearCancel =>
      if r.phase.Clearing? then Some(r.(cancel := false, phase := Writing(r.phase.status))) else None
    case WriteStatus =>
      if r.phase.Writing? then Some(r.(phase := Written(r.phase.status))) else None
  }

  // ----- the inductive invariant

  /** The UPDATE that skips pending targets has happened. */
  predicate Swept(p: Phase) {
    p.Counting? || p.Deciding? || p.Clearing? || p.Writing? || p.Written?
  }

  /** stop() may still be called. */
  predicate Dispatching(p: Phase) {
    p.Loading? || p.Canary? || p.CanaryBusy? || p.Launch? || p.Acquire? || p.Drain?
  }

  predicate Agrees(w: Work, t: Target, swept: bool) {
    match w
    case Idle => t == if swept then TSkipped else TPending
    case Spawned => t == TPending
    case Cleared => t == TPending
    case Working => t == TRunning
    case Failing => t == TFailed
    case Leaving => t == TPending || t == TSucceeded || t == TFailed
    case Gone => t == TSucceeded || t == TFailed || t == if swept then TSkipped else TPending
  }

  predicate Ran(t: Target) { t == TRunning || t == TSucceeded || t == TFailed }

  ghost predicate RowsAgree(r: Rollout) {
    && |r.work| == |r.targets|
    && forall i :: 0 <= i < |r.work| ==> Agrees(r.work[i], r.targets[i], Swept(r.phase))
  }

  /** Every canary ran and succeeded. */
  ghost predicate CanariesSucceeded(r: Rollout) {
    forall j :: 0 <= j < r.CanaryCount() ==> r.targets[j] == TSucceeded
  }

  ghost predicate Gate(r: Rollout) {
    |r.work| == |r.targets| &&
    forall i :: r.CanaryCount() <= i < |r.targets| && (Ran(r.targets[i]) || r.work[i] == Cleared) ==> CanariesSucceeded(r)
  }

  ghost predicate CanaryPrefix(r: Rollout, k: nat)
    requires |r.work| == |r.targets|
  {
    forall i :: 0 <= i < k && i < |r.work| ==> r.work[i] == Gone && (r.targets[i] == TSucceeded || r.targets[i] == TFailed)
  }

  ghost predicate IdleFrom(r: Rollout, k: nat) {
    forall i :: k <= i < |r.work| ==> r.work[i] == Idle
  }

  ghost predicate CanariesQuiet(r: Rollout)
    requires |r.work| == |r.targets|
  {
    forall i :: 0 <= i < r.CanaryCount() ==> r.work[i] == Gone || r.work[i] == Idle
  }

  ghost predicate Parallel(r: Rollout)
    requires |r.work| == |r.targets|
  {
    && r.Held() <= r.cfg.concurrency
    && CanariesQuiet(r)
    && (CanariesSucceeded(r) || r.cancel)
  }

  ghost predicate Position(r: Rollout)
    requires |r.work| == |r.targets|
  {
    var n := |r.targets|;
    match r.phase
    case Loading => r.failures == 0 && IdleFrom(r, 0) && r.Held() == 0
    case Aborted => r.failures == 0 && IdleFrom(r, 0) && r.Held() == 0
    case Canary(k) => k <= r.CanaryCount() && r.Held() == 0 && CanaryPrefix(r, k) && IdleFrom(r, k)
    case CanaryBusy(k) =>
      && k < r.CanaryCount() && r.Held() <= 1 && CanaryPrefix(r, k) && IdleFrom(r, k + 1)
      && r.work[k] != Idle && r.work[k] != Spawned
      && (r.work[k] == Gone ==> r.Held() == 0)
      && (r.work[k] == Leaving || r.work[k] == Gone ==> r.targets[k] == TSucceeded || r.targets[k] == TFailed)
    case Launch(k) => r.CanaryCount() <= k <= n && IdleFrom(r, k) && Parallel(r)
    case Acquire(k) => r.CanaryCount() <= k < n && IdleFrom(r, k) && Parallel(r)
    case Drain => Parallel(r)
    case Deciding(ok, failed) => r.Held() == 0 && ok == r.Tally(TSucceeded) && failed == r.Tally(TFailed) + r.Tally(TSkipped)
    case Clearing(s) => r.Held() == 0 && Conclusive(r, s)
    case Writing(s) => r.Held() == 0 && Conclusive(r, s)
    case Written(s) => r.Held() == 0 && Conclusive(r, s)
    case _ => r.Held() == 0
  }

  ghost predicate Conclusive(r: Rollout, s: Status) {
    s == Cancelled || s == FinalStatus(false, r.Tally(TSucceeded), r.Tally(TFailed) + r.Tally(TSkipped))
  }

  ghost predicate Counts(r: Rollout) {
    && r.failures + r.Workers(Failing) == r.Tally(TFailed)
    && r.Workers(Working) == r.Tally(TRunning)
    && r.failures + r.PastCheck() <= r.cfg.maxFailures + r.cfg.concurrency
  }

  ghost predicate Inv(r: Rollout) {
    && r.cfg.concurrency >= 1
    && RowsAgree(r)
    && Counts(r)
    && Gate(r)
    && Position(r)
  }

  lemma InitInv(cfg: Config, n: nat)
    requires cfg.concurrency >= 1
    ensures Inv(Init(cfg, n))
  {
    var r := Init(cfg, n);
    assert forall w :: w in r.work ==> w == Idle;
    assert forall t :: t in r.targets ==> t == TPending;
  }

  lemma {:induction false} SweepTally(s: seq<Target>, t: Target)
    requires t != TPending && t != TSkipped
    ensures multiset(Sweep(s))[t] == multiset(s)[t]
  {
    if s != [] {
      var last := |s| - 1;
      SweepTally(s[..last], t);
      assert s == s[..last] + [s[last]];
      assert Sweep(s) == Sweep(s[..last]) + Sweep([s[last]]);
    }
  }

  /** What one worker event does to its target, the failure counter aside. */
  predicate WorkerStep(stop: bool, w: Work, t: Target, w': Work, t': Target) {
    match w
    case Spawned => t' == t && w' == if stop then Leaving else Cleared
    case Cleared => t' == TRunning && w' == Working
    case Working => (t' == TSucceeded && w' == Leaving) || (t' == TFailed && w' == Failing)
    case Failing => t' == t && w' == Leaving
    case Leaving => t' == t && w' == Gone
    case _ => false
  }

  ghost predicate Moved(r: Rollout, r': Rollout, i: nat) {
    && i < |r.work| == |r.targets| && |r'.work| == |r.work| && |r'.targets| == |r.work|
    && r' == r.(work := r.work[i := r'.work[i]], targets := r.targets[i := r'.targets[i]],
                failures := if r.work[i] == Failing then r.failures + 1 else r.failures)
    && WorkerStep(r.StopNow(), r.work[i], r.targets[i], r'.work[i], r'.targets[i])
  }

  lemma UpdateCounts<T>(s: seq<T>, i: nat, x: T, y: T)
    requires i < |s|
    ensures multiset(s[i := x])[y] == multiset(s)[y] - (if s[i] == y then 1 else 0) + (if x == y then 1 else 0)
    ensures multiset(s)[s[i]] > 0
  {
    assert s[i] in s;
    assert s == s[..i] + [s[i]] + s[i + 1..];
    assert s[i := x] == s[..i] + [x] + s[i + 1..];
  }

  lemma MovedCounts(r: Rollout, r': Rollout, i: nat)
    requires RowsAgree(r) && Counts(r) && Moved(r, r', i)
    requires r.Held() <= r.cfg.concurrency
    ensures Counts(r')
    ensures r'.Held() == r.Held() - (if r.work[i] == Leaving then 1 else 0)
  {
    var w := r'.work[i];
    UpdateCounts(r.work, i, w, Spawned);
    UpdateCounts(r.work, i, w, Cleared);
    UpdateCounts(r.work, i, w, Working);
    UpdateCounts(r.work, i, w, Failing);
    UpdateCounts(r.work, i, w, Leaving);
    UpdateCounts(r.targets, i, r'.targets[i], TFailed);
    UpdateCounts(r.targets, i, r'.targets[i], TRunning);
    assert Agrees(r.work[i], r.targets[i], Swept(r.phase));
  }

  /** A worker can only move while stop() may still be called. */
  lemma MovedPhase(r: Rollout, r': Rollout, i: nat)
    requires RowsAgree(r) && Position(r) && Moved(r, r', i) && r.cfg.concurrency >= 1
    ensures r.phase.CanaryBusy? || r.phase.Launch? || r.phase.Acquire? || r.phase.Drain?
    ensures r.Held() <= r.cfg.concurrency
    ensures r.phase.CanaryBusy? ==> i == r.phase.next
    ensures !r.phase.CanaryBusy? ==> r.CanaryCount() <= i
    ensures r.phase.Launch? || r.phase.Acquire? ==> i < r.phase.next
  {
    assert r.work[i] in multiset(r.work);
  }

  lemma MovedRows(r: Rollout, r': Rollout, i: nat)
    requires RowsAgree(r) && Moved(r, r', i)
    requires !Swept(r.phase)
    ensures RowsAgree(r')
  {
    assert Agrees(r.work[i], r.targets[i], false);
  }

  lemma MovedGate(r: Rollout, r': Rollout, i: nat)
    requires RowsAgree(r) && Moved(r, r', i) && Gate(r)
    requires i < r.CanaryCount() ==> r.phase.CanaryBusy? && IdleFrom(r, i + 1)
    requires i >= r.CanaryCount() ==> CanariesSucceeded(r) || r.cancel
    ensures Gate(r')
  {
    assert Agrees(r.work[i], r.targets[i], Swept(r.phase));
    forall j | r.CanaryCount() <= j < |r.targets| && (Ran(r'.targets[j]) || r'.work[j] == Cleared)
      ensures CanariesSucceeded(r')
    {
      if i < r.CanaryCount() {
        assert Agrees(r.work[j], r.targets[j], Swept(r.phase));
      }
    }
  }

  lemma MovedCanary(r: Rollout, r': Rollout, i: nat)
    requires RowsAgree(r) && Position(r) && Moved(r, r', i) && r.phase == CanaryBusy(i)
    requires r'.Held() == r.Held() - (if r.work[i] == Leaving then 1 else 0)
    ensures Position(r')
  {
    assert Agrees(r.work[i], r.targets[i], Swept(r.phase));
  }

  lemma MovedWorker(r: Rollout, r': Rollout, i: nat)
    requires RowsAgree(r) && Position(r) && Moved(r, r', i) && r.CanaryCount() <= i
    requires r.phase.Launch? || r.phase.Acquire? || r.phase.Drain?
    requires r.phase.Launch? || r.phase.Acquire? ==> i < r.phase.next
    requires r'.Held() <= r.Held()
    ensures Position(r')
  {}

  lemma MovedPosition(r: Rollout, r': Rollout, i: nat)
    requires RowsAgree(r) && Position(r) && Moved(r, r', i)
    requires r.phase.CanaryBusy? || r.phase.Launch? || r.phase.Acquire? || r.phase.Drain?
    requires r.phase.CanaryBusy? ==> i == r.phase.next
    requires !r.phase.CanaryBusy? ==> r.CanaryCount() <= i
    requires r.phase.Launch? || r.phase.Acquire? ==> i < r.phase.next
    requires r'.Held() == r.Held() - (if r.work[i] == Leaving then 1 else 0)
    ensures Position(r')
  {
    if r.phase.CanaryBusy? {
      MovedCanary(r, r', i);
    } else {
      MovedWorker(r, r', i);
    }
  }

  lemma MovedInv(r: Rollout, r': Rollout, i: nat)
    requires Inv(r) && Moved(r, r', i)
    ensures Inv(r')
  {
    MovedPhase(r, r', i);
    MovedCounts(r, r', i);
    MovedRows(r, r', i);
    MovedGate(r, r', i);
    MovedPosition(r, r', i);
  }

  /** Steps that only move the main goroutine keep everything but its position. */
  lemma PhaseInv(r: Rollout, r': Rollout)
    requires Inv(r)
    requires r' == r.(phase := r'.phase, cancel := r'.cancel)
    requires Swept(r'.phase) == Swept(r.phase) && Position(r')
    ensures Inv(r')
  {}

  /** The canary loop ended: either stop() said so or every canary was run. */
  lemma CanariesDone(r: Rollout)
    requires Inv(r) && r.phase.Canary?
    requires r.phase.next == r.CanaryCount() || r.StopNow()
    ensures Position(AfterCanaries(r)) && !Swept(AfterCanaries(r).phase)
  {
    if r.failures == 0 && !r.cancel {
      assert r.Workers(Failing) == 0;
      forall j | 0 <= j < r.CanaryCount() ensures r.targets[j] == TSucceeded {
        assert r.targets[j] in multiset(r.targets);
      }
    }
  }

  /** Target k is taken up: its worker is spawned, or cleared to run as a canary. */
  lemma TakenUp(r: Rollout, k: nat, w: Work, r': Rollout)
    requires At(r, k, Idle) && (w == Spawned || w == Cleared)
    requires r' == Move(r, k, w).(phase := r'.phase)
    ensures r'.Held() == r.Held() + 1
    ensures r'.PastCheck() == r.PastCheck() + if w == Cleared then 1 else 0
    ensures r'.Workers(Failing) == r.Workers(Failing) && r'.Workers(Working) == r.Workers(Working)
  {
    UpdateCounts(r.work, k, w, Spawned);
    UpdateCounts(r.work, k, w, Cleared);
    UpdateCounts(r.work, k, w, Working);
    UpdateCounts(r.work, k, w, Failing);
    UpdateCounts(r.work, k, w, Leaving);
  }

  lemma CanaryClearedInv(r: Rollout, r': Rollout)
    requires Inv(r) && r.phase.Canary? && r.phase.next < r.CanaryCount() && !r.StopNow()
    requires r' == Move(r, r.phase.next, Cleared).(phase := CanaryBusy(r.phase.next))
    ensures Inv(r')
  {
    TakenUp(r, r.phase.next, Cleared, r');
  }

  lemma CanaryCheckInv(r: Rollout, r': Rollout)
    requires Inv(r) && DispatchNext(r, CanaryCheck) == Some(r')
    ensures Inv(r')
  {
    if r.phase.next >= r.CanaryCount() || r.StopNow() {
      CanariesDone(r);
      PhaseInv(r, r');
    } else {
      CanaryClearedInv(r, r');
    }
  }

  lemma SpawnPosition(r: Rollout, r': Rollout)
    requires RowsAgree(r) && Position(r) && r.phase.Acquire? && At(r, r.phase.next, Idle)
    requires r' == Move(r, r.phase.next, Spawned).(phase := Launch(r.phase.next + 1)) && r'.Held() <= r.cfg.concurrency
    ensures Position(r')
  {}

  lemma SpawnGate(r: Rollout, r': Rollout)
    requires RowsAgree(r) && Gate(r) && r.phase.Acquire? && At(r, r.phase.next, Idle)
    requires r' == Move(r, r.phase.next, Spawned).(phase := Launch(r.phase.next + 1))
    ensures RowsAgree(r') && Gate(r')
  {
    assert Agrees(r.work[r.phase.next], r.targets[r.phase.next], false);
    forall j | r.CanaryCount() <= j < |r.targets| && (Ran(r'.targets[j]) || r'.work[j] == Cleared)
      ensures CanariesSucceeded(r')
    {
      assert Ran(r.targets[j]) || r.work[j] == Cleared;
    }
  }

  lemma SpawnInv(r: Rollout, r': Rollout)
    requires Inv(r) && DispatchNext(r, Spawn) == Some(r')
    ensures Inv(r')
  {
    TakenUp(r, r.phase.next, Spawned, r');
    SpawnPosition(r, r');
    SpawnGate(r, r');
  }

  lemma QuietWork(r: Rollout)
    requires r.Held() == 0
    ensures forall i :: 0 <= i < |r.work| ==> r.work[i] == Idle || r.work[i] == Gone
  {
    forall i | 0 <= i < |r.work| ensures r.work[i] == Idle || r.work[i] == Gone {
      assert r.work[i] in multiset(r.work);
    }
  }

  lemma SkipRestInv(r: Rollout, r': Rollout)
    requires Inv(r) && FinishNext(r, SkipRest) == Some(r')
    ensures Inv(r')
  {
    SweepTally(r.targets, TFailed);
    SweepTally(r.targets, TRunning);
    QuietWork(r);
  }

  /** Steps that only move the main goroutine or set the flag. */
  lemma LaunchCheckInv(r: Rollout, r': Rollout)
    requires Inv(r) && DispatchNext(r, LaunchCheck) == Some(r')
    ensures Inv(r')
  {
    PhaseInv(r, r');
  }

  lemma CanaryJoinInv(r: Rollout, r': Rollout)
    requires Inv(r) && DispatchNext(r, CanaryJoin) == Some(r')
    ensures Inv(r')
  {
    PhaseInv(r, r');
  }

  lemma LoadInv(r: Rollout, e: Event, r': Rollout)
    requires e.Load? && Inv(r) && DispatchNext(r, e) == Some(r')
    ensures Inv(r')
  {
    PhaseInv(r, r');
  }

  lemma WaitAllInv(r: Rollout, r': Rollout)
    requires Inv(r) && DispatchNext(r, WaitAll) == Some(r')
    ensures Inv(r')
  {
    PhaseInv(r, r');
  }

  lemma CancelFlagInv(r: Rollout, r': Rollout)
    requires Inv(r) && DispatchNext(r, CancelFlag) == Some(r')
    ensures Inv(r')
  {
    PhaseInv(r, r');
  }

  lemma FinishInv(r: Rollout, e: Event, r': Rollout)
    requires IsFinishEvent(e) && !e.SkipRest?
    requires Inv(r) && FinishNext(r, e) == Some(r')
    ensures Inv(r')
  {
    PhaseInv(r, r');
  }

  lemma WorkerMoves(r: Rollout, e: Event, r': Rollout)
    requires IsWorkerEvent(e) && RowsAgree(r) && WorkerNext(r, e) == Some(r')
    ensures Moved(r, r', e.i)
  {
    assert Agrees(r.work[e.i], r.targets[e.i], Swept(r.phase));
  }

  lemma WorkerInv(r: Rollout, e: Event, r': Rollout)
    requires IsWorkerEvent(e)
    requires Inv(r) && WorkerNext(r, e) == Some(r')
    ensures Inv(r')
  {
    WorkerMoves(r, e, r');
    MovedInv(r, r', e.i);
  }

  /** Every step of every interleaving keeps the invariant. */
  lemma StepInv(r: Rollout, e: Event, r': Rollout)
    requires Inv(r) && Next(r, e) == Some(r')
    ensures Inv(r')
  {
    if IsWorkerEvent(e) {
      WorkerInv(r, e, r');
    } else if e.SkipRest? {
      SkipRestInv(r, r');
    } else if IsFinishEvent(e) {
      FinishInv(r, e, r');
    } else if e.CanaryCheck? {
      CanaryCheckInv(r, r');
    } else if e.Spawn? {
      SpawnInv(r, r');
    } else if e.LaunchCheck? {
      LaunchCheckInv(r, r');
    } else if e.CanaryJoin? {
      CanaryJoinInv(r, r');
    } else if e.Load? {
      LoadInv(r, e, r');
    } else if e.WaitAll? {
      WaitAllInv(r, r');
    } else {
      CancelFlagInv(r, r');
    }
  }

  lemma StepKeeps(r: Rollout, e: Event, r': Rollout)
    requires Next(r, e) == Some(r')
    ensures r'.cfg == r.cfg && |r'.targets| == |r.targets|
  {}
}
