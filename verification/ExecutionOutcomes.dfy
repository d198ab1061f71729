/**
 What one execution leaves of each target, told from the events of its run: what the
 runner reported, why a target was skipped, and that nothing starts after a stop.
 */
module ExecutionOutcomes {
  import opened Common
  import opened Execution
  import opened ExecutionRuns

  lemma LastReached(cfg: Config, n: nat, es: seq<Event>, r: Rollout) returns (init: seq<Event>, e: Event, before: Rollout)
    requires Reaches(cfg, n, es, r) && es != []
    ensures es == init + [e] && |init| < |es| && Reaches(cfg, n, init, before) && Next(before, e) == Some(r)
  {
    init, e := es[..|es| - 1], es[|es| - 1];
    LastStep(Init(cfg, n), es);
    before := Run(Init(cfg, n), init).value;
  }

  /** The last event of a run and the state it happens in. */
  lemma Last(cfg: Config, n: nat, es: seq<Event>, r: Rollout) returns (init: seq<Event>, e: Event, before: Rollout)
    requires cfg.concurrency >= 1 && Reaches(cfg, n, es, r) && es != []
    ensures es == init + [e] && |init| < |es| && Reaches(cfg, n, init, before) && Next(before, e) == Some(r)
    ensures Inv(before) && |before.targets| == n && before.cfg == cfg
  {
    init, e, before := LastReached(cfg, n, es, r);
    RunInv(cfg, n, init, before);
    RunKeeps(cfg, n, init, before);
  }

  // ----- the outcome of a target is what its runner reported

  /** The row of target i, told from the events that concern it. */
  ghost predicate Told(es: seq<Event>, t: Target, i: nat) {
    && (t == TSucceeded <==> End(i, true) in es)
    && (t == TFailed <==> End(i, false) in es)
    && (Ran(t) <==> Begin(i) in es)
  }

  lemma ToldExtends(es: seq<Event>, e: Event, t: Target, i: nat)
    requires Told(es, t, i) && e != Begin(i) && e != End(i, true) && e != End(i, false)
    ensures Told(es + [e], t, i)
  {}

  /** One step seen from the row of target i. */
  lemma RowNext(r: Rollout, e: Event, r': Rollout, i: nat)
    requires RowsAgree(r) && Next(r, e) == Some(r') && i < |r.targets|
    ensures |r'.targets| == |r.targets|
    ensures e == Begin(i) ==> r.targets[i] == TPending && r'.targets[i] == TRunning
    ensures e == End(i, true) ==> r.targets[i] == TRunning && r'.targets[i] == TSucceeded
    ensures e == End(i, false) ==> r.targets[i] == TRunning && r'.targets[i] == TFailed
    ensures e != Begin(i) && e != End(i, true) && e != End(i, false) ==>
      r'.targets[i] == r.targets[i] || (r.targets[i] == TPending && r'.targets[i] == TSkipped)
  {
    if IsWorkerEvent(e) {
      WorkerRow(r, e, r', i);
    }
  }

  lemma WorkerRow(r: Rollout, e: Event, r': Rollout, i: nat)
    requires IsWorkerEvent(e) && RowsAgree(r) && WorkerNext(r, e) == Some(r') && i < |r.targets|
    ensures |r'.targets| == |r.targets|
    ensures e == Begin(i) ==> r.targets[i] == TPending && r'.targets[i] == TRunning
    ensures e == End(i, true) ==> r.targets[i] == TRunning && r'.targets[i] == TSucceeded
    ensures e == End(i, false) ==> r.targets[i] == TRunning && r'.targets[i] == TFailed
    ensures e != Begin(i) && e != End(i, true) && e != End(i, false) ==> r'.targets[i] == r.targets[i]
  {
    assert Agrees(r.work[i], r.targets[i], Swept(r.phase));
    if e.End? {
      assert e == End(e.i, true) || e == End(e.i, false);
    }
  }

  lemma ToldNext(es: seq<Event>, r: Rollout, e: Event, r': Rollout, i: nat)
    requires Inv(r) && Next(r, e) == Some(r') && i < |r.targets| && Told(es, r.targets[i], i)
    ensures |r'.targets| == |r.targets| && Told(es + [e], r'.targets[i], i)
  {
    RowNext(r, e, r', i);
  }

  lemma {:induction false} TargetsTold(cfg: Config, n: nat, es: seq<Event>, r: Rollout, i: nat)
    requires cfg.concurrency >= 1 && Reaches(cfg, n, es, r) && i < n
    ensures i < |r.targets| && Told(es, r.targets[i], i)
    decreases |es|
  {
    if es != [] {
      var init, e, before := Last(cfg, n, es, r);
      TargetsTold(cfg, n, init, before, i);
      ToldNext(init, before, e, r, i);
    }
  }

  /**
   In every run a target is stored as succeeded exactly if its runner reported success, as
   failed exactly if it reported a failure, and as running in between.
   */
  lemma OutcomeIsReported(cfg: Config, n: nat, es: seq<Event>, r: Rollout, i: nat)
    requires cfg.concurrency >= 1 && Reaches(cfg, n, es, r) && i < n
    ensures i < |r.targets|
    ensures r.targets[i] == TSucceeded <==> End(i, true) in es
    ensures r.targets[i] == TFailed <==> End(i, false) in es
    ensures r.targets[i] == TRunning <==> Begin(i) in es && End(i, true) !in es && End(i, false) !in es
  {
    TargetsTold(cfg, n, es, r, i);
  }

  /** While a target runs, its runner can report either. */
  lemma EitherOutcome(cfg: Config, n: nat, es: seq<Event>, r: Rollout, i: nat)
    requires cfg.concurrency >= 1 && Reaches(cfg, n, es, r) && i < n
    requires Begin(i) in es && End(i, true) !in es && End(i, false) !in es
    ensures Next(r, End(i, true)).Some? && Next(r, End(i, false)).Some?
  {
    OutcomeIsReported(cfg, n, es, r, i);
    RunInv(cfg, n, es, r);
    assert Agrees(r.work[i], r.targets[i], Swept(r.phase));
  }

  lemma {:induction false} LoadTold(cfg: Config, n: nat, es: seq<Event>, r: Rollout)
    requires cfg.concurrency >= 1 && Reaches(cfg, n, es, r)
    ensures Load(false) in es <==> r.phase.Aborted?
    decreases |es|
  {
    if es != [] {
      var init, e, before := Last(cfg, n, es, r);
      LoadTold(cfg, n, init, before);
      AbortedIsQuiet(before, e, r);
    }
  }

  lemma AbortedRows(r: Rollout)
    requires RowsAgree(r) && Position(r) && r.phase.Aborted?
    ensures forall i :: 0 <= i < |r.targets| ==> r.targets[i] == TPending
  {
    forall i | 0 <= i < |r.targets| ensures r.targets[i] == TPending {
      assert Agrees(r.work[i], r.targets[i], false);
    }
  }

  /** If the targets could not be loaded nothing runs and the rows stay as they were. */
  lemma NothingLoaded(cfg: Config, n: nat, es: seq<Event>, r: Rollout)
    requires cfg.concurrency >= 1 && Reaches(cfg, n, es, r)
    ensures Load(false) in es <==> r.phase.Aborted?
    ensures Load(false) in es ==> forall i :: 0 <= i < |r.targets| ==> r.targets[i] == TPending
  {
    LoadTold(cfg, n, es, r);
    RunInv(cfg, n, es, r);
    if r.phase.Aborted? {
      AbortedRows(r);
    }
  }

  /** Loading can succeed or fail; nothing else comes first but a cancel. */
  lemma EitherLoad(cfg: Config, n: nat, es: seq<Event>, r: Rollout, found: bool)
    requires cfg.concurrency >= 1 && Reaches(cfg, n, es, r) && forall i :: 0 <= i < |es| ==> es[i] == CancelFlag
    ensures Next(r, Load(found)).Some?
  {
    if es != [] {
      var init, e, before := Last(cfg, n, es, r);
      EitherLoad(cfg, n, init, before, found);
      assert es[|init|] == CancelFlag;
    }
  }

  lemma AbortedIsQuiet(r: Rollout, e: Event, r': Rollout)
    requires Inv(r) && Next(r, e) == Some(r')
    ensures r'.phase.Aborted? <==> r.phase.Aborted? || e == Load(false)
  {
    if r.phase.Aborted? {
      QuietWork(r);
    }
  }

  // ----- canaries run one at a time

  predicate Ended(t: Target) { t == TSucceeded || t == TFailed }

  /** Canary j ran only after every canary before it ended. */
  ghost predicate InTurn(r: Rollout) {
    && |r.work| == |r.targets|
    && forall j, k :: 0 <= k < j < r.CanaryCount() && (Ran(r.targets[j]) || r.work[j] == Cleared) ==> Ended(r.targets[k])
  }

  lemma InTurnWorker(r: Rollout, r': Rollout, i: nat)
    requires RowsAgree(r) && Position(r) && Moved(r, r', i) && r.cfg.concurrency >= 1 && InTurn(r)
    ensures InTurn(r')
  {
    MovedPhase(r, r', i);
    assert Agrees(r.work[i], r.targets[i], Swept(r.phase));
  }

  /** The next canary is cleared: all before it have ended. */
  lemma InTurnCanary(r: Rollout, r': Rollout)
    requires RowsAgree(r) && Position(r) && InTurn(r) && DispatchNext(r, CanaryCheck) == Some(r')
    ensures InTurn(r')
  {}

  lemma InTurnSpawn(r: Rollout, r': Rollout)
    requires RowsAgree(r) && Position(r) && InTurn(r) && DispatchNext(r, Spawn) == Some(r')
    ensures InTurn(r')
  {}

  /** Nothing is cleared or run by the other steps. */
  lemma InTurnOther(r: Rollout, e: Event, r': Rollout)
    requires InTurn(r) && Next(r, e) == Some(r') && !IsWorkerEvent(e) && !e.CanaryCheck? && !e.Spawn?
    ensures InTurn(r')
  {}

  lemma InTurnNext(r: Rollout, e: Event, r': Rollout)
    requires RowsAgree(r) && Position(r) && r.cfg.concurrency >= 1 && InTurn(r) && Next(r, e) == Some(r')
    ensures InTurn(r')
  {
    if IsWorkerEvent(e) {
      WorkerMoves(r, e, r');
      InTurnWorker(r, r', e.i);
    } else if e.CanaryCheck? {
      InTurnCanary(r, r');
    } else if e.Spawn? {
      InTurnSpawn(r, r');
    } else {
      InTurnOther(r, e, r');
    }
  }

  lemma {:induction false} CanariesInTurn(cfg: Config, n: nat, es: seq<Event>, r: Rollout)
    requires cfg.concurrency >= 1 && Reaches(cfg, n, es, r)
    ensures InTurn(r)
    decreases |es|
  {
    if es != [] {
      var init, e, before := Last(cfg, n, es, r);
      CanariesInTurn(cfg, n, init, before);
      InTurnNext(before, e, r);
    }
  }

  lemma CanaryAlone(r: Rollout, j: nat)
    requires RowsAgree(r) && Position(r) && j < r.CanaryCount() && r.targets[j] == TRunning
    ensures forall k :: j < k < |r.targets| ==> r.targets[k] == TPending
  {
    assert Agrees(r.work[j], r.targets[j], Swept(r.phase));
    assert r.work[j] in multiset(r.work);
    assert r.phase == CanaryBusy(j);
    forall k | j < k < |r.targets| ensures r.targets[k] == TPending {
      assert Agrees(r.work[k], r.targets[k], false);
    }
  }

  /** While a canary runs no other target does, and all canaries before it have ended. */
  lemma CanariesOneByOne(cfg: Config, n: nat, es: seq<Event>, r: Rollout, j: nat)
    requires cfg.concurrency >= 1 && Reaches(cfg, n, es, r)
    requires |r.targets| == n && j < Min(cfg.canary, n) && r.targets[j] == TRunning
    ensures forall k :: 0 <= k < j ==> Ended(r.targets[k])
    ensures forall k :: j < k < n ==> r.targets[k] == TPending
  {
    RunKeeps(cfg, n, es, r);
    RunInv(cfg, n, es, r);
    CanariesInTurn(cfg, n, es, r);
    CanaryAlone(r, j);
  }

  // ----- why a target was skipped

  /** The failed ones among the first k targets. */
  function FailedBefore(targets: seq<Target>, k: nat): nat
    requires k <= |targets|
  {
    multiset(targets[..k])[TFailed]
  }

  /** The canary loop is over. */
  predicate PastCanaries(p: Phase) { !p.Loading? && !p.Aborted? && !p.Canary? && !p.CanaryBusy? }

  /** No further target will be launched. */
  predicate Launched(p: Phase) { PastCanaries(p) && !p.Launch? && !p.Acquire? }

  /** Target i has been passed over: never launched, or stopped at its second check. */
  predicate PassedOver(r: Rollout, i: nat)
    requires i < |r.work| == |r.targets|
  {
    (Launched(r.phase) && r.work[i] == Idle) || ((r.work[i] == Leaving || r.work[i] == Gone) && !Ran(r.targets[i]))
  }

  /** A canary is taken up exactly while the failures before it are within the limit. */
  ghost predicate CanaryReason(r: Rollout, j: nat)
    requires j < |r.work| == |r.targets|
  {
    if r.work[j] != Idle then FailedBefore(r.targets, j) <= r.cfg.maxFailures && (r.work[j] == Gone ==> Ended(r.targets[j]))
    else PastCanaries(r.phase) ==> FailedBefore(r.targets, j) > r.cfg.maxFailures
  }

  /** Another target is passed over only after a failed canary or too many failures. */
  ghost predicate OtherReason(r: Rollout, i: nat)
    requires i < |r.work| == |r.targets|
  {
    PassedOver(r, i) ==> !CanariesSucceeded(r) || r.failures > r.cfg.maxFailures
  }

  /** What holds in every state of a run without a cancel. */
  ghost predicate Reasons(r: Rollout) {
    && |r.work| == |r.targets|
    && (forall j: nat :: j < r.CanaryCount() ==> CanaryReason(r, j))
    && (forall i: nat :: r.CanaryCount() <= i < |r.work| ==> OtherReason(r, i))
    && (forall i :: (r.phase.Launch? || r.phase.Acquire?) && 0 <= i < r.phase.next && i < |r.work| ==> r.work[i] != Idle)
  }

  lemma PrefixTally(s: seq<Target>, k: nat, t: Target)
    requires k <= |s|
    ensures multiset(s[..k])[t] <= multiset(s)[t]
    ensures (forall i :: k <= i < |s| ==> s[i] != t) ==> multiset(s[..k])[t] == multiset(s)[t]
  {
    assert s == s[..k] + s[k..];
    if forall i :: k <= i < |s| ==> s[i] != t {
      assert t !in s[k..];
      assert multiset(s[k..])[t] == 0;
    }
  }

  /** A canary's row changes while all canaries after it are idle, another's never counts for canaries. */
  lemma ReasonsWorker(r: Rollout, r': Rollout, i: nat)
    requires RowsAgree(r) && Position(r) && r.cfg.concurrency >= 1 && Moved(r, r', i) && !r.cancel && Reasons(r)
    ensures Reasons(r')
  {
    MovedPhase(r, r', i);
    assert Agrees(r.work[i], r.targets[i], Swept(r.phase));
    forall j: nat | j < r.CanaryCount() ensures CanaryReason(r', j) {
      assert CanaryReason(r, j);
      if j <= i {
        assert r'.targets[..j] == r.targets[..j];
      }
    }
    forall x: nat | r.CanaryCount() <= x < |r.work| ensures OtherReason(r', x) {
      assert OtherReason(r, x);
    }
  }

  /** Between canaries the failure counter is the number of failed rows. */
  lemma CountedAll(r: Rollout)
    requires Counts(r) && r.Held() == 0
    ensures r.failures == r.Tally(TFailed)
  {}

  /** In the canary loop what comes from k on is still pending. */
  lemma PendingFrom(r: Rollout, k: nat)
    requires RowsAgree(r) && !Swept(r.phase) && IdleFrom(r, k) && k <= |r.targets|
    ensures forall i :: k <= i < |r.targets| ==> r.targets[i] == TPending
    ensures forall j :: k <= j <= |r.targets| ==> FailedBefore(r.targets, j) == r.Tally(TFailed)
    ensures FailedBefore(r.targets, k) == r.Tally(TFailed)
  {
    forall i | k <= i < |r.targets| ensures r.targets[i] == TPending {
      assert Agrees(r.work[i], r.targets[i], false);
    }
    forall j | k <= j <= |r.targets| ensures FailedBefore(r.targets, j) == r.Tally(TFailed) {
      PrefixTally(r.targets, j, TFailed);
    }
  }

  lemma ReasonsNextCanary(r: Rollout, r': Rollout, k: nat)
    requires Reasons(r) && r.phase == Canary(k) && k < r.CanaryCount() && FailedBefore(r.targets, k) <= r.cfg.maxFailures
    requires r' == Move(r, k, Cleared).(phase := CanaryBusy(k)) && IdleFrom(r, k)
    ensures Reasons(r')
  {
    forall j: nat | j < r.CanaryCount() ensures CanaryReason(r', j) {
      assert CanaryReason(r, j);
    }
    forall i: nat | r.CanaryCount() <= i < |r.work| ensures OtherReason(r', i) {
      assert OtherReason(r, i);
    }
  }

  lemma ReasonsLeaveCanaries(r: Rollout, k: nat)
    requires Reasons(r) && r.phase == Canary(k) && IdleFrom(r, k) && CanaryPrefix(r, k) && k <= r.CanaryCount()
    requires k == r.CanaryCount() || r.failures > r.cfg.maxFailures
    requires forall j :: k <= j <= |r.targets| ==> FailedBefore(r.targets, j) == r.failures
    requires r.failures > 0 ==> !CanariesSucceeded(r)
    ensures Reasons(AfterCanaries(r))
  {
    var r' := AfterCanaries(r);
    forall j: nat | j < r.CanaryCount() ensures CanaryReason(r', j) {
      assert CanaryReason(r, j);
    }
    forall i: nat | r.CanaryCount() <= i < |r.work| ensures OtherReason(r', i) {
      assert OtherReason(r, i);
      assert CanariesSucceeded(r') ==> CanariesSucceeded(r);
    }
  }

  /** A failure in the canary loop is a canary's. */
  lemma FailedCanary(r: Rollout, k: nat)
    requires |r.work| == |r.targets| && k <= r.CanaryCount() && r.Tally(TFailed) > 0
    requires forall i :: k <= i < |r.targets| ==> r.targets[i] == TPending
    ensures !CanariesSucceeded(r)
  {
    assert TFailed in multiset(r.targets);
    var i :| 0 <= i < |r.targets| && r.targets[i] == TFailed;
  }

  lemma ReasonsCanary(r: Rollout, r': Rollout)
    requires RowsAgree(r) && Counts(r) && Position(r) && !r.cancel && Reasons(r) && DispatchNext(r, CanaryCheck) == Some(r')
    ensures Reasons(r')
  {
    var k := r.phase.next;
    CountedAll(r);
    PendingFrom(r, k);
    if k >= r.CanaryCount() || r.failures > r.cfg.maxFailures {
      if r.failures > 0 {
        FailedCanary(r, k);
      }
      ReasonsLeaveCanaries(r, k);
    } else {
      ReasonsNextCanary(r, r', k);
    }
  }

  lemma ReasonsLaunch(r: Rollout, e: Event, r': Rollout)
    requires RowsAgree(r) && Position(r) && !r.cancel && Reasons(r)
    requires (e.LaunchCheck? || e.Spawn? || e.WaitAll?) && DispatchNext(r, e) == Some(r')
    ensures Reasons(r')
  {
    assert r'.targets == r.targets;
    forall j: nat | j < r.CanaryCount() ensures CanaryReason(r', j) {
      assert CanaryReason(r, j);
    }
    forall i: nat | r.CanaryCount() <= i < |r.work| ensures OtherReason(r', i) {
      assert OtherReason(r, i);
    }
  }

  lemma SweptPrefix(s: seq<Target>, k: nat)
    requires k <= |s|
    ensures FailedBefore(Sweep(s), k) == FailedBefore(s, k)
  {
    assert Sweep(s)[..k] == Sweep(s[..k]);
    SweepTally(s[..k], TFailed);
  }

  lemma ReasonsFinish(r: Rollout, e: Event, r': Rollout)
    requires !r.cancel && Reasons(r) && IsFinishEvent(e) && FinishNext(r, e) == Some(r')
    ensures Reasons(r')
  {
    forall j: nat | j < r.CanaryCount() ensures CanaryReason(r', j) {
      assert CanaryReason(r, j);
      SweptPrefix(r.targets, j);
    }
    assert forall j :: 0 <= j < |r.targets| && r'.targets[j] == TSucceeded ==> r.targets[j] == TSucceeded;
    assert CanariesSucceeded(r') ==> CanariesSucceeded(r);
    forall i: nat | r.CanaryCount() <= i < |r.work| ensures OtherReason(r', i) {
      assert OtherReason(r, i);
    }
  }

  lemma ReasonsStart(r: Rollout, e: Event, r': Rollout)
    requires RowsAgree(r) && Position(r) && !r.cancel && Reasons(r)
    requires (e.Load? || e.CanaryJoin?) && DispatchNext(r, e) == Some(r')
    ensures Reasons(r')
  {
    forall j: nat | j < r.CanaryCount() ensures CanaryReason(r', j) {
      assert CanaryReason(r, j);
    }
    forall i: nat | r.CanaryCount() <= i < |r.work| ensures OtherReason(r', i) {
      assert OtherReason(r, i);
    }
  }

  lemma ReasonsNext(r: Rollout, e: Event, r': Rollout)
    requires RowsAgree(r) && Counts(r) && Position(r) && r.cfg.concurrency >= 1
    requires !r.cancel && Reasons(r) && e != CancelFlag && Next(r, e) == Some(r')
    ensures Reasons(r') && !r'.cancel
  {
    if IsWorkerEvent(e) {
      WorkerMoves(r, e, r');
      ReasonsWorker(r, r', e.i);
    } else if IsFinishEvent(e) {
      ReasonsFinish(r, e, r');
    } else if e.CanaryCheck? {
      ReasonsCanary(r, r');
    } else if e.Load? || e.CanaryJoin? {
      ReasonsStart(r, e, r');
    } else {
      ReasonsLaunch(r, e, r');
    }
  }

  lemma InitReasons(cfg: Config, n: nat)
    ensures Reasons(Init(cfg, n)) && !Init(cfg, n).cancel
  {}

  lemma {:induction false} RunReasons(cfg: Config, n: nat, es: seq<Event>, r: Rollout)
    requires cfg.concurrency >= 1 && Reaches(cfg, n, es, r) && CancelFlag !in es
    ensures Reasons(r) && !r.cancel
    decreases |es|
  {
    if es == [] {
      InitReasons(cfg, n);
    } else {
      var init, e, before := Last(cfg, n, es, r);
      RunReasons(cfg, n, init, before);
      ReasonsNext(before, e, r);
    }
  }

  lemma SkippedCanary(r: Rollout, i: nat)
    requires RowsAgree(r) && r.Held() == 0 && Swept(r.phase) && i < r.CanaryCount() && Reasons(r)
    ensures r.targets[i] == TSkipped <==> FailedBefore(r.targets, i) > r.cfg.maxFailures
  {
    QuietWork(r);
    assert Agrees(r.work[i], r.targets[i], true);
    assert CanaryReason(r, i);
  }

  lemma SkippedOther(r: Rollout, i: nat)
    requires RowsAgree(r) && r.Held() == 0 && Swept(r.phase) && r.CanaryCount() <= i < |r.targets| && Reasons(r)
    ensures r.targets[i] == TSkipped ==> !CanariesSucceeded(r) || r.failures > r.cfg.maxFailures
  {
    QuietWork(r);
    assert Agrees(r.work[i], r.targets[i], true);
    assert OtherReason(r, i);
  }

  lemma GateSkips(r: Rollout, i: nat)
    requires RowsAgree(r) && Gate(r) && r.Held() == 0 && Swept(r.phase) && r.CanaryCount() <= i < |r.targets|
    ensures !CanariesSucceeded(r) ==> r.targets[i] == TSkipped
  {
    QuietWork(r);
    assert Agrees(r.work[i], r.targets[i], true);
  }

  /**
   Why a finished execution that nobody cancelled skipped a target. A canary: exactly when
   more than MaxFailures of the canaries before it failed. Another target: always when a
   canary failed or was skipped, otherwise only after more than MaxFailures failures.
   */
  lemma SkippedForAReason(cfg: Config, n: nat, es: seq<Event>, r: Rollout, i: nat)
    requires cfg.concurrency >= 1 && Reaches(cfg, n, es, r) && r.phase.Written? && CancelFlag !in es && i < n
    ensures |r.targets| == n
    ensures i < Min(cfg.canary, n) ==> (r.targets[i] == TSkipped <==> FailedBefore(r.targets, i) > cfg.maxFailures)
    ensures Min(cfg.canary, n) <= i && (exists j :: 0 <= j < Min(cfg.canary, n) && r.targets[j] != TSucceeded) ==>
      r.targets[i] == TSkipped
    ensures Min(cfg.canary, n) <= i && (forall j :: 0 <= j < Min(cfg.canary, n) ==> r.targets[j] == TSucceeded) ==>
      (r.targets[i] == TSkipped ==> r.Tally(TFailed) > cfg.maxFailures)
  {
    RunKeeps(cfg, n, es, r);
    RunInv(cfg, n, es, r);
    RunReasons(cfg, n, es, r);
    if i < r.CanaryCount() {
      SkippedCanary(r, i);
    } else {
      SkippedOther(r, i);
      GateSkips(r, i);
    }
  }

  // ----- when nothing fails

  /** Nothing failed and nobody cancelled. */
  ghost predicate AllWell(es: seq<Event>) {
    CancelFlag !in es && Load(false) !in es && forall i :: End(i, false) !in es
  }

  lemma NoneFailed(s: seq<Target>, k: nat)
    requires k <= |s| && forall i :: 0 <= i < |s| ==> s[i] != TFailed
    ensures FailedBefore(s, k) == 0
  {
    assert TFailed !in s[..k];
  }

  lemma RunsIfAllWell(cfg: Config, n: nat, es: seq<Event>, r: Rollout, i: nat)
    requires cfg.concurrency >= 1 && Reaches(cfg, n, es, r) && r.phase.Written? && CancelFlag !in es && i < n
    requires |r.targets| == n && Settled(r) && forall j :: 0 <= j < n ==> r.targets[j] != TFailed
    requires i < Min(cfg.canary, n) || forall j :: 0 <= j < Min(cfg.canary, n) ==> r.targets[j] == TSucceeded
    ensures r.targets[i] == TSucceeded
  {
    SkippedForAReason(cfg, n, es, r, i);
    NoneFailed(r.targets, i);
    NoneFailed(r.targets, n);
    assert r.targets[..n] == r.targets;
    assert r.targets[i] in multiset(r.targets);
  }

  lemma SucceededStatus(r: Rollout)
    requires r.phase.Written? && Verdict(r.phase.status, r.targets) && r.phase.status != Cancelled && |r.targets| > 0
    requires forall i :: 0 <= i < |r.targets| ==> r.targets[i] == TSucceeded
    ensures r.phase.status == Succeeded
  {
    assert r.targets[0] in multiset(r.targets);
  }

  /** An execution in which nothing fails, and which nobody cancels, runs every target and ends as succeeded. */
  lemma AllWellSucceeds(cfg: Config, n: nat, es: seq<Event>, r: Rollout)
    requires cfg.concurrency >= 1 && Reaches(cfg, n, es, r) && r.phase.Written? && AllWell(es)
    ensures |r.targets| == n && (forall i :: 0 <= i < n ==> r.targets[i] == TSucceeded)
    ensures n > 0 ==> r.phase.status == Succeeded
  {
    RunKeeps(cfg, n, es, r);
    Finished(cfg, n, es, r);
    forall i | 0 <= i < n ensures r.targets[i] != TFailed {
      OutcomeIsReported(cfg, n, es, r, i);
    }
    forall i | 0 <= i < Min(cfg.canary, n) ensures r.targets[i] == TSucceeded {
      RunsIfAllWell(cfg, n, es, r, i);
    }
    forall i | 0 <= i < n ensures r.targets[i] == TSucceeded {
      RunsIfAllWell(cfg, n, es, r, i);
    }
    if n > 0 {
      CancelledIffInTime(cfg, n, es, r);
      SucceededStatus(r);
    }
  }

  /** A step of the execution itself at which nothing fails. */
  predicate Good(e: Event) { e != CancelFlag && e != Load(false) && !(e.End? && !e.ok) }

  lemma GoodWorker(r: Rollout) returns (e: Event)
    requires r.Held() > 0 && |r.work| == |r.targets|
    ensures Good(e) && Next(r, e).Some?
  {
    var w :| w in [Spawned, Cleared, Working, Failing, Leaving] && r.Workers(w) > 0;
    assert w in r.work;
    var i: nat :| i < |r.work| && r.work[i] == w;
    e := match w case Spawned => WorkerCheck(i) case Cleared => Begin(i) case Working => End(i, true)
         case Failing => CountFailure(i) case _ => Leave(i);
  }

  lemma GoodMain(r: Rollout) returns (e: Event)
    requires Inv(r) && !Done(r.phase) && r.Held() == 0
    ensures Good(e) && Next(r, e).Some?
  {
    e := match r.phase
      case Loading => Load(true) case Canary(_) => CanaryCheck case CanaryBusy(_) => CanaryJoin
      case Launch(_) => LaunchCheck case Acquire(_) => Spawn case Drain => WaitAll case Skipping => SkipRest
      case Counting => CountTargets case Deciding(_, _) => Decide case Clearing(_) => ClearCancel case _ => WriteStatus;
    if r.phase.CanaryBusy? {
      assert r.work[r.phase.next] in multiset(r.work);
    }
  }

  lemma GoodStep(r: Rollout) returns (e: Event, r': Rollout)
    requires Inv(r) && !Done(r.phase)
    ensures Good(e) && Next(r, e) == Some(r') && Inv(r') && 0 <= Measure(r') < Measure(r)
  {
    if r.Held() > 0 {
      e := GoodWorker(r);
    } else {
      e := GoodMain(r);
    }
    r' := Next(r, e).value;
    StepInv(r, e, r');
    StepDecreases(r, e, r');
    MeasureNat(r');
  }

  ghost predicate AllGood(es: seq<Event>) { forall i :: 0 <= i < |es| ==> Good(es[i]) }

  /** From any state an execution can go on to its end without a further failure or a cancel. */
  lemma {:induction false} GoesOnWell(r0: Rollout, es: seq<Event>, r: Rollout, left: nat) returns (all: seq<Event>, end: Rollout)
    requires Inv(r) && Run(r0, es) == Some(r) && Measure(r) <= left
    ensures es <= all && AllGood(all[|es|..]) && Run(r0, all) == Some(end) && Done(end.phase)
    decreases left
  {
    if Done(r.phase) {
      all, end := es, r;
    } else {
      var e, r' := GoodStep(r);
      Extend(r0, es, r, e, r');
      all, end := GoesOnWell(r0, es + [e], r', left - 1);
      assert all[|es|..] == [e] + all[|es + [e]|..];
    }
  }

  /** For every configuration and number of targets some interleaving runs them all to success. */
  lemma SomeRunSucceeds(cfg: Config, n: nat) returns (es: seq<Event>, r: Rollout)
    requires cfg.concurrency >= 1 && n > 0
    ensures Reaches(cfg, n, es, r) && AllWell(es) && r.phase == Written(Succeeded)
    ensures |r.targets| == n && forall i :: 0 <= i < n ==> r.targets[i] == TSucceeded
  {
    InitInv(cfg, n);
    var r0 := Init(cfg, n);
    MeasureNat(r0);
    es, r := GoesOnWell(r0, [], r0, Measure(r0));
    assert es[0..] == es;
    assert forall e :: e in es ==> Good(e);
    NothingLoaded(cfg, n, es, r);
    AllWellSucceeds(cfg, n, es, r);
  }

  // ----- nothing starts after a stop

  /** The failures counted so far. */
  function Counted(es: seq<Event>): nat {
    if es == [] then 0 else Counted(es[..|es| - 1]) + if es[|es| - 1].CountFailure? then 1 else 0
  }

  /** A cancel was requested or the failures counted exceed the limit. */
  predicate Stopped(cfg: Config, es: seq<Event>) { CancelFlag in es || Counted(es) > cfg.maxFailures }

  lemma CountedNext(es: seq<Event>, e: Event, r: Rollout, r': Rollout)
    requires Next(r, e) == Some(r') && r.failures == Counted(es) && (CancelFlag in es ==> r.cancel || !Dispatching(r.phase))
    ensures r'.failures == Counted(es + [e]) && (CancelFlag in es + [e] ==> r'.cancel || !Dispatching(r'.phase))
  {
    assert (es + [e])[..|es|] == es;
  }

  lemma {:induction false} CountedSoFar(cfg: Config, n: nat, es: seq<Event>, r: Rollout)
    requires cfg.concurrency >= 1 && Reaches(cfg, n, es, r)
    ensures r.failures == Counted(es) && (CancelFlag in es ==> r.cancel || !Dispatching(r.phase))
    decreases |es|
  {
    if es != [] {
      var init, e, before := Last(cfg, n, es, r);
      CountedSoFar(cfg, n, init, before);
      CountedNext(init, e, before, r);
    }
  }

  /** Target i has not passed its check, or was stopped at it, and did not run. */
  predicate Waiting(r: Rollout, i: nat) {
    i < |r.work| == |r.targets| && !Ran(r.targets[i]) && r.work[i] != Cleared
  }

  lemma WaitingWorker(r: Rollout, e: Event, r': Rollout, i: nat)
    requires IsWorkerEvent(e) && RowsAgree(r) && Waiting(r, i) && WorkerNext(r, e) == Some(r')
    requires e.WorkerCheck? ==> r.StopNow()
    ensures Waiting(r', i)
  {
    assert Agrees(r.work[i], r.targets[i], Swept(r.phase));
  }

  lemma WaitingNext(r: Rollout, e: Event, r': Rollout, i: nat)
    requires Inv(r) && Halted(r) && Waiting(r, i) && Next(r, e) == Some(r')
    ensures Waiting(r', i)
  {
    if IsWorkerEvent(e) {
      if e.WorkerCheck? {
        WorkersDispatching(r, e.i);
      }
      WaitingWorker(r, e, r', i);
    }
  }

  /**
   After a cancel or one failure too many only targets whose check was passed before still
   run: one that was waiting then never runs.
   */
  lemma NothingStartsAfterStop(cfg: Config, n: nat, es: seq<Event>, k: nat, early: Rollout, r: Rollout, i: nat)
    requires cfg.concurrency >= 1 && k <= |es| && Reaches(cfg, n, es[..k], early) && Reaches(cfg, n, es, r)
    requires Stopped(cfg, es[..k]) && Waiting(early, i)
    ensures Waiting(r, i) && Begin(i) !in es
  {
    StillWaiting(cfg, n, es, k, early, r, i);
    RunKeeps(cfg, n, es, r);
    TargetsTold(cfg, n, es, r, i);
  }

  lemma {:induction false} StillWaiting(cfg: Config, n: nat, es: seq<Event>, k: nat, early: Rollout, r: Rollout, i: nat)
    requires cfg.concurrency >= 1 && k <= |es| && Reaches(cfg, n, es[..k], early) && Reaches(cfg, n, es, r)
    requires Stopped(cfg, es[..k]) && Waiting(early, i)
    ensures Waiting(r, i)
    decreases |es|
  {
    if k == |es| {
      assert es[..k] == es;
    } else {
      var init, e, before := Last(cfg, n, es, r);
      assert init[..k] == es[..k];
      StillWaiting(cfg, n, init, k, early, before, i);
      RunKeeps(cfg, n, es[..k], early);
      CountedSoFar(cfg, n, es[..k], early);
      HaltedStays(cfg, n, init, k, early, before);
      WaitingNext(before, e, r, i);
    }
  }

  /** Targets outside the canaries that were launched, and one more if the next one got past its first check. */
  function Underway(es: seq<Event>, p: Phase): nat {
    Launches(es) + if p.Acquire? then 1 else 0
  }

  function Launches(es: seq<Event>): nat {
    if es == [] then 0 else Launches(es[..|es| - 1]) + if es[|es| - 1] == Spawn then 1 else 0
  }

  lemma UnderwayNext(es: seq<Event>, r: Rollout, e: Event, r': Rollout)
    requires Halted(r) && Next(r, e) == Some(r')
    ensures Underway(es + [e], r'.phase) <= Underway(es, r.phase)
  {
    assert (es + [e])[..|es|] == es;
  }

  /** After a cancel or one failure too many nothing is launched but what was past its first check. */
  lemma {:induction false} NothingLaunchedAfterStop(cfg: Config, n: nat, es: seq<Event>, k: nat, early: Rollout, r: Rollout)
    requires cfg.concurrency >= 1 && k <= |es| && Reaches(cfg, n, es[..k], early) && Reaches(cfg, n, es, r)
    requires Stopped(cfg, es[..k])
    ensures Launches(es) <= Underway(es, r.phase) <= Underway(es[..k], early.phase) <= Launches(es[..k]) + 1
    decreases |es|
  {
    if k == |es| {
      assert es[..k] == es;
    } else {
      var init, e, before := Last(cfg, n, es, r);
      assert init[..k] == es[..k];
      NothingLaunchedAfterStop(cfg, n, init, k, early, before);
      RunKeeps(cfg, n, es[..k], early);
      CountedSoFar(cfg, n, es[..k], early);
      HaltedStays(cfg, n, init, k, early, before);
      UnderwayNext(init, before, e, r);
    }
  }
}
