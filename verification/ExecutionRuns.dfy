/** Theorems over every run, that is every interleaving, of one execution. */
module ExecutionRuns {
  import opened Common
  import opened Execution

  /** The state after the events es, None when they cannot happen in this order. */
  ghost function Run(r: Rollout, es: seq<Event>): (end: Option<Rollout>)
    decreases |es|
  {
    if es == [] then Some(r)
    else
      var before := Run(r, es[..|es| - 1]);
      if before.None? then None else Next(before.value, es[|es| - 1])
  }

  ghost predicate Reaches(cfg: Config, n: nat, es: seq<Event>, r: Rollout) {
    Run(Init(cfg, n), es) == Some(r)
  }

  /** The step that ends a nonempty run. */
  lemma LastStep(r: Rollout, es: seq<Event>)
    requires es != [] && Run(r, es).Some?
    ensures Run(r, es[..|es| - 1]).Some?
    ensures Next(Run(r, es[..|es| - 1]).value, es[|es| - 1]) == Run(r, es)
  {}

  lemma {:induction false} RunInv(cfg: Config, n: nat, es: seq<Event>, r: Rollout)
    requires cfg.concurrency >= 1 && Reaches(cfg, n, es, r)
    ensures Inv(r)
    decreases |es|
  {
    if es == [] {
      InitInv(cfg, n);
    } else {
      LastStep(Init(cfg, n), es);
      var before := Run(Init(cfg, n), es[..|es| - 1]).value;
      RunInv(cfg, n, es[..|es| - 1], before);
      StepInv(before, es[|es| - 1], r);
    }
  }

  lemma {:induction false} RunKeeps(cfg: Config, n: nat, es: seq<Event>, r: Rollout)
    requires Reaches(cfg, n, es, r)
    ensures r.cfg == cfg && |r.targets| == n
    decreases |es|
  {
    if es != [] {
      LastStep(Init(cfg, n), es);
      var before := Run(Init(cfg, n), es[..|es| - 1]).value;
      RunKeeps(cfg, n, es[..|es| - 1], before);
      StepKeeps(before, es[|es| - 1], r);
    }
  }

  /** Every prefix of a run is a run. */
  lemma {:induction false} PrefixRuns(r: Rollout, es: seq<Event>, i: nat)
    requires i <= |es| && Run(r, es).Some?
    ensures Run(r, es[..i]).Some?
    ensures i < |es| ==> Next(Run(r, es[..i]).value, es[i]) == Run(r, es[..i + 1])
    decreases |es|
  {
    if i < |es| {
      var shorter := es[..|es| - 1];
      PrefixRuns(r, shorter, i);
      assert es[..i + 1][..i] == es[..i] == shorter[..i];
      assert i + 1 < |es| ==> es[..i + 1] == shorter[..i + 1];
      assert i + 1 == |es| ==> es[..i + 1] == es;
    } else {
      assert es[..i] == es;
    }
  }

  // ----- the failure limit

  /**
   The number of failed targets never exceeds MaxFailures + Concurrency, and this
   holds even if every target still running were to fail.
   */
  lemma FailureBound(cfg: Config, n: nat, es: seq<Event>, r: Rollout)
    requires cfg.concurrency >= 1 && Reaches(cfg, n, es, r)
    ensures r.Tally(TFailed) + r.Tally(TRunning) <= cfg.maxFailures + cfg.concurrency
    ensures r.Tally(TRunning) <= cfg.concurrency
  {
    RunKeeps(cfg, n, es, r);
    RunInv(cfg, n, es, r);
  }

  /** A target outside the canaries has run only if every canary ran and succeeded. */
  lemma CanariesFirst(cfg: Config, n: nat, es: seq<Event>, r: Rollout, i: nat)
    requires cfg.concurrency >= 1 && Reaches(cfg, n, es, r)
    requires |r.targets| == n && Min(cfg.canary, n) <= i < n && Ran(r.targets[i])
    ensures forall j :: 0 <= j < Min(cfg.canary, n) ==> r.targets[j] == TSucceeded
  {
    RunKeeps(cfg, n, es, r);
    RunInv(cfg, n, es, r);
    assert CanariesSucceeded(r);
  }

  // ----- stop() is sticky

  predicate Checks(r: Rollout, e: Event) {
    (e.CanaryCheck? && r.phase.Canary? && r.phase.next < r.CanaryCount()) ||
    (e.LaunchCheck? && r.phase.Launch? && r.phase.next < |r.targets|) ||
    e.WorkerCheck?
  }

  /** No later check can pass. */
  predicate Halted(r: Rollout) { r.StopNow() || !Dispatching(r.phase) }

  lemma HaltedSticks(r: Rollout, e: Event, r': Rollout)
    requires Inv(r) && Halted(r) && Next(r, e) == Some(r')
    ensures Halted(r')
  {}

  lemma HaltedChecks(r: Rollout, e: Event)
    requires Inv(r) && Halted(r) && Next(r, e).Some? && Checks(r, e)
    ensures r.StopNow()
  {
    if e.WorkerCheck? {
      WorkersDispatching(r, e.i);
    }
  }

  lemma WorkersDispatching(r: Rollout, i: nat)
    requires Inv(r) && At(r, i, Spawned)
    ensures Dispatching(r.phase)
  {
    assert r.work[i] in multiset(r.work);
  }

  lemma {:induction false} HaltedStays(cfg: Config, n: nat, es: seq<Event>, i: nat, at: Rollout, r: Rollout)
    requires cfg.concurrency >= 1 && i <= |es| && Reaches(cfg, n, es, r)
    requires Reaches(cfg, n, es[..i], at) && Halted(at)
    ensures Halted(r)
    decreases |es|
  {
    if i == |es| {
      assert es[..i] == es;
    } else {
      var shorter := es[..|es| - 1];
      assert shorter[..i] == es[..i];
      LastStep(Init(cfg, n), es);
      var before := Run(Init(cfg, n), shorter).value;
      HaltedStays(cfg, n, shorter, i, at, before);
      RunInv(cfg, n, shorter, before);
      HaltedSticks(before, es[|es| - 1], r);
    }
  }

  /**
   Once any stop() returned true, every later stop() of the execution returns true:
   `early` and `late` are the states in which events i and j of one run happen.
   */
  lemma StopIsSticky(cfg: Config, n: nat, es: seq<Event>, i: nat, j: nat, early: Rollout, late: Rollout)
    requires cfg.concurrency >= 1 && i < j < |es| && Run(Init(cfg, n), es).Some?
    requires Reaches(cfg, n, es[..i], early) && Reaches(cfg, n, es[..j], late)
    requires Checks(early, es[i]) && early.StopNow()
    requires Checks(late, es[j])
    ensures late.StopNow()
  {
    assert es[..j][..i] == es[..i];
    HaltedStays(cfg, n, es[..j], i, early, late);
    RunInv(cfg, n, es[..j], late);
    NextAt(cfg, n, es, j, late);
    HaltedChecks(late, es[j]);
  }

  lemma NextAt(cfg: Config, n: nat, es: seq<Event>, j: nat, at: Rollout)
    requires j < |es| && Run(Init(cfg, n), es).Some? && Reaches(cfg, n, es[..j], at)
    ensures Next(at, es[j]).Some?
  {
    PrefixRuns(Init(cfg, n), es, j);
    PrefixRuns(Init(cfg, n), es, j + 1);
  }

  // ----- what a finished execution leaves behind

  lemma {:induction false} TalliesTotal(s: seq<Target>)
    ensures multiset(s)[TPending] + multiset(s)[TRunning] + multiset(s)[TSucceeded]
         + multiset(s)[TFailed] + multiset(s)[TSkipped] == |s|
  {
    if s != [] {
      var last := |s| - 1;
      TalliesTotal(s[..last]);
      assert s == s[..last] + [s[last]];
      match s[last]
      case TPending => case TRunning => case TSucceeded => case TFailed => case TSkipped =>
    }
  }

  lemma {:induction false} AllTallied(s: seq<Target>, t: Target)
    ensures multiset(s)[t] == |s| <==> forall i :: 0 <= i < |s| ==> s[i] == t
  {
    if s != [] {
      var last := |s| - 1;
      AllTallied(s[..last], t);
      assert s == s[..last] + [s[last]];
      assert multiset(s[..last])[t] <= |s[..last]|;
    }
  }

  /** The status execute writes, told from the rows it leaves. */
  ghost predicate Verdict(status: Status, targets: seq<Target>) {
    var ok := multiset(targets)[TSucceeded];
    status != Cancelled ==>
      && (status == Succeeded <==> ok > 0 && forall i :: 0 <= i < |targets| ==> targets[i] == TSucceeded)
      && (status == Partial <==> ok > 0 && exists i :: 0 <= i < |targets| && targets[i] != TSucceeded)
      && (status == Failed <==> ok == 0)
      && (status == Succeeded || status == Partial || status == Failed)
  }

  /** Every row is decided and the counts add up. */
  ghost predicate Settled(r: Rollout) {
    && r.Tally(TPending) == 0 && r.Tally(TRunning) == 0
    && r.Tally(TSucceeded) + r.Tally(TFailed) + r.Tally(TSkipped) == |r.targets|
    && r.failures == r.Tally(TFailed)
  }

  lemma SweptSettles(r: Rollout)
    requires Inv(r) && Swept(r.phase)
    ensures Settled(r)
  {
    assert r.Held() == 0;
    QuietWork(r);
    forall i | 0 <= i < |r.targets| ensures r.targets[i] != TPending {
      assert Agrees(r.work[i], r.targets[i], true);
    }
    assert TPending !in multiset(r.targets);
    TalliesTotal(r.targets);
  }

  lemma ConclusiveVerdict(r: Rollout, status: Status)
    requires Settled(r) && Conclusive(r, status)
    ensures Verdict(status, r.targets)
  {
    AllTallied(r.targets, TSucceeded);
  }

  lemma Finished(cfg: Config, n: nat, es: seq<Event>, r: Rollout)
    requires cfg.concurrency >= 1 && Reaches(cfg, n, es, r) && r.phase.Written?
    ensures Settled(r) && Verdict(r.phase.status, r.targets)
  {
    RunInv(cfg, n, es, r);
    SweptSettles(r);
    ConclusiveVerdict(r, r.phase.status);
  }

  // ----- when a cancel counts

  /** A cancel request was recorded before the switch that chooses the status. */
  ghost predicate CancelInTime(es: seq<Event>) {
    exists i, j :: 0 <= i < j < |es| && es[i] == CancelFlag && es[j] == Decide
  }

  predicate Undecided(p: Phase) { !p.Clearing? && !p.Writing? && !p.Written? }

  function Chosen(p: Phase): Status
    requires !Undecided(p)
  {
    p.status
  }

  ghost predicate Tracked(r: Rollout, es: seq<Event>) {
    && (Undecided(r.phase) ==> Decide !in es && (r.cancel <==> CancelFlag in es))
    && (!Undecided(r.phase) ==> (Chosen(r.phase) == Cancelled <==> CancelInTime(es)))
  }

  lemma DecideOnce(r: Rollout, e: Event, r': Rollout)
    requires Next(r, e) == Some(r')
    ensures e == Decide ==> Undecided(r.phase) && !Undecided(r'.phase) && (Chosen(r'.phase) == Cancelled <==> r.cancel)
    ensures e != Decide && Undecided(r.phase) ==> Undecided(r'.phase) && r'.cancel == (r.cancel || e == CancelFlag)
    ensures e != Decide && !Undecided(r.phase) ==> !Undecided(r'.phase) && Chosen(r'.phase) == Chosen(r.phase)
  {}

  lemma CancelInTimeExtends(es: seq<Event>, e: Event)
    requires e != Decide
    ensures CancelInTime(es + [e]) <==> CancelInTime(es)
  {
    if CancelInTime(es) {
      var i, j :| 0 <= i < j < |es| && es[i] == CancelFlag && es[j] == Decide;
      assert (es + [e])[i] == CancelFlag && (es + [e])[j] == Decide;
    }
    if CancelInTime(es + [e]) {
      var i, j :| 0 <= i < j < |es + [e]| && (es + [e])[i] == CancelFlag && (es + [e])[j] == Decide;
      assert es[i] == CancelFlag && es[j] == Decide;
    }
  }

  lemma CancelInTimeNow(es: seq<Event>)
    requires Decide !in es
    ensures CancelInTime(es + [Decide]) <==> CancelFlag in es
  {
    var all := es + [Decide];
    if CancelFlag in es {
      var i :| 0 <= i < |es| && es[i] == CancelFlag;
      assert all[i] == CancelFlag && all[|es|] == Decide;
    }
    if CancelInTime(all) {
      var i, j :| 0 <= i < j < |all| && all[i] == CancelFlag && all[j] == Decide;
      assert es[i] == CancelFlag;
    }
  }

  lemma {:induction false} CancelTracked(cfg: Config, n: nat, es: seq<Event>, r: Rollout)
    requires Reaches(cfg, n, es, r)
    ensures Tracked(r, es)
    decreases |es|
  {
    if es != [] {
      var shorter, last := es[..|es| - 1], es[|es| - 1];
      LastStep(Init(cfg, n), es);
      var before := Run(Init(cfg, n), shorter).value;
      CancelTracked(cfg, n, shorter, before);
      assert es == shorter + [last];
      DecideOnce(before, last, r);
      if last == Decide {
        CancelInTimeNow(shorter);
      } else {
        CancelInTimeExtends(shorter, last);
      }
    }
  }

  /** An execution ends cancelled exactly when the request came before the final switch. */
  lemma CancelledIffInTime(cfg: Config, n: nat, es: seq<Event>, r: Rollout)
    requires Reaches(cfg, n, es, r) && r.phase.Written?
    ensures r.phase.status == Cancelled <==> CancelInTime(es)
  {
    CancelTracked(cfg, n, es, r);
  }

  /** Once the status is chosen no worker is left and no event changes it or a target. */
  lemma ChosenNext(r: Rollout, e: Event, r': Rollout)
    requires Inv(r) && !Undecided(r.phase) && Next(r, e) == Some(r')
    ensures !Undecided(r'.phase) && Chosen(r'.phase) == Chosen(r.phase) && r'.targets == r.targets
  {
    QuietWork(r);
  }

  /** Whatever comes after the switch, cancel requests too, the status and the targets stay. */
  lemma {:induction false} ChosenStays(r: Rollout, es: seq<Event>, r': Rollout)
    requires Inv(r) && !Undecided(r.phase) && Run(r, es) == Some(r')
    ensures Inv(r') && !Undecided(r'.phase) && Chosen(r'.phase) == Chosen(r.phase) && r'.targets == r.targets
    decreases |es|
  {
    if es != [] {
      LastStep(r, es);
      var before := Run(r, es[..|es| - 1]).value;
      ChosenStays(r, es[..|es| - 1], before);
      StepInv(before, es[|es| - 1], r');
      ChosenNext(before, es[|es| - 1], r');
    }
  }

  /** A request between the switch and the final UPDATE is lost, whatever the status. */
  lemma LateCancelIsLost(r: Rollout, status: Status)
    requires r.phase == Clearing(status)
    ensures Run(r, [CancelFlag, ClearCancel, WriteStatus]) == Some(r.(cancel := false, phase := Written(status)))
  {
    var es := [CancelFlag, ClearCancel, WriteStatus];
    assert es[..2][..1] == [CancelFlag] && es[..2][..1][..0] == [];
    assert Run(r, es[..2][..1]) == Some(r.(cancel := true));
    assert Run(r, es[..2]) == Some(r.(cancel := false, phase := Writing(status)));
  }

  // ----- every execution ends

  predicate Done(p: Phase) { p.Written? || p.Aborted? }

  function WorkLeft(w: Work): nat {
    match w
    case Idle => 6 case Spawned => 5 case Cleared => 4 case Working => 3 case Failing => 2 case Leaving => 1 case Gone => 0
  }

  function TotalWork(work: seq<Work>): nat {
    if work == [] then 0 else TotalWork(work[..|work| - 1]) + WorkLeft(work[|work| - 1])
  }

  function PhaseLeft(p: Phase, canaries: nat, n: nat): int {
    match p
    case Loading => 2 * n + 2 * canaries + 11
    case Canary(k) => 2 * n + 2 * (canaries - k) + 10
    case CanaryBusy(k) => 2 * n + 2 * (canaries - k) + 9
    case Launch(k) => 2 * (n - k) + 8
    case Acquire(k) => 2 * (n - k) + 7
    case Drain => 6 case Skipping => 5 case Counting => 4 case Deciding(_, _) => 3
    case Clearing(_) => 2 case Writing(_) => 1 case Written(_) => 0 case Aborted => 0
  }

  /** A bound on the steps the execution itself still takes. */
  function Measure(r: Rollout): int {
    TotalWork(r.work) + PhaseLeft(r.phase, r.CanaryCount(), |r.targets|)
  }

  lemma {:induction false} TotalWorkUpdate(work: seq<Work>, i: nat, w: Work)
    requires i < |work|
    ensures TotalWork(work[i := w]) == TotalWork(work) - WorkLeft(work[i]) + WorkLeft(w)
  {
    var last := |work| - 1;
    if i < last {
      TotalWorkUpdate(work[..last], i, w);
      assert work[i := w][..last] == work[..last][i := w];
    } else {
      assert work[i := w][..last] == work[..last];
    }
  }

  lemma WorkerDecreases(r: Rollout, e: Event, r': Rollout)
    requires IsWorkerEvent(e) && RowsAgree(r) && WorkerNext(r, e) == Some(r')
    ensures Measure(r') < Measure(r)
  {
    TotalWorkUpdate(r.work, e.i, r'.work[e.i]);
  }

  lemma FinishDecreases(r: Rollout, e: Event, r': Rollout)
    requires IsFinishEvent(e) && FinishNext(r, e) == Some(r')
    ensures Measure(r') < Measure(r)
  {}

  lemma CanaryDecreases(r: Rollout, r': Rollout)
    requires RowsAgree(r) && Position(r) && DispatchNext(r, CanaryCheck) == Some(r')
    ensures Measure(r') < Measure(r)
  {
    if r'.phase.CanaryBusy? {
      TotalWorkUpdate(r.work, r.phase.next, Cleared);
    }
  }

  lemma SpawnDecreases(r: Rollout, r': Rollout)
    requires RowsAgree(r) && Position(r) && DispatchNext(r, Spawn) == Some(r')
    ensures Measure(r') < Measure(r)
  {
    TotalWorkUpdate(r.work, r.phase.next, Spawned);
  }

  lemma DispatchDecreases(r: Rollout, e: Event, r': Rollout)
    requires e.Load? || e.CanaryJoin? || e.LaunchCheck? || e.WaitAll?
    requires RowsAgree(r) && Position(r) && DispatchNext(r, e) == Some(r')
    ensures Measure(r') < Measure(r)
  {}

  /** Every step of the execution itself brings it closer to its end. */
  lemma StepDecreases(r: Rollout, e: Event, r': Rollout)
    requires Inv(r) && Next(r, e) == Some(r')
    ensures if e == CancelFlag then Measure(r') == Measure(r) else Measure(r') < Measure(r)
  {
    if IsWorkerEvent(e) {
      WorkerDecreases(r, e, r');
    } else if IsFinishEvent(e) {
      FinishDecreases(r, e, r');
    } else if e.CanaryCheck? {
      CanaryDecreases(r, r');
    } else if e.Spawn? {
      SpawnDecreases(r, r');
    } else if e != CancelFlag {
      DispatchDecreases(r, e, r');
    }
  }

  lemma MeasureNat(r: Rollout)
    requires Inv(r)
    ensures Measure(r) >= 0
  {}

  /** A worker that holds a slot can always go on. */
  lemma WorkerEnabled(r: Rollout)
    requires Inv(r) && r.Held() > 0
    ensures exists e :: IsWorkerEvent(e) && Next(r, e).Some?
  {
    var w :| w in [Spawned, Cleared, Working, Failing, Leaving] && r.Workers(w) > 0;
    assert w in r.work;
    var i: nat :| i < |r.work| && r.work[i] == w;
    var e := match w case Spawned => WorkerCheck(i) case Cleared => Begin(i) case Working => End(i, true)
             case Failing => CountFailure(i) case _ => Leave(i);
    assert IsWorkerEvent(e) && Next(r, e).Some?;
  }

  /** No interleaving deadlocks: until it is done, the execution itself has a next step. */
  lemma Progress(r: Rollout)
    requires Inv(r) && !Done(r.phase)
    ensures exists e :: e != CancelFlag && Next(r, e).Some?
  {
    if r.Held() > 0 {
      WorkerEnabled(r);
    } else {
      var e := match r.phase
        case Loading => Load(true) case Canary(_) => CanaryCheck case CanaryBusy(_) => CanaryJoin
        case Launch(_) => LaunchCheck case Acquire(_) => Spawn case Drain => WaitAll case Skipping => SkipRest
        case Counting => CountTargets case Deciding(_, _) => Decide case Clearing(_) => ClearCancel case _ => WriteStatus;
      if r.phase.CanaryBusy? {
        assert r.work[r.phase.next] in multiset(r.work);
      }
      assert Next(r, e).Some?;
    }
  }

  function OwnSteps(es: seq<Event>): nat {
    if es == [] then 0 else OwnSteps(es[..|es| - 1]) + (if es[|es| - 1] == CancelFlag then 0 else 1)
  }

  lemma {:induction false} InitialWork(n: nat)
    ensures TotalWork(seq(n, _ => Idle)) == 6 * n
  {
    if n > 0 {
      var all: seq<Work> := seq(n, _ => Idle);
      assert all[..n - 1] == seq(n - 1, _ => Idle);
      InitialWork(n - 1);
    }
  }

  lemma {:induction false} StepsPaid(cfg: Config, n: nat, es: seq<Event>, r: Rollout)
    requires cfg.concurrency >= 1 && Reaches(cfg, n, es, r)
    ensures OwnSteps(es) + Measure(r) <= Measure(Init(cfg, n))
    decreases |es|
  {
    if es != [] {
      var shorter := es[..|es| - 1];
      LastStep(Init(cfg, n), es);
      var before := Run(Init(cfg, n), shorter).value;
      StepsPaid(cfg, n, shorter, before);
      RunInv(cfg, n, shorter, before);
      StepDecreases(before, es[|es| - 1], r);
    }
  }

  /** However it is scheduled, an execution over n targets takes at most 10n + 11 own steps. */
  lemma Terminates(cfg: Config, n: nat, es: seq<Event>, r: Rollout)
    requires cfg.concurrency >= 1 && Reaches(cfg, n, es, r)
    ensures OwnSteps(es) <= 10 * n + 11
  {
    StepsPaid(cfg, n, es, r);
    InitialWork(n);
    RunInv(cfg, n, es, r);
    MeasureNat(r);
  }

  // ----- the failure bound is exact

  lemma Extend(r0: Rollout, es: seq<Event>, r: Rollout, e: Event, r': Rollout)
    requires Run(r0, es) == Some(r) && Next(r, e) == Some(r')
    ensures Run(r0, es + [e]) == Some(r')
  {
    assert (es + [e])[..|es|] == es;
  }

  /** `lone` targets failed one after the other, then `failing` failed uncounted and `cleared` passed their checks. */
  function WorkAt(i: nat, lone: nat, failing: nat, cleared: nat): Work {
    if i < lone then Gone else if i < lone + failing then Failing else if i < lone + failing + cleared then Cleared else Idle
  }

  ghost predicate Staged(r: Rollout, cfg: Config, n: nat, lone: nat, failing: nat, cleared: nat) {
    && r.cfg == cfg && |r.work| == |r.targets| == n && !r.cancel
    && r.phase == Launch(lone + failing + cleared) && lone + failing + cleared <= n
    && r.failures == lone <= cfg.maxFailures
    && (forall i: nat :: i < n ==> r.work[i] == WorkAt(i, lone, failing, cleared))
    && (forall i: nat :: i < n ==> r.targets[i] == if i < lone + failing then TFailed else TPending)
  }

  lemma {:induction false} CountRange<T>(s: seq<T>, x: T, lo: nat, hi: nat)
    requires lo <= hi <= |s| && forall i :: 0 <= i < |s| ==> (s[i] == x <==> lo <= i < hi)
    ensures multiset(s)[x] == hi - lo
    decreases |s|
  {
    if s != [] {
      var last := |s| - 1;
      assert s == s[..last] + [s[last]];
      if hi == |s| && lo < hi {
        CountRange(s[..last], x, lo, hi - 1);
      } else if hi == |s| {
        CountRange(s[..last], x, last, last);
      } else {
        CountRange(s[..last], x, lo, hi);
      }
    }
  }

  lemma StagedHeld(r: Rollout, cfg: Config, n: nat, lone: nat, failing: nat, cleared: nat)
    requires Staged(r, cfg, n, lone, failing, cleared)
    ensures r.Held() == failing + cleared
  {
    CountRange(r.work, Spawned, 0, 0);
    CountRange(r.work, Cleared, lone + failing, lone + failing + cleared);
    CountRange(r.work, Working, 0, 0);
    CountRange(r.work, Failing, lone, lone + failing);
    CountRange(r.work, Leaving, 0, 0);
  }

  /** The first check lets target k through. */
  lemma Launches(r0: Rollout, es: seq<Event>, r: Rollout, k: nat) returns (es': seq<Event>, r1: Rollout)
    requires Run(r0, es) == Some(r) && r.phase == Launch(k) && !r.StopNow() && k < |r.targets|
    ensures Run(r0, es') == Some(r1) && r1 == r.(phase := Acquire(k))
  {
    es', r1 := es + [LaunchCheck], r.(phase := Acquire(k));
    Extend(r0, es, r, LaunchCheck, r1);
  }

  /** It gets a slot and its goroutine. */
  lemma Spawns(r0: Rollout, es: seq<Event>, r: Rollout, k: nat) returns (es': seq<Event>, r1: Rollout)
    requires Run(r0, es) == Some(r) && r.phase == Acquire(k) && r.Held() < r.cfg.concurrency && At(r, k, Idle)
    ensures Run(r0, es') == Some(r1) && r1 == Move(r, k, Spawned).(phase := Launch(k + 1))
  {
    es', r1 := es + [Spawn], Move(r, k, Spawned).(phase := Launch(k + 1));
    SpawnStep(r, k, r1);
    Extend(r0, es, r, Spawn, r1);
  }

  lemma SpawnStep(r: Rollout, k: nat, r1: Rollout)
    requires r.phase == Acquire(k) && r.Held() < r.cfg.concurrency && At(r, k, Idle)
    requires r1 == Move(r, k, Spawned).(phase := Launch(k + 1))
    ensures Next(r, Spawn) == Some(r1)
  {}

  /** The second check lets it through. */
  lemma Passes(r0: Rollout, es: seq<Event>, r: Rollout, k: nat) returns (es': seq<Event>, r1: Rollout)
    requires Run(r0, es) == Some(r) && !r.StopNow() && At(r, k, Spawned)
    ensures Run(r0, es') == Some(r1) && r1 == Move(r, k, Cleared)
  {
    es', r1 := es + [WorkerCheck(k)], Move(r, k, Cleared);
    Extend(r0, es, r, WorkerCheck(k), r1);
  }

  lemma Overwritten(s: seq<Work>, k: nat, v: Work, w: Work)
    requires k < |s|
    ensures s[k := v][k := w] == s[k := w]
  {}

  /** The next target passes both checks. */
  lemma Clear(r0: Rollout, es: seq<Event>, r: Rollout, k: nat) returns (es': seq<Event>, r3: Rollout)
    requires Run(r0, es) == Some(r)
    requires r.phase == Launch(k) && !r.StopNow() && r.Held() < r.cfg.concurrency && At(r, k, Idle)
    ensures Run(r0, es') == Some(r3)
    ensures r3 == Move(r, k, Cleared).(phase := Launch(k + 1))
  {
    var r1, r2;
    es', r1 := Launches(r0, es, r, k);
    assert r1.Held() == r.Held();
    es', r2 := Spawns(r0, es', r1, k);
    es', r3 := Passes(r0, es', r2, k);
    Overwritten(r.work, k, Spawned, Cleared);
  }

  lemma FailSteps(r: Rollout, k: nat, r1: Rollout, r2: Rollout)
    requires At(r, k, Cleared)
    requires r1 == Move(r, k, Working).(targets := r.targets[k := TRunning])
    requires r2 == Move(r, k, Failing).(targets := r.targets[k := TFailed])
    ensures WorkerNext(r, Begin(k)) == Some(r1)
    ensures WorkerNext(r1, End(k, false)) == Some(r2)
  {
    assert r1.work[k := Failing] == r2.work && r1.targets[k := TFailed] == r2.targets;
  }

  /** Target k runs and fails. */
  lemma Fail(r0: Rollout, es: seq<Event>, r: Rollout, k: nat) returns (es': seq<Event>, r2: Rollout)
    requires Run(r0, es) == Some(r) && At(r, k, Cleared)
    ensures Run(r0, es') == Some(r2)
    ensures r2 == Move(r, k, Failing).(targets := r.targets[k := TFailed])
  {
    var r1 := Move(r, k, Working).(targets := r.targets[k := TRunning]);
    r2 := Move(r, k, Failing).(targets := r.targets[k := TFailed]);
    FailSteps(r, k, r1, r2);
    Extend(r0, es, r, Begin(k), r1);
    Extend(r0, es + [Begin(k)], r1, End(k, false), r2);
    es' := es + [Begin(k)] + [End(k, false)];
  }

  lemma CountSteps(r: Rollout, k: nat, r1: Rollout, r2: Rollout)
    requires At(r, k, Failing)
    requires r1 == Move(r, k, Leaving).(failures := r.failures + 1)
    requires r2 == Move(r, k, Gone).(failures := r.failures + 1)
    ensures WorkerNext(r, CountFailure(k)) == Some(r1)
    ensures WorkerNext(r1, Leave(k)) == Some(r2)
  {
    assert r1.work[k := Gone] == r2.work;
  }

  /** The failure of target k is counted and its slot freed. */
  lemma Count(r0: Rollout, es: seq<Event>, r: Rollout, k: nat) returns (es': seq<Event>, r2: Rollout)
    requires Run(r0, es) == Some(r) && At(r, k, Failing)
    ensures Run(r0, es') == Some(r2)
    ensures r2 == Move(r, k, Gone).(failures := r.failures + 1)
  {
    var r1 := Move(r, k, Leaving).(failures := r.failures + 1);
    r2 := Move(r, k, Gone).(failures := r.failures + 1);
    CountSteps(r, k, r1, r2);
    Extend(r0, es, r, CountFailure(k), r1);
    Extend(r0, es + [CountFailure(k)], r1, Leave(k), r2);
    es' := es + [CountFailure(k)] + [Leave(k)];
  }

  /** Without canaries the first stage is reached at once. */
  lemma Started(cfg: Config, n: nat) returns (es: seq<Event>, r: Rollout)
    requires cfg.concurrency >= 1 && cfg.canary == 0
    ensures Run(Init(cfg, n), es) == Some(r) && Staged(r, cfg, n, 0, 0, 0)
  {
    var r0 := Init(cfg, n);
    r := r0.(phase := Launch(0));
    Extend(r0, [], r0, Load(true), r0.(phase := Canary(0)));
    Extend(r0, [] + [Load(true)], r0.(phase := Canary(0)), CanaryCheck, r);
    es := [] + [Load(true)] + [CanaryCheck];
  }

  /** Targets run one after the other, and each fails. */
  lemma {:induction false} LoneFailures(cfg: Config, n: nat, j: nat) returns (es: seq<Event>, r: Rollout)
    requires cfg.concurrency >= 1 && cfg.canary == 0 && j <= cfg.maxFailures && j <= n
    ensures Run(Init(cfg, n), es) == Some(r) && Staged(r, cfg, n, j, 0, 0)
    decreases j
  {
    if j == 0 {
      es, r := Started(cfg, n);
    } else {
      es, r := LoneFailures(cfg, n, j - 1);
      StagedHeld(r, cfg, n, j - 1, 0, 0);
      es, r := Clear(Init(cfg, n), es, r, j - 1);
      es, r := Fail(Init(cfg, n), es, r, j - 1);
      es, r := Count(Init(cfg, n), es, r, j - 1);
    }
  }

  /** Then j targets pass both checks before any of them runs. */
  lemma {:induction false} AllCleared(cfg: Config, n: nat, j: nat) returns (es: seq<Event>, r: Rollout)
    requires cfg.concurrency >= 1 && cfg.canary == 0 && j <= cfg.concurrency && cfg.maxFailures + j <= n
    ensures Run(Init(cfg, n), es) == Some(r) && Staged(r, cfg, n, cfg.maxFailures, 0, j)
    decreases j
  {
    if j == 0 {
      es, r := LoneFailures(cfg, n, cfg.maxFailures);
    } else {
      es, r := AllCleared(cfg, n, j - 1);
      StagedHeld(r, cfg, n, cfg.maxFailures, 0, j - 1);
      es, r := Clear(Init(cfg, n), es, r, cfg.maxFailures + j - 1);
    }
  }

  /** Then j of them fail. */
  lemma {:induction false} AllFail(cfg: Config, n: nat, j: nat) returns (es: seq<Event>, r: Rollout)
    requires cfg.concurrency >= 1 && cfg.canary == 0 && j <= cfg.concurrency && n == cfg.maxFailures + cfg.concurrency
    ensures Run(Init(cfg, n), es) == Some(r) && Staged(r, cfg, n, cfg.maxFailures, j, cfg.concurrency - j)
    decreases j
  {
    if j == 0 {
      es, r := AllCleared(cfg, n, cfg.concurrency);
    } else {
      es, r := AllFail(cfg, n, j - 1);
      es, r := Fail(Init(cfg, n), es, r, cfg.maxFailures + j - 1);
    }
  }

  /** For every limit and concurrency some interleaving fails MaxFailures + Concurrency targets. */
  lemma FailureBoundReached(maxFailures: nat, concurrency: nat) returns (es: seq<Event>, r: Rollout)
    requires concurrency >= 1
    ensures Reaches(Config(maxFailures, concurrency, 0), maxFailures + concurrency, es, r)
    ensures r.Tally(TFailed) == maxFailures + concurrency
  {
    var n := maxFailures + concurrency;
    es, r := AllFail(Config(maxFailures, concurrency, 0), n, concurrency);
    CountRange(r.targets, TFailed, 0, n);
  }
}
