/**
 One pass of the scheduler inside a history of the service, between requests, executions
 and other passes' changes that go on at the same time.
 */
module SchedulerRuns {
  import opened Common
  import opened Execution
  import opened Workflow
  import opened Engine
  import opened EngineRuns
  import opened RolloutHistories
  import TargetHistories

  /** A history that began a pass over the list and went on with mid. */
  function Since(pre: seq<Engine.Event>, list: seq<Entry>, mid: seq<Engine.Event>): seq<Engine.Event> {
    pre + [TickBegin(list)] + mid
  }

  /** What the pass has not tried yet. */
  function Left(sched: Sched): seq<Entry> {
    match sched
    case Scan(list) => list
    case Claimed(_, rest) => rest
    case _ => []
  }

  /** The pass is on, its listed changes are approved or further. */
  ghost predicate InPass(s: State, list: seq<Entry>) {
    && (s.sched.Scan? || s.sched.Claimed?)
    && |Left(s.sched)| <= |list| && Left(s.sched) == list[|list| - |Left(s.sched)|..]
    && (s.sched.Claimed? ==> |s.sched.rest| < |list| && s.sched.id == list[|list| - |s.sched.rest| - 1].id)
    && (forall k :: 0 <= k < |list| ==> list[k].id in s.rows && Rank(s.rows[list[k].id].status) >= 2)
  }

  /** At its own lock attempt one of the devices of list[k] was held. */
  ghost predicate WasHeld(pre: seq<Engine.Event>, list: seq<Entry>, mid: seq<Engine.Event>, k: nat) {
    k < |list| && exists t: nat, st :: Attempt(pre, list, mid, k, t, st)
  }

  ghost predicate Attempt(pre: seq<Engine.Event>, list: seq<Entry>, mid: seq<Engine.Event>, k: nat, t: nat, st: State)
    requires k < |list|
  {
    && t < |mid| && mid[t] == TickTry && History(Since(pre, list, mid[..t]), st)
    && st.sched == Scan(list[k..]) && list[k].id in st.rows && !(st.running !! Devices(st, list[k].id))
  }

  /** What became of list[k] once it was tried. */
  ghost predicate Tried(pre: seq<Engine.Event>, list: seq<Entry>, mid: seq<Engine.Event>, s: State, k: nat) {
    k < |list| && list[k].id in s.rows && (
      || WasHeld(pre, list, mid, k)
      || Rank(s.rows[list[k].id].status) >= 3
      || s.sched == Claimed(list[k].id, list[k + 1..]))
  }

  lemma HeldStays(pre: seq<Engine.Event>, list: seq<Entry>, mid: seq<Engine.Event>, k: nat, e: Engine.Event)
    requires WasHeld(pre, list, mid, k)
    ensures WasHeld(pre, list, mid + [e], k)
  {
    var t: nat, st :| Attempt(pre, list, mid, k, t, st);
    assert (mid + [e])[..t] == mid[..t];
    assert Attempt(pre, list, mid + [e], k, t, st);
  }

  /** Steps that are not the scheduler's leave the pass where it is. */
  lemma OthersWait(s: State, e: Engine.Event, s': State)
    requires Engine.Next(s, e) == Some(s') && (s.sched.Scan? || s.sched.Claimed?)
    requires e != TickTry && e != TickUpdate && e != TickEnd && e != Crash
    ensures s'.sched == s.sched
  {}

  /** The head of the list is claimed, or it is passed over. */
  lemma HeadIsTried(s: State, s': State)
    requires s.sched.Scan? && NextTry(s) == Some(s')
    ensures s.sched.list != [] && s'.rows == s.rows && Left(s'.sched) == s.sched.list[1..]
    ensures s.sched.list[0].id in s.rows
    ensures s.sched.list[0].due && s'.sched.Scan? ==> !(s.running !! Devices(s, s.sched.list[0].id))
    ensures s'.sched.Claimed? ==> s'.sched == Claimed(s.sched.list[0].id, s.sched.list[1..])
    ensures s'.sched.Scan? || s'.sched.Claimed?
  {}

  /** The UPDATE starts a claimed change, or finds that it is approved no more. */
  lemma ClaimIsSettled(s: State, s': State)
    requires s.sched.Claimed? && NextUpdate(s) == Some(s') && s.sched.id in s.rows && Rank(s.rows[s.sched.id].status) >= 2
    ensures s'.sched == Scan(s.sched.rest) && s.sched.id in s'.rows && Rank(s'.rows[s.sched.id].status) >= 3
  {}

  /** The scheduler rests, tries the head of its list, or starts or gives up its claim. */
  ghost predicate PassMove(s: State, s': State) {
    || s'.sched == s.sched
    || (s.sched.Scan? && s.sched.list != []
        && (s'.sched == Scan(s.sched.list[1..]) || s'.sched == Claimed(s.sched.list[0].id, s.sched.list[1..])))
    || (s.sched.Claimed? && s'.sched == Scan(s.sched.rest)
        && s.sched.id in s'.rows && Rank(s'.rows[s.sched.id].status) >= 3)
  }

  lemma PassMoves(s: State, e: Engine.Event, s': State, list: seq<Entry>)
    requires InPass(s, list) && Engine.Next(s, e) == Some(s') && e != TickEnd && e != Crash
    ensures PassMove(s, s')
  {
    if e == TickTry {
      HeadIsTried(s, s');
    } else if e == TickUpdate {
      ClaimIsSettled(s, s');
    } else {
      OthersWait(s, e, s');
    }
  }

  lemma ListedForward(s: State, s': State, list: seq<Entry>)
    requires InPass(s, list) && StateForward(s, s')
    ensures forall k :: 0 <= k < |list| ==>
      list[k].id in s.rows && list[k].id in s'.rows && Rank(s.rows[list[k].id].status) <= Rank(s'.rows[list[k].id].status)
  {
    forall k | 0 <= k < |list|
      ensures list[k].id in s'.rows && Rank(s.rows[list[k].id].status) <= Rank(s'.rows[list[k].id].status)
    {
      assert Forward(s.rows[list[k].id], s'.rows[list[k].id]);
    }
  }

  lemma PassNext(s: State, s': State, list: seq<Entry>)
    requires InPass(s, list) && PassMove(s, s') && StateForward(s, s')
    ensures InPass(s', list)
  {
    ListedForward(s, s', list);
  }

  /** What was tried stays accounted for. */
  lemma TriedNext(pre: seq<Engine.Event>, list: seq<Entry>, mid: seq<Engine.Event>, s: State, e: Engine.Event, s': State, k: nat)
    requires InPass(s, list) && PassMove(s, s') && StateForward(s, s') && Tried(pre, list, mid, s, k)
    ensures Tried(pre, list, mid + [e], s', k)
  {
    ListedForward(s, s', list);
    if WasHeld(pre, list, mid, k) {
      HeldStays(pre, list, mid, k, e);
    }
  }

  /** The change at the head of the list is accounted for once it is tried. */
  lemma HeadNext(pre: seq<Engine.Event>, list: seq<Entry>, mid: seq<Engine.Event>, s: State, s': State, k: nat)
    requires k < |list| && list[k].due && History(Since(pre, list, mid), s) && s.sched == Scan(list[k..])
    requires Engine.Next(s, TickTry) == Some(s')
    ensures Tried(pre, list, mid + [TickTry], s', k)
  {
    HeadIsTried(s, s');
    assert list[k..][0] == list[k] && list[k..][1..] == list[k + 1..];
    if s'.sched.Scan? {
      assert (mid + [TickTry])[..|mid|] == mid;
      assert Attempt(pre, list, mid + [TickTry], k, |mid|, s);
    }
  }

  lemma PassBegins(pre: seq<Engine.Event>, list: seq<Entry>, s: State)
    requires History(Since(pre, list, []), s)
    ensures InPass(s, list) && Left(s.sched) == list
  {
    var es := Since(pre, list, []);
    assert es[..|es| - 1] == pre && es[|es| - 1] == TickBegin(list);
    LastStep(es, s);
  }

  /** Everything before what is left has been tried, the first of the list first. */
  lemma {:induction false} PassSoFar(pre: seq<Engine.Event>, list: seq<Entry>, mid: seq<Engine.Event>, s: State, k: nat)
    requires History(Since(pre, list, mid), s) && Crash !in mid && TickEnd !in mid
    requires k < |list| && list[k].due
    ensures InPass(s, list)
    ensures k < |list| - |Left(s.sched)| ==> Tried(pre, list, mid, s, k)
    decreases |mid|
  {
    if mid == [] {
      PassBegins(pre, list, s);
    } else {
      var init, e := mid[..|mid| - 1], mid[|mid| - 1];
      var es := Since(pre, list, mid);
      assert es[..|es| - 1] == Since(pre, list, init) && es[|es| - 1] == e && mid == init + [e];
      LastStep(es, s);
      var before := Run(START, Since(pre, list, init)).value;
      HistoryInv(Since(pre, list, init), before);
      PassSoFar(pre, list, init, before, k);
      StepForward(before, e, s);
      PassMoves(before, e, s, list);
      PassNext(before, s, list);
      PassStep(pre, list, init, before, e, s, k);
    }
  }

  lemma PassStep(pre: seq<Engine.Event>, list: seq<Entry>, mid: seq<Engine.Event>, s: State, e: Engine.Event, s': State, k: nat)
    requires InPass(s, list) && InPass(s', list) && PassMove(s, s') && StateForward(s, s')
    requires History(Since(pre, list, mid), s) && Engine.Next(s, e) == Some(s') && e != TickEnd && e != Crash
    requires k < |list| && list[k].due
    requires k < |list| - |Left(s.sched)| ==> Tried(pre, list, mid, s, k)
    ensures k < |list| - |Left(s'.sched)| ==> Tried(pre, list, mid + [e], s', k)
  {
    var m := |list| - |Left(s.sched)|;
    if k < m {
      TriedNext(pre, list, mid, s, e, s', k);
    } else if k == m && e == TickTry {
      HeadNext(pre, list, mid, s, s', k);
    } else if e != TickTry {
      OnlyTryTakes(s, e, s');
    }
  }

  /** Only an attempt shortens the list. */
  lemma OnlyTryTakes(s: State, e: Engine.Event, s': State)
    requires s.sched.Scan? || s.sched.Claimed?
    requires Engine.Next(s, e) == Some(s') && e != TickTry && e != TickEnd && e != Crash
    ensures Left(s'.sched) == Left(s.sched)
  {
    if e != TickUpdate {
      OthersWait(s, e, s');
    }
  }

  /**
   A pass leaves a listed change that was due approved only if one of its devices was
   held at its own lock attempt, after those of all changes before it in the list.
   */
  lemma PassedOverWasHeld(pre: seq<Engine.Event>, list: seq<Entry>, mid: seq<Engine.Event>, s: State, k: nat)
    requires History(Since(pre, list, mid + [TickEnd]), s) && Crash !in mid && TickEnd !in mid
    requires k < |list| && list[k].due
    requires list[k].id in s.rows && s.rows[list[k].id].status == Approved
    ensures WasHeld(pre, list, mid, k)
  {
    var es := Since(pre, list, mid + [TickEnd]);
    assert es[..|es| - 1] == Since(pre, list, mid) && es[|es| - 1] == TickEnd;
    LastStep(es, s);
    var before := Run(START, Since(pre, list, mid)).value;
    PassSoFar(pre, list, mid, before, k);
  }

  // ----- only what is due is started

  /** The last pass of es began at b over this list and is still on. */
  ghost predicate PassAt(es: seq<Engine.Event>, b: nat, list: seq<Entry>) {
    && b < |es| && es[b] == TickBegin(list)
    && forall x :: b < x < |es| ==> !es[x].TickBegin? && es[x] != TickEnd && es[x] != Crash
  }

  /** Event t tried list[k], which is due, and found all its devices free. */
  ghost predicate Free(es: seq<Engine.Event>, b: nat, list: seq<Entry>, k: nat, t: nat, st: State) {
    && k < |list| && list[k].due
    && b < t < |es| && es[t] == TickTry && History(es[..t], st)
    && st.sched == Scan(list[k..]) && list[k].id in st.rows && st.running !! Devices(st, list[k].id)
  }

  lemma PassGoesOn(es: seq<Engine.Event>, e: Engine.Event, b: nat, list: seq<Entry>)
    requires PassAt(es, b, list) && !e.TickBegin? && e != TickEnd && e != Crash
    ensures PassAt(es + [e], b, list)
  {}

  lemma FreeGoesOn(es: seq<Engine.Event>, e: Engine.Event, b: nat, list: seq<Entry>, k: nat, t: nat, st: State)
    requires Free(es, b, list, k, t, st)
    ensures Free(es + [e], b, list, k, t, st)
  {
    assert (es + [e])[..t] == es[..t];
  }

  lemma FreeNow(es: seq<Engine.Event>, s: State, s': State, b: nat, list: seq<Entry>, k: nat)
    requires History(es, s) && b < |es| && k < |list| && s.sched == Scan(list[k..])
    requires Engine.Next(s, TickTry) == Some(s') && s'.sched.Claimed?
    ensures Free(es + [TickTry], b, list, k, |es|, s)
    ensures s'.sched == Claimed(list[k].id, list[k + 1..])
  {
    assert (es + [TickTry])[..|es|] == es;
    assert list[k..][0] == list[k] && list[k..][1..] == list[k + 1..];
  }

  /** The scheduler is in the pass that began at b and is about to try list[k], or claimed it at t. */
  ghost predicate At(es: seq<Engine.Event>, sched: Sched, b: nat, list: seq<Entry>, k: nat, t: nat, st: State) {
    && PassAt(es, b, list)
    && (sched.Scan? ==> k <= |list| && sched == Scan(list[k..]))
    && (sched.Claimed? ==> Free(es, b, list, k, t, st) && sched == Claimed(list[k].id, list[k + 1..]))
  }

  lemma AtNext(es: seq<Engine.Event>, s: State, e: Engine.Event, s': State, b: nat, list: seq<Entry>, k: nat, t: nat, st: State)
    returns (k': nat, t': nat, st': State)
    requires History(es, s) && Engine.Next(s, e) == Some(s') && At(es, s.sched, b, list, k, t, st)
    requires s'.sched.Scan? || s'.sched.Claimed?
    requires !e.TickBegin?
    ensures At(es + [e], s'.sched, b, list, k', t', st')
  {
    StillInPass(s, e, s');
    PassGoesOn(es, e, b, list);
    k', t', st' := k, t, st;
    if e == TickTry {
      assert list[k..][1..] == list[k + 1..];
      if s'.sched.Claimed? {
        FreeNow(es, s, s', b, list, k);
        t', st' := |es|, s;
      } else {
        k' := k + 1;
      }
    } else if s.sched.Claimed? {
      FreeGoesOn(es, e, b, list, k, t, st);
      if e == TickUpdate {
        k' := k + 1;
      }
    }
  }

  /** A scheduler at work is in a pass; its claim is a due change that it found free. */
  lemma {:induction false} PassOf(es: seq<Engine.Event>, s: State) returns (b: nat, list: seq<Entry>, k: nat, t: nat, st: State)
    requires History(es, s) && (s.sched.Scan? || s.sched.Claimed?)
    ensures At(es, s.sched, b, list, k, t, st)
    decreases |es|
  {
    assert es != [];
    var init, e := es[..|es| - 1], es[|es| - 1];
    var before := Last(es, s);
    if e.TickBegin? {
      b, list, k, t, st := |init|, e.list, 0, 0, s;
      JustBegun(before, list, s);
    } else {
      StillInPass(before, e, s);
      b, list, k, t, st := PassOf(init, before);
      k, t, st := AtNext(init, before, e, s, b, list, k, t, st);
    }
  }

  lemma JustBegun(s: State, list: seq<Entry>, s': State)
    requires Engine.Next(s, TickBegin(list)) == Some(s')
    ensures s'.sched == Scan(list[0..])
  {
    assert list[0..] == list;
  }

  lemma StillInPass(s: State, e: Engine.Event, s': State)
    requires Engine.Next(s, e) == Some(s') && (s'.sched.Scan? || s'.sched.Claimed?) && !e.TickBegin?
    ensures (s.sched.Scan? || s.sched.Claimed?) && e != TickEnd && e != Crash
    ensures e != TickTry && e != TickUpdate ==> s'.sched == s.sched
    ensures e == TickTry ==> s.sched.Scan? && s.sched.list != [] && (s'.sched.Scan? ==> s'.sched == Scan(s.sched.list[1..]))
    ensures e == TickUpdate ==> s.sched.Claimed? && s'.sched == Scan(s.sched.rest)
  {}

  /**
   In every history a change is started only in a pass that listed it as due, after an attempt
   of that pass at which none of its devices was held.
   */
  lemma StartedWasDue(es: seq<Engine.Event>, s: State, id: int) returns (b: nat, list: seq<Entry>, k: nat, t: nat, st: State)
    requires History(es, s) && Starts(s, TickUpdate, id)
    ensures PassAt(es, b, list) && k < |list| && list[k] == Entry(id, true)
    ensures b < t < |es| && es[t] == TickTry && History(es[..t], st)
    ensures st.sched == Scan(list[k..]) && id in st.rows && st.running !! Devices(st, id)
  {
    b, list, k, t, st := PassOf(es, s);
    assert list[k] == Entry(list[k].id, list[k].due);
  }

  /** The change is listed, and never as due. */
  predicate ListedNotDue(list: seq<Entry>, id: int) {
    (exists k :: 0 <= k < |list| && list[k].id == id) && forall k :: 0 <= k < |list| && list[k].id == id ==> !list[k].due
  }

  /** One event of the pass seen from an approved or withdrawn change that is not started. */
  lemma NotDueNext(s: State, e: Engine.Event, s': State, id: int)
    requires Engine.Inv(s) && Engine.Next(s, e) == Some(s') && id in s.rows && !Starts(s, e, id) && !s.sched.Recovering?
    requires s.rows[id].status == Approved || s.rows[id].status == Cancelled
    ensures id in s'.rows
    ensures s'.rows[id].status == if e == Withdraw(id) then Cancelled else s.rows[id].status
  {
    assert RowOk(s.rows[id]);
    NotExecuting(s);
    if s.rows[id].status == Cancelled {
      TargetHistories.EndedStays(s, e, s', id);
    } else if !Names(s, e, id) {
      OtherEvents(s, e, s', id);
    } else if e.Vote? {
      DecideRowCases(s.rows[id], e.user, e.approve);
    }
  }

  lemma PassIsUp(s: State, e: Engine.Event, s': State)
    requires Engine.Next(s, e) == Some(s') && e != Crash && !s.sched.Recovering?
    ensures !s'.sched.Recovering?
  {}

  lemma BeginsListed(pre: seq<Engine.Event>, list: seq<Entry>, s: State, id: int)
    requires History(Since(pre, list, []), s) && ListedNotDue(list, id)
    ensures id in s.rows && s.rows[id].status == Approved && !s.sched.Recovering?
  {
    var es := Since(pre, list, []);
    assert es[..|es| - 1] == pre && es[|es| - 1] == TickBegin(list);
    LastStep(es, s);
  }

  /** No other pass has begun since. */
  predicate SamePass(mid: seq<Engine.Event>) {
    forall x :: 0 <= x < |mid| ==> !mid[x].TickBegin? && mid[x] != TickEnd && mid[x] != Crash
  }

  lemma PassIsThis(pre: seq<Engine.Event>, list: seq<Entry>, mid: seq<Engine.Event>, b: nat, l: seq<Entry>)
    requires PassAt(Since(pre, list, mid), b, l) && SamePass(mid)
    ensures l == list
  {
    var es := Since(pre, list, mid);
    assert es[|pre|] == TickBegin(list);
    assert forall x :: |pre| < x < |es| ==> es[x] == mid[x - |pre| - 1];
  }

  lemma NotStartedHere(pre: seq<Engine.Event>, list: seq<Entry>, mid: seq<Engine.Event>, s: State, id: int, e: Engine.Event)
    requires History(Since(pre, list, mid), s) && ListedNotDue(list, id) && SamePass(mid)
    ensures !Starts(s, e, id)
  {
    if Starts(s, e, id) {
      var b, l, k, t, st := StartedWasDue(Since(pre, list, mid), s, id);
      PassIsThis(pre, list, mid, b, l);
    }
  }

  /** A pass leaves a change listed only as not due with the status its own requests gave it. */
  lemma {:induction false} NotDueStays(pre: seq<Engine.Event>, list: seq<Entry>, mid: seq<Engine.Event>, s: State, id: int)
    requires History(Since(pre, list, mid), s) && ListedNotDue(list, id) && SamePass(mid)
    ensures id in s.rows && s.rows[id].status == (if Withdraw(id) in mid then Cancelled else Approved) && !s.sched.Recovering?
    decreases |mid|
  {
    if mid == [] {
      BeginsListed(pre, list, s, id);
    } else {
      var init, e := mid[..|mid| - 1], mid[|mid| - 1];
      var es := Since(pre, list, mid);
      assert es[..|es| - 1] == Since(pre, list, init) && es[|es| - 1] == e && mid == init + [e];
      var before := Last(es, s);
      NotDueStays(pre, list, init, before, id);
      NotStartedHere(pre, list, init, before, id, e);
      NotDueNext(before, e, s, id);
      PassIsUp(before, e, s);
    }
  }

  // ----- a pass that nothing interrupts

  lemma {:induction false} RunConcat(s: State, a: seq<Engine.Event>, m: State, b: seq<Engine.Event>)
    requires Run(s, a) == Some(m)
    ensures Run(s, a + b) == Run(m, b)
    decreases |b|
  {
    if b == [] {
      assert a + b == a;
    } else {
      RunConcat(s, a, m, b[..|b| - 1]);
      assert (a + b)[..|a + b| - 1] == a + b[..|b| - 1];
    }
  }

  ghost predicate Listable(s: State, list: seq<Entry>) {
    && (forall i :: 0 <= i < |list| ==> list[i].id in s.rows && s.rows[list[i].id].status == Approved)
    && (forall i, j :: 0 <= i < j < |list| ==> list[i].id != list[j].id)
  }

  /** list[k] is due, its devices are free and no change started before it in the pass has one of them. */
  ghost predicate Startable(s: State, list: seq<Entry>, k: nat, started: set<int>)
    requires k < |list| && forall i :: 0 <= i < |list| ==> list[i].id in s.rows
  {
    && list[k].due && s.running !! Devices(s, list[k].id)
    && forall j :: 0 <= j < k && list[j].id in started ==> Devices(s, list[j].id) !! Devices(s, list[k].id)
  }

  /** Exactly the startable changes were started. */
  ghost predicate PassDone(s: State, s': State, list: seq<Entry>, started: set<int>) {
    && (forall i :: 0 <= i < |list| ==> list[i].id in s.rows)
    && (forall k: nat :: k < |list| ==> (list[k].id in started <==> Startable(s, list, k, started)))
    && (forall id :: id in started ==> exists k :: 0 <= k < |list| && list[k].id == id)
    && s'.rows == (map id | id in s.rows :: if id in started then s.rows[id].(status := Running) else s.rows[id])
    && s'.execs.Keys == s.execs.Keys + started && s'.sched == Scan([])
  }

  /** The head of the list, tried and settled. */
  lemma HeadDone(s: State, list: seq<Entry>) returns (es: seq<Engine.Event>, s': State)
    requires s.sched == Scan(list) && list != [] && Listable(s, list)
    ensures Run(s, es) == Some(s') && (forall i :: 0 <= i < |es| ==> es[i] == TickTry || es[i] == TickUpdate)
    ensures var id := list[0].id;
      if list[0].due && s.running !! Devices(s, id) then
        && s'.rows == s.rows[id := s.rows[id].(status := Running)] && s'.running == s.running + Devices(s, id)
        && s'.execs.Keys == s.execs.Keys + {id} && s'.sched == Scan(list[1..])
      else s' == s.(sched := Scan(list[1..]))
  {
    var s1 := Engine.Next(s, TickTry).value;
    assert [TickTry][..0] == [];
    assert Run(s, [TickTry]) == Some(s1);
    if s1.sched.Claimed? {
      s' := Engine.Next(s1, TickUpdate).value;
      es := [TickTry, TickUpdate];
      assert es[..1] == [TickTry];
    } else {
      es, s' := [TickTry], s1;
    }
  }

  lemma RestListable(s: State, s': State, list: seq<Entry>)
    requires list != [] && Listable(s, list) && s'.rows.Keys == s.rows.Keys
    requires forall id :: id in s.rows && id != list[0].id ==> s'.rows[id] == s.rows[id]
    ensures Listable(s', list[1..])
  {}

  /** m is s with the head of the list settled. */
  ghost predicate HeadSettled(s: State, m: State, list: seq<Entry>)
    requires list != [] && list[0].id in s.rows
  {
    var id := list[0].id;
    if list[0].due && s.running !! Devices(s, id) then
      && m.rows == s.rows[id := s.rows[id].(status := Running)] && m.running == s.running + Devices(s, id)
      && m.execs.Keys == s.execs.Keys + {id}
    else m.rows == s.rows && m.running == s.running && m.execs == s.execs
  }

  function WithHead(s: State, list: seq<Entry>, rest: set<int>): set<int>
    requires list != [] && list[0].id in s.rows
  {
    if list[0].due && s.running !! Devices(s, list[0].id) then rest + {list[0].id} else rest
  }

  lemma HeadKeepsDevices(s: State, m: State, list: seq<Entry>)
    requires list != [] && list[0].id in s.rows && HeadSettled(s, m, list)
    ensures m.rows.Keys == s.rows.Keys && forall id :: id in s.rows ==> Devices(m, id) == Devices(s, id)
  {}

  lemma RestIds(list: seq<Entry>, rest: set<int>)
    requires list != [] && forall i, j :: 0 <= i < j < |list| ==> list[i].id != list[j].id
    requires forall id :: id in rest ==> exists k :: 0 <= k < |list[1..]| && list[1..][k].id == id
    ensures list[0].id !in rest && forall id :: id in rest ==> exists k :: 0 <= k < |list| && list[k].id == id
  {
    forall id | id in rest ensures id != list[0].id && exists k :: 0 <= k < |list| && list[k].id == id {
      var k :| 0 <= k < |list[1..]| && list[1..][k].id == id;
      assert list[k + 1].id == id;
    }
  }

  /** Whether a later change can start does not depend on where in the pass we are. */
  lemma StartableLater(s: State, m: State, list: seq<Entry>, rest: set<int>, k: nat)
    requires list != [] && Listable(s, list) && HeadSettled(s, m, list) && list[0].id !in rest && 0 < k < |list|
    requires forall i :: 0 <= i < |list[1..]| ==> list[1..][i].id in m.rows
    ensures Startable(s, list, k, WithHead(s, list, rest)) <==> Startable(m, list[1..], k - 1, rest)
  {
    HeadKeepsDevices(s, m, list);
    var tail, mine := list[1..], Devices(s, list[k].id);
    assert tail[k - 1] == list[k];
    var all := WithHead(s, list, rest);
    if Startable(s, list, k, all) {
      forall j | 0 <= j < k - 1 && tail[j].id in rest ensures Devices(m, tail[j].id) !! mine {
        assert list[j + 1] == tail[j] && list[j + 1].id in all;
      }
      assert list[0].id in all ==> Devices(s, list[0].id) !! mine;
    }
    if Startable(m, tail, k - 1, rest) {
      forall j | 0 <= j < k && list[j].id in all ensures Devices(s, list[j].id) !! mine {
        if j > 0 {
          assert list[j] == tail[j - 1];
        }
      }
    }
  }

  lemma StartedRows(s: State, m: State, s': State, list: seq<Entry>, rest: set<int>)
    requires list != [] && list[0].id in s.rows && HeadSettled(s, m, list) && list[0].id !in rest
    requires s'.rows == map id | id in m.rows :: if id in rest then m.rows[id].(status := Running) else m.rows[id]
    ensures var started := WithHead(s, list, rest);
      s'.rows == map id | id in s.rows :: if id in started then s.rows[id].(status := Running) else s.rows[id]
  {}

  /** The pass over the rest, after the head was settled, is the pass over all. */
  lemma PassFromHead(s: State, m: State, s': State, list: seq<Entry>, rest: set<int>)
    requires list != [] && Listable(s, list) && HeadSettled(s, m, list) && PassDone(m, s', list[1..], rest)
    ensures PassDone(s, s', list, WithHead(s, list, rest))
  {
    RestIds(list, rest);
    StartedRows(s, m, s', list, rest);
    var started := WithHead(s, list, rest);
    forall k: nat | k < |list| ensures list[k].id in started <==> Startable(s, list, k, started) {
      if k > 0 {
        StartableLater(s, m, list, rest, k);
        assert list[k] == list[1..][k - 1];
      }
    }
  }

  /**
   A pass that nothing interrupts can always be completed, and it starts a listed change exactly
   when it is due, its devices are free and no change before it in the list took one of them.
   */
  lemma {:induction false} QuietPass(s: State, list: seq<Entry>) returns (es: seq<Engine.Event>, s': State, started: set<int>)
    requires s.sched == Scan(list) && Listable(s, list)
    ensures Run(s, es) == Some(s') && (forall i :: 0 <= i < |es| ==> es[i] == TickTry || es[i] == TickUpdate)
    ensures PassDone(s, s', list, started)
    decreases |list|
  {
    if list == [] {
      es, s', started := [], s, {};
      assert s'.rows == map id | id in s.rows :: s.rows[id];
    } else {
      var one, m := HeadDone(s, list);
      RestListable(s, m, list);
      var more, rest;
      more, s', rest := QuietPass(m, list[1..]);
      RunConcat(s, one, m, more);
      es := one + more;
      PassFromHead(s, m, s', list, rest);
      started := WithHead(s, list, rest);
    }
  }

  /** A whole pass that nothing interrupts, from rest to rest. */
  lemma WholePass(s: State, list: seq<Entry>) returns (es: seq<Engine.Event>, s': State, started: set<int>)
    requires s.sched == Resting && Listable(s, list)
    ensures Run(s, [TickBegin(list)] + es + [TickEnd]) == Some(s') && s'.sched == Resting
    ensures forall i :: 0 <= i < |es| ==> es[i] == TickTry || es[i] == TickUpdate
    ensures forall k: nat :: k < |list| ==> (list[k].id in started <==> Startable(s, list, k, started))
    ensures s'.rows == map id | id in s.rows :: if id in started then s.rows[id].(status := Running) else s.rows[id]
    ensures s'.execs.Keys == s.execs.Keys + started
  {
    var s1 := Engine.Next(s, TickBegin(list)).value;
    var end;
    es, end, started := QuietPass(s1, list);
    assert [TickBegin(list)][..0] == [];
    RunConcat(s, [TickBegin(list)], s1, es);
    s' := end.(sched := Resting);
    assert [TickEnd][..0] == [];
    RunConcat(s, [TickBegin(list)] + es, end, [TickEnd]);
    forall k: nat | k < |list| ensures list[k].id in started <==> Startable(s, list, k, started) {
      assert Startable(s1, list, k, started) <==> Startable(s, list, k, started);
    }
  }
}
