/**
 Maintenance windows (internal/changes/windows.go) and when an approved change is due
 (internal/changes/engine.go, dueAt and nextRun). Times are nanoseconds since
 1970-01-01 in one zone without daylight saving, so every day has the same length.
 */
module Windows {
  import opened Common
  import opened Workflow

  datatype Clock = Clock(hour: int, minute: int)

  /** `start` is None when the stored start time is not HH:MM. */
  datatype Window = Window(group: Option<int>, weekdays: seq<int>, start: Option<Clock>, minutes: int, enabled: bool)

  predicate ClockOk(c: Clock) { 0 <= c.hour <= 23 && 0 <= c.minute <= 59 }

  /** What clock returns only ever has a valid hour and minute. */
  predicate Parsed(w: Window) { w.start.Some? ==> ClockOk(w.start.value) }

  /** What validate accepts. */
  predicate Valid(w: Window) {
    && w.start.Some? && ClockOk(w.start.value)
    && |w.weekdays| > 0 && (forall i :: 0 <= i < |w.weekdays| ==> 0 <= w.weekdays[i] <= 6)
    && 15 <= w.minutes <= 1440
  }

  /** 1970-01-01 was a Thursday; 0 is Sunday. */
  function Weekday(day: int): int { (day + 4) % 7 }

  function Offset(w: Window): int
    requires w.start.Some?
  {
    (w.start.value.hour * 60 + w.start.value.minute) * MINUTE
  }

  function StartOn(w: Window, day: int): int
    requires w.start.Some?
  {
    day * DAY + Offset(w)
  }

  /** Some day's occurrence of the window starts at s. */
  predicate Occurs(w: Window, s: int) {
    w.start.Some? && s == StartOn(w, s / DAY) && Weekday(s / DAY) in w.weekdays
  }

  predicate Contains(w: Window, s: int, t: int) { s <= t < s + w.minutes * MINUTE }

  ghost predicate IsOpen(w: Window, t: int) {
    w.enabled && exists s :: Occurs(w, s) && Contains(w, s, t)
  }

  lemma StartDay(w: Window, day: int)
    requires w.start.Some? && ClockOk(w.start.value)
    ensures StartOn(w, day) / DAY == day
  {}

  /** The start of the occurrence containing t, if any. */
  method OpenAt(w: Window, t: int) returns (r: Option<int>)
    requires Parsed(w)
    ensures r.Some? ==> w.enabled && Occurs(w, r.value) && Contains(w, r.value, t)
    ensures w.minutes <= 1440 ==> (r.Some? <==> IsOpen(w, t))
  {
    if w.start.None? || !w.enabled {
      return None;
    }
    for back := 0 to 2
      invariant forall s :: Occurs(w, s) && t / DAY - back < s / DAY <= t / DAY ==> !Contains(w, s, t)
    {
      var day := t / DAY - back;
      var start := StartOn(w, day);
      StartDay(w, day);
      if Weekday(day) in w.weekdays && start <= t < start + w.minutes * MINUTE {
        return Some(start);
      }
    }
    return None;
  }

  /** No two occurrences of a valid window share an instant. */
  lemma OccurrenceUnique(w: Window, a: int, b: int, t: int)
    requires Parsed(w) && w.minutes <= 1440
    requires Occurs(w, a) && Contains(w, a, t) && Occurs(w, b) && Contains(w, b, t)
    ensures a == b
  {}

  /** What next returns at t: the occurrence t falls in, or else the first one after t. */
  ghost predicate IsNext(w: Window, t: int, s: int) {
    && w.enabled && Occurs(w, s)
    && (Contains(w, s, t) || (!IsOpen(w, t) && t < s && forall x :: Occurs(w, x) && t < x ==> s <= x))
  }

  /** Each weekday comes within the seven days after any day. */
  lemma WeekdayAhead(day: int, weekday: int) returns (ahead: int)
    requires 0 <= weekday <= 6
    ensures 1 <= ahead <= 7 && Weekday(day + ahead) == weekday
  {
    ahead := (weekday - day - 5) % 7 + 1;
  }

  /** The occurrence containing t, or the next one: a valid window always has one. */
  method Next(w: Window, t: int) returns (r: Option<int>)
    requires Parsed(w)
    ensures r.Some? ==> w.enabled && Occurs(w, r.value) && (Contains(w, r.value, t) || t < r.value)
    ensures Valid(w) ==> (r.Some? <==> w.enabled)
    ensures Valid(w) && r.Some? ==> IsNext(w, t, r.value)
  {
    r := OpenAt(w, t);
    if r.Some? || w.start.None? || !w.enabled {
      return;
    }
    for ahead := 0 to 8
      invariant forall s :: Occurs(w, s) && s / DAY < t / DAY + ahead ==> s <= t
    {
      var day := t / DAY + ahead;
      var start := StartOn(w, day);
      StartDay(w, day);
      if start > t && Weekday(day) in w.weekdays {
        return Some(start);
      }
    }
    if Valid(w) {
      ghost var ahead := WeekdayAhead(t / DAY, w.weekdays[0]);
      StartDay(w, t / DAY + ahead);
      assert Occurs(w, StartOn(w, t / DAY + ahead));
      assert false;
    }
    return None;
  }

  lemma NextUnique(w: Window, t: int, a: int, b: int)
    requires Valid(w) && IsNext(w, t, a) && IsNext(w, t, b)
    ensures a == b
  {
    if Contains(w, a, t) || Contains(w, b, t) {
      assert IsOpen(w, t);
      OccurrenceUnique(w, a, b, t);
    }
  }

  /**
   One minute after an opening the window is still the same occurrence, so asking again
   from there returns the same opening: nextRun sees one opening per window, not a week.
   */
  lemma NextRepeats(w: Window, t: int, s: int, again: int)
    requires Valid(w) && IsNext(w, t, s) && IsNext(w, s + MINUTE, again)
    ensures again == s
  {
    assert Contains(w, s, s + MINUTE);
    assert IsNext(w, s + MINUTE, s);
    NextUnique(w, s + MINUTE, s, again);
  }

  // ----- when a change is due

  predicate Covers(w: Window, group: Option<int>) {
    w.group.None? || (group.Some? && group.value == w.group.value)
  }

  /** The device may be changed at t: no enabled window covers it, or a covering one is open. */
  ghost predicate MayChange(windows: seq<Window>, group: Option<int>, t: int) {
    || (forall i :: 0 <= i < |windows| ==> !(windows[i].enabled && Covers(windows[i], group)))
    || (exists i :: 0 <= i < |windows| && Covers(windows[i], group) && IsOpen(windows[i], t))
  }

  ghost predicate AllValid(windows: seq<Window>) {
    forall i :: 0 <= i < |windows| ==> Valid(windows[i])
  }

  method InWindowNow(windows: seq<Window>, group: Option<int>, t: int) returns (may: bool)
    requires AllValid(windows)
    ensures may <==> MayChange(windows, group, t)
  {
    var covered := false;
    for i := 0 to |windows|
      invariant covered <==> exists j :: 0 <= j < i && windows[j].enabled && Covers(windows[j], group)
      invariant forall j :: 0 <= j < i && Covers(windows[j], group) ==> !IsOpen(windows[j], t)
    {
      var w := windows[i];
      if w.enabled && Covers(w, group) {
        covered := true;
        var open := OpenAt(w, t);
        if open.Some? {
          return true;
        }
      }
    }
    return !covered;
  }

  /** An approved change with this run mode and these devices may start at t. */
  ghost predicate Due(mode: RunMode, runAt: Option<int>, devices: seq<Device>, windows: seq<Window>, t: int) {
    match mode
    case RightNow => true
    case AtTime => runAt.Some? && runAt.value <= t
    case InWindow => forall i :: 0 <= i < |devices| ==> MayChange(windows, devices[i].group, t)
  }

  /**
   A change that waits for its windows is held back exactly by a device that some enabled window
   is for, its own group's or everybody's, while every such window is closed.
   */
  lemma HeldBackIff(devices: seq<Device>, windows: seq<Window>, t: int)
    ensures !Due(InWindow, None, devices, windows, t) <==>
      exists i :: 0 <= i < |devices| && HoldsBack(devices[i].group, windows, t)
  {}

  ghost predicate HoldsBack(group: Option<int>, windows: seq<Window>, t: int) {
    && (exists j :: 0 <= j < |windows| && windows[j].enabled && (windows[j].group == group || windows[j].group.None?))
    && (forall j :: 0 <= j < |windows| && windows[j].enabled && (windows[j].group == group || windows[j].group.None?) ==>
          forall s :: Occurs(windows[j], s) ==> t < s || s + windows[j].minutes * MINUTE <= t)
  }

  /** A change told to run now is due at once, whatever the windows. */
  lemma RunNowIsDue(row: Row, windows: seq<Window>, t: int)
    requires RunNowRow(row).Ok?
    ensures Due(RunNowRow(row).value.mode, RunNowRow(row).value.runAt, row.devices, windows, t)
  {}

  method DueAt(mode: RunMode, runAt: Option<int>, devices: seq<Device>, windows: seq<Window>, t: int) returns (due: bool)
    requires AllValid(windows)
    ensures due <==> Due(mode, runAt, devices, windows, t)
  {
    match mode {
      case RightNow => return true;
      case AtTime => return runAt.Some? && runAt.value <= t;
      case InWindow =>
    }
    for i := 0 to |devices|
      invariant forall j :: 0 <= j < i ==> MayChange(windows, devices[j].group, t)
    {
      var may := InWindowNow(windows, devices[i].group, t);
      if !may {
        return false;
      }
    }
    return true;
  }

  /** The start times nextRun considers: now and one opening per enabled window. */
  ghost predicate Candidate(windows: seq<Window>, now: int, t: int) {
    t == now || exists i :: 0 <= i < |windows| && IsNext(windows[i], now, t)
  }

  method Candidates(windows: seq<Window>, now: int) returns (cands: seq<int>)
    requires AllValid(windows)
    ensures forall t :: t in cands <==> Candidate(windows, now, t)
  {
    cands := [now];
    for i := 0 to |windows|
      invariant forall t :: t in cands <==> t == now || exists j :: 0 <= j < i && IsNext(windows[j], now, t)
    {
      var w := windows[i];
      ghost var before := cands;
      var t := now;
      ghost var first: Option<int> := None;
      for round := 0 to 8
        invariant round == 0 ==> t == now && cands == before && first.None?
        invariant round > 0 ==> w.enabled && first.Some? && t == first.value + MINUTE && IsNext(w, now, first.value)
        invariant round > 0 ==> forall x :: x in cands <==> x in before || x == first.value
      {
        var n := Next(w, t);
        if n.None? {
          break;
        }
        if round == 0 {
          first := n;
        } else {
          NextRepeats(w, now, first.value, n.value);
        }
        cands := cands + [n.value];
        t := n.value + MINUTE;
      }
      forall x | first.Some? && IsNext(w, now, x) ensures x == first.value {
        NextUnique(w, now, x, first.value);
      }
    }
  }

  /** best is the earliest candidate at which a change in window mode is due. */
  ghost predicate Estimates(devices: seq<Device>, windows: seq<Window>, now: int, best: Option<int>) {
    && (best.Some? ==> Candidate(windows, now, best.value) && Due(InWindow, None, devices, windows, best.value))
    && (forall t :: Candidate(windows, now, t) && Due(InWindow, None, devices, windows, t) ==> best.Some? && best.value <= t)
  }

  /**
   The estimated start of an approved change. In window mode it is the earliest due
   candidate; it is a time the change is due, but a due time may exist without one. A change
   with a run time is due exactly from then on, one that is to run now at any time.
   */
  method NextRun(mode: RunMode, runAt: Option<int>, devices: seq<Device>, windows: seq<Window>, now: int)
    returns (best: Option<int>)
    requires AllValid(windows)
    ensures best.Some? ==> Due(mode, runAt, devices, windows, best.value)
    ensures mode == InWindow ==> Estimates(devices, windows, now, best)
    ensures mode == RightNow ==> best == Some(now) && forall t :: Due(mode, runAt, devices, windows, t)
    ensures mode == AtTime ==> best == runAt && forall t :: Due(mode, runAt, devices, windows, t) <==> best.Some? && best.value <= t
  {
    if mode == RightNow {
      return Some(now);
    }
    if mode == AtTime {
      return runAt;
    }
    var cands := Candidates(windows, now);
    best := None;
    for i := 0 to |cands|
      invariant best.Some? ==> best.value in cands && Due(mode, runAt, devices, windows, best.value)
      invariant forall j :: 0 <= j < i && Due(mode, runAt, devices, windows, cands[j]) ==> best.Some? && best.value <= cands[j]
    {
      var due := DueAt(mode, runAt, devices, windows, cands[i]);
      if due && (best.None? || cands[i] < best.value) {
        best := Some(cands[i]);
      }
    }
  }

  /** An occurrence in progress now at whose start the change was due. */
  ghost predicate StaleOpening(devices: seq<Device>, windows: seq<Window>, now: int, i: int, s: int) {
    && 0 <= i < |windows| && windows[i].enabled && Occurs(windows[i], s) && Contains(windows[i], s, now)
    && Due(InWindow, None, devices, windows, s)
  }

  ghost predicate Stale(devices: seq<Device>, windows: seq<Window>, now: int) {
    exists i, s :: StaleOpening(devices, windows, now, i, s)
  }

  lemma StaleIsOpen(devices: seq<Device>, windows: seq<Window>, now: int)
    ensures Stale(devices, windows, now) ==> exists i :: 0 <= i < |windows| && IsOpen(windows[i], now)
  {
    if Stale(devices, windows, now) {
      var i, s :| StaleOpening(devices, windows, now, i, s);
      assert IsOpen(windows[i], now);
    }
  }

  /**
   Whether it can start now or not, a change is estimated for a past instant exactly when an
   occurrence in progress began before now at a time when the change could start.
   */
  lemma EstimatePastIff(devices: seq<Device>, windows: seq<Window>, now: int, best: Option<int>)
    requires AllValid(windows) && Estimates(devices, windows, now, best)
    ensures (best.Some? && best.value < now) <==> exists i, s :: StaleOpening(devices, windows, now, i, s) && s < now
  {
    if best.Some? && best.value < now {
      var i :| 0 <= i < |windows| && IsNext(windows[i], now, best.value);
      assert StaleOpening(devices, windows, now, i, best.value);
    }
    if i, s :| StaleOpening(devices, windows, now, i, s) && s < now {
      assert IsNext(windows[i], now, s);
      assert Candidate(windows, now, s);
    }
  }

  /** For a change that cannot start now any such occurrence began before now. */
  lemma BlockedPastIff(devices: seq<Device>, windows: seq<Window>, now: int, best: Option<int>)
    requires AllValid(windows) && Estimates(devices, windows, now, best) && !Due(InWindow, None, devices, windows, now)
    ensures (best.Some? && best.value <= now) <==> Stale(devices, windows, now)
  {
    EstimatePastIff(devices, windows, now, best);
    if Stale(devices, windows, now) {
      var i, s :| StaleOpening(devices, windows, now, i, s);
      assert s < now;
    }
  }

  /** A change that can start now is estimated for now unless an occurrence in progress began when it could start. */
  lemma DueNowEstimate(devices: seq<Device>, windows: seq<Window>, now: int, best: Option<int>)
    requires AllValid(windows) && Estimates(devices, windows, now, best) && Due(InWindow, None, devices, windows, now)
    ensures best.Some? && best.value <= now
    ensures best.value < now <==> exists i, s :: StaleOpening(devices, windows, now, i, s) && s < now
  {
    assert Candidate(windows, now, now);
    EstimatePastIff(devices, windows, now, best);
  }

  /** d is the first instant after now at which the change may start. */
  ghost predicate FirstDue(devices: seq<Device>, windows: seq<Window>, now: int, d: int) {
    now < d && Due(InWindow, None, devices, windows, d) && forall t :: now < t < d ==> !Due(InWindow, None, devices, windows, t)
  }

  /** d is the first opening after now of an enabled window that is closed now. */
  ghost predicate FirstOpeningAt(windows: seq<Window>, now: int, d: int) {
    exists i :: 0 <= i < |windows| && windows[i].enabled && !IsOpen(windows[i], now) && OpensFirst(windows[i], now, d)
  }

  ghost predicate OpensFirst(w: Window, t: int, d: int) {
    Occurs(w, d) && t < d && forall x :: Occurs(w, x) && t < x ==> d <= x
  }

  /**
   A change that cannot start now is estimated for the first instant at which it can if
   and only if it has no stale opening and at that instant some window has its first
   opening after now.
   */
  lemma EstimateExactIff(devices: seq<Device>, windows: seq<Window>, now: int, best: Option<int>, d: int)
    requires AllValid(windows) && Estimates(devices, windows, now, best) && !Due(InWindow, None, devices, windows, now)
    requires FirstDue(devices, windows, now, d)
    ensures best == Some(d) <==> !Stale(devices, windows, now) && FirstOpeningAt(windows, now, d)
    ensures !Stale(devices, windows, now) ==> best.None? || d <= best.value
  {
    BlockedPastIff(devices, windows, now, best);
    if FirstOpeningAt(windows, now, d) {
      var i :| 0 <= i < |windows| && windows[i].enabled && !IsOpen(windows[i], now) && OpensFirst(windows[i], now, d);
      assert IsNext(windows[i], now, d);
      assert Candidate(windows, now, d);
    }
    if best == Some(d) {
      var i :| 0 <= i < |windows| && IsNext(windows[i], now, d);
      assert OpensFirst(windows[i], now, d);
    }
  }

  /** A change that can never start again is estimated for the past or not at all. */
  lemma NeverDueEstimate(devices: seq<Device>, windows: seq<Window>, now: int, best: Option<int>)
    requires AllValid(windows) && Estimates(devices, windows, now, best)
    requires forall t :: now <= t ==> !Due(InWindow, None, devices, windows, t)
    ensures best.Some? <==> Stale(devices, windows, now)
  {
    BlockedPastIff(devices, windows, now, best);
  }

  /** Some first instant exists when there is one at all. */
  lemma {:induction false} LeastDue(devices: seq<Device>, windows: seq<Window>, now: int, t: int) returns (d: int)
    requires now < t && Due(InWindow, None, devices, windows, t)
    ensures FirstDue(devices, windows, now, d)
    decreases t - now
  {
    if x :| now < x < t && Due(InWindow, None, devices, windows, x) {
      d := LeastDue(devices, windows, now, x);
    } else {
      d := t;
    }
  }

  lemma SomeStart(w: Window, t: int) returns (s: int)
    requires Valid(w)
    ensures Occurs(w, s) && t < s
  {
    var ahead := WeekdayAhead(t / DAY, w.weekdays[0]);
    s := StartOn(w, t / DAY + ahead);
    StartDay(w, t / DAY + ahead);
  }

  /** The same windows cover every device of the change. */
  ghost predicate SameWindows(devices: seq<Device>, windows: seq<Window>) {
    forall i, j :: 0 <= i < |devices| && 0 <= j < |windows| && windows[j].enabled ==>
      Covers(windows[j], devices[i].group) == Covers(windows[j], devices[0].group)
  }

  lemma SameDue(devices: seq<Device>, windows: seq<Window>, t: int)
    requires devices != [] && SameWindows(devices, windows)
    ensures Due(InWindow, None, devices, windows, t) <==> MayChange(windows, devices[0].group, t)
  {
    forall i | 0 <= i < |devices| ensures MayChange(windows, devices[i].group, t) <==> MayChange(windows, devices[0].group, t) {
      assert forall j :: 0 <= j < |windows| && windows[j].enabled ==>
        Covers(windows[j], devices[i].group) == Covers(windows[j], devices[0].group);
    }
  }

  /** Every window that is open covers the change. */
  ghost predicate OpenOnesCover(devices: seq<Device>, windows: seq<Window>, now: int)
    requires devices != []
  {
    forall j :: 0 <= j < |windows| && IsOpen(windows[j], now) ==> Covers(windows[j], devices[0].group)
  }

  /** The change may start at every opening of a window that covers it. */
  lemma DueAtOpening(devices: seq<Device>, windows: seq<Window>, j: nat, s: int)
    requires AllValid(windows) && devices != [] && SameWindows(devices, windows) && j < |windows|
    requires windows[j].enabled && Covers(windows[j], devices[0].group) && Occurs(windows[j], s)
    ensures Due(InWindow, None, devices, windows, s)
  {
    SameDue(devices, windows, s);
    assert Contains(windows[j], s, s);
  }

  /** Under the same windows the first due instant is the first opening of one of them. */
  lemma FirstDueOpens(devices: seq<Device>, windows: seq<Window>, now: int, d: int)
    requires AllValid(windows) && devices != [] && SameWindows(devices, windows)
    requires !Due(InWindow, None, devices, windows, now) && FirstDue(devices, windows, now, d)
    ensures FirstOpeningAt(windows, now, d)
  {
    SameDue(devices, windows, now);
    SameDue(devices, windows, d);
    var j: nat :| j < |windows| && Covers(windows[j], devices[0].group) && IsOpen(windows[j], d);
    var s :| Occurs(windows[j], s) && Contains(windows[j], s, d);
    assert !IsOpen(windows[j], now);
    assert s <= now ==> Contains(windows[j], s, now);
    DueAtOpening(devices, windows, j, s);
    forall x | Occurs(windows[j], x) && now < x ensures d <= x {
      DueAtOpening(devices, windows, j, x);
    }
    assert OpensFirst(windows[j], now, d);
  }

  /**
   When the same windows cover all its devices and no other window is open, a change that
   may start now is estimated for now or for the opening in progress, and any other
   exactly for the first instant at which it may start.
   */
  lemma EstimateIsFirst(devices: seq<Device>, windows: seq<Window>, now: int, best: Option<int>)
    requires AllValid(windows) && devices != [] && SameWindows(devices, windows) && OpenOnesCover(devices, windows, now)
    requires Estimates(devices, windows, now, best)
    ensures best.Some? && (best.value <= now <==> Due(InWindow, None, devices, windows, now))
    ensures best.value > now ==> FirstDue(devices, windows, now, best.value)
  {
    SameDue(devices, windows, now);
    assert Candidate(windows, now, now);
    if !Due(InWindow, None, devices, windows, now) {
      var i: nat :| i < |windows| && windows[i].enabled && Covers(windows[i], devices[0].group);
      var s := SomeStart(windows[i], now);
      DueAtOpening(devices, windows, i, s);
      var d := LeastDue(devices, windows, now, s);
      FirstDueOpens(devices, windows, now, d);
      EstimateExactIff(devices, windows, now, best, d);
      StaleIsOpen(devices, windows, now);
    }
  }

  const MORNING := Window(Some(1), [1], Some(Clock(8, 0)), 120, true)
  const NOON := Window(Some(2), [1], Some(Clock(9, 0)), 180, true)

  const ELEVEN: int := 4 * DAY + 660 * MINUTE
  const ONE: seq<Device> := [Device(1, Some(1))]

  /** A device of group 1 follows the morning window only. */
  lemma MorningOnly(t: int)
    ensures SameWindows(ONE, [MORNING, NOON])
    ensures Due(InWindow, None, ONE, [MORNING, NOON], t) <==> IsOpen(MORNING, t)
  {
    var windows := [MORNING, NOON];
    assert windows[0].enabled && Covers(windows[0], Some(1)) && !Covers(windows[1], Some(1));
    SameDue(ONE, windows, t);
  }

  lemma NoonOpensAtNine()
    ensures IsNext(NOON, ELEVEN, ELEVEN - 120 * MINUTE) && IsOpen(MORNING, ELEVEN - 120 * MINUTE)
  {
    var nine := StartOn(NOON, 4);
    StartDay(NOON, 4);
    StartDay(MORNING, 4);
    assert Occurs(NOON, nine) && Contains(NOON, nine, ELEVEN);
    assert Occurs(MORNING, StartOn(MORNING, 4)) && Contains(MORNING, StartOn(MORNING, 4), nine);
  }

  /**
   With another group's window open the estimate can lie in the past: a change of a group
   that was open on Monday from 8 to 10, asked at 11 while another group's window is open
   since 9, is estimated for 9 although it cannot start now.
   */
  lemma EstimateInThePast(best: Option<int>)
    requires Estimates(ONE, [MORNING, NOON], ELEVEN, best)
    ensures AllValid([MORNING, NOON]) && SameWindows(ONE, [MORNING, NOON])
    ensures !Due(InWindow, None, ONE, [MORNING, NOON], ELEVEN)
    ensures best.Some? && best.value < ELEVEN
  {
    var windows := [MORNING, NOON];
    MorningOnly(ELEVEN);
    MorningOnly(ELEVEN - 120 * MINUTE);
    NoonOpensAtNine();
    assert IsNext(windows[1], ELEVEN, ELEVEN - 120 * MINUTE);
    assert Candidate(windows, ELEVEN, ELEVEN - 120 * MINUTE);
  }

  /** The opening of `w` on `day` is its next one when no earlier day since t has one. */
  lemma FirstOpening(w: Window, t: int, day: int)
    requires Valid(w) && w.enabled && w.start.value == Clock(10, 0) && w.minutes == 60
    requires t % DAY == 0 && t / DAY < day && Weekday(day) in w.weekdays
    requires forall d :: t / DAY - 1 <= d < day ==> Weekday(d) !in w.weekdays
    ensures IsNext(w, t, StartOn(w, day))
  {
    StartDay(w, day);
    forall s | Occurs(w, s) && s < StartOn(w, day) ensures s / DAY < t / DAY - 1 {
      assert s / DAY <= day;
    }
  }

  const EARLY := Window(Some(1), [1, 3], Some(Clock(10, 0)), 60, true)
  const LATE := Window(Some(2), [2, 3], Some(Clock(10, 0)), 60, true)
  const SUNDAY: int := 3 * DAY
  const PAIR: seq<Device> := [Device(1, Some(1)), Device(2, Some(2))]

  /** With one window per group, a device of a group follows that group's window. */
  lemma OneWindowEach(i: nat, t: int)
    requires i < 2
    ensures MayChange([EARLY, LATE], PAIR[i].group, t) <==> IsOpen([EARLY, LATE][i], t)
  {
    var windows := [EARLY, LATE];
    assert windows[i].enabled && Covers(windows[i], PAIR[i].group) && !Covers(windows[1 - i], PAIR[i].group);
  }

  lemma PairDue(t: int)
    ensures Due(InWindow, None, PAIR, [EARLY, LATE], t) <==> IsOpen(EARLY, t) && IsOpen(LATE, t)
  {
    OneWindowEach(0, t);
    OneWindowEach(1, t);
  }

  /** Before Wednesday the two windows are never open together at an opening. */
  lemma NotTogether(i: nat, t: int)
    requires i < 2 && IsNext([EARLY, LATE][i], SUNDAY, t)
    ensures !(IsOpen(EARLY, t) && IsOpen(LATE, t))
  {
    FirstOpening(EARLY, SUNDAY, 4);
    FirstOpening(LATE, SUNDAY, 5);
    NextUnique([EARLY, LATE][i], SUNDAY, t, StartOn([EARLY, LATE][i], 4 + i));
  }

  /**
   The estimate misses openings: with one group open on Mondays and Wednesdays and one
   on Tuesdays and Wednesdays, a change on both is due on Wednesday, yet on Sunday no
   candidate is due.
   */
  lemma NextRunMissesOpenings() returns (devices: seq<Device>, windows: seq<Window>, now: int, due: int)
    ensures AllValid(windows) && now <= due < now + 7 * DAY
    ensures Due(InWindow, None, devices, windows, due)
    ensures forall t :: Candidate(windows, now, t) ==> !Due(InWindow, None, devices, windows, t)
  {
    devices, windows, now, due := PAIR, [EARLY, LATE], SUNDAY, StartOn(EARLY, 6);
    assert Occurs(EARLY, due) && Contains(EARLY, due, due);
    assert Occurs(LATE, due) && Contains(LATE, due, due);
    PairDue(due);
    forall t | Candidate(windows, now, t) ensures !Due(InWindow, None, devices, windows, t) {
      PairDue(t);
      if t != now {
        var i: nat :| i < |windows| && IsNext(windows[i], now, t);
        NotTogether(i, t);
      }
    }
  }
}
