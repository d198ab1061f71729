/**
 What is announced about each alert over a whole run, a notification counted as soon as
 it is queued; AlertRuns has the runs in which requests come before it is sent.
 */
module AlertNotes {
  import opened Common
  import opened Alerts

  /** The notifications about one alert. */
  function About(notes: seq<Note>, id: nat): seq<Note> {
    if notes == [] then []
    else About(notes[..|notes| - 1], id) + if notes[|notes| - 1].alert == id then [notes[|notes| - 1]] else []
  }

  lemma {:induction false} AboutConcat(a: seq<Note>, b: seq<Note>, id: nat)
    ensures About(a + b, id) == About(a, id) + About(b, id)
    decreases |b|
  {
    if b == [] {
      assert a + b == a;
    } else {
      AboutConcat(a, b[..|b| - 1], id);
      assert (a + b)[..|a + b| - 1] == a + b[..|b| - 1];
    }
  }

  lemma {:induction false} AboutMember(notes: seq<Note>, id: nat, x: Note)
    ensures x in About(notes, id) <==> x in notes && x.alert == id
  {
    if notes != [] {
      AboutMember(notes[..|notes| - 1], id, x);
      assert notes == notes[..|notes| - 1] + [notes[|notes| - 1]];
    }
  }

  ghost predicate DistinctSubjects(conds: seq<Condition>) {
    forall i, j :: 0 <= i < j < |conds| ==> conds[i].subject != conds[j].subject
  }

  /** The unique index on open alerts. */
  ghost predicate UniqueOpen(alerts: seq<Alert>) {
    forall i, j :: 0 <= i < j < |alerts| && alerts[i].open && alerts[j].open ==> alerts[i].subject != alerts[j].subject
  }

  predicate SameButMessage(a: Alert, b: Alert) { b == a.(message := b.message) }

  /** The open alert a is announced again by an evaluation that finds the conditions `seen`. */
  predicate Repeats(a: Alert, pending: map<string, int>, rule: Rule, seen: set<string>, now: int) {
    a.open && a.subject in seen && Mature(pending, rule, a.subject, now) && RepeatDue(a, rule, now)
  }

  function Once(yes: bool, n: Note): seq<Note> { if yes then [n] else [] }

  /** An alert that was stored before the evaluation, after its conditions in `seen`. */
  ghost predicate OldAlert(t: Tables, p: Pass, rule: Rule, seen: set<string>, now: int, i: nat)
    requires i < |t.alerts| && i < |p.t.alerts|
  {
    && SameButMessage(t.alerts[i], p.t.alerts[i])
    && About(p.notes, i) == Once(Repeats(t.alerts[i], t.pending, rule, seen, now), Note(i, Opened, now))
  }

  /** An alert the evaluation opened. */
  ghost predicate NewAlert(p: Pass, seen: set<string>, now: int, i: nat)
    requires i < |p.t.alerts|
  {
    var a := p.t.alerts[i];
    && a.open && a.subject in seen && a.openedAt == now && a.notifiedAt.None? && !a.acked
    && About(p.notes, i) == [Note(i, Opened, now)]
  }

  /** The state of an evaluation of t after the conditions with subjects `seen`. */
  ghost predicate Touched(t: Tables, p: Pass, rule: Rule, seen: set<string>, now: int) {
    && |t.alerts| <= |p.t.alerts| && UniqueOpen(p.t.alerts)
    && (forall i: nat :: i < |t.alerts| ==> OldAlert(t, p, rule, seen, now, i))
    && (forall i: nat :: |t.alerts| <= i < |p.t.alerts| ==> NewAlert(p, seen, now, i))
    && (forall i: nat :: |p.t.alerts| <= i ==> About(p.notes, i) == [])
  }

  /** What Touch does, told by the alert it concerns. */
  lemma TouchCases(p: Pass, rule: Rule, c: Condition, now: int, pending: map<string, int>)
    requires rule.duration > 0 && c.subject in p.t.pending ==> p.t.pending[c.subject] == Since(pending, c.subject, now)
    requires rule.duration > 0 && c.subject !in p.t.pending ==> Since(pending, c.subject, now) == now
    ensures var q, id := Touch(p, rule, c, now), FindOpen(p.t.alerts, c.subject);
      if !Mature(pending, rule, c.subject, now) then q.t.alerts == p.t.alerts && q.notes == p.notes
      else if id.None? then
        && q.t.alerts == p.t.alerts + [Alert(c.subject, c.message, now, true, 0, None, false)]
        && q.notes == p.notes + [Note(|p.t.alerts|, Opened, now)]
      else
        && q.t.alerts == p.t.alerts[id.value := p.t.alerts[id.value].(message := c.message)]
        && q.notes == p.notes + Once(RepeatDue(p.t.alerts[id.value], rule, now), Note(id.value, Opened, now))
  {}

  lemma AboutNew(notes: seq<Note>, n: Note, i: nat)
    ensures About(notes + [n], i) == About(notes, i) + Once(n.alert == i, n)
  {
    assert (notes + [n])[..|notes|] == notes;
  }

  lemma TouchNew(t: Tables, p: Pass, rule: Rule, seen: set<string>, c: Condition, now: int, q: Pass)
    requires Touched(t, p, rule, seen, now) && c.subject !in seen
    requires FindOpen(p.t.alerts, c.subject).None?
    requires q.t.alerts == p.t.alerts + [Alert(c.subject, c.message, now, true, 0, None, false)]
    requires q.notes == p.notes + [Note(|p.t.alerts|, Opened, now)]
    ensures Touched(t, q, rule, seen + {c.subject}, now)
  {
    forall i: nat ensures About(q.notes, i) == About(p.notes, i) + Once(i == |p.t.alerts|, Note(|p.t.alerts|, Opened, now)) {
      AboutNew(p.notes, Note(|p.t.alerts|, Opened, now), i);
    }
    forall i: nat | i < |t.alerts| ensures OldAlert(t, q, rule, seen + {c.subject}, now, i) {
      assert OldAlert(t, p, rule, seen, now, i);
    }
    forall i: nat | |t.alerts| <= i < |q.t.alerts| ensures NewAlert(q, seen + {c.subject}, now, i) {
      if i < |p.t.alerts| {
        assert NewAlert(p, seen, now, i);
      }
    }
  }

  lemma TouchOld(t: Tables, p: Pass, rule: Rule, seen: set<string>, c: Condition, now: int, id: nat, q: Pass)
    requires Touched(t, p, rule, seen, now) && c.subject !in seen && Mature(t.pending, rule, c.subject, now)
    requires FindOpen(p.t.alerts, c.subject) == Some(id)
    requires q.t.alerts == p.t.alerts[id := p.t.alerts[id].(message := c.message)]
    requires q.notes == p.notes + Once(RepeatDue(p.t.alerts[id], rule, now), Note(id, Opened, now))
    ensures Touched(t, q, rule, seen + {c.subject}, now)
  {
    forall i: nat | |t.alerts| <= i < |p.t.alerts| ensures p.t.alerts[i].subject in seen {
      assert NewAlert(p, seen, now, i);
    }
    assert p.t.alerts[id].subject == c.subject;
    assert id < |t.alerts|;
    var again := RepeatDue(p.t.alerts[id], rule, now);
    forall i: nat ensures About(q.notes, i) == About(p.notes, i) + Once(again && i == id, Note(id, Opened, now)) {
      if again {
        AboutNew(p.notes, Note(id, Opened, now), i);
      } else {
        assert q.notes == p.notes;
      }
    }
    forall i: nat | i < |t.alerts| ensures OldAlert(t, q, rule, seen + {c.subject}, now, i) {
      assert OldAlert(t, p, rule, seen, now, i);
      if i != id && t.alerts[i].open {
        assert p.t.alerts[i].subject != c.subject;
      }
    }
    forall i: nat | |t.alerts| <= i < |q.t.alerts| ensures NewAlert(q, seen + {c.subject}, now, i) {
      assert NewAlert(p, seen, now, i);
    }
  }

  lemma TouchNothing(t: Tables, p: Pass, rule: Rule, seen: set<string>, c: Condition, now: int, q: Pass)
    requires Touched(t, p, rule, seen, now) && !Mature(t.pending, rule, c.subject, now)
    requires q.t.alerts == p.t.alerts && q.notes == p.notes
    ensures Touched(t, q, rule, seen + {c.subject}, now)
  {
    forall i: nat | i < |t.alerts| ensures OldAlert(t, q, rule, seen + {c.subject}, now, i) {
      assert OldAlert(t, p, rule, seen, now, i);
    }
    forall i: nat | |t.alerts| <= i < |q.t.alerts| ensures NewAlert(q, seen + {c.subject}, now, i) {
      assert NewAlert(p, seen, now, i);
    }
  }

  lemma {:induction false} TouchAllTouches(t: Tables, rule: Rule, conds: seq<Condition>, now: int)
    requires UniqueOpen(t.alerts) && DistinctSubjects(conds)
    ensures Touched(t, TouchAll(Pass(t, []), rule, conds, now), rule, Subjects(conds), now)
    decreases |conds|
  {
    if conds != [] {
      var init, c := conds[..|conds| - 1], conds[|conds| - 1];
      assert conds == init + [c];
      var p := TouchAll(Pass(t, []), rule, init, now);
      var q := Touch(p, rule, c, now);
      TouchAllTouches(t, rule, init, now);
      TouchAllOpens(Pass(t, []), rule, init, now);
      assert Subjects(conds) == Subjects(init) + {c.subject};
      assert c.subject in p.t.pending <==> c.subject in t.pending || (rule.duration > 0 && c.subject in Subjects(init));
      TouchCases(p, rule, c, now, t.pending);
      var id := FindOpen(p.t.alerts, c.subject);
      if !Mature(t.pending, rule, c.subject, now) {
        TouchNothing(t, p, rule, Subjects(init), c, now, q);
      } else if id.None? {
        TouchNew(t, p, rule, Subjects(init), c, now, q);
      } else {
        TouchOld(t, p, rule, Subjects(init), c, now, id.value, q);
      }
    }
  }

  lemma {:induction false} AboutResolved(alerts: seq<Alert>, subjects: set<string>, now: int, i: nat)
    ensures About(ResolveNotes(alerts, subjects, now), i) == Once(i < |alerts| && Ends(alerts[i], subjects), Note(i, Resolved, now))
    ensures Note(i, Opened, now) !in ResolveNotes(alerts, subjects, now)
  {
    if alerts != [] {
      var last := |alerts| - 1;
      var rest := ResolveNotes(alerts[..last], subjects, now);
      AboutResolved(alerts[..last], subjects, now, i);
      assert ResolveNotes(alerts, subjects, now) == rest + if Ends(alerts[last], subjects) then [Note(last, Resolved, now)] else [];
      if Ends(alerts[last], subjects) {
        AboutNew(rest, Note(last, Resolved, now), i);
      } else {
        assert rest + [] == rest;
      }
    }
  }

  /**
   What one evaluation makes of a stored alert and what it announces about it, when its
   condition `holds` or not and it is due `again` or not.
   */
  ghost predicate Step(a: Alert, b: Alert, i: nat, notes: seq<Note>, holds: bool, again: bool, now: int) {
    && b.openedAt == a.openedAt && b.acked == a.acked && b.subject == a.subject
    && if !a.open then !b.open && b.resolvedAt == a.resolvedAt && notes == []
       else if !holds then !b.open && b.resolvedAt == now && notes == [Note(i, Resolved, now)]
       else b.open && notes == Once(again, Note(i, Opened, now)) && b.notifiedAt == if again then Some(now) else a.notifiedAt
  }

  /** The step of alert i in the evaluation of t that leaves q. */
  ghost predicate Stepped(t: Tables, q: Pass, rule: Rule, subjects: set<string>, now: int, i: nat)
    requires i < |t.alerts| && i < |q.t.alerts|
  {
    var a := t.alerts[i];
    Step(a, q.t.alerts[i], i, About(q.notes, i), a.subject in subjects, Repeats(a, t.pending, rule, subjects, now), now)
  }

  /** An alert the evaluation created. */
  ghost predicate Birth(b: Alert, i: nat, notes: seq<Note>, now: int) {
    b.open && b.openedAt == now && b.notifiedAt == Some(now) && !b.acked && notes == [Note(i, Opened, now)]
  }

  /** What is announced about alert i once the ended ones are resolved: p is the pass before, q after. */
  ghost predicate Announced(p: Pass, q: Pass, subjects: set<string>, now: int, i: nat) {
    && About(q.notes, i) == About(p.notes, i) + Once(i < |p.t.alerts| && Ends(p.t.alerts[i], subjects), Note(i, Resolved, now))
    && (Note(i, Opened, now) in q.notes <==> Note(i, Opened, now) in About(p.notes, i))
  }

  lemma ResolvingAnnounces(p: Pass, q: Pass, subjects: set<string>, now: int, i: nat)
    requires q.notes == p.notes + ResolveNotes(p.t.alerts, subjects, now)
    ensures Announced(p, q, subjects, now, i)
  {
    AboutConcat(p.notes, ResolveNotes(p.t.alerts, subjects, now), i);
    AboutResolved(p.t.alerts, subjects, now, i);
    AboutMember(p.notes, i, Note(i, Opened, now));
  }

  /** An alert after resolving and stamping. */
  ghost predicate Settled(p: Pass, q: Pass, subjects: set<string>, now: int, i: nat)
    requires i < |p.t.alerts| == |q.t.alerts|
  {
    var a := if Ends(p.t.alerts[i], subjects) then p.t.alerts[i].(open := false, resolvedAt := now) else p.t.alerts[i];
    q.t.alerts[i] == if Note(i, Opened, now) in q.notes then a.(notifiedAt := Some(now)) else a
  }

  lemma OldSteps(t: Tables, p: Pass, q: Pass, rule: Rule, subjects: set<string>, now: int, i: nat)
    requires i < |t.alerts| <= |p.t.alerts| == |q.t.alerts| && OldAlert(t, p, rule, subjects, now, i)
    requires Settled(p, q, subjects, now, i) && Announced(p, q, subjects, now, i)
    ensures Stepped(t, q, rule, subjects, now, i)
  {}

  lemma NewIsBorn(p: Pass, q: Pass, subjects: set<string>, now: int, i: nat)
    requires i < |p.t.alerts| == |q.t.alerts| && NewAlert(p, subjects, now, i)
    requires Settled(p, q, subjects, now, i) && Announced(p, q, subjects, now, i)
    ensures Birth(q.t.alerts[i], i, About(q.notes, i), now)
  {}

  lemma SettledOpen(p: Pass, q: Pass, subjects: set<string>, now: int)
    requires |p.t.alerts| == |q.t.alerts| && UniqueOpen(p.t.alerts)
    requires forall i: nat :: i < |p.t.alerts| ==> Settled(p, q, subjects, now, i)
    ensures UniqueOpen(q.t.alerts)
  {
    forall i: nat, j: nat | i < j < |q.t.alerts| && q.t.alerts[i].open && q.t.alerts[j].open
      ensures q.t.alerts[i].subject != q.t.alerts[j].subject
    {
      assert Settled(p, q, subjects, now, i) && Settled(p, q, subjects, now, j);
    }
  }

  lemma EvaluateSettles(p: Pass, q: Pass, subjects: set<string>, now: int)
    requires q.notes == p.notes + ResolveNotes(p.t.alerts, subjects, now)
    requires q.t.alerts == Stamp(Resolve(p.t.alerts, subjects, now), q.notes, now)
    ensures |p.t.alerts| == |q.t.alerts|
    ensures forall i: nat :: i < |p.t.alerts| ==> Settled(p, q, subjects, now, i)
    ensures forall i: nat :: Announced(p, q, subjects, now, i)
  {
    forall i: nat ensures Announced(p, q, subjects, now, i) {
      ResolvingAnnounces(p, q, subjects, now, i);
    }
  }

  lemma EvaluateSteps(t: Tables, rule: Rule, conds: seq<Condition>, now: int)
    requires UniqueOpen(t.alerts) && DistinctSubjects(conds)
    ensures var q := Evaluate(t, rule, conds, now);
      && UniqueOpen(q.t.alerts) && |t.alerts| <= |q.t.alerts|
      && (forall i: nat :: i < |t.alerts| ==> Stepped(t, q, rule, Subjects(conds), now, i))
      && (forall i: nat :: |t.alerts| <= i < |q.t.alerts| ==> Birth(q.t.alerts[i], i, About(q.notes, i), now))
      && (forall i: nat :: |q.t.alerts| <= i ==> About(q.notes, i) == [])
  {
    var p, q, subjects := TouchAll(Pass(t, []), rule, conds, now), Evaluate(t, rule, conds, now), Subjects(conds);
    TouchAllTouches(t, rule, conds, now);
    EvaluateSettles(p, q, subjects, now);
    SettledOpen(p, q, subjects, now);
    forall i: nat | i < |t.alerts| ensures Stepped(t, q, rule, subjects, now, i) {
      OldSteps(t, p, q, rule, subjects, now, i);
    }
    forall i: nat | |t.alerts| <= i < |q.t.alerts| ensures Birth(q.t.alerts[i], i, About(q.notes, i), now) {
      NewIsBorn(p, q, subjects, now, i);
    }
    forall i: nat | |q.t.alerts| <= i ensures About(q.notes, i) == [] {
      assert Announced(p, q, subjects, now, i);
    }
  }

  // ----- the story of an alert

  /**
   Everything announced about an alert: its opening when it was created, repeats only if
   the rule repeats and at least the repeat interval apart, and at its end, and only
   then, one resolution with nothing after it.
   */
  ghost predicate Story(told: seq<Note>, a: Alert, i: nat, rule: Rule) {
    && told != [] && told[0] == Note(i, Opened, a.openedAt)
    && (forall k :: 0 <= k < |told| - 1 ==> told[k].event == Opened)
    && (a.open ==> told[|told| - 1].event == Opened && a.notifiedAt == Some(told[|told| - 1].at))
    && (!a.open ==> told[|told| - 1] == Note(i, Resolved, a.resolvedAt))
    && (forall j, k :: 0 <= j < k < |told| && k == j + 1 && told[k].event == Opened ==>
          rule.repeat > 0 && told[k].at - told[j].at >= rule.repeat * MINUTE)
  }

  ghost predicate Stories(p: Pass, rule: Rule) {
    && UniqueOpen(p.t.alerts)
    && (forall i: nat :: i < |p.t.alerts| ==> Story(About(p.notes, i), p.t.alerts[i], i, rule))
    && (forall i: nat :: |p.t.alerts| <= i ==> About(p.notes, i) == [])
  }

  lemma StoryGoesOn(told: seq<Note>, a: Alert, b: Alert, i: nat, more: seq<Note>, rule: Rule, holds: bool, again: bool, now: int)
    requires Story(told, a, i, rule) && Step(a, b, i, more, holds, again, now)
    requires again ==> RepeatDue(a, rule, now)
    ensures Story(told + more, b, i, rule)
  {
    if more == [] {
      assert told + more == told;
    } else {
      StoryEnds(told, a, b, i, more[0], rule);
      assert more == [more[0]];
    }
  }

  /** One more notification about an open alert: a repeat that is due, or its resolution. */
  lemma StoryEnds(told: seq<Note>, a: Alert, b: Alert, i: nat, n: Note, rule: Rule)
    requires Story(told, a, i, rule) && a.open && b.openedAt == a.openedAt && n.alert == i
    requires n.event == Opened ==> RepeatDue(a, rule, n.at) && b.open && b.notifiedAt == Some(n.at)
    requires n.event == Resolved ==> !b.open && b.resolvedAt == n.at
    ensures Story(told + [n], b, i, rule)
  {
    var all := told + [n];
    assert all[0] == told[0] && all[|told|] == n;
    forall k | 0 <= k < |told| ensures all[k] == told[k] && all[k].event == Opened {}
    forall j, k | 0 <= j < k < |all| && k == j + 1 && all[k].event == Opened
      ensures rule.repeat > 0 && all[k].at - all[j].at >= rule.repeat * MINUTE
    {
      if k < |told| {
        assert told[k].event == Opened && told[j] == all[j];
      } else {
        assert all[j] == told[|told| - 1];
      }
    }
  }

  lemma EvaluateStories(p: Pass, rule: Rule, conds: seq<Condition>, now: int)
    requires Stories(p, rule) && DistinctSubjects(conds)
    ensures var q := Evaluate(p.t, rule, conds, now); Stories(Pass(q.t, p.notes + q.notes), rule)
  {
    var q := Evaluate(p.t, rule, conds, now);
    EvaluateSteps(p.t, rule, conds, now);
    forall i: nat
      ensures i < |q.t.alerts| ==> Story(About(p.notes + q.notes, i), q.t.alerts[i], i, rule)
      ensures |q.t.alerts| <= i ==> About(p.notes + q.notes, i) == []
    {
      AboutConcat(p.notes, q.notes, i);
      if i < |p.t.alerts| {
        var a, subjects := p.t.alerts[i], Subjects(conds);
        assert Stepped(p.t, q, rule, subjects, now, i);
        StoryGoesOn(About(p.notes, i), a, q.t.alerts[i], i, About(q.notes, i), rule, a.subject in subjects,
                    Repeats(a, p.t.pending, rule, subjects, now), now);
      } else if i < |q.t.alerts| {
        assert Birth(q.t.alerts[i], i, About(q.notes, i), now);
        assert About(p.notes, i) + About(q.notes, i) == [Note(i, Opened, now)];
      }
    }
  }

  ghost predicate AllDistinct(ops: seq<Op>) {
    forall i :: 0 <= i < |ops| && ops[i].Check? ==> DistinctSubjects(ops[i].e.conds)
  }

  /** Over any run of evaluations and acknowledgements every alert has exactly its story told. */
  lemma {:induction false} EveryStory(rule: Rule, ops: seq<Op>)
    requires AllDistinct(ops)
    ensures Stories(After(rule, ops), rule)
    decreases |ops|
  {
    if ops != [] {
      var init, op := ops[..|ops| - 1], ops[|ops| - 1];
      EveryStory(rule, init);
      if op.Check? {
        EvaluateStories(After(rule, init), rule, op.e.conds, op.e.now);
      } else {
        var p, q := After(rule, init), After(rule, ops);
        forall i: nat | i < |q.t.alerts| ensures Story(About(q.notes, i), q.t.alerts[i], i, rule) {
          assert Story(About(p.notes, i), p.t.alerts[i], i, rule);
        }
      }
    }
  }

  /** The alert was last announced at `last` and its rule wants it announced again by now. */
  predicate AgainDue(rule: Rule, told: seq<Note>, acked: bool, now: int) {
    told != [] && rule.repeat > 0 && !acked && now - told[|told| - 1].at >= rule.repeat * MINUTE
  }

  lemma StoryRepeats(told: seq<Note>, a: Alert, i: nat, rule: Rule, now: int)
    requires Story(told, a, i, rule) && a.open
    ensures RepeatDue(a, rule, now) <==> AgainDue(rule, told, a.acked, now)
  {}

  /**
   After any run the next evaluation announces an open alert whose condition still holds
   again if and only if the rule repeats, nobody acknowledged it and the interval since it was
   last announced is over.
   */
  lemma RepeatedIffDue(rule: Rule, ops: seq<Op>, e: Evaluation, i: nat)
    requires AllDistinct(ops) && DistinctSubjects(e.conds) && ClockForward(History(ops) + [e])
    requires var a := After(rule, ops).t.alerts; i < |a| && a[i].open && a[i].subject in Subjects(e.conds)
    ensures var p := After(rule, ops);
      About(Evaluate(p.t, rule, e.conds, e.now).notes, i)
      == Once(AgainDue(rule, About(p.notes, i), p.t.alerts[i].acked, e.now), Note(i, Opened, e.now))
  {
    var t := After(rule, ops).t;
    EveryStory(rule, ops);
    StoryRepeats(About(After(rule, ops).notes, i), t.alerts[i], i, rule, e.now);
    ClockPrefix(History(ops), e);
    TablesMirrorHistory(rule, ops);
    OpenIsMature(t, rule, History(ops), e, t.alerts[i].subject, i);
    MatureRepeats(t, rule, e.conds, e.now, i);
  }

  /** Operation k acknowledged alert i while it was open. */
  ghost predicate Acks(rule: Rule, ops: seq<Op>, i: nat, k: nat) {
    && k < |ops| && ops[k] == Acknowledge(i)
    && i < |After(rule, ops[..k]).t.alerts| && After(rule, ops[..k]).t.alerts[i].open
  }

  ghost predicate WasAcked(rule: Rule, ops: seq<Op>, i: nat) {
    exists k: nat :: Acks(rule, ops, i, k)
  }

  lemma AckedNext(rule: Rule, init: seq<Op>, op: Op, i: nat)
    ensures WasAcked(rule, init + [op], i) <==> WasAcked(rule, init, i) || Acks(rule, init + [op], i, |init|)
  {
    var ops := init + [op];
    forall k: nat | k < |init| ensures Acks(rule, ops, i, k) <==> Acks(rule, init, i, k) {
      assert ops[..k] == init[..k];
    }
  }

  /** An alert is flagged as acknowledged exactly when somebody acknowledged it while it was open. */
  lemma {:induction false} AckedIff(rule: Rule, ops: seq<Op>, i: nat)
    requires AllDistinct(ops) && i < |After(rule, ops).t.alerts|
    ensures After(rule, ops).t.alerts[i].acked <==> WasAcked(rule, ops, i)
    decreases |ops|
  {
    assert ops != [];
    var init, op := ops[..|ops| - 1], ops[|ops| - 1];
    assert ops == init + [op];
    var p := After(rule, init);
    AckedNext(rule, init, op, i);
    assert ops[..|init|] == init;
    if i < |p.t.alerts| {
      AckedIff(rule, init, i);
    } else {
      NotAckedYet(rule, init, i);
    }
    if op.Check? {
      EveryStory(rule, init);
      EvaluateSteps(p.t, rule, op.e.conds, op.e.now);
      var q := Evaluate(p.t, rule, op.e.conds, op.e.now);
      if i < |p.t.alerts| {
        assert Stepped(p.t, q, rule, Subjects(op.e.conds), op.e.now, i);
      } else {
        assert Birth(q.t.alerts[i], i, About(q.notes, i), op.e.now);
      }
    }
  }

  /** Alerts never go away. */
  lemma {:induction false} AlertsStay(rule: Rule, ops: seq<Op>, k: nat)
    requires AllDistinct(ops) && k <= |ops|
    ensures |After(rule, ops[..k]).t.alerts| <= |After(rule, ops).t.alerts|
    decreases |ops|
  {
    if k == |ops| {
      assert ops[..k] == ops;
    } else {
      var init, op := ops[..|ops| - 1], ops[|ops| - 1];
      assert init[..k] == ops[..k];
      AlertsStay(rule, init, k);
      EveryStory(rule, init);
      if op.Check? {
        EvaluateSteps(After(rule, init).t, rule, op.e.conds, op.e.now);
      }
    }
  }

  lemma NotAckedYet(rule: Rule, ops: seq<Op>, i: nat)
    requires AllDistinct(ops) && |After(rule, ops).t.alerts| <= i
    ensures !WasAcked(rule, ops, i)
  {
    forall k: nat ensures !Acks(rule, ops, i, k) {
      if k < |ops| {
        AlertsStay(rule, ops, k);
      }
    }
  }

  lemma ClockPrefix(h: seq<Evaluation>, e: Evaluation)
    requires ClockForward(h + [e])
    ensures ClockForward(h)
  {
    forall i, j | 0 <= i < j < |h| ensures h[i].now <= h[j].now {
      assert (h + [e])[i].now <= (h + [e])[j].now;
    }
  }

  lemma MatureRepeats(t: Tables, rule: Rule, conds: seq<Condition>, now: int, i: nat)
    requires UniqueOpen(t.alerts) && DistinctSubjects(conds)
    requires i < |t.alerts| && t.alerts[i].open && t.alerts[i].subject in Subjects(conds)
    requires Mature(t.pending, rule, t.alerts[i].subject, now)
    ensures About(Evaluate(t, rule, conds, now).notes, i) == Once(RepeatDue(t.alerts[i], rule, now), Note(i, Opened, now))
  {
    EvaluateSteps(t, rule, conds, now);
    assert Stepped(t, Evaluate(t, rule, conds, now), rule, Subjects(conds), now, i);
  }

  /** The condition of an open alert has held for the rule's duration. */
  lemma OpenIsMature(t: Tables, rule: Rule, h: seq<Evaluation>, e: Evaluation, s: string, i: nat)
    requires ClockForward(h + [e]) && if h == [] then t == Tables(map[], []) else Mirrors(t, rule, h)
    requires i < |t.alerts| && t.alerts[i].open && t.alerts[i].subject == s
    ensures Mature(t.pending, rule, s, e.now)
  {
    assert IsOpen(t, s);
    assert (h + [e])[|h| - 1].now <= (h + [e])[|h|].now;
    assert s in t.pending <==> rule.duration > 0 && Current(h, s);
  }

  /** After an alert is acknowledged, nothing but its resolution is queued about it. */
  lemma {:induction false} AcknowledgedIsQuiet(rule: Rule, ops: seq<Op>, n: nat, id: nat)
    requires AllDistinct(ops) && n <= |ops|
    requires id < |After(rule, ops[..n]).t.alerts| && After(rule, ops[..n]).t.alerts[id].acked
    ensures var p, q := After(rule, ops[..n]), After(rule, ops);
      && id < |q.t.alerts| && q.t.alerts[id].acked
      && About(q.notes, id) == About(p.notes, id)
         + Once(p.t.alerts[id].open && !q.t.alerts[id].open, Note(id, Resolved, q.t.alerts[id].resolvedAt))
      && (!p.t.alerts[id].open ==> !q.t.alerts[id].open && q.t.alerts[id].resolvedAt == p.t.alerts[id].resolvedAt)
    decreases |ops|
  {
    if n == |ops| {
      assert ops[..n] == ops;
    } else {
      var init := ops[..|ops| - 1];
      assert init[..n] == ops[..n];
      AcknowledgedIsQuiet(rule, init, n, id);
      EveryStory(rule, init);
      AcknowledgedStep(After(rule, init), rule, ops[|ops| - 1], id);
    }
  }

  /** One operation on a table with an acknowledged alert. */
  lemma AcknowledgedStep(p: Pass, rule: Rule, op: Op, id: nat)
    requires UniqueOpen(p.t.alerts) && (op.Check? ==> DistinctSubjects(op.e.conds))
    requires id < |p.t.alerts| && p.t.alerts[id].acked
    ensures var q := Perform(p, rule, op);
      && id < |q.t.alerts| && q.t.alerts[id].acked
      && About(q.notes, id) == About(p.notes, id)
         + Once(p.t.alerts[id].open && !q.t.alerts[id].open, Note(id, Resolved, q.t.alerts[id].resolvedAt))
      && (!p.t.alerts[id].open ==> !q.t.alerts[id].open && q.t.alerts[id].resolvedAt == p.t.alerts[id].resolvedAt)
  {
    if op.Check? {
      var e := Evaluate(p.t, rule, op.e.conds, op.e.now);
      EvaluateSteps(p.t, rule, op.e.conds, op.e.now);
      assert Stepped(p.t, e, rule, Subjects(op.e.conds), op.e.now, id);
      AboutConcat(p.notes, e.notes, id);
    }
  }

  // ----- the text of an alert

  /** Open alerts of the conditions seen so far carry their messages. */
  ghost predicate Messages(p: Pass, pending: map<string, int>, rule: Rule, conds: seq<Condition>, now: int) {
    forall i, k :: 0 <= i < |p.t.alerts| && 0 <= k < |conds| && Mature(pending, rule, conds[k].subject, now) ==>
      p.t.alerts[i].open && p.t.alerts[i].subject == conds[k].subject ==> p.t.alerts[i].message == conds[k].message
  }

  lemma TouchMessage(p: Pass, pending: map<string, int>, rule: Rule, init: seq<Condition>, c: Condition, now: int, q: Pass)
    requires Messages(p, pending, rule, init, now) && UniqueOpen(p.t.alerts) && DistinctSubjects(init + [c]) && q == Touch(p, rule, c, now)
    requires rule.duration > 0 && c.subject in p.t.pending ==> p.t.pending[c.subject] == Since(pending, c.subject, now)
    requires rule.duration > 0 && c.subject !in p.t.pending ==> Since(pending, c.subject, now) == now
    ensures Messages(q, pending, rule, init + [c], now)
  {
    TouchCases(p, rule, c, now, pending);
    var id := FindOpen(p.t.alerts, c.subject);
    assert (init + [c])[|init|] == c;
    assert forall k :: 0 <= k < |init| ==> (init + [c])[k] == init[k] && init[k].subject != c.subject;
  }

  lemma {:induction false} TouchAllMessages(t: Tables, rule: Rule, conds: seq<Condition>, now: int)
    requires UniqueOpen(t.alerts) && DistinctSubjects(conds)
    ensures Messages(TouchAll(Pass(t, []), rule, conds, now), t.pending, rule, conds, now)
    decreases |conds|
  {
    if conds != [] {
      var init, c := conds[..|conds| - 1], conds[|conds| - 1];
      var p := TouchAll(Pass(t, []), rule, init, now);
      TouchAllMessages(t, rule, init, now);
      TouchAllTouches(t, rule, init, now);
      TouchAllOpens(Pass(t, []), rule, init, now);
      assert conds == init + [c];
      assert c.subject in p.t.pending <==> c.subject in t.pending || (rule.duration > 0 && c.subject in Subjects(init));
      TouchMessage(p, t.pending, rule, init, c, now, Touch(p, rule, c, now));
    }
  }

  /** After every evaluation of a run an open alert carries the message its condition had then. */
  lemma MessageIsCurrent(rule: Rule, ops: seq<Op>, e: Evaluation, i: nat, k: nat)
    requires AllDistinct(ops) && DistinctSubjects(e.conds) && ClockForward(History(ops) + [e]) && k < |e.conds|
    requires var a := Evaluate(After(rule, ops).t, rule, e.conds, e.now).t.alerts;
      i < |a| && a[i].open && a[i].subject == e.conds[k].subject
    ensures Evaluate(After(rule, ops).t, rule, e.conds, e.now).t.alerts[i].message == e.conds[k].message
  {
    var t, s := After(rule, ops).t, e.conds[k].subject;
    EveryStory(rule, ops);
    TouchAllMessages(t, rule, e.conds, e.now);
    TouchAllOpens(Pass(t, []), rule, e.conds, e.now);
    var p := TouchAll(Pass(t, []), rule, e.conds, e.now);
    var q := Evaluate(t, rule, e.conds, e.now);
    EvaluateSettles(p, q, Subjects(e.conds), e.now);
    assert Settled(p, q, Subjects(e.conds), e.now, i);
    assert IsOpen(p.t, s);
    if IsOpen(t, s) {
      var j: nat :| j < |t.alerts| && t.alerts[j].open && t.alerts[j].subject == s;
      ClockPrefix(History(ops), e);
      TablesMirrorHistory(rule, ops);
      OpenIsMature(t, rule, History(ops), e, s, j);
    }
  }
}
