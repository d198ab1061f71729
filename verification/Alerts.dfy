/**
 Reconciling the stored alerts of one rule on one device with the conditions each
 evaluation finds (internal/alerts/alerts.go, apply, notify and Ack). The tables
 alert_pending and alerts are a map and a sequence indexed by alert id.
 */
module Alerts {
  import opened Common

  /** Minutes a condition must hold, and minutes between repeated notifications (0: never). */
  datatype Rule = Rule(duration: nat, repeat: nat)

  datatype Condition = Condition(subject: string, message: string)

  datatype Alert = Alert(
    subject: string, message: string, openedAt: int, open: bool, resolvedAt: int,
    notifiedAt: Option<int>, acked: bool)

  datatype Event = Opened | Resolved

  datatype Note = Note(alert: nat, event: Event, at: int)

  datatype Tables = Tables(pending: map<string, int>, alerts: seq<Alert>)

  /** The tables and the notifications of an evaluation so far. */
  datatype Pass = Pass(t: Tables, notes: seq<Note>)

  function Subjects(conds: seq<Condition>): set<string> {
    set c | c in conds :: c.subject
  }

  /** The open alert for a subject. */
  function FindOpen(alerts: seq<Alert>, subject: string): (id: Option<nat>)
    ensures id.Some? ==> id.value < |alerts| && alerts[id.value].open && alerts[id.value].subject == subject
    ensures id.None? ==> forall i :: 0 <= i < |alerts| ==> !(alerts[i].open && alerts[i].subject == subject)
  {
    if alerts == [] then None
    else if alerts[|alerts| - 1].open && alerts[|alerts| - 1].subject == subject then Some(|alerts| - 1)
    else FindOpen(alerts[..|alerts| - 1], subject)
  }

  /** INSERT INTO alert_pending ... ON CONFLICT keeps the time already stored. */
  function Remember(pending: map<string, int>, subject: string, now: int): map<string, int> {
    if subject in pending then pending else pending[subject := now]
  }

  predicate RepeatDue(a: Alert, rule: Rule, now: int) {
    rule.repeat > 0 && !a.acked && (a.notifiedAt.None? || now - a.notifiedAt.value >= rule.repeat * MINUTE)
  }

  /** One condition that holds now. */
  function Touch(p: Pass, rule: Rule, c: Condition, now: int): Pass {
    var pending := if rule.duration > 0 then Remember(p.t.pending, c.subject, now) else p.t.pending;
    if rule.duration > 0 && now - pending[c.subject] < rule.duration * MINUTE then
      p.(t := Tables(pending, p.t.alerts))
    else
      var id := FindOpen(p.t.alerts, c.subject);
      if id.None? then
        Pass(Tables(pending, p.t.alerts + [Alert(c.subject, c.message, now, true, 0, None, false)]),
             p.notes + [Note(|p.t.alerts|, Opened, now)])
      else
        var a := p.t.alerts[id.value];
        Pass(Tables(pending, p.t.alerts[id.value := a.(message := c.message)]),
             p.notes + if RepeatDue(a, rule, now) then [Note(id.value, Opened, now)] else [])
  }

  function TouchAll(p: Pass, rule: Rule, conds: seq<Condition>, now: int): Pass {
    if conds == [] then p
    else Touch(TouchAll(p, rule, conds[..|conds| - 1], now), rule, conds[|conds| - 1], now)
  }

  predicate Ends(a: Alert, subjects: set<string>) { a.open && a.subject !in subjects }

  /** Conditions that no longer hold. */
  function Resolve(alerts: seq<Alert>, subjects: set<string>, now: int): seq<Alert> {
    seq(|alerts|, i requires 0 <= i < |alerts| =>
      if Ends(alerts[i], subjects) then alerts[i].(open := false, resolvedAt := now) else alerts[i])
  }

  function ResolveNotes(alerts: seq<Alert>, subjects: set<string>, now: int): seq<Note> {
    if alerts == [] then []
    else
      var last := |alerts| - 1;
      ResolveNotes(alerts[..last], subjects, now) + if Ends(alerts[last], subjects) then [Note(last, Resolved, now)] else []
  }

  /** notify records when an alert's opening was last announced. */
  function Stamp(alerts: seq<Alert>, notes: seq<Note>, now: int): seq<Alert> {
    seq(|alerts|, i requires 0 <= i < |alerts| =>
      if Note(i, Opened, now) in notes then alerts[i].(notifiedAt := Some(now)) else alerts[i])
  }

  /** apply: the tables it commits and the notifications it collects. */
  function Applied(t: Tables, rule: Rule, conds: seq<Condition>, now: int): Pass {
    var touched := TouchAll(Pass(t, []), rule, conds, now);
    var subjects := Subjects(conds);
    Pass(Tables(map s | s in touched.t.pending && s in subjects :: touched.t.pending[s],
                Resolve(touched.t.alerts, subjects, now)),
         touched.notes + ResolveNotes(touched.t.alerts, subjects, now))
  }

  /** One evaluation when nothing comes between: apply, then notify. */
  function Evaluate(t: Tables, rule: Rule, conds: seq<Condition>, now: int): Pass {
    var p := Applied(t, rule, conds, now);
    p.(t := Tables(p.t.pending, Stamp(p.t.alerts, p.notes, now)))
  }

  /** Ack changes nothing but the flag of an open alert. */
  function Ack(t: Tables, id: nat): Tables {
    if id < |t.alerts| && t.alerts[id].open then t.(alerts := t.alerts[id := t.alerts[id].(acked := true)]) else t
  }

  // ----- the open alerts as a function of the history

  datatype Evaluation = Evaluation(now: int, conds: seq<Condition>)

  predicate Current(h: seq<Evaluation>, s: string)
    requires h != []
  {
    s in Subjects(h[|h| - 1].conds)
  }

  /** When the unbroken run of evaluations that found s, up to the last one, began. */
  function RunStart(h: seq<Evaluation>, s: string): int
    requires h != []
  {
    var init := h[..|h| - 1];
    if init == [] || !Current(init, s) then h[|h| - 1].now else RunStart(init, s)
  }

  ghost predicate ClockForward(h: seq<Evaluation>) {
    forall i, j :: 0 <= i < j < |h| ==> h[i].now <= h[j].now
  }

  ghost predicate IsOpen(t: Tables, s: string) {
    exists i :: 0 <= i < |t.alerts| && t.alerts[i].open && t.alerts[i].subject == s
  }

  /** What the tables must be after the history h of evaluations: a pure function of h. */
  ghost predicate Mirrors(t: Tables, rule: Rule, h: seq<Evaluation>)
    requires h != []
  {
    && (forall s :: IsOpen(t, s) <==> Current(h, s) && h[|h| - 1].now - RunStart(h, s) >= rule.duration * MINUTE)
    && (forall s :: s in t.pending <==> rule.duration > 0 && Current(h, s))
    && (forall s :: s in t.pending ==> t.pending[s] == RunStart(h, s))
  }

  /** When a condition seen now was first pending. */
  function Since(pending: map<string, int>, s: string, now: int): int {
    if s in pending then pending[s] else now
  }

  /** A condition seen now has held for the rule's duration. */
  predicate Mature(pending: map<string, int>, rule: Rule, s: string, now: int) {
    rule.duration == 0 || now - Since(pending, s, now) >= rule.duration * MINUTE
  }

  lemma FindsOpen(t: Tables, s: string)
    ensures IsOpen(t, s) <==> FindOpen(t.alerts, s).Some?
  {}

  lemma TouchOpens(p: Pass, rule: Rule, c: Condition, now: int, s: string)
    ensures var q := Touch(p, rule, c, now);
      IsOpen(q.t, s) <==> IsOpen(p.t, s) || (s == c.subject && Mature(q.t.pending, rule, s, now))
  {
    var q := Touch(p, rule, c, now);
    FindsOpen(p.t, c.subject);
    if IsOpen(p.t, s) {
      var i :| 0 <= i < |p.t.alerts| && p.t.alerts[i].open && p.t.alerts[i].subject == s;
      assert q.t.alerts[i].open && q.t.alerts[i].subject == s;
    }
    if IsOpen(q.t, s) {
      var i :| 0 <= i < |q.t.alerts| && q.t.alerts[i].open && q.t.alerts[i].subject == s;
      if i < |p.t.alerts| {
        assert p.t.alerts[i].open && p.t.alerts[i].subject == s;
      }
    }
    if s == c.subject && Mature(q.t.pending, rule, s, now) && !IsOpen(p.t, s) {
      assert q.t.alerts[|p.t.alerts|].open && q.t.alerts[|p.t.alerts|].subject == s;
    }
  }

  lemma {:induction false} TouchAllPends(p: Pass, rule: Rule, conds: seq<Condition>, now: int)
    ensures var q := TouchAll(p, rule, conds, now);
      && (forall s :: s in q.t.pending <==> s in p.t.pending || (rule.duration > 0 && s in Subjects(conds)))
      && (forall s :: s in q.t.pending ==> q.t.pending[s] == Since(p.t.pending, s, now))
    decreases |conds|
  {
    if conds != [] {
      var init, last := conds[..|conds| - 1], conds[|conds| - 1];
      TouchAllPends(p, rule, init, now);
      assert conds == init + [last];
      assert Subjects(conds) == Subjects(init) + {last.subject};
    }
  }

  lemma {:induction false} TouchAllOpens(p: Pass, rule: Rule, conds: seq<Condition>, now: int)
    ensures var q := TouchAll(p, rule, conds, now);
      && (forall s :: s in q.t.pending <==> s in p.t.pending || (rule.duration > 0 && s in Subjects(conds)))
      && (forall s :: s in q.t.pending ==> q.t.pending[s] == Since(p.t.pending, s, now))
      && (forall s :: IsOpen(q.t, s) <==> IsOpen(p.t, s) || (s in Subjects(conds) && Mature(p.t.pending, rule, s, now)))
    decreases |conds|
  {
    if conds != [] {
      var init, last := conds[..|conds| - 1], conds[|conds| - 1];
      var q := TouchAll(p, rule, init, now);
      TouchAllPends(p, rule, conds, now);
      TouchAllOpens(p, rule, init, now);
      assert conds == init + [last];
      assert Subjects(conds) == Subjects(init) + {last.subject};
      forall s
        ensures IsOpen(Touch(q, rule, last, now).t, s) <==>
          IsOpen(p.t, s) || (s in Subjects(conds) && Mature(p.t.pending, rule, s, now))
      {
        TouchOpens(q, rule, last, now, s);
        assert s in q.t.pending <==> s in p.t.pending || (rule.duration > 0 && s in Subjects(init));
        assert IsOpen(q.t, s) <==> IsOpen(p.t, s) || (s in Subjects(init) && Mature(p.t.pending, rule, s, now));
      }
    }
  }

  /** Resolving and stamping leave open what was open and still holds. */
  lemma ResolveOpens(p: Tables, q: Tables, subjects: set<string>, notes: seq<Note>, now: int, s: string)
    requires q.alerts == Stamp(Resolve(p.alerts, subjects, now), notes, now)
    ensures IsOpen(q, s) <==> s in subjects && IsOpen(p, s)
  {
    if IsOpen(q, s) {
      var i :| 0 <= i < |q.alerts| && q.alerts[i].open && q.alerts[i].subject == s;
      assert p.alerts[i].open && p.alerts[i].subject == s;
    }
    if IsOpen(p, s) && s in subjects {
      var i :| 0 <= i < |p.alerts| && p.alerts[i].open && p.alerts[i].subject == s;
      assert q.alerts[i].open && q.alerts[i].subject == s;
    }
  }

  lemma EvaluateOpens(t: Tables, rule: Rule, conds: seq<Condition>, now: int, s: string)
    ensures var q := Evaluate(t, rule, conds, now).t;
      && (s in q.pending <==> s in Subjects(conds) && (s in t.pending || rule.duration > 0))
      && (s in q.pending ==> q.pending[s] == Since(t.pending, s, now))
      && (IsOpen(q, s) <==> s in Subjects(conds) && (IsOpen(t, s) || Mature(t.pending, rule, s, now)))
  {
    var p := TouchAll(Pass(t, []), rule, conds, now);
    var q := Evaluate(t, rule, conds, now).t;
    TouchAllOpens(Pass(t, []), rule, conds, now);
    assert s in p.t.pending <==> s in t.pending || (rule.duration > 0 && s in Subjects(conds));
    ResolveOpens(p.t, q, Subjects(conds), Evaluate(t, rule, conds, now).notes, now, s);
    assert IsOpen(p.t, s) <==> IsOpen(t, s) || (s in Subjects(conds) && Mature(t.pending, rule, s, now));
  }

  /** Acknowledging opens, resolves and forgets nothing. */
  lemma AckOpens(t: Tables, id: nat, s: string)
    ensures IsOpen(Ack(t, id), s) <==> IsOpen(t, s)
    ensures Ack(t, id).pending == t.pending
  {
    var q := Ack(t, id);
    if IsOpen(t, s) {
      var i :| 0 <= i < |t.alerts| && t.alerts[i].open && t.alerts[i].subject == s;
      assert q.alerts[i].open && q.alerts[i].subject == s;
    }
    if IsOpen(q, s) {
      var i :| 0 <= i < |q.alerts| && q.alerts[i].open && q.alerts[i].subject == s;
      assert t.alerts[i].open && t.alerts[i].subject == s;
    }
  }

  lemma {:induction false} RunStartEarlier(h: seq<Evaluation>, s: string)
    requires h != [] && ClockForward(h)
    ensures RunStart(h, s) <= h[|h| - 1].now
    decreases |h|
  {
    var init := h[..|h| - 1];
    if init != [] && Current(init, s) {
      RunStartEarlier(init, s);
    }
  }

  /** The tables follow the history from one evaluation to the next. */
  lemma MirrorsNext(t: Tables, rule: Rule, h: seq<Evaluation>, e: Evaluation)
    requires ClockForward(h + [e])
    requires if h == [] then t == Tables(map[], []) else Mirrors(t, rule, h)
    ensures Mirrors(Evaluate(t, rule, e.conds, e.now).t, rule, h + [e])
  {
    var q, h' := Evaluate(t, rule, e.conds, e.now).t, h + [e];
    assert h'[..|h'| - 1] == h;
    forall s
      ensures IsOpen(q, s) <==> Current(h', s) && e.now - RunStart(h', s) >= rule.duration * MINUTE
      ensures s in q.pending <==> rule.duration > 0 && Current(h', s)
      ensures s in q.pending ==> q.pending[s] == RunStart(h', s)
    {
      EvaluateOpens(t, rule, e.conds, e.now, s);
      RunStartEarlier(h', s);
      if h != [] {
        assert IsOpen(t, s) <==> Current(h, s) && h[|h| - 1].now - RunStart(h, s) >= rule.duration * MINUTE;
        assert s in t.pending <==> rule.duration > 0 && Current(h, s);
        assert h'[|h| - 1].now <= h'[|h|].now;
      }
    }
  }

  // ----- whole runs, what is queued counted as announced

  datatype Op = Check(e: Evaluation) | Acknowledge(id: nat)

  /** The evaluations of a run. */
  function History(ops: seq<Op>): seq<Evaluation> {
    if ops == [] then []
    else History(ops[..|ops| - 1]) + if ops[|ops| - 1].Check? then [ops[|ops| - 1].e] else []
  }

  /** The tables and everything announced, after one more operation. */
  function Perform(before: Pass, rule: Rule, op: Op): Pass {
    match op
    case Check(e) =>
      var p := Evaluate(before.t, rule, e.conds, e.now);
      Pass(p.t, before.notes + p.notes)
    case Acknowledge(id) => before.(t := Ack(before.t, id))
  }

  /** The tables and everything announced, after a run. */
  function After(rule: Rule, ops: seq<Op>): Pass {
    if ops == [] then Pass(Tables(map[], []), [])
    else Perform(After(rule, ops[..|ops| - 1]), rule, ops[|ops| - 1])
  }

  /**
   After any run of evaluations and acknowledgements the open alerts are exactly the
   conditions of the last evaluation whose unbroken run began at least the rule's
   duration ago, and the pending table holds when each current run began.
   */
  lemma {:induction false} TablesMirrorHistory(rule: Rule, ops: seq<Op>)
    requires ClockForward(History(ops))
    ensures History(ops) == [] ==> After(rule, ops).t == Tables(map[], [])
    ensures History(ops) != [] ==> Mirrors(After(rule, ops).t, rule, History(ops))
    decreases |ops|
  {
    if ops != [] {
      var init, op := ops[..|ops| - 1], ops[|ops| - 1];
      var h, h' := History(init), History(ops);
      assert forall i :: 0 <= i < |h| ==> h[i] == h'[i];
      TablesMirrorHistory(rule, init);
      if op.Check? {
        MirrorsNext(After(rule, init).t, rule, h, op.e);
      } else {
        assert h == h';
        forall s ensures IsOpen(After(rule, ops).t, s) <==> IsOpen(After(rule, init).t, s) {
          AckOpens(After(rule, init).t, op.id, s);
        }
      }
    }
  }
}
