/**
 The evaluation of one rule on one device as the source runs it: statement by statement
 on the two tables (internal/alerts/alerts.go). Each method is tied to the steps the
 theorems of AlertRuns are about; a call runs undisturbed, in AlertRuns they interleave.
 */
module AlertService {
  import opened Common
  import opened Alerts
  import AlertRuns

  /** Resolving one alert more. */
  lemma ResolveOneMore(alerts: seq<Alert>, i: nat, subjects: set<string>, now: int)
    requires i < |alerts|
    ensures ResolveNotes(alerts[..i + 1], subjects, now)
         == ResolveNotes(alerts[..i], subjects, now) + if Ends(alerts[i], subjects) then [Note(i, Resolved, now)] else []
  {
    assert alerts[..i + 1][..i] == alerts[..i];
  }

  lemma SubjectsOneMore(conds: seq<Condition>, i: nat)
    requires i < |conds|
    ensures Subjects(conds[..i + 1]) == Subjects(conds[..i]) + {conds[i].subject}
    ensures conds[..i + 1][..i] == conds[..i]
  {
    assert conds[..i + 1] == conds[..i] + [conds[i]];
  }

  /** What is announced about a condition does not depend on what was announced before. */
  lemma TouchAdds(p: Pass, rule: Rule, c: Condition, now: int)
    ensures var q := Touch(p.(notes := []), rule, c, now);
      Touch(p, rule, c, now) == q.(notes := p.notes + q.notes)
  {
    assert p.notes + [] == p.notes;
  }

  class Service {
    const rule: Rule
    var pending: map<string, int>
    var alerts: seq<Alert>
    /** What the evaluation in progress has collected and not sent. */
    var queue: seq<Note>
    /** Everything announced so far. */
    var announced: seq<Note>

    function State(): AlertRuns.Live
      reads this
    {
      AlertRuns.Live(Tables(pending, alerts), queue, announced)
    }

    constructor (rule: Rule)
      ensures this.rule == rule && State() == AlertRuns.FRESH
    {
      this.rule := rule;
      pending, alerts, queue, announced := map[], [], [], [];
    }

    /** One condition that holds now: the loop body of apply. */
    method Reconcile(c: Condition, now: int) returns (notes: seq<Note>)
      modifies this`pending, this`alerts
      ensures Touch(Pass(Tables(old(pending), old(alerts)), []), rule, c, now) == Pass(Tables(pending, alerts), notes)
    {
      if rule.duration > 0 {
        if c.subject !in pending {
          pending := pending[c.subject := now];
        }
        if now - pending[c.subject] < rule.duration * MINUTE {
          return [];
        }
      }
      var id := FindOpen(alerts, c.subject);
      if id.None? {
        alerts := alerts + [Alert(c.subject, c.message, now, true, 0, None, false)];
        return [Note(|alerts| - 1, Opened, now)];
      }
      var again := RepeatDue(alerts[id.value], rule, now);
      alerts := alerts[id.value := alerts[id.value].(message := c.message)];
      return if again then [Note(id.value, Opened, now)] else [];
    }

    /** Conditions that no longer hold: the last statements of apply. */
    method ResolveGone(subjects: set<string>, now: int) returns (notes: seq<Note>)
      modifies this`pending, this`alerts
      ensures pending == map s | s in old(pending) && s in subjects :: old(pending)[s]
      ensures alerts == Resolve(old(alerts), subjects, now)
      ensures notes == ResolveNotes(old(alerts), subjects, now)
    {
      ghost var was := alerts;
      pending := map s | s in pending && s in subjects :: pending[s];
      notes := [];
      for i := 0 to |alerts|
        modifies this`alerts
        invariant |alerts| == |was|
        invariant forall k :: 0 <= k < i ==> alerts[k] == Resolve(was, subjects, now)[k]
        invariant forall k :: i <= k < |was| ==> alerts[k] == was[k]
        invariant notes == ResolveNotes(was[..i], subjects, now)
      {
        ResolveOneMore(was, i, subjects, now);
        if alerts[i].open && alerts[i].subject !in subjects {
          alerts := alerts[i := alerts[i].(open := false, resolvedAt := now)];
          notes := notes + [Note(i, Resolved, now)];
        }
      }
      assert was[..|was|] == was;
      assert alerts == Resolve(was, subjects, now);
    }

    /** Opens, updates and resolves alerts; the notifications are queued, not yet sent. */
    method Apply(conds: seq<Condition>, now: int)
      requires queue == []
      modifies this`pending, this`alerts, this`queue
      ensures State() == AlertRuns.Step(old(State()), rule, AlertRuns.Apply(Evaluation(now, conds)))
    {
      ghost var t := Tables(pending, alerts);
      var subjects: set<string> := {};
      var notes: seq<Note> := [];
      for i := 0 to |conds|
        invariant subjects == Subjects(conds[..i])
        invariant Pass(Tables(pending, alerts), notes) == TouchAll(Pass(t, []), rule, conds[..i], now)
      {
        SubjectsOneMore(conds, i);
        ghost var p := Pass(Tables(pending, alerts), notes);
        var more := Reconcile(conds[i], now);
        TouchAdds(p, rule, conds[i], now);
        subjects := subjects + {conds[i].subject};
        notes := notes + more;
      }
      assert conds[..|conds|] == conds;
      var resolved := ResolveGone(subjects, now);
      queue := notes + resolved;
    }

    /** Sends the next notification and records when an alert's opening was last announced. */
    method Send()
      requires queue != []
      modifies this`alerts, this`queue, this`announced
      ensures State() == AlertRuns.Step(old(State()), rule, AlertRuns.Send)
    {
      var n := queue[0];
      queue := queue[1..];
      announced := announced + [n];
      if n.event == Opened && n.alert < |alerts| {
        alerts := alerts[n.alert := alerts[n.alert].(notifiedAt := Some(n.at))];
      }
    }

    /** Sends everything that is queued. */
    method Notify()
      modifies this`alerts, this`queue, this`announced
      ensures alerts == AlertRuns.Delivered(old(alerts), old(queue))
      ensures queue == [] && announced == old(announced) + old(queue)
    {
      while queue != []
        invariant announced + queue == old(announced) + old(queue)
        invariant AlertRuns.Delivered(alerts, queue) == AlertRuns.Delivered(old(alerts), old(queue))
        decreases |queue|
      {
        assert queue == [queue[0]] + queue[1..];
        Send();
      }
    }

    /** One evaluation that nothing comes between. */
    method Check(conds: seq<Condition>, now: int)
      requires queue == []
      modifies this`pending, this`alerts, this`queue, this`announced
      ensures queue == []
      ensures Pass(Tables(pending, alerts), announced)
           == Perform(Pass(Tables(old(pending), old(alerts)), old(announced)), rule, Op.Check(Evaluation(now, conds)))
    {
      ghost var before := State();
      Apply(conds, now);
      AlertRuns.ViewStep(before, rule, AlertRuns.Apply(Evaluation(now, conds)));
      assert before.sent + before.queue == before.sent;
      Notify();
    }

    /** Acknowledges an open alert, or reports that there is none. */
    method Ack(id: nat) returns (found: bool)
      modifies this`alerts
      ensures State() == AlertRuns.Step(old(State()), rule, AlertRuns.Confirm(id))
      ensures found <==> id < |old(alerts)| && old(alerts)[id].open
    {
      found := id < |alerts| && alerts[id].open;
      if found {
        alerts := alerts[id := alerts[id].(acked := true)];
      }
    }
  }
}
