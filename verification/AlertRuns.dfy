/**
 Runs of the alert service as they happen (internal/alerts/alerts.go): apply commits and
 queues its notifications, notify sends them one by one, and acknowledgements come at any
 time, also in between. The next evaluation begins when the last one has sent all.
 */
module AlertRuns {
  import opened Common
  import opened Alerts
  import opened AlertNotes

  datatype Live = Live(t: Tables, queue: seq<Note>, sent: seq<Note>)

  datatype Move = Apply(e: Evaluation) | Send | Confirm(id: nat)

  /** One notification goes out and, if it is of an opening, its time is stored. */
  function Deliver(alerts: seq<Alert>, n: Note): seq<Alert> {
    if n.event == Opened && n.alert < |alerts|
    then alerts[n.alert := alerts[n.alert].(notifiedAt := Some(n.at))] else alerts
  }

  function Delivered(alerts: seq<Alert>, queue: seq<Note>): (r: seq<Alert>)
    ensures |r| == |alerts|
    decreases |queue|
  {
    if queue == [] then alerts else Delivered(Deliver(alerts, queue[0]), queue[1..])
  }

  predicate Can(s: Live, m: Move) {
    match m
    case Apply(_) => s.queue == []
    case Send => s.queue != []
    case Confirm(_) => true
  }

  function Step(s: Live, rule: Rule, m: Move): Live
    requires Can(s, m)
  {
    match m
    case Apply(e) =>
      var p := Applied(s.t, rule, e.conds, e.now);
      Live(p.t, p.notes, s.sent)
    case Send =>
      Live(s.t.(alerts := Deliver(s.t.alerts, s.queue[0])), s.queue[1..], s.sent + [s.queue[0]])
    case Confirm(id) => s.(t := Ack(s.t, id))
  }

  const FRESH := Live(Tables(map[], []), [], [])

  /** The service after the moves, None when they cannot happen in this order. */
  function Run(rule: Rule, ms: seq<Move>): Option<Live> {
    if ms == [] then Some(FRESH)
    else
      var before, m := Run(rule, ms[..|ms| - 1]), ms[|ms| - 1];
      if before.Some? && Can(before.value, m) then Some(Step(before.value, rule, m)) else None
  }

  ghost predicate Reaches(rule: Rule, ms: seq<Move>, s: Live) { Run(rule, ms) == Some(s) }

  lemma LastMove(rule: Rule, ms: seq<Move>, s: Live) returns (before: Live)
    requires ms != [] && Reaches(rule, ms, s)
    ensures Reaches(rule, ms[..|ms| - 1], before) && Can(before, ms[|ms| - 1]) && s == Step(before, rule, ms[|ms| - 1])
  {
    before := Run(rule, ms[..|ms| - 1]).value;
  }

  // ----- the same run with every notification sent as soon as it is queued

  /** The tables and announcements as if the queue had been sent. */
  function View(s: Live): Pass {
    Pass(Tables(s.t.pending, Delivered(s.t.alerts, s.queue)), s.sent + s.queue)
  }

  /** Evaluations and acknowledgements of a run. */
  function Ops(ms: seq<Move>): seq<Op> {
    if ms == [] then []
    else
      var m := ms[|ms| - 1];
      Ops(ms[..|ms| - 1])
      + match m case Apply(e) => [Check(e)] case Send => [] case Confirm(id) => [Acknowledge(id)]
  }

  lemma {:induction false} DeliveredStamps(alerts: seq<Alert>, queue: seq<Note>, now: int)
    requires forall k :: 0 <= k < |queue| ==> queue[k].at == now
    ensures Delivered(alerts, queue) == Stamp(alerts, queue, now)
    decreases |queue|
  {
    if queue != [] {
      var n, rest := queue[0], queue[1..];
      assert queue == [n] + rest;
      DeliveredStamps(Deliver(alerts, n), rest, now);
    }
  }

  lemma {:induction false} AckDelivered(t: Tables, queue: seq<Note>, id: nat)
    ensures Delivered(Ack(t, id).alerts, queue) == Ack(Tables(t.pending, Delivered(t.alerts, queue)), id).alerts
    decreases |queue|
  {
    if queue != [] {
      var next := Tables(t.pending, Deliver(t.alerts, queue[0]));
      AckDelivered(next, queue[1..], id);
      assert Deliver(Ack(t, id).alerts, queue[0]) == Ack(next, id).alerts;
    }
  }

  lemma {:induction false} ResolveNotesAt(alerts: seq<Alert>, subjects: set<string>, now: int)
    ensures forall k :: 0 <= k < |ResolveNotes(alerts, subjects, now)| ==> ResolveNotes(alerts, subjects, now)[k].at == now
  {
    if alerts != [] {
      ResolveNotesAt(alerts[..|alerts| - 1], subjects, now);
    }
  }

  lemma {:induction false} TouchNotesAt(t: Tables, rule: Rule, conds: seq<Condition>, now: int)
    ensures forall k :: 0 <= k < |TouchAll(Pass(t, []), rule, conds, now).notes| ==>
      TouchAll(Pass(t, []), rule, conds, now).notes[k].at == now
  {
    if conds != [] {
      TouchNotesAt(t, rule, conds[..|conds| - 1], now);
    }
  }

  /** Everything an evaluation queues carries its time. */
  lemma AppliedAt(t: Tables, rule: Rule, conds: seq<Condition>, now: int)
    ensures forall k :: 0 <= k < |Applied(t, rule, conds, now).notes| ==> Applied(t, rule, conds, now).notes[k].at == now
  {
    TouchNotesAt(t, rule, conds, now);
    ResolveNotesAt(TouchAll(Pass(t, []), rule, conds, now).t.alerts, Subjects(conds), now);
  }

  lemma ViewStep(s: Live, rule: Rule, m: Move)
    requires Can(s, m)
    ensures View(Step(s, rule, m)) == match m
      case Apply(e) => Perform(View(s), rule, Check(e))
      case Send => View(s)
      case Confirm(id) => Perform(View(s), rule, Acknowledge(id))
  {
    match m {
      case Apply(e) =>
        AppliedAt(s.t, rule, e.conds, e.now);
        var p := Applied(s.t, rule, e.conds, e.now);
        DeliveredStamps(p.t.alerts, p.notes, e.now);
        assert s.sent + [] == s.sent;
      case Send =>
        assert s.queue == [s.queue[0]] + s.queue[1..];
      case Confirm(id) =>
        AckDelivered(s.t, s.queue, id);
    }
  }

  /** Sending is invisible: a run refines the one that announces at once. */
  lemma {:induction false} Refines(rule: Rule, ms: seq<Move>, s: Live)
    requires Reaches(rule, ms, s)
    ensures View(s) == After(rule, Ops(ms))
    decreases |ms|
  {
    if ms != [] {
      var init, m := ms[..|ms| - 1], ms[|ms| - 1];
      var before := LastMove(rule, ms, s);
      Refines(rule, init, before);
      ViewStep(before, rule, m);
      if m == Send {
        assert Ops(ms) == Ops(init);
      } else {
        assert Ops(ms)[..|Ops(ms)| - 1] == Ops(init);
      }
    }
  }

  // ----- the tables

  lemma {:induction false} DeliveredKeeps(alerts: seq<Alert>, queue: seq<Note>, i: nat)
    requires i < |alerts|
    ensures Delivered(alerts, queue)[i] == alerts[i].(notifiedAt := Delivered(alerts, queue)[i].notifiedAt)
    decreases |queue|
  {
    if queue != [] {
      DeliveredKeeps(Deliver(alerts, queue[0]), queue[1..], i);
    }
  }

  lemma ViewOpens(s: Live, subject: string)
    ensures IsOpen(View(s).t, subject) <==> IsOpen(s.t, subject)
  {
    var a, b := s.t.alerts, View(s).t.alerts;
    forall i: nat | i < |a| ensures b[i].open == a[i].open && b[i].subject == a[i].subject {
      DeliveredKeeps(a, s.queue, i);
    }
    if IsOpen(s.t, subject) {
      var i :| 0 <= i < |a| && a[i].open && a[i].subject == subject;
      assert b[i].open && b[i].subject == subject;
    }
  }

  /** At every moment of a run the tables mirror the evaluations so far, whatever is still queued. */
  lemma LiveTablesMirror(rule: Rule, ms: seq<Move>, s: Live)
    requires Reaches(rule, ms, s) && ClockForward(History(Ops(ms)))
    ensures History(Ops(ms)) == [] ==> s.t == Tables(map[], [])
    ensures History(Ops(ms)) != [] ==> Mirrors(s.t, rule, History(Ops(ms)))
  {
    Refines(rule, ms, s);
    TablesMirrorHistory(rule, Ops(ms));
    forall x ensures IsOpen(View(s).t, x) <==> IsOpen(s.t, x) {
      ViewOpens(s, x);
    }
  }

  // ----- the announcements

  /**
   At every moment of a run what was announced about an alert begins its story, which
   what is queued completes; once all is sent it is the story.
   */
  lemma LiveStories(rule: Rule, ms: seq<Move>, s: Live, i: nat)
    requires Reaches(rule, ms, s) && AllDistinct(Ops(ms))
    ensures i < |s.t.alerts| ==> Story(About(s.sent, i) + About(s.queue, i), View(s).t.alerts[i], i, rule)
    ensures i < |s.t.alerts| && s.queue == [] ==> Story(About(s.sent, i), s.t.alerts[i], i, rule)
    ensures |s.t.alerts| <= i ==> About(s.sent, i) == [] == About(s.queue, i)
  {
    Refines(rule, ms, s);
    EveryStory(rule, Ops(ms));
    AboutConcat(s.sent, s.queue, i);
    if s.queue == [] {
      assert About(s.sent, i) + [] == About(s.sent, i);
    }
  }

  /** An evaluation queues at most one notification about an alert. */
  lemma {:induction false} OneQueued(rule: Rule, ms: seq<Move>, s: Live, i: nat)
    requires Reaches(rule, ms, s) && AllDistinct(Ops(ms))
    ensures |About(s.queue, i)| <= 1
    decreases |ms|
  {
    if ms != [] {
      var init, m := ms[..|ms| - 1], ms[|ms| - 1];
      var before := LastMove(rule, ms, s);
      DistinctInit(init, m, ms);
      OneQueued(rule, init, before, i);
      match m {
        case Apply(e) => OneApplied(rule, init, before, e, i);
        case Send =>
          AboutConcat([before.queue[0]], s.queue, i);
          assert before.queue == [before.queue[0]] + s.queue;
        case Confirm(_) =>
      }
    }
  }

  lemma DistinctInit(init: seq<Move>, m: Move, ms: seq<Move>)
    requires ms == init + [m] && AllDistinct(Ops(ms))
    ensures AllDistinct(Ops(init)) && (m.Apply? ==> DistinctSubjects(m.e.conds))
  {
    assert ms[..|ms| - 1] == init;
    var a, b := Ops(init), Ops(ms);
    assert a <= b;
    forall i | 0 <= i < |a| && a[i].Check? ensures DistinctSubjects(a[i].e.conds) {
      assert b[i] == a[i];
    }
    if m.Apply? {
      assert b[|a|] == Check(m.e);
    }
  }

  lemma OneApplied(rule: Rule, ms: seq<Move>, s: Live, e: Evaluation, i: nat)
    requires Reaches(rule, ms, s) && s.queue == [] && AllDistinct(Ops(ms)) && DistinctSubjects(e.conds)
    ensures |About(Applied(s.t, rule, e.conds, e.now).notes, i)| <= 1
  {
    Refines(rule, ms, s);
    EveryStory(rule, Ops(ms));
    EvaluateSteps(s.t, rule, e.conds, e.now);
    var q := Evaluate(s.t, rule, e.conds, e.now);
    if i < |s.t.alerts| {
      assert Stepped(s.t, q, rule, Subjects(e.conds), e.now, i);
    } else if i < |q.t.alerts| {
      assert Birth(q.t.alerts[i], i, About(q.notes, i), e.now);
    }
  }

  /**
   At any quiet moment the next evaluation queues an open alert whose condition still holds
   again if and only if the rule repeats, nobody acknowledged it and the interval since it was
   last announced is over.
   */
  lemma QueuedIffDue(rule: Rule, ms: seq<Move>, s: Live, e: Evaluation, i: nat)
    requires Reaches(rule, ms, s) && s.queue == []
    requires AllDistinct(Ops(ms)) && DistinctSubjects(e.conds) && ClockForward(History(Ops(ms)) + [e])
    requires i < |s.t.alerts| && s.t.alerts[i].open && s.t.alerts[i].subject in Subjects(e.conds)
    ensures About(Step(s, rule, Apply(e)).queue, i)
         == Once(AgainDue(rule, About(s.sent, i), s.t.alerts[i].acked, e.now), Note(i, Opened, e.now))
  {
    Refines(rule, ms, s);
    RepeatedIffDue(rule, Ops(ms), e, i);
    assert s.sent + [] == s.sent;
  }

  // ----- acknowledgements

  /** A later moment of a run. */
  lemma {:induction false} Earlier(rule: Rule, ms: seq<Move>, n: nat, s: Live) returns (early: Live)
    requires n <= |ms| && Reaches(rule, ms, s)
    ensures Reaches(rule, ms[..n], early) && early.sent <= s.sent && Ops(ms[..n]) <= Ops(ms)
    decreases |ms|
  {
    if n == |ms| {
      assert ms[..n] == ms;
      early := s;
    } else {
      var before := LastMove(rule, ms, s);
      early := Earlier(rule, ms[..|ms| - 1], n, before);
      assert ms[..|ms| - 1][..n] == ms[..n];
    }
  }

  /** The openings among the notifications. */
  function Openings(told: seq<Note>): nat {
    if told == [] then 0 else Openings(told[..|told| - 1]) + if told[|told| - 1].event == Opened then 1 else 0
  }

  lemma {:induction false} OpeningsConcat(a: seq<Note>, b: seq<Note>)
    ensures Openings(a + b) == Openings(a) + Openings(b)
    decreases |b|
  {
    if b == [] {
      assert a + b == a;
    } else {
      OpeningsConcat(a, b[..|b| - 1]);
      assert (a + b)[..|a + b| - 1] == a + b[..|b| - 1];
    }
  }

  lemma AboutGrows(a: seq<Note>, b: seq<Note>, id: nat)
    requires a <= b
    ensures About(a, id) <= About(b, id)
  {
    AboutConcat(a, b[|a|..], id);
    assert b == a + b[|a|..];
  }

  /**
   p and q are an earlier and a later moment of a run, and the alert is acknowledged at the
   earlier one: from then on what was queued about it goes out, and its resolution when its
   condition ends, and nothing else.
   */
  lemma AfterConfirm(rule: Rule, ms: seq<Move>, n: nat, p: Live, q: Live, id: nat)
    requires n <= |ms| && Reaches(rule, ms[..n], p) && Reaches(rule, ms, q) && AllDistinct(Ops(ms))
    requires id < |p.t.alerts| && p.t.alerts[id].acked
    ensures id < |q.t.alerts| && q.t.alerts[id].acked && About(p.sent, id) <= About(q.sent, id)
    ensures About(q.sent, id) + About(q.queue, id) == About(p.sent, id) + About(p.queue, id)
         + Once(p.t.alerts[id].open && !q.t.alerts[id].open, Note(id, Resolved, q.t.alerts[id].resolvedAt))
  {
    var early := Earlier(rule, ms, n, q);
    var ops, k := Ops(ms), |Ops(ms[..n])|;
    assert ops[..k] == Ops(ms[..n]);
    Refines(rule, ms[..n], p);
    Refines(rule, ms, q);
    DeliveredKeeps(p.t.alerts, p.queue, id);
    AcknowledgedIsQuiet(rule, ops, k, id);
    DeliveredKeeps(q.t.alerts, q.queue, id);
    AboutConcat(p.sent, p.queue, id);
    AboutConcat(q.sent, q.queue, id);
    AboutGrows(p.sent, q.sent, id);
  }

  /**
   An acknowledged alert is announced open again if and only if such a notification was
   queued when the acknowledgement came, and then once.
   */
  lemma OpenedAfterConfirm(rule: Rule, ms: seq<Move>, n: nat, p: Live, q: Live, id: nat)
    requires n <= |ms| && Reaches(rule, ms[..n], p) && Reaches(rule, ms, q) && AllDistinct(Ops(ms))
    requires id < |p.t.alerts| && p.t.alerts[id].acked && q.queue == []
    ensures Openings(About(q.sent, id)) == Openings(About(p.sent, id))
         + if exists k :: 0 <= k < |p.queue| && p.queue[k].alert == id && p.queue[k].event == Opened then 1 else 0
  {
    AfterConfirm(rule, ms, n, p, q, id);
    var early := Earlier(rule, ms, n, q);
    DistinctPrefix(Ops(ms[..n]), Ops(ms));
    OneQueued(rule, ms[..n], p, id);
    var end := Once(p.t.alerts[id].open && !q.t.alerts[id].open, Note(id, Resolved, q.t.alerts[id].resolvedAt));
    assert About(q.sent, id) + [] == About(q.sent, id);
    OpeningsConcat(About(p.sent, id) + About(p.queue, id), end);
    OpeningsConcat(About(p.sent, id), About(p.queue, id));
    QueuedOpening(p.queue, id);
  }

  /**
   The same from the request: somebody acknowledges an open alert, and from then on it is announced
   open exactly if such a notification was queued at that moment, and then once.
   */
  lemma ConfirmQuiets(rule: Rule, ms: seq<Move>, n: nat, p: Live, q: Live, id: nat)
    requires n < |ms| && ms[n] == Confirm(id) && Reaches(rule, ms[..n], p) && Reaches(rule, ms, q) && AllDistinct(Ops(ms))
    requires id < |p.t.alerts| && p.t.alerts[id].open && q.queue == []
    ensures Openings(About(q.sent, id)) == Openings(About(p.sent, id))
         + if exists k :: 0 <= k < |p.queue| && p.queue[k].alert == id && p.queue[k].event == Opened then 1 else 0
  {
    var r := Step(p, rule, Confirm(id));
    Goes(rule, ms, n, p, r);
    OpenedAfterConfirm(rule, ms, n + 1, r, q, id);
  }

  lemma DistinctPrefix(a: seq<Op>, b: seq<Op>)
    requires a <= b && AllDistinct(b)
    ensures AllDistinct(a)
  {
    forall i | 0 <= i < |a| && a[i].Check? ensures DistinctSubjects(a[i].e.conds) {
      assert b[i] == a[i];
    }
  }

  lemma QueuedOpening(queue: seq<Note>, id: nat)
    requires |About(queue, id)| <= 1
    ensures Openings(About(queue, id))
         == if exists k :: 0 <= k < |queue| && queue[k].alert == id && queue[k].event == Opened then 1 else 0
  {
    var told := About(queue, id);
    if k :| 0 <= k < |queue| && queue[k].alert == id && queue[k].event == Opened {
      AboutMember(queue, id, queue[k]);
      assert told == [queue[k]];
    } else if told != [] {
      AboutMember(queue, id, told[0]);
      assert told[0] in told;
      assert told == [told[0]];
    }
  }

  /** The run ms goes from its first k moves to its first k + 1. */
  lemma Goes(rule: Rule, ms: seq<Move>, k: nat, s: Live, q: Live)
    requires k < |ms| && Reaches(rule, ms[..k], s) && Can(s, ms[k]) && q == Step(s, rule, ms[k])
    ensures Reaches(rule, ms[..k + 1], q)
  {
    assert ms[..k + 1][..k] == ms[..k];
  }

  /** What is queued can all be sent. */
  lemma {:induction false} AllSent(rule: Rule, ms: seq<Move>, s: Live) returns (ms': seq<Move>, q: Live)
    requires Reaches(rule, ms, s)
    ensures ms <= ms' && (forall k :: |ms| <= k < |ms'| ==> ms'[k] == Send) && Ops(ms') == Ops(ms)
    ensures Reaches(rule, ms', q) && q.queue == []
    decreases |s.queue|
  {
    if s.queue == [] {
      ms', q := ms, s;
    } else {
      var next := ms + [Send];
      assert next[..|ms|] == ms && next[..|ms| + 1] == next;
      Goes(rule, next, |ms|, s, Step(s, rule, Send));
      assert Ops(next) == Ops(ms);
      ms', q := AllSent(rule, next, Step(s, rule, Send));
    }
  }

  /** A due alert is queued by the next evaluation and acknowledged before it is sent. */
  lemma QueuedThenConfirmed(rule: Rule, ms: seq<Move>, s: Live, e: Evaluation, i: nat, two: seq<Move>) returns (s2: Live)
    requires Reaches(rule, ms, s) && s.queue == [] && two == ms + [Apply(e), Confirm(i)]
    requires AllDistinct(Ops(ms)) && DistinctSubjects(e.conds) && ClockForward(History(Ops(ms)) + [e])
    requires i < |s.t.alerts| && s.t.alerts[i].open && s.t.alerts[i].subject in Subjects(e.conds)
    requires AgainDue(rule, About(s.sent, i), s.t.alerts[i].acked, e.now)
    ensures Reaches(rule, two, s2) && i < |s2.t.alerts| && s2.t.alerts[i].acked && s2.sent == s.sent
    ensures Note(i, Opened, e.now) in s2.queue
  {
    var s1 := Step(s, rule, Apply(e));
    s2 := Step(s1, rule, Confirm(i));
    assert two[..|ms|] == ms && two[..|ms| + 2] == two;
    Goes(rule, two, |ms|, s, s1);
    Goes(rule, two, |ms| + 1, s1, s2);
    AppliedStillOpen(rule, ms, s, e, i);
    QueuedIffDue(rule, ms, s, e, i);
    AboutMember(s1.queue, i, Note(i, Opened, e.now));
  }

  /**
   Whenever an alert is due to be announced again, an acknowledgement that comes between
   apply and notify is too late: the repeat still goes out.
   */
  lemma RepeatOvertakesConfirm(rule: Rule, ms: seq<Move>, s: Live, e: Evaluation, i: nat) returns (ms': seq<Move>, q: Live)
    requires Reaches(rule, ms, s) && s.queue == []
    requires AllDistinct(Ops(ms)) && DistinctSubjects(e.conds) && ClockForward(History(Ops(ms)) + [e])
    requires i < |s.t.alerts| && s.t.alerts[i].open && s.t.alerts[i].subject in Subjects(e.conds)
    requires AgainDue(rule, About(s.sent, i), s.t.alerts[i].acked, e.now)
    ensures ms + [Apply(e), Confirm(i)] <= ms' && forall k :: |ms| + 2 <= k < |ms'| ==> ms'[k] == Send
    ensures Reaches(rule, ms', q) && q.queue == [] && i < |q.t.alerts| && q.t.alerts[i].acked
    ensures Openings(About(q.sent, i)) == Openings(About(s.sent, i)) + 1
  {
    var two := ms + [Apply(e), Confirm(i)];
    var s2 := QueuedThenConfirmed(rule, ms, s, e, i, two);
    DistinctTwo(ms, e, i, two);
    ms', q := AllSent(rule, two, s2);
    assert ms'[..|two|] == two;
    AfterConfirm(rule, ms', |two|, s2, q, i);
    OpenedAfterConfirm(rule, ms', |two|, s2, q, i);
  }

  lemma AppliedStillOpen(rule: Rule, ms: seq<Move>, s: Live, e: Evaluation, i: nat)
    requires Reaches(rule, ms, s) && s.queue == [] && AllDistinct(Ops(ms)) && DistinctSubjects(e.conds)
    requires i < |s.t.alerts| && s.t.alerts[i].open && s.t.alerts[i].subject in Subjects(e.conds)
    ensures var a := Applied(s.t, rule, e.conds, e.now).t.alerts; i < |a| && a[i].open
  {
    Refines(rule, ms, s);
    EveryStory(rule, Ops(ms));
    EvaluateSteps(s.t, rule, e.conds, e.now);
    assert Stepped(s.t, Evaluate(s.t, rule, e.conds, e.now), rule, Subjects(e.conds), e.now, i);
  }

  lemma DistinctTwo(ms: seq<Move>, e: Evaluation, i: nat, two: seq<Move>)
    requires two == ms + [Apply(e), Confirm(i)] && AllDistinct(Ops(ms)) && DistinctSubjects(e.conds)
    ensures AllDistinct(Ops(two))
  {
    var one := ms + [Apply(e)];
    assert one[..|ms|] == ms && two[..|two| - 1] == one;
    assert Ops(one) == Ops(ms) + [Check(e)];
    assert Ops(two) == Ops(one) + [Acknowledge(i)];
  }

  /** One condition that holds, without a duration. */
  lemma AppliedOne(t: Tables, rule: Rule, c: Condition, now: int)
    requires rule.duration == 0 && t.pending == map[]
    ensures t.alerts == [] ==>
      Applied(t, rule, [c], now) == Pass(Tables(map[], [Alert(c.subject, c.message, now, true, 0, None, false)]), [Note(0, Opened, now)])
    ensures |t.alerts| == 1 && t.alerts[0].open && t.alerts[0].subject == c.subject && RepeatDue(t.alerts[0], rule, now) ==>
      Applied(t, rule, [c], now) == Pass(Tables(map[], [t.alerts[0].(message := c.message)]), [Note(0, Opened, now)])
  {
    var p := Pass(t, []);
    assert [c][..0] == [];
    assert TouchAll(p, rule, [c], now) == Touch(p, rule, c, now);
    var q := Touch(p, rule, c, now);
    assert c in [c];
    assert c.subject in Subjects([c]);
    if |q.t.alerts| == 1 && q.t.alerts[0].subject == c.subject {
      assert q.t.alerts[..0] == [];
      assert Resolve(q.t.alerts, Subjects([c]), now) == q.t.alerts;
      assert ResolveNotes(q.t.alerts, Subjects([c]), now) == [];
    }
  }

  function Overtaking(c: Condition): seq<Move> {
    [Apply(Evaluation(0, [c])), Send, Apply(Evaluation(MINUTE, [c])), Confirm(0), Send]
  }

  function Minutely(c: Condition, notified: Option<int>, acked: bool): Tables {
    Tables(map[], [Alert(c.subject, c.message, 0, true, 0, notified, acked)])
  }

  lemma FirstEvaluation(c: Condition)
    ensures Reaches(Rule(0, 1), Overtaking(c)[..2], Live(Minutely(c, Some(0), false), [], [Note(0, Opened, 0)]))
  {
    var rule, ms := Rule(0, 1), Overtaking(c);
    AppliedOne(Tables(map[], []), rule, c, 0);
    assert ms[..0] == [];
    var first := Note(0, Opened, 0);
    var s1 := Live(Minutely(c, None, false), [first], []);
    Goes(rule, ms, 0, FRESH, s1);
    Goes(rule, ms, 1, s1, Live(Minutely(c, Some(0), false), [], [first]));
  }

  /** The condition still holds a minute later: the repeat is queued, and acknowledged before it is sent. */
  lemma SecondEvaluation(c: Condition)
    ensures Reaches(Rule(0, 1), Overtaking(c)[..4], Live(Minutely(c, Some(0), true), [Note(0, Opened, MINUTE)], [Note(0, Opened, 0)]))
  {
    var rule, ms := Rule(0, 1), Overtaking(c);
    var first, second := Note(0, Opened, 0), Note(0, Opened, MINUTE);
    FirstEvaluation(c);
    AppliedOne(Minutely(c, Some(0), false), rule, c, MINUTE);
    var s2 := Live(Minutely(c, Some(0), false), [], [first]);
    var s3 := Live(Minutely(c, Some(0), false), [second], [first]);
    Goes(rule, ms, 2, s2, s3);
    Goes(rule, ms, 3, s3, Live(Minutely(c, Some(0), true), [second], [first]));
  }

  /** The shortest case: a rule that repeats every minute and a condition that holds twice. */
  lemma RepeatOvertakesOnce(c: Condition)
    ensures Reaches(Rule(0, 1), Overtaking(c), Live(Minutely(c, Some(MINUTE), true), [], [Note(0, Opened, 0), Note(0, Opened, MINUTE)]))
  {
    var rule, ms := Rule(0, 1), Overtaking(c);
    var first, second := Note(0, Opened, 0), Note(0, Opened, MINUTE);
    SecondEvaluation(c);
    var s4 := Live(Minutely(c, Some(0), true), [second], [first]);
    Goes(rule, ms, 4, s4, Live(Minutely(c, Some(MINUTE), true), [], [first, second]));
    assert ms[..5] == ms;
  }
}
