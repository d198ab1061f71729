/**
 The limit on codes sent to one mobile (internal/otp/otp.go StartChallenge,
 internal/smtpgw/smtpgw.go deliver, internal/sms/sms.go SentSince). A sender counts the
 messages of the last ten minutes and sends later: between the two it is in flight, and
 nothing keeps others out. All times are of one clock that does not go back.
 */
module Sms {
  import opened Common

  const WINDOW: int := 10 * MINUTE

  /** A sent message; test messages of administrators are counted but not limited. */
  datatype Message = Message(at: int, limited: bool)

  datatype State = State(clock: int, sent: seq<Message>, inFlight: nat)

  /**
   A sender found fewer than `max` messages and goes on, or was refused; the message of
   one in flight was sent, or failed; an unlimited message was sent.
   */
  datatype Event = Check(now: int, max: nat) | Sent(now: int) | Failed(now: int) | Test(now: int)

  /** SentSince. */
  function Since(sent: seq<Message>, t: int): nat {
    if sent == [] then 0
    else Since(sent[..|sent| - 1], t) + if sent[|sent| - 1].at >= t then 1 else 0
  }

  /** The limited messages of a closed interval. */
  function Between(sent: seq<Message>, lo: int, hi: int): nat {
    if sent == [] then 0
    else
      var m := sent[|sent| - 1];
      Between(sent[..|sent| - 1], lo, hi) + if m.limited && lo <= m.at <= hi then 1 else 0
  }

  /** The limited messages of the closed ten minutes from x on. */
  function TenMinutes(sent: seq<Message>, x: int): nat { Between(sent, x, x + 10 * MINUTE) }

  function Step(s: State, e: Event): State {
    match e
    case Check(now, max) =>
      State(now, s.sent, if Since(s.sent, now - WINDOW) < max then s.inFlight + 1 else s.inFlight)
    case Sent(now) => State(now, s.sent + [Message(now, true)], if s.inFlight > 0 then s.inFlight - 1 else 0)
    case Failed(now) => State(now, s.sent, if s.inFlight > 0 then s.inFlight - 1 else 0)
    case Test(now) => State(now, s.sent + [Message(now, false)], s.inFlight)
  }

  /** The places of the messages of the last ten minutes. */
  function Recent(sent: seq<Message>, now: int): set<nat> {
    set i: nat | i < |sent| && sent[i].at >= now - 10 * MINUTE
  }

  lemma {:induction false} SinceCounts(sent: seq<Message>, now: int)
    ensures Since(sent, now - WINDOW) == |Recent(sent, now)|
  {
    if sent != [] {
      var init := sent[..|sent| - 1];
      SinceCounts(init, now);
      assert Recent(sent, now) == Recent(init, now) + if sent[|sent| - 1].at >= now - 10 * MINUTE then {|sent| - 1} else {};
    }
  }

  /** A sender is let through if and only if fewer messages than the limit were sent in the last ten minutes. */
  lemma LetThroughIff(s: State, now: int, max: nat)
    ensures Step(s, Check(now, max)) == s.(clock := now, inFlight := s.inFlight + if |Recent(s.sent, now)| < max then 1 else 0)
  {
    SinceCounts(s.sent, now);
  }

  /** Time goes forward, only a sender in flight ends, no more than k are in flight, limits are at most max. */
  predicate Allowed(s: State, e: Event, max: nat, k: nat) {
    && s.clock <= e.now
    && (e.Sent? || e.Failed? ==> s.inFlight > 0)
    && (e.Check? ==> e.max <= max && Step(s, e).inFlight <= k)
  }

  function After(start: int, es: seq<Event>): State {
    if es == [] then State(start, [], 0) else Step(After(start, es[..|es| - 1]), es[|es| - 1])
  }

  predicate Run(start: int, es: seq<Event>, max: nat, k: nat) {
    es == [] || (Run(start, es[..|es| - 1], max, k) && Allowed(After(start, es[..|es| - 1]), es[|es| - 1], max, k))
  }

  ghost predicate Inv(s: State, bound: nat) {
    && (forall i :: 0 <= i < |s.sent| ==> s.sent[i].at <= s.clock)
    && (s.inFlight > 0 ==> Between(s.sent, s.clock - WINDOW, s.clock) + s.inFlight <= bound)
    && (forall x :: TenMinutes(s.sent, x) <= bound)
  }

  /** A wider interval holds more; up to now a closed interval is what SentSince counts, or less. */
  lemma {:induction false} Wider(sent: seq<Message>, lo: int, hi: int, lo': int, hi': int)
    requires lo' <= lo && (hi <= hi' || forall i :: 0 <= i < |sent| ==> sent[i].at <= hi')
    ensures Between(sent, lo, hi) <= Between(sent, lo', hi') <= Since(sent, lo')
  {
    if sent != [] {
      var init := sent[..|sent| - 1];
      assert forall i :: 0 <= i < |init| ==> init[i] == sent[i];
      Wider(init, lo, hi, lo', hi');
    }
  }

  lemma Append(sent: seq<Message>, m: Message, lo: int, hi: int)
    ensures Between(sent + [m], lo, hi) == Between(sent, lo, hi) + if m.limited && lo <= m.at <= hi then 1 else 0
  {
    assert (sent + [m])[..|sent|] == sent;
  }

  lemma SentKeeps(sent: seq<Message>, clock: int, m: Message, n: nat, bound: nat, x: int)
    requires clock <= m.at && (forall i :: 0 <= i < |sent| ==> sent[i].at <= clock)
    requires m.limited ==> Between(sent, clock - WINDOW, clock) + n <= bound && n > 0
    requires TenMinutes(sent, x) <= bound
    ensures TenMinutes(sent + [m], x) <= bound
  {
    Append(sent, m, x, x + WINDOW);
    if x <= m.at <= x + WINDOW {
      Wider(sent, x, x + WINDOW, clock - WINDOW, clock);
    }
  }

  lemma FlightKeeps(s: State, e: Event, max: nat, k: nat, q: State)
    requires k > 0 && max > 0 && Inv(s, max + k - 1) && Allowed(s, e, max, k) && q == Step(s, e)
    ensures q.inFlight > 0 ==> Between(q.sent, q.clock - WINDOW, q.clock) + q.inFlight <= max + k - 1
  {
    Wider(s.sent, e.now - WINDOW, e.now, s.clock - WINDOW, s.clock);
    if e.Check? {
      Wider(s.sent, e.now - WINDOW, e.now, e.now - WINDOW, e.now);
    } else if !e.Failed? {
      Append(s.sent, Message(e.now, e.Sent?), e.now - WINDOW, e.now);
    }
  }

  lemma StepKeeps(s: State, e: Event, max: nat, k: nat)
    requires k > 0 && max > 0 && Inv(s, max + k - 1) && Allowed(s, e, max, k)
    ensures Inv(Step(s, e), max + k - 1)
  {
    var q := Step(s, e);
    FlightKeeps(s, e, max, k, q);
    forall x ensures TenMinutes(q.sent, x) <= max + k - 1 {
      assert TenMinutes(s.sent, x) <= max + k - 1;
      if e.Sent? || e.Test? {
        SentKeeps(s.sent, s.clock, Message(e.now, e.Sent?), s.inFlight, max + k - 1, x);
      }
    }
  }

  lemma {:induction false} RunInv(start: int, es: seq<Event>, max: nat, k: nat)
    requires Run(start, es, max, k) && k > 0 && max > 0
    ensures Inv(After(start, es), max + k - 1)
    decreases |es|
  {
    if es != [] {
      RunInv(start, es[..|es| - 1], max, k);
      StepKeeps(After(start, es[..|es| - 1]), es[|es| - 1], max, k);
    }
  }

  /**
   Over any run, no closed ten minutes hold more limited messages than the limit plus
   the senders that can be in flight beside the one that sends.
   */
  lemma AtMost(start: int, es: seq<Event>, max: nat, k: nat, x: int)
    requires Run(start, es, max, k) && k > 0 && max > 0
    ensures TenMinutes(After(start, es).sent, x) <= max + k - 1
  {
    RunInv(start, es, max, k);
    assert TenMinutes(After(start, es).sent, x) <= max + k - 1;
  }

  /** When check and send are one step, the limit itself is never exceeded. */
  lemma AtMostMaxSends(start: int, es: seq<Event>, max: nat, x: int)
    requires Run(start, es, max, 1) && max > 0
    ensures TenMinutes(After(start, es).sent, x) <= max
  {
    AtMost(start, es, max, 1, x);
  }

  /** Senders let through so far, and senders that have sent or failed. */
  function LetThrough(start: int, es: seq<Event>): nat {
    if es == [] then 0
    else
      var init, e := es[..|es| - 1], es[|es| - 1];
      LetThrough(start, init) + if e.Check? && |Recent(After(start, init).sent, e.now)| < e.max then 1 else 0
  }

  function Ended(es: seq<Event>): nat {
    if es == [] then 0 else Ended(es[..|es| - 1]) + if es[|es| - 1].Sent? || es[|es| - 1].Failed? then 1 else 0
  }

  /** In flight are those that were let through and have not ended. */
  lemma {:induction false} InFlightIs(start: int, es: seq<Event>, max: nat, k: nat)
    requires Run(start, es, max, k)
    ensures After(start, es).inFlight == LetThrough(start, es) - Ended(es)
    decreases |es|
  {
    if es != [] {
      InFlightIs(start, es[..|es| - 1], max, k);
      if es[|es| - 1].Check? {
        LetThroughIff(After(start, es[..|es| - 1]), es[|es| - 1].now, es[|es| - 1].max);
      }
    }
  }

  // ----- the bound is reached

  /** A run at one instant that has sent n messages and left f senders in flight. */
  ghost predicate Leaves(es: seq<Event>, max: nat, k: nat, n: nat, f: nat) {
    && Run(0, es, max, k) && After(0, es).clock == 0 && After(0, es).inFlight == f
    && |After(0, es).sent| == n && forall i :: 0 <= i < n ==> After(0, es).sent[i] == Message(0, true)
  }

  lemma {:induction false} AllCount(sent: seq<Message>, x: int)
    requires x <= 0 <= x + WINDOW && forall i :: 0 <= i < |sent| ==> sent[i] == Message(0, true)
    ensures Since(sent, x) == |sent| && Between(sent, x, x + WINDOW) == |sent|
  {
    if sent != [] {
      AllCount(sent[..|sent| - 1], x);
    }
  }

  lemma OneMore(es: seq<Event>, e: Event, max: nat, k: nat)
    requires Run(0, es, max, k) && Allowed(After(0, es), e, max, k)
    ensures Run(0, es + [e], max, k) && After(0, es + [e]) == Step(After(0, es), e)
  {
    assert (es + [e])[..|es|] == es;
  }

  lemma Looks(es: seq<Event>, max: nat, k: nat, n: nat, f: nat)
    requires Leaves(es, max, k, n, f) && n < max && f < k
    ensures Leaves(es + [Check(0, max)], max, k, n, f + 1)
  {
    AllCount(After(0, es).sent, -WINDOW);
    OneMore(es, Check(0, max), max, k);
  }

  lemma Sends(es: seq<Event>, max: nat, k: nat, n: nat, f: nat)
    requires Leaves(es, max, k, n, f) && f > 0
    ensures Leaves(es + [Sent(0)], max, k, n + 1, f - 1)
  {
    OneMore(es, Sent(0), max, k);
  }

  /** One sender after another. */
  lemma {:induction false} OneByOne(max: nat, k: nat, n: nat) returns (es: seq<Event>)
    requires n <= max && k > 0
    ensures Leaves(es, max, k, n, 0)
  {
    if n == 0 {
      es := [];
    } else {
      es := OneByOne(max, k, n - 1);
      Looks(es, max, k, n - 1, 0);
      es := es + [Check(0, max)];
      Sends(es, max, k, n - 1, 1);
      es := es + [Sent(0)];
    }
  }

  /** The limit but one, and then f senders look before any of them sends. */
  lemma {:induction false} AllLook(max: nat, k: nat, f: nat) returns (es: seq<Event>)
    requires max > 0 && k > 0 && f <= k
    ensures Leaves(es, max, k, max - 1, f)
  {
    if f == 0 {
      es := OneByOne(max, k, max - 1);
    } else {
      es := AllLook(max, k, f - 1);
      Looks(es, max, k, max - 1, f - 1);
      es := es + [Check(0, max)];
    }
  }

  /** Then n of the k senders send. */
  lemma {:induction false} AllSend(max: nat, k: nat, n: nat) returns (es: seq<Event>)
    requires max > 0 && k > 0 && n <= k
    ensures Leaves(es, max, k, max - 1 + n, k - n)
  {
    if n == 0 {
      es := AllLook(max, k, k);
    } else {
      es := AllSend(max, k, n - 1);
      Sends(es, max, k, max - 1 + n - 1, k - n + 1);
      es := es + [Sent(0)];
    }
  }

  /** With k senders at once the limit is exceeded by k - 1: the bound cannot be lower. */
  lemma AtMostIsReached(max: nat, k: nat)
    requires max > 0 && k > 0
    ensures exists es :: Run(0, es, max, k) && TenMinutes(After(0, es).sent, 0) == max + k - 1
  {
    var es := AllSend(max, k, k);
    AllCount(After(0, es).sent, 0);
    assert TenMinutes(After(0, es).sent, 0) == max + k - 1;
  }
}
