/**
 The outstanding codes of the two-factor service: a mutex-guarded map that requests
 insert into, prune and delete from (internal/otp/otp.go, StartChallenge and
 VerifyChallenge). A code stands for its hash. Each event is one locked region.
 */
module Challenges {
  import opened Common

  datatype Challenge = Challenge(user: int, code: string, expires: int, attempts: nat)

  datatype Verdict = Right(user: int) | Wrong | TooMany | Unknown

  datatype Event =
    | Open(state: string, now: int, user: int, code: string, ttl: nat)
    | Guess(state: string, now: int, guess: string)

  function Prune(t: map<string, Challenge>, now: int): map<string, Challenge> {
    map s | s in t && now <= t[s].expires :: t[s]
  }

  function Answer(t: map<string, Challenge>, state: string, now: int, guess: string, max: nat): Verdict {
    if state !in t || now > t[state].expires then Unknown
    else if guess == t[state].code then Right(t[state].user)
    else if t[state].attempts + 1 < max then Wrong
    else TooMany
  }

  function Step(t: map<string, Challenge>, e: Event, max: nat): map<string, Challenge> {
    match e
    case Open(state, now, user, code, ttl) => Prune(t, now)[state := Challenge(user, code, now + ttl, 0)]
    case Guess(state, now, guess) =>
      if Answer(t, state, now, guess, max) == Wrong then t[state := t[state].(attempts := t[state].attempts + 1)]
      else t - {state}
  }

  function After(es: seq<Event>, max: nat): map<string, Challenge> {
    if es == [] then map[] else Step(After(es[..|es| - 1], max), es[|es| - 1], max)
  }

  // ----- the same from the history alone

  /** The last challenge opened for the state. */
  function Opening(es: seq<Event>, state: string): (o: Option<Event>)
    ensures o.Some? ==> o.value.Open? && o.value in es
  {
    if es == [] then None
    else
      var e := es[|es| - 1];
      if e.Open? && e.state == state then Some(e) else Opening(es[..|es| - 1], state)
  }

  /** The guesses since then. */
  function Guesses(es: seq<Event>, state: string): seq<string> {
    if es == [] then []
    else
      var init, e := es[..|es| - 1], es[|es| - 1];
      if e.state != state then Guesses(init, state)
      else if e.Open? then []
      else if Opening(init, state).Some? then Guesses(init, state) + [e.guess]
      else []
  }

  /** A guess is answered from the history: the challenge is still good and the code is or is not its code. */
  ghost predicate Alive(es: seq<Event>, state: string, now: int, max: nat) {
    var o := Opening(es, state);
    && o.Some? && now <= o.value.now + o.value.ttl
    && o.value.code !in Guesses(es, state) && |Guesses(es, state)| < max
  }

  ghost predicate ClockForward(es: seq<Event>) {
    forall i, j :: 0 <= i < j < |es| ==> es[i].now <= es[j].now
  }

  /** What the map holds for a state after the history. */
  ghost predicate Mirrors(t: map<string, Challenge>, es: seq<Event>, state: string, max: nat) {
    var o, gs := Opening(es, state), Guesses(es, state);
    if state in t then
      && o.Some? && t[state] == Challenge(o.value.user, o.value.code, o.value.now + o.value.ttl, |gs|)
      && o.value.code !in gs && |gs| < max
    else
      && (o.None? ==> gs == [])
      && (o.Some? ==> o.value.code in gs || |gs| >= max || es[|es| - 1].now > o.value.now + o.value.ttl)
  }

  lemma OwnEventMirrors(t: map<string, Challenge>, es: seq<Event>, e: Event, max: nat)
    requires Mirrors(t, es, e.state, max) && max > 0 && (es != [] ==> es[|es| - 1].now <= e.now)
    ensures Mirrors(Step(t, e, max), es + [e], e.state, max)
  {
    assert (es + [e])[..|es|] == es;
  }

  lemma OtherEventMirrors(t: map<string, Challenge>, es: seq<Event>, e: Event, state: string, max: nat)
    requires Mirrors(t, es, state, max) && e.state != state && (es != [] ==> es[|es| - 1].now <= e.now)
    ensures Mirrors(Step(t, e, max), es + [e], state, max)
  {
    assert (es + [e])[..|es|] == es;
  }

  lemma {:induction false} MapMirrors(es: seq<Event>, state: string, max: nat)
    requires ClockForward(es) && max > 0
    ensures Mirrors(After(es, max), es, state, max)
    decreases |es|
  {
    if es != [] {
      var init, e := es[..|es| - 1], es[|es| - 1];
      assert es == init + [e];
      MapMirrors(init, state, max);
      assert init != [] ==> es[|init| - 1].now <= es[|init|].now;
      if e.state == state {
        OwnEventMirrors(After(init, max), init, e, max);
      } else {
        OtherEventMirrors(After(init, max), init, e, state, max);
      }
    }
  }

  /**
   A guess is right if and only if it is the code of the last challenge opened for its
   state, in time, after no other right guess and fewer than the permitted wrong ones;
   a good challenge answers a wrong code with another attempt until the last one.
   */
  lemma AnswerIff(es: seq<Event>, state: string, now: int, guess: string, max: nat)
    requires ClockForward(es + [Guess(state, now, guess)]) && max > 0
    ensures var o := Opening(es, state);
      Answer(After(es, max), state, now, guess, max)
      == if !Alive(es, state, now, max) then Unknown
         else if guess == o.value.code then Right(o.value.user)
         else if |Guesses(es, state)| + 1 < max then Wrong
         else TooMany
  {
    var all := es + [Guess(state, now, guess)];
    forall i, j | 0 <= i < j < |es| ensures es[i].now <= es[j].now {
      assert all[i].now <= all[j].now;
    }
    MapMirrors(es, state, max);
    if es != [] {
      assert all[|es| - 1].now <= all[|es|].now;
    }
  }

  ghost predicate NotReopened(more: seq<Event>, state: string) {
    forall i :: 0 <= i < |more| && more[i].state == state ==> !more[i].Open?
  }

  lemma {:induction false} GuessesGrow(es: seq<Event>, more: seq<Event>, state: string)
    requires NotReopened(more, state) && Opening(es, state).Some?
    ensures Opening(es + more, state) == Opening(es, state)
    ensures Guesses(es, state) <= Guesses(es + more, state)
    decreases |more|
  {
    if more == [] {
      assert es + more == es;
    } else {
      var init := more[..|more| - 1];
      GuessesGrow(es, init, state);
      assert (es + more)[..|es + more| - 1] == es + init;
    }
  }

  /** Once a challenge was answered rightly, or wrongly too often, no guess for it is answered again. */
  lemma EndedForGood(es: seq<Event>, g: Event, more: seq<Event>, last: Event, max: nat)
    requires g.Guess? && last.Guess? && g.state == last.state && max > 0
    requires ClockForward(es + [g] + more + [last]) && NotReopened(more, g.state)
    requires var v := Answer(After(es, max), g.state, g.now, g.guess, max); v.Right? || v.TooMany?
    ensures Answer(After(es + [g] + more, max), last.state, last.now, last.guess, max) == Unknown
  {
    var all := es + [g] + more + [last];
    assert forall i :: 0 <= i <= |es| ==> (es + [g])[i] == all[i];
    AnswerIff(es, g.state, g.now, g.guess, max);
    assert (es + [g])[..|es|] == es;
    assert Guesses(es + [g], g.state) == Guesses(es, g.state) + [g.guess];
    GuessesGrow(es + [g], more, g.state);
    var gs := Guesses(es + [g], g.state);
    assert gs[|gs| - 1] == g.guess;
    assert last == Guess(last.state, last.now, last.guess);
    AnswerIff(es + [g] + more, last.state, last.now, last.guess, max);
  }

  // ----- the map as the service updates it

  class Service {
    var challenges: map<string, Challenge>

    /** The locked region of StartChallenge. */
    method Add(state: string, now: int, user: int, code: string, ttl: nat)
      modifies this
      ensures challenges == Prune(old(challenges), now)[state := Challenge(user, code, now + ttl, 0)]
    {
      var keys := challenges.Keys;
      while keys != {}
        invariant forall s :: s in challenges <==> s in old(challenges) && (s in keys || now <= old(challenges)[s].expires)
        invariant forall s :: s in challenges ==> challenges[s] == old(challenges)[s]
        invariant keys <= old(challenges).Keys
        decreases keys
      {
        var k :| k in keys;
        keys := keys - {k};
        if now > challenges[k].expires {
          challenges := challenges - {k};
        }
      }
      challenges := challenges[state := Challenge(user, code, now + ttl, 0)];
    }

    /** The locked regions of VerifyChallenge. */
    method Verify(state: string, now: int, guess: string, max: nat) returns (v: Verdict)
      modifies this
      ensures v == Answer(old(challenges), state, now, guess, max)
      ensures challenges == Step(old(challenges), Guess(state, now, guess), max)
    {
      if state !in challenges || now > challenges[state].expires {
        challenges := challenges - {state};
        return Unknown;
      }
      var c := challenges[state];
      if guess != c.code {
        challenges := challenges[state := c.(attempts := c.attempts + 1)];
        if c.attempts + 1 < max {
          return Wrong;
        }
        challenges := challenges - {state};
        return TooMany;
      }
      challenges := challenges - {state};
      return Right(c.user);
    }
  }
}
