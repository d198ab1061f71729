/**
 When backup policies run (internal/backup/backup.go, Policy.next, ListPolicies, RunDue).
 A cron expression is any schedule whose Next gives the least later slot. A pass reads
 the clock twice: `listed` while the policies are loaded, `now` when they are compared.
 */
module Schedule {
  import opened Common

  datatype Cron = Cron(slot: int -> bool, next: int -> int)

  ghost predicate Lawful(c: Cron) {
    && (forall t :: t < c.next(t) && c.slot(c.next(t)))
    && (forall t, s :: t < s && c.slot(s) ==> c.next(t) <= s)
  }

  datatype Policy = Policy(cron: Cron, enabled: bool, created: int, last: Option<int>)

  /** Slots are searched from here. */
  function From(p: Policy): int {
    if p.last.Some? then p.last.value else p.created
  }

  function NextRun(p: Policy, listed: int): int {
    var n := p.cron.next(From(p));
    if n < listed - DAY then p.cron.next(listed - MINUTE) else n
  }

  predicate Due(p: Policy, listed: int, now: int) {
    p.enabled && NextRun(p, listed) <= now
  }

  ghost predicate SlotIn(c: Cron, after: int, upTo: int) {
    exists s :: after < s <= upTo && c.slot(s)
  }

  lemma NextIn(c: Cron, after: int, upTo: int)
    requires Lawful(c)
    ensures SlotIn(c, after, upTo) <==> c.next(after) <= upTo
  {
    if c.next(after) <= upTo {
      assert after < c.next(after) <= upTo && c.slot(c.next(after));
    }
  }

  /** The instant of the policy's last run, or of its creation if it never ran. */
  predicate LastRan(p: Policy, at: int) { p.last == Some(at) || (p.last.None? && p.created == at) }

  /**
   Exactly when a pass runs a policy: a slot has passed since its last run, or its creation, and
   either the first such slot is not more than a day old or another slot is less than a minute
   old.
   */
  lemma DueIff(p: Policy, at: int, listed: int, now: int)
    requires Lawful(p.cron) && listed <= now && LastRan(p, at)
    ensures Due(p, listed, now) <==>
      && p.enabled && SlotIn(p.cron, at, now)
      && (SlotIn(p.cron, at, listed - DAY - 1) ==> SlotIn(p.cron, listed - MINUTE, now))
  {
    NextIn(p.cron, at, now);
    NextIn(p.cron, at, listed - DAY - 1);
    NextIn(p.cron, listed - MINUTE, now);
  }

  /** While the last run is less than a day back no slot is ever missed. */
  lemma NothingMissedWithinADay(p: Policy, at: int, listed: int, now: int)
    requires Lawful(p.cron) && listed <= now && p.enabled && LastRan(p, at) && listed - DAY <= at + 1
    ensures Due(p, listed, now) <==> SlotIn(p.cron, at, now)
  {
    DueIff(p, at, listed, now);
  }

  /** A run missed for more than a day does not happen at all: midday slots, server back in the evening. */
  lemma MissedRunCanBeSkipped(p: Policy, listed: int)
    requires Lawful(p.cron) && p.enabled && (forall s :: p.cron.slot(s) <==> s % DAY == DAY / 2)
    requires LastRan(p, 0) && listed == 2 * DAY - MINUTE
    ensures SlotIn(p.cron, 0, listed) && !Due(p, listed, listed)
  {
    assert p.cron.slot(DAY / 2);
    assert p.cron.next(0) <= DAY / 2;
    var n := p.cron.next(listed - MINUTE);
    assert p.cron.slot(n);
  }

  // ----- whole runs of one policy

  /**
   A pass lists the policy and, if it is due, runs it later, when other policies have had
   their turn; an administrator may save the policy at any time, also in between.
   */
  datatype Event = Look(listed: int, now: int) | Act | Save(cron: Cron, enabled: bool)

  datatype Firing = Firing(cron: Cron, since: int, slot: int, at: int)

  /** `plan`: what the pass in progress has found and not done. */
  datatype State = State(p: Policy, plan: Option<Firing>)

  function Step(s: State, e: Event): State {
    match e
    case Look(listed, now) =>
      s.(plan := if Due(s.p, listed, now) then Some(Firing(s.p.cron, From(s.p), NextRun(s.p, listed), now)) else None)
    case Act => if s.plan.Some? then State(s.p.(last := Some(s.plan.value.at)), None) else s
    case Save(cron, enabled) => s.(p := s.p.(cron := cron, enabled := enabled))
  }

  function After(p: Policy, es: seq<Event>): State {
    if es == [] then State(p, None) else Step(After(p, es[..|es| - 1]), es[|es| - 1])
  }

  /** The runs of the policy, each with the slot it is for. */
  function Firings(p: Policy, es: seq<Event>): seq<Firing> {
    if es == [] then []
    else
      var before := After(p, es[..|es| - 1]);
      Firings(p, es[..|es| - 1]) + if es[|es| - 1] == Act && before.plan.Some? then [before.plan.value] else []
  }

  ghost predicate AllLawful(p: Policy, es: seq<Event>) {
    Lawful(p.cron) && forall i :: 0 <= i < |es| && es[i].Save? ==> Lawful(es[i].cron)
  }

  ghost predicate OwnSlot(f: Firing) { f.cron.slot(f.slot) && f.since < f.slot <= f.at }

  ghost predicate OwnSlots(fs: seq<Firing>) {
    && (forall k :: 0 <= k < |fs| ==> OwnSlot(fs[k]))
    && (forall j, k :: 0 <= j < k < |fs| && k == j + 1 ==> fs[k].since == fs[j].at)
  }

  lemma {:induction false} AfterLawful(p: Policy, es: seq<Event>)
    requires AllLawful(p, es)
    ensures Lawful(After(p, es).p.cron)
    decreases |es|
  {
    if es != [] {
      AfterLawful(p, es[..|es| - 1]);
    }
  }

  lemma LookFinds(p: Policy, listed: int, now: int)
    requires Lawful(p.cron) && Due(p, listed, now)
    ensures OwnSlot(Firing(p.cron, From(p), NextRun(p, listed), now))
  {}

  /** A run that is planned is for a slot after the last one, whatever was saved since. */
  ghost predicate Planned(s: State) {
    s.plan.Some? ==> OwnSlot(s.plan.value) && s.plan.value.since == From(s.p)
  }

  lemma {:induction false} AfterPlanned(p: Policy, es: seq<Event>)
    requires AllLawful(p, es)
    ensures Planned(After(p, es))
    decreases |es|
  {
    if es != [] {
      var init, e := es[..|es| - 1], es[|es| - 1];
      AfterPlanned(p, init);
      if e.Look? && Due(After(p, init).p, e.listed, e.now) {
        AfterLawful(p, init);
        LookFinds(After(p, init).p, e.listed, e.now);
      }
    }
  }

  /** The runs fs took the policy's search for slots from one instant to another. */
  ghost predicate Told(fs: seq<Firing>, start: int, end: int) {
    OwnSlots(fs) && (fs != [] ==> fs[0].since == start) && end == if fs == [] then start else fs[|fs| - 1].at
  }

  lemma OneMore(fs: seq<Firing>, f: Firing, start: int)
    requires Told(fs, start, f.since) && OwnSlot(f)
    ensures Told(fs + [f], start, f.at)
  {}

  lemma {:induction false} AfterFirings(p: Policy, es: seq<Event>)
    requires AllLawful(p, es)
    ensures Told(Firings(p, es), From(p), From(After(p, es).p))
    decreases |es|
  {
    if es != [] {
      var init := es[..|es| - 1];
      AfterFirings(p, init);
      AfterPlanned(p, init);
      NextFiring(p, es, init, es[|es| - 1], After(p, init), Firings(p, init));
    }
  }

  lemma NextFiring(p: Policy, es: seq<Event>, init: seq<Event>, e: Event, before: State, fs: seq<Firing>)
    requires es == init + [e] && before == After(p, init) && fs == Firings(p, init)
    requires Planned(before) && Told(fs, From(p), From(before.p))
    ensures Told(Firings(p, es), From(p), From(After(p, es).p))
  {
    assert es[..|es| - 1] == init;
    if e == Act && before.plan.Some? {
      OneMore(fs, before.plan.value, From(p));
    } else {
      assert Firings(p, es) == fs;
    }
  }

  lemma {:induction false} Ordered(fs: seq<Firing>, j: nat, k: nat)
    requires OwnSlots(fs) && j < k < |fs|
    ensures fs[j].slot <= fs[j].at < fs[k].slot
    decreases k
  {
    assert OwnSlot(fs[j]) && OwnSlot(fs[k]);
    if j < k - 1 {
      Ordered(fs, j, k - 1);
      assert OwnSlot(fs[k - 1]);
    }
  }

  /**
   Whatever the clock does and however the policy is edited, every run has its own slot
   of the schedule it was listed with, after the run before it: no slot runs twice.
   */
  lemma NoSlotTwice(p: Policy, es: seq<Event>, j: nat, k: nat)
    requires AllLawful(p, es) && j < k < |Firings(p, es)|
    ensures var fs := Firings(p, es);
      && fs[j].cron.slot(fs[j].slot) && fs[k].cron.slot(fs[k].slot)
      && fs[j].slot <= fs[j].at < fs[k].slot <= fs[k].at
  {
    AfterFirings(p, es);
    assert OwnSlot(Firings(p, es)[j]) && OwnSlot(Firings(p, es)[k]);
    Ordered(Firings(p, es), j, k);
  }

  /** The first run is for a slot after the policy's last one, or after its creation. */
  lemma FirstSlot(p: Policy, at: int, es: seq<Event>)
    requires AllLawful(p, es) && LastRan(p, at) && Firings(p, es) != []
    ensures at < Firings(p, es)[0].slot <= Firings(p, es)[0].at
  {
    AfterFirings(p, es);
    assert OwnSlot(Firings(p, es)[0]);
  }

  /** A pass over a policy runs it if it is due, and not otherwise. */
  lemma PassRunsIfDue(p: Policy, es: seq<Event>, listed: int, now: int)
    ensures var f, g := Firings(p, es), Firings(p, es + [Look(listed, now), Act]);
      if Due(After(p, es).p, listed, now) then |g| == |f| + 1 && g[..|f|] == f && g[|f|].at == now else g == f
    ensures After(p, es + [Look(listed, now), Act]).p
         == After(p, es).p.(last := if Due(After(p, es).p, listed, now) then Some(now) else After(p, es).p.last)
  {
    var one, two := es + [Look(listed, now)], es + [Look(listed, now), Act];
    assert one[..|es|] == es && two[..|es| + 1] == one;
    assert Firings(p, one) == Firings(p, es);
  }

  /** Some pass read this time. */
  ghost predicate Looked(es: seq<Event>, at: int) {
    exists i :: 0 <= i < |es| && es[i].Look? && es[i].now == at
  }

  lemma LookedLater(es: seq<Event>, e: Event, at: int)
    requires Looked(es, at)
    ensures Looked(es + [e], at)
  {
    var i :| 0 <= i < |es| && es[i].Look? && es[i].now == at;
    assert (es + [e])[i] == es[i];
  }

  lemma {:induction false} PlanIsFromALook(p: Policy, es: seq<Event>)
    ensures After(p, es).plan.Some? ==> Looked(es, After(p, es).plan.value.at)
    decreases |es|
  {
    if es != [] {
      var init, e := es[..|es| - 1], es[|es| - 1];
      assert es == init + [e];
      PlanIsFromALook(p, init);
      if e.Look? {
        assert es[|init|] == e;
      } else if After(p, es).plan.Some? {
        LookedLater(init, e, After(p, es).plan.value.at);
      }
    }
  }

  lemma {:induction false} FiresAtAPass(p: Policy, es: seq<Event>, k: nat)
    requires k < |Firings(p, es)|
    ensures Looked(es, Firings(p, es)[k].at)
    decreases |es|
  {
    var init, e := es[..|es| - 1], es[|es| - 1];
    assert es == init + [e];
    if k < |Firings(p, init)| {
      FiresAtAPass(p, init, k);
    } else {
      PlanIsFromALook(p, init);
    }
    LookedLater(init, e, Firings(p, es)[k].at);
  }

  /** However many slots fall into a time without passes, at most one run is for any of them. */
  lemma OneCatchUp(p: Policy, es: seq<Event>, down: int, up: int, j: nat, k: nat)
    requires AllLawful(p, es) && j < k < |Firings(p, es)|
    requires forall i :: 0 <= i < |es| && es[i].Look? ==> es[i].now <= down || up <= es[i].now
    ensures var fs := Firings(p, es); !(down < fs[j].slot <= up && down < fs[k].slot <= up)
  {
    NoSlotTwice(p, es, j, k);
    FiresAtAPass(p, es, j);
  }

  /** The table of policies as RunDue updates it. */
  class Scheduler {
    var policies: seq<Policy>

    /** The loop of RunDue over the policies as they were listed, in order of id. */
    method RunDue(list: seq<Policy>, listed: int, now: int) returns (ran: set<nat>)
      requires |list| == |policies|
      modifies this
      ensures |policies| == |old(policies)|
      ensures forall i :: 0 <= i < |policies| ==>
        policies[i] == if Due(list[i], listed, now) then old(policies)[i].(last := Some(now)) else old(policies)[i]
      ensures forall i: nat :: i in ran <==> i < |policies| && Due(list[i], listed, now)
    {
      ran := {};
      for i := 0 to |list|
        invariant |policies| == |old(policies)|
        invariant forall j :: 0 <= j < i ==>
          policies[j] == if Due(list[j], listed, now) then old(policies)[j].(last := Some(now)) else old(policies)[j]
        invariant forall j :: i <= j < |policies| ==> policies[j] == old(policies)[j]
        invariant forall j: nat :: j in ran <==> j < i && Due(list[j], listed, now)
      {
        if !list[i].enabled || NextRun(list[i], listed) > now {
          continue;
        }
        policies := policies[i := policies[i].(last := Some(now))];
        ran := ran + {i};
      }
    }
  }
}
