/**
 Which stored backups of one device are removed (internal/backup/backup.go, covers,
 specificity, applyRetention, remove). Rows are listed newest first.
 */
module Retention {
  import opened Common

  const FETCHED: nat := 1000

  datatype Policy = Policy(enabled: bool, device: Option<int>, group: Option<int>, keepCount: nat, keepDays: nat)

  datatype Backup = Backup(id: int, at: int, ok: bool, locked: bool)

  predicate Covers(p: Policy, d: Device) {
    if p.device.Some? then p.device.value == d.id
    else if p.group.Some? then d.group == p.group
    else true
  }

  function Specificity(p: Policy): nat {
    if p.device.Some? then 2 else if p.group.Some? then 1 else 0
  }

  predicate Applies(p: Policy, d: Device) { p.enabled && Covers(p, d) }

  /** The first of the most specific enabled policies that cover the device. */
  ghost predicate Chosen(policies: seq<Policy>, d: Device, i: nat)
    requires i < |policies|
  {
    && Applies(policies[i], d)
    && (forall j :: 0 <= j < |policies| && Applies(policies[j], d) ==> Specificity(policies[j]) <= Specificity(policies[i]))
    && (forall j :: 0 <= j < i && Applies(policies[j], d) ==> Specificity(policies[j]) < Specificity(policies[i]))
  }

  method Choose(policies: seq<Policy>, d: Device) returns (rule: Option<Policy>)
    ensures rule.None? ==> forall i :: 0 <= i < |policies| ==> !Applies(policies[i], d)
    ensures rule.Some? ==> exists i: nat :: i < |policies| && Chosen(policies, d, i) && policies[i] == rule.value
  {
    rule := None;
    ghost var at: nat := 0;
    for i := 0 to |policies|
      invariant rule.None? ==> forall j :: 0 <= j < i ==> !Applies(policies[j], d)
      invariant rule.Some? ==> at < i && Chosen(policies[..i], d, at) && policies[at] == rule.value
    {
      var p := policies[i];
      if p.enabled && Covers(p, d) && (rule.None? || Specificity(p) > Specificity(rule.value)) {
        rule := Some(p);
        at := i;
      }
    }
    assert policies[..|policies|] == policies;
  }

  /** The policy names the device, or its group, or neither a device nor a group. */
  predicate ForDevice(p: Policy, d: Device) { p.enabled && p.device == Some(d.id) }

  predicate ForGroup(p: Policy, d: Device) { p.enabled && p.device.None? && p.group.Some? && p.group == d.group }

  predicate ForAll(p: Policy) { p.enabled && p.device.None? && p.group.None? }

  /** policies[i] is the first policy of its kind. */
  ghost predicate FirstOf(policies: seq<Policy>, i: nat, kind: Policy -> bool) {
    i < |policies| && kind(policies[i]) && forall j :: 0 <= j < i ==> !kind(policies[j])
  }

  ghost predicate AnyOf(policies: seq<Policy>, kind: Policy -> bool) {
    exists j :: 0 <= j < |policies| && kind(policies[j])
  }

  /**
   The device's own policy decides, else its group's, else the one for all, the first of several;
   only when there is none of these does no policy apply.
   */
  lemma ChosenTier(policies: seq<Policy>, d: Device, i: nat)
    requires i < |policies|
    ensures Chosen(policies, d, i) <==>
      if AnyOf(policies, p => ForDevice(p, d)) then FirstOf(policies, i, p => ForDevice(p, d))
      else if AnyOf(policies, p => ForGroup(p, d)) then FirstOf(policies, i, p => ForGroup(p, d))
      else FirstOf(policies, i, ForAll)
  {}

  lemma AppliesIff(p: Policy, d: Device)
    ensures Applies(p, d) <==> ForDevice(p, d) || ForGroup(p, d) || ForAll(p)
  {}

  /** The number of successful backups. */
  function Oks(list: seq<Backup>): nat {
    if list == [] then 0
    else Oks(list[..|list| - 1]) + if list[|list| - 1].ok then 1 else 0
  }

  /** Retention asks for the removal of row i. */
  predicate Dropped(list: seq<Backup>, i: nat, rule: Option<Policy>, failedKeep: int, now: int)
    requires i < |list|
  {
    var b, newer := list[i], Oks(list[..i]);
    if !b.ok then now - b.at > failedKeep
    else
      && !b.locked && newer > 0 && rule.Some?
      && ((rule.value.keepCount > 0 && newer >= rule.value.keepCount)
          || (rule.value.keepDays > 0 && now - b.at > rule.value.keepDays * DAY))
  }

  /** The ids that are deleted; rows of a running restore, `pinned`, cannot be. */
  function Gone(list: seq<Backup>, rule: Option<Policy>, failedKeep: int, now: int, pinned: set<int>): set<int> {
    set i | 0 <= i < |list| && Dropped(list, i, rule, failedKeep, now) && list[i].id !in pinned :: list[i].id
  }

  function Without(list: seq<Backup>, gone: set<int>): seq<Backup> {
    if list == [] then []
    else Without(list[..|list| - 1], gone) + if list[|list| - 1].id in gone then [] else [list[|list| - 1]]
  }

  function Remaining(list: seq<Backup>, rule: Option<Policy>, failedKeep: int, now: int, pinned: set<int>): seq<Backup> {
    Without(list, Gone(list, rule, failedKeep, now, pinned))
  }

  ghost predicate DistinctIds(list: seq<Backup>) {
    forall i, j :: 0 <= i < j < |list| ==> list[i].id != list[j].id
  }

  /** Where a remaining row was before. */
  lemma {:induction false} Position(list: seq<Backup>, gone: set<int>, k: nat) returns (i: nat)
    requires k < |Without(list, gone)|
    ensures i < |list| && list[i] == Without(list, gone)[k] && list[i].id !in gone
    ensures Without(list, gone)[..k] == Without(list[..i], gone)
    decreases |list|
  {
    var init, last := list[..|list| - 1], list[|list| - 1];
    if k < |Without(init, gone)| {
      i := Position(init, gone, k);
      assert init[..i] == list[..i];
      assert Without(list, gone)[..k] == Without(init, gone)[..k];
    } else {
      i := |list| - 1;
    }
  }

  lemma {:induction false} StaysIn(list: seq<Backup>, gone: set<int>, b: Backup)
    ensures b in Without(list, gone) <==> b in list && b.id !in gone
  {
    if list != [] {
      StaysIn(list[..|list| - 1], gone, b);
      assert list == list[..|list| - 1] + [list[|list| - 1]];
    }
  }

  lemma OksAppend(s: seq<Backup>, b: Backup)
    ensures Oks(s + [b]) == Oks(s) + if b.ok then 1 else 0
  {
    assert (s + [b])[..|s|] == s;
  }

  lemma {:induction false} FewerOks(list: seq<Backup>, gone: set<int>)
    ensures Oks(Without(list, gone)) <= Oks(list)
  {
    if list != [] {
      var init, last := list[..|list| - 1], list[|list| - 1];
      FewerOks(init, gone);
      OksAppend(Without(init, gone), last);
      assert Without(init, gone) + [] == Without(init, gone);
    }
  }

  lemma GoneIff(list: seq<Backup>, rule: Option<Policy>, failedKeep: int, now: int, pinned: set<int>, i: nat)
    requires DistinctIds(list) && i < |list|
    ensures list[i].id in Gone(list, rule, failedKeep, now, pinned)
      <==> Dropped(list, i, rule, failedKeep, now) && list[i].id !in pinned
  {
    if list[i].id in Gone(list, rule, failedKeep, now, pinned) {
      var j: nat :| j < |list| && Dropped(list, j, rule, failedKeep, now) && list[j].id !in pinned && list[j].id == list[i].id;
      assert i == j;
    }
  }

  /** The newest successful backup and every locked successful one stay. */
  lemma SafeStay(list: seq<Backup>, rule: Option<Policy>, failedKeep: int, now: int, pinned: set<int>, i: nat)
    requires DistinctIds(list) && i < |list| && list[i].ok
    requires list[i].locked || forall j :: 0 <= j < i ==> !list[j].ok
    ensures list[i] in Remaining(list, rule, failedKeep, now, pinned)
  {
    if !list[i].locked {
      NoOks(list[..i]);
    }
    GoneIff(list, rule, failedKeep, now, pinned, i);
    StaysIn(list, Gone(list, rule, failedKeep, now, pinned), list[i]);
  }

  lemma {:induction false} NoOks(list: seq<Backup>)
    ensures Oks(list) == 0 <==> forall j :: 0 <= j < |list| ==> !list[j].ok
  {
    if list != [] {
      NoOks(list[..|list| - 1]);
      var init := list[..|list| - 1];
      assert forall j :: 0 <= j < |init| ==> init[j] == list[j];
    }
  }

  /** The places of the successful backups newer than row i. */
  function NewerOks(list: seq<Backup>, i: nat): set<nat>
    requires i <= |list|
  {
    set j: nat | j < i && list[j].ok
  }

  lemma {:induction false} OksAreNewer(list: seq<Backup>, i: nat)
    requires i <= |list|
    ensures Oks(list[..i]) == |NewerOks(list, i)|
  {
    if i > 0 {
      OksAreNewer(list, i - 1);
      assert list[..i][..i - 1] == list[..i - 1];
      var before := NewerOks(list, i - 1);
      assert NewerOks(list, i) == if list[i - 1].ok then before + {i - 1} else before;
    }
  }

  /** A successful backup is within the limits of the policy: young enough, and not too many newer ones. */
  ghost predicate WithinLimits(list: seq<Backup>, i: nat, rule: Policy, now: int)
    requires i < |list|
  {
    && (rule.keepDays > 0 ==> now - list[i].at <= rule.keepDays * DAY)
    && (rule.keepCount > 0 ==> |NewerOks(list, i)| < rule.keepCount)
  }

  /**
   Exactly which successful backups stay: the locked ones, those in use, the newest, all of them
   when no policy applies, and those within both limits of the policy.
   */
  lemma OkStaysIff(list: seq<Backup>, rule: Option<Policy>, failedKeep: int, now: int, pinned: set<int>, i: nat)
    requires DistinctIds(list) && i < |list| && list[i].ok
    ensures list[i] in Remaining(list, rule, failedKeep, now, pinned) <==>
      || list[i].locked || list[i].id in pinned
      || (forall j :: 0 <= j < i ==> !list[j].ok)
      || rule.None? || WithinLimits(list, i, rule.value, now)
  {
    OksAreNewer(list, i);
    NoOks(list[..i]);
    assert (forall j :: 0 <= j < i ==> !list[j].ok) <==> forall j :: 0 <= j < |list[..i]| ==> !list[..i][j].ok;
    GoneIff(list, rule, failedKeep, now, pinned, i);
    StaysIn(list, Gone(list, rule, failedKeep, now, pinned), list[i]);
  }

  /** A failed backup, locked or not, stays exactly while it is young enough or in use. */
  lemma FailedStays(list: seq<Backup>, rule: Option<Policy>, failedKeep: int, now: int, pinned: set<int>, i: nat)
    requires DistinctIds(list) && i < |list| && !list[i].ok
    ensures list[i] in Remaining(list, rule, failedKeep, now, pinned)
      <==> now - list[i].at <= failedKeep || list[i].id in pinned
  {
    GoneIff(list, rule, failedKeep, now, pinned, i);
    StaysIn(list, Gone(list, rule, failedKeep, now, pinned), list[i]);
  }

  /** The newest row stays, failed or not, unless it is a failed one past its time. */
  lemma NewestRowStays(list: seq<Backup>, rule: Option<Policy>, failedKeep: int, now: int, pinned: set<int>)
    requires DistinctIds(list) && list != []
    ensures list[0] in Remaining(list, rule, failedKeep, now, pinned)
      <==> list[0].ok || now - list[0].at <= failedKeep || list[0].id in pinned
  {
    GoneIff(list, rule, failedKeep, now, pinned, 0);
    StaysIn(list, Gone(list, rule, failedKeep, now, pinned), list[0]);
  }

  /** Successful backups that nothing protects. */
  function Loose(list: seq<Backup>, pinned: set<int>): nat {
    if list == [] then 0
    else
      var last := list[|list| - 1];
      Loose(list[..|list| - 1], pinned) + if last.ok && !last.locked && last.id !in pinned then 1 else 0
  }

  lemma LooseAppend(s: seq<Backup>, b: Backup, pinned: set<int>)
    ensures Loose(s + [b], pinned) == Loose(s, pinned) + if b.ok && !b.locked && b.id !in pinned then 1 else 0
  {
    assert (s + [b])[..|s|] == s;
  }

  /** A positive keep count bounds the unprotected successful backups that are left. */
  lemma {:induction false} LeavesAtMost(list: seq<Backup>, n: nat, rule: Policy, failedKeep: int, now: int, pinned: set<int>)
    requires DistinctIds(list) && n <= |list| && rule.keepCount > 0
    ensures Loose(Without(list[..n], Gone(list, Some(rule), failedKeep, now, pinned)), pinned) <= Min(Oks(list[..n]), rule.keepCount)
    decreases n
  {
    if n > 0 {
      var gone := Gone(list, Some(rule), failedKeep, now, pinned);
      LeavesAtMost(list, n - 1, rule, failedKeep, now, pinned);
      assert list[..n][..n - 1] == list[..n - 1];
      GoneIff(list, Some(rule), failedKeep, now, pinned, n - 1);
      var rest := Without(list[..n - 1], gone);
      LooseAppend(rest, list[n - 1], pinned);
      assert rest + [] == rest;
    }
  }

  lemma LeavesAtMostKeepCount(list: seq<Backup>, rule: Policy, failedKeep: int, now: int, pinned: set<int>)
    requires DistinctIds(list) && rule.keepCount > 0
    ensures Loose(Remaining(list, Some(rule), failedKeep, now, pinned), pinned) <= rule.keepCount
  {
    assert list[..|list|] == list;
    LeavesAtMost(list, |list|, rule, failedKeep, now, pinned);
  }

  /** Row n - 1 of a list, told from what is left of the rows before it. */
  lemma WithoutLast(list: seq<Backup>, n: nat, gone: set<int>)
    requires 0 < n <= |list|
    ensures Without(list[..n], gone) == Without(list[..n - 1], gone) + if list[n - 1].id in gone then [] else [list[n - 1]]
    ensures Oks(list[..n]) == Oks(list[..n - 1]) + if list[n - 1].ok then 1 else 0
    ensures Oks(Without(list[..n], gone))
         == Oks(Without(list[..n - 1], gone)) + if list[n - 1].id !in gone && list[n - 1].ok then 1 else 0
  {
    assert list[..n][..n - 1] == list[..n - 1];
    var rest := Without(list[..n - 1], gone);
    OksAppend(rest, list[n - 1]);
    assert rest + [] == rest;
  }

  function AtLeast(oks: nat, keepCount: nat): nat {
    if keepCount == 0 then oks else Min(oks, keepCount)
  }

  /** Without an age limit the newest keepCount successful backups all stay. */
  lemma {:induction false} LeavesEnough(list: seq<Backup>, n: nat, rule: Policy, failedKeep: int, now: int, pinned: set<int>)
    requires DistinctIds(list) && n <= |list| && rule.keepDays == 0
    ensures Oks(Without(list[..n], Gone(list, Some(rule), failedKeep, now, pinned))) >= AtLeast(Oks(list[..n]), rule.keepCount)
    decreases n
  {
    if n > 0 {
      LeavesEnough(list, n - 1, rule, failedKeep, now, pinned);
      WithoutLast(list, n, Gone(list, Some(rule), failedKeep, now, pinned));
      if list[n - 1].ok {
        FreshOkStays(list, n - 1, rule, failedKeep, now, pinned);
      }
    }
  }

  lemma FreshOkStays(list: seq<Backup>, i: nat, rule: Policy, failedKeep: int, now: int, pinned: set<int>)
    requires DistinctIds(list) && i < |list| && rule.keepDays == 0 && list[i].ok
    ensures rule.keepCount == 0 || Oks(list[..i]) < rule.keepCount ==>
      list[i].id !in Gone(list, Some(rule), failedKeep, now, pinned)
  {
    GoneIff(list, Some(rule), failedKeep, now, pinned, i);
  }

  /** An age limit leaves no unprotected successful backup past it but the newest. */
  lemma LeavesNothingOld(list: seq<Backup>, rule: Policy, failedKeep: int, now: int, pinned: set<int>, i: nat)
    requires DistinctIds(list) && rule.keepDays > 0 && i < |list|
    requires list[i] in Remaining(list, Some(rule), failedKeep, now, pinned)
    requires list[i].ok && !list[i].locked && list[i].id !in pinned
    ensures now - list[i].at <= rule.keepDays * DAY || forall j :: 0 <= j < i ==> !list[j].ok
  {
    StaysIn(list, Gone(list, Some(rule), failedKeep, now, pinned), list[i]);
    GoneIff(list, Some(rule), failedKeep, now, pinned, i);
    NoOks(list[..i]);
    if Oks(list[..i]) == 0 {
      forall j | 0 <= j < i ensures !list[j].ok {
        assert !list[..i][j].ok;
      }
    }
  }

  lemma {:induction false} WithoutNone(list: seq<Backup>, gone: set<int>)
    requires forall i :: 0 <= i < |list| ==> list[i].id !in gone
    ensures Without(list, gone) == list
  {
    if list != [] {
      WithoutNone(list[..|list| - 1], gone);
    }
  }

  /** At the same instant a second pass drops only what was pinned, so it removes nothing. */
  lemma AgainRemovesNothing(list: seq<Backup>, rule: Option<Policy>, failedKeep: int, now: int, pinned: set<int>)
    requires DistinctIds(list)
    ensures var r := Remaining(list, rule, failedKeep, now, pinned);
      && (forall k: nat :: k < |r| && Dropped(r, k, rule, failedKeep, now) ==> r[k].id in pinned)
      && Remaining(r, rule, failedKeep, now, pinned) == r
  {
    var gone := Gone(list, rule, failedKeep, now, pinned);
    var r := Without(list, gone);
    forall k: nat | k < |r| && Dropped(r, k, rule, failedKeep, now) ensures r[k].id in pinned {
      var i := Position(list, gone, k);
      FewerOks(list[..i], gone);
      GoneIff(list, rule, failedKeep, now, pinned, i);
    }
    WithoutNone(r, Gone(r, rule, failedKeep, now, pinned));
  }

  /**
   The rows as they are when they are deleted: the same backups, perhaps locked or unlocked
   since they were fetched.
   */
  ghost predicate SameBackups(list: seq<Backup>, later: seq<Backup>) {
    |later| == |list| && forall i :: 0 <= i < |list| ==> later[i] == list[i].(locked := later[i].locked)
  }

  /** A lock that comes between the fetch and the deletion is too late: only the fetched one counts. */
  lemma LateLockIsIgnored(list: seq<Backup>, later: seq<Backup>, rule: Option<Policy>, failedKeep: int, now: int, pinned: set<int>, i: nat)
    requires DistinctIds(list) && SameBackups(list, later) && i < |list|
    ensures later[i] in Without(later, Gone(list, rule, failedKeep, now, pinned))
      <==> !Dropped(list, i, rule, failedKeep, now) || list[i].id in pinned
  {
    GoneIff(list, rule, failedKeep, now, pinned, i);
    StaysIn(later, Gone(list, rule, failedKeep, now, pinned), later[i]);
  }

  // ----- the method

  lemma {:induction false} WithoutMore(list: seq<Backup>, gone: set<int>, id: int)
    ensures Without(Without(list, gone), {id}) == Without(list, gone + {id})
  {
    if list != [] {
      var init, last := list[..|list| - 1], list[|list| - 1];
      WithoutMore(init, gone, id);
      var rest := Without(init, gone);
      if last.id !in gone {
        assert (rest + [last])[..|rest|] == rest;
      } else {
        assert rest + [] == rest;
      }
    }
  }

  lemma {:induction false} WithoutConcat(a: seq<Backup>, b: seq<Backup>, gone: set<int>)
    ensures Without(a + b, gone) == Without(a, gone) + Without(b, gone)
    decreases |b|
  {
    if b == [] {
      assert a + b == a;
    } else {
      WithoutConcat(a, b[..|b| - 1], gone);
      assert (a + b)[..|a + b| - 1] == a + b[..|b| - 1];
    }
  }

  function Deleted(drop: seq<Backup>, pinned: set<int>): set<int> {
    set b | b in drop && b.id !in pinned :: b.id
  }

  lemma DeletedMore(drop: seq<Backup>, i: nat, pinned: set<int>)
    requires i < |drop|
    ensures Deleted(drop[..i + 1], pinned) == Deleted(drop[..i], pinned) + if drop[i].id in pinned then {} else {drop[i].id}
  {
    assert drop[..i + 1] == drop[..i] + [drop[i]];
  }

  lemma DeletedIsGone(list: seq<Backup>, drop: seq<Backup>, rule: Option<Policy>, failedKeep: int, now: int, pinned: set<int>)
    requires forall b :: b in drop <==> exists j: nat :: j < |list| && Dropped(list, j, rule, failedKeep, now) && list[j] == b
    ensures Deleted(drop, pinned) == Gone(list, rule, failedKeep, now, pinned)
    ensures forall id :: id in Deleted(drop, pinned) ==> exists j: nat :: j < |list| && list[j].id == id
  {
    forall id ensures id in Deleted(drop, pinned) <==> id in Gone(list, rule, failedKeep, now, pinned) {
      if id in Deleted(drop, pinned) {
        var b :| b in drop && b.id == id;
        var j: nat :| j < |list| && Dropped(list, j, rule, failedKeep, now) && list[j] == b;
      }
      if id in Gone(list, rule, failedKeep, now, pinned) {
        var j: nat :| j < |list| && Dropped(list, j, rule, failedKeep, now) && list[j].id == id;
        assert list[j] in drop;
      }
    }
    forall id | id in Deleted(drop, pinned) ensures exists j: nat :: j < |list| && list[j].id == id {
      var b :| b in drop && b.id == id;
      var j: nat :| j < |list| && Dropped(list, j, rule, failedKeep, now) && list[j] == b;
      assert list[j].id == id;
    }
  }

  /** Rows beyond the fetched ones are not among the deleted. */
  lemma TailStays(list: seq<Backup>, tail: seq<Backup>, gone: set<int>)
    requires DistinctIds(list + tail)
    requires forall id :: id in gone ==> exists j: nat :: j < |list| && list[j].id == id
    ensures Without(tail, gone) == tail
  {
    var all := list + tail;
    forall i | 0 <= i < |tail| ensures tail[i].id !in gone {
      assert all[|list| + i] == tail[i];
      assert forall j: nat :: j < |list| ==> all[j] == list[j];
    }
    WithoutNone(tail, gone);
  }

  class Store {
    /** The device's rows, newest first. */
    var rows: seq<Backup>

    /** Deletes rows one by one, skipping those of a running restore. */
    method Remove(drop: seq<Backup>, pinned: set<int>)
      modifies this
      ensures rows == Without(old(rows), Deleted(drop, pinned))
    {
      ghost var gone: set<int> := {};
      WithoutNone(rows, gone);
      for i := 0 to |drop|
        invariant gone == Deleted(drop[..i], pinned)
        invariant rows == Without(old(rows), gone)
      {
        var id := drop[i].id;
        DeletedMore(drop, i, pinned);
        if id !in pinned {
          WithoutMore(old(rows), gone, id);
          rows := Without(rows, {id});
          gone := gone + {id};
        }
      }
      assert drop[..|drop|] == drop;
    }

    /** The policy that applies and what of the fetched rows it drops. */
    method Select(list: seq<Backup>, policies: seq<Policy>, d: Device, failedKeep: int, now: int)
      returns (drop: seq<Backup>, rule: Option<Policy>)
      ensures rule.None? ==> forall i :: 0 <= i < |policies| ==> !Applies(policies[i], d)
      ensures rule.Some? ==> exists i: nat :: i < |policies| && Chosen(policies, d, i) && policies[i] == rule.value
      ensures forall b :: b in drop <==> exists j: nat :: j < |list| && Dropped(list, j, rule, failedKeep, now) && list[j] == b
    {
      rule := Choose(policies, d);
      drop := [];
      var kept := 0;
      for i := 0 to |list|
        invariant kept == Oks(list[..i])
        invariant forall b :: b in drop <==> exists j: nat :: j < i && Dropped(list, j, rule, failedKeep, now) && list[j] == b
      {
        var b := list[i];
        assert list[..i + 1][..i] == list[..i];
        ghost var out := Dropped(list, i, rule, failedKeep, now);
        if !b.ok {
          if now - b.at > failedKeep {
            drop := drop + [b];
          }
          continue;
        }
        kept := kept + 1;
        if b.locked || kept == 1 || rule.None? {
          continue;
        }
        var p := rule.value;
        if (p.keepCount > 0 && kept > p.keepCount) || (p.keepDays > 0 && now - b.at > p.keepDays * DAY) {
          drop := drop + [b];
        }
      }
    }

    /** Retention looks at no more than the newest rows of one fetch; no row changes meanwhile. */
    method ApplyRetention(policies: seq<Policy>, d: Device, failedKeep: int, now: int, pinned: set<int>)
      returns (ghost rule: Option<Policy>)
      requires DistinctIds(rows)
      modifies this
      ensures rule.None? ==> forall i :: 0 <= i < |policies| ==> !Applies(policies[i], d)
      ensures rule.Some? ==> exists i: nat :: i < |policies| && Chosen(policies, d, i) && policies[i] == rule.value
      ensures var n := Min(FETCHED, |old(rows)|);
        rows == Remaining(old(rows)[..n], rule, failedKeep, now, pinned) + old(rows)[n..]
    {
      var n := Min(FETCHED, |rows|);
      var list := rows[..n];
      ghost var tail := rows[n..];
      var drop, picked := Select(list, policies, d, failedKeep, now);
      rule := picked;
      ghost var gone := Deleted(drop, pinned);
      DeletedIsGone(list, drop, picked, failedKeep, now, pinned);
      assert rows == list + tail;
      WithoutConcat(list, tail, gone);
      TailStays(list, tail, gone);
      Remove(drop, pinned);
    }
  }
}
