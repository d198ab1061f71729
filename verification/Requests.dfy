/** Creating a change (internal/changes/changes.go, normalize and Create) up to storing its row. */
module Requests {
  import opened Common
  import opened Execution
  import opened Workflow
  import opened Windows

  datatype Policy = Policy(group: Option<int>, required: nat)

  /** The approvals a device of this group needs: its group's policy, else the last default, else 1. */
  ghost function Need(policies: seq<Policy>, group: Option<int>): nat {
    if group.Some? && LastFor(policies, group).Some? then LastFor(policies, group).value
    else if LastFor(policies, None).Some? then LastFor(policies, None).value
    else 1
  }

  ghost function LastFor(policies: seq<Policy>, group: Option<int>): Option<nat> {
    if policies == [] then None
    else if policies[|policies| - 1].group == group then Some(policies[|policies| - 1].required)
    else LastFor(policies[..|policies| - 1], group)
  }

  /** There is at most one policy for a group, and at most one default. */
  ghost predicate OnePerGroup(policies: seq<Policy>) {
    forall i, j :: 0 <= i < j < |policies| ==> policies[i].group != policies[j].group
  }

  lemma {:induction false} LastIsOnly(policies: seq<Policy>, group: Option<int>)
    ensures OnePerGroup(policies) ==> forall i :: 0 <= i < |policies| && policies[i].group == group ==>
      LastFor(policies, group) == Some(policies[i].required)
    ensures LastFor(policies, group).None? <==> forall i :: 0 <= i < |policies| ==> policies[i].group != group
  {
    if policies != [] {
      var init := policies[..|policies| - 1];
      LastIsOnly(init, group);
      assert forall i :: 0 <= i < |init| ==> init[i] == policies[i];
    }
  }

  /**
   The policy of a device's group says how many approvals it needs; without one the default
   does, and without a default it needs one approval.
   */
  lemma NeedIs(policies: seq<Policy>, group: Option<int>)
    requires OnePerGroup(policies)
    ensures forall i :: 0 <= i < |policies| && policies[i].group == group ==> Need(policies, group) == policies[i].required
    ensures (forall i :: 0 <= i < |policies| ==> policies[i].group != group) ==>
      forall i :: 0 <= i < |policies| && policies[i].group.None? ==> Need(policies, group) == policies[i].required
    ensures (forall i :: 0 <= i < |policies| ==> policies[i].group != group && policies[i].group.Some?) ==> Need(policies, group) == 1
  {
    LastIsOnly(policies, group);
    LastIsOnly(policies, None);
  }

  /** A change needs as many approvals as the strictest of its targets' groups. */
  method RequiredFor(policies: seq<Policy>, groups: seq<Option<int>>) returns (need: nat)
    ensures forall i :: 0 <= i < |groups| ==> Need(policies, groups[i]) <= need
    ensures groups != [] ==> exists i :: 0 <= i < |groups| && Need(policies, groups[i]) == need
    ensures groups == [] ==> need == 0
  {
    var def := 1;
    var byGroup: map<int, nat> := map[];
    for i := 0 to |policies|
      invariant def == if LastFor(policies[..i], None).Some? then LastFor(policies[..i], None).value else 1
      invariant forall g :: g in byGroup <==> LastFor(policies[..i], Some(g)).Some?
      invariant forall g :: g in byGroup ==> LastFor(policies[..i], Some(g)) == Some(byGroup[g])
    {
      assert policies[..i + 1][..i] == policies[..i];
      var p := policies[i];
      if p.group.None? {
        def := p.required;
      } else {
        byGroup := byGroup[p.group.value := p.required];
      }
    }
    assert policies[..|policies|] == policies;
    assert forall x :: x in byGroup <==> LastFor(policies, Some(x)).Some?;
    need := 0;
    for i := 0 to |groups|
      invariant forall j :: 0 <= j < i ==> Need(policies, groups[j]) <= need
      invariant i > 0 ==> exists j :: 0 <= j < i && Need(policies, groups[j]) == need
      invariant i == 0 ==> need == 0
    {
      var g := groups[i];
      var r := if g.Some? && g.value in byGroup then byGroup[g.value] else def;
      if g.Some? {
        ghost var x := g.value;
        assert x in byGroup <==> LastFor(policies, Some(x)).Some?;
      }
      assert r == Need(policies, g);
      need := if r > need then r else need;
    }
  }

  /** `kindKnown`: a runner is registered for the kind; `title`: its trimmed length; `mode`: None for an unknown one. */
  datatype Input = Input(
    kindKnown: bool, title: nat, devices: seq<int>, mode: Option<RunMode>, runAt: Option<int>, hasReason: bool,
    concurrency: int, canary: int, maxFailures: int)

  /** What the runner says about a device: fine, not possible, or the preview itself failed. */
  datatype Preview = Ready | Refused | Broken

  /** A device of the inventory; only one with an active license is operational. */
  datatype Entry = Entry(group: Option<int>, operational: bool, preview: Preview)

  datatype CreateError =
    | UnknownKind | BadTitle | NoDevices | NoRunTime | ReasonMissing | BadMode | OutOfRange
    | UnknownDevice | PreviewFailed | Problems

  /** The first place of x in s. */
  ghost predicate FirstAt(s: seq<int>, i: nat, x: int) {
    i < |s| && s[i] == x && forall j :: 0 <= j < i ==> s[j] != x
  }

  /** The distinct elements of `all`, in the order of their first places. */
  ghost predicate KeepsOrder(all: seq<int>, out: seq<int>) {
    && Distinct(out)
    && (forall x :: x in out <==> x in all)
    && (forall a, b, i, j :: 0 <= a < b < |out| && FirstAt(all, i, out[a]) && FirstAt(all, j, out[b]) ==> i < j)
  }

  /** Device ids without repetition; the first ones given stay first, they are the canaries. */
  method Dedup(all: seq<int>) returns (out: seq<int>)
    ensures KeepsOrder(all, out)
    ensures out == [] <==> all == []
  {
    out := [];
    for k := 0 to |all|
      invariant Distinct(out)
      invariant forall x :: x in out <==> x in all[..k]
      invariant forall a, b, i, j :: 0 <= a < b < |out| && FirstAt(all, i, out[a]) && FirstAt(all, j, out[b]) ==> i < j
      invariant out == [] <==> k == 0
    {
      assert all[..k + 1] == all[..k] + [all[k]];
      if all[k] !in out {
        forall a: nat, i: nat, j: nat | a < |out| && FirstAt(all, i, out[a]) && FirstAt(all, j, all[k]) ensures i < j {
          assert out[a] in all[..k];
          var m: nat :| m < k && all[..k][m] == out[a];
          assert all[m] == out[a];
          assert i <= m;
          assert forall x :: 0 <= x < k ==> all[x] in all[..k];
        }
        out := out + [all[k]];
      }
    }
    assert all[..|all|] == all;
  }

  predicate Plannable(inventory: map<int, Entry>, d: int) {
    d in inventory && inventory[d].operational && inventory[d].preview == Ready
  }

  /** Planning stops at this device. */
  predicate Stops(inventory: map<int, Entry>, d: int) {
    d !in inventory || (inventory[d].operational && inventory[d].preview == Broken)
  }

  /** Planning stops at the first such device, otherwise it collects the problems of all. */
  ghost predicate Blamed(ids: seq<int>, inventory: map<int, Entry>, e: CreateError) {
    if e == Problems then
      (forall i :: 0 <= i < |ids| ==> !Stops(inventory, ids[i])) && exists i :: 0 <= i < |ids| && !Plannable(inventory, ids[i])
    else
      exists i :: 0 <= i < |ids| && Stops(inventory, ids[i]) && (forall j :: 0 <= j < i ==> !Stops(inventory, ids[j]))
        && e == if ids[i] in inventory then PreviewFailed else UnknownDevice
  }

  /** The devices of a plan with their groups, or why there is none. */
  method Plan(ids: seq<int>, inventory: map<int, Entry>) returns (r: Result<seq<Device>, CreateError>)
    ensures r.Ok? <==> forall i :: 0 <= i < |ids| ==> Plannable(inventory, ids[i])
    ensures r.Ok? ==> |r.value| == |ids|
    ensures r.Ok? ==> forall i :: 0 <= i < |ids| ==>
      ids[i] in inventory && r.value[i] == Device(ids[i], inventory[ids[i]].group)
    ensures r.Err? ==> Blamed(ids, inventory, r.error)
  {
    var plan: seq<Device> := [];
    var problems := 0;
    for i := 0 to |ids|
      invariant forall j :: 0 <= j < i ==> !Stops(inventory, ids[j])
      invariant problems == 0 <==> forall j :: 0 <= j < i ==> Plannable(inventory, ids[j])
      invariant problems == 0 ==> |plan| == i
      invariant problems == 0 ==> forall j :: 0 <= j < i ==>
        ids[j] in inventory && plan[j] == Device(ids[j], inventory[ids[j]].group)
      invariant problems >= 0
    {
      if ids[i] !in inventory {
        return Err(UnknownDevice);
      }
      var d := inventory[ids[i]];
      if !d.operational {
        problems := problems + 1;
        continue;
      }
      match d.preview {
        case Broken => return Err(PreviewFailed);
        case Refused => problems := problems + 1;
        case Ready => plan := plan + [Device(ids[i], d.group)];
      }
    }
    if problems > 0 {
      return Err(Problems);
    }
    return Ok(plan);
  }

  /** Removing repetitions does not change whether all can be planned. */
  lemma PlannedIffAll(all: seq<int>, ids: seq<int>, inventory: map<int, Entry>)
    requires KeepsOrder(all, ids)
    ensures (forall i :: 0 <= i < |ids| ==> Plannable(inventory, ids[i])) <==> (forall d :: d in all ==> Plannable(inventory, d))
  {
    if forall i :: 0 <= i < |ids| ==> Plannable(inventory, ids[i]) {
      forall d | d in all ensures Plannable(inventory, d) {
        assert d in ids;
      }
    }
    forall i | 0 <= i < |ids| ensures ids[i] in all {
      assert ids[i] in ids;
    }
  }

  function Ids(devices: seq<Device>): seq<int> {
    seq(|devices|, i requires 0 <= i < |devices| => devices[i].id)
  }

  function Groups(devices: seq<Device>): seq<Option<int>> {
    seq(|devices|, i requires 0 <= i < |devices| => devices[i].group)
  }

  /** `need` is the largest number of approvals any of the devices needs. */
  ghost predicate Strictest(policies: seq<Policy>, devices: seq<Device>, need: nat) {
    && (forall i :: 0 <= i < |devices| ==> Need(policies, devices[i].group) <= need)
    && (exists i :: 0 <= i < |devices| && Need(policies, devices[i].group) == need)
  }

  lemma StrictestOfGroups(policies: seq<Policy>, devices: seq<Device>, need: nat)
    requires forall i :: 0 <= i < |devices| ==> Need(policies, Groups(devices)[i]) <= need
    requires exists i :: 0 <= i < |devices| && Need(policies, Groups(devices)[i]) == need
    ensures Strictest(policies, devices, need)
  {
    assert forall i :: 0 <= i < |devices| ==> Groups(devices)[i] == devices[i].group;
  }

  /** What Create accepts. */
  ghost predicate Acceptable(input: Input, inventory: map<int, Entry>, now: int) {
    && input.kindKnown && 0 < input.title <= 200
    && |input.devices| > 0 && (forall d :: d in input.devices ==> Plannable(inventory, d))
    && input.mode.Some?
    && (input.mode.value == AtTime ==> input.runAt.Some? && input.runAt.value >= now - MINUTE)
    && (input.mode.value == RightNow ==> input.hasReason)
    && 0 <= input.concurrency <= 50 && input.canary >= 0 && input.maxFailures >= 0
  }

  /** The run mode is known and has what it needs. */
  predicate Timed(input: Input, now: int) {
    && input.mode.Some?
    && (input.mode.value == AtTime ==> input.runAt.Some? && input.runAt.value >= now - MINUTE)
    && (input.mode.value == RightNow ==> input.hasReason)
  }

  /** The first requirement that the request itself does not meet, devices aside. */
  ghost predicate Faulty(input: Input, now: int, e: CreateError) {
    var named := input.kindKnown && 0 < input.title <= 200;
    var planned := named && |input.devices| > 0;
    match e
    case UnknownKind => !input.kindKnown
    case BadTitle => input.kindKnown && !named
    case NoDevices => named && |input.devices| == 0
    case BadMode => planned && input.mode.None?
    case NoRunTime => planned && input.mode == Some(AtTime) && (input.runAt.None? || input.runAt.value < now - MINUTE)
    case ReasonMissing => planned && input.mode == Some(RightNow) && !input.hasReason
    case OutOfRange => planned && Timed(input, now) && !(0 <= input.concurrency <= 50 && input.canary >= 0 && input.maxFailures >= 0)
    case _ => false
  }

  /** A request is faulty for one reason at most. */
  lemma OneFault(input: Input, now: int, a: CreateError, b: CreateError)
    requires Faulty(input, now, a) && Faulty(input, now, b)
    ensures a == b
  {}

  ghost predicate FaultFree(input: Input, now: int) { forall e :: !Faulty(input, now, e) }

  /** What the request says of itself is in order; devices are still to be looked up. */
  predicate InOrder(input: Input, now: int) {
    && input.kindKnown && 0 < input.title <= 200 && |input.devices| > 0 && Timed(input, now)
    && 0 <= input.concurrency <= 50 && input.canary >= 0 && input.maxFailures >= 0
  }

  lemma InOrderIff(input: Input, now: int)
    ensures InOrder(input, now) <==> FaultFree(input, now)
  {
    if !InOrder(input, now) {
      assert Faulty(input, now, UnknownKind) || Faulty(input, now, BadTitle) || Faulty(input, now, NoDevices)
        || Faulty(input, now, BadMode) || Faulty(input, now, NoRunTime) || Faulty(input, now, ReasonMissing)
        || Faulty(input, now, OutOfRange);
    }
  }

  /** normalize: the devices without repetition, or the first fault. */
  method Normalize(input: Input, now: int) returns (r: Result<seq<int>, CreateError>)
    requires input.kindKnown
    ensures r.Ok? <==> InOrder(input, now)
    ensures r.Err? ==> Faulty(input, now, r.error)
    ensures r.Ok? ==> KeepsOrder(input.devices, r.value) && r.value != []
  {
    if input.title == 0 || input.title > 200 {
      return Err(BadTitle);
    }
    var ids := Dedup(input.devices);
    if |ids| == 0 {
      return Err(NoDevices);
    }
    if input.mode.None? {
      return Err(BadMode);
    }
    var mode := input.mode.value;
    if mode == AtTime && (input.runAt.None? || input.runAt.value < now - MINUTE) {
      return Err(NoRunTime);
    }
    if mode == RightNow && !input.hasReason {
      return Err(ReasonMissing);
    }
    var concurrency := if input.concurrency == 0 then 4 else input.concurrency;
    if concurrency < 1 || concurrency > 50 || input.canary < 0 || input.maxFailures < 0 {
      return Err(OutOfRange);
    }
    return Ok(ids);
  }
}
