/**
 The requests, lock regions, scheduler pass and restart recovery of the change service as
 the source runs them: methods that update the tables and the mutex-guarded maps in
 place. Each is tied to the functions of Workflow and Engine that the theorems are about;
 one call runs undisturbed here, Engine is where calls interleave.
 */
module ChangeService {
  import opened Common
  import opened Execution
  import opened Workflow
  import opened Windows
  import opened Requests
  import Engine

  class Service {
    var rows: map<int, Row>
    var windows: seq<Window>
    /** The group each device is in now; a change is due by these, not by those it was created with. */
    var groups: map<int, Option<int>>
    var running: set<int>
    var cancel: set<int>

    /** A draft for the given devices, or why the request is refused. */
    method Create(id: int, input: Input, creator: Option<int>, inventory: map<int, Entry>, policies: seq<Policy>, now: int)
      returns (r: Result<Row, CreateError>)
      requires id !in rows
      modifies this`rows
      ensures r.Ok? <==> Acceptable(input, inventory, now)
      ensures r.Err? ==> rows == old(rows)
      ensures r.Err? && !FaultFree(input, now) ==> Faulty(input, now, r.error)
      ensures r.Err? && FaultFree(input, now) ==> exists ids :: KeepsOrder(input.devices, ids) && Blamed(ids, inventory, r.error)
      ensures r.Ok? ==> rows == old(rows)[id := r.value] && Engine.NewRow(r.value)
      ensures r.Ok? ==> r.value.creator == creator && Some(r.value.mode) == input.mode
      ensures r.Ok? ==> r.value.runAt == if r.value.mode == InWindow then None else input.runAt
      ensures r.Ok? ==> r.value.cfg.maxFailures == input.maxFailures && r.value.cfg.canary == input.canary
      ensures r.Ok? ==> r.value.cfg.concurrency == if input.concurrency == 0 then 4 else input.concurrency
      ensures r.Ok? ==> KeepsOrder(input.devices, Ids(r.value.devices))
      ensures r.Ok? ==> forall i :: 0 <= i < |r.value.devices| ==>
        r.value.devices[i].id in inventory && r.value.devices[i].group == inventory[r.value.devices[i].id].group
      ensures r.Ok? ==> Strictest(policies, r.value.devices, r.value.required)
    {
      InOrderIff(input, now);
      if !input.kindKnown {
        assert Faulty(input, now, UnknownKind);
        return Err(UnknownKind);
      }
      var normal := Normalize(input, now);
      if normal.Err? {
        return Err(normal.error);
      }
      var ids, mode := normal.value, input.mode.value;
      var concurrency := if input.concurrency == 0 then 4 else input.concurrency;
      var plan := Plan(ids, inventory);
      PlannedIffAll(input.devices, ids, inventory);
      if plan.Err? {
        return Err(plan.error);
      }
      var devices := plan.value;
      assert Ids(devices) == ids;
      var required := RequiredFor(policies, Groups(devices));
      StrictestOfGroups(policies, devices, required);
      var row := Row(Draft, required, creator, [], mode, if mode == InWindow then None else input.runAt,
                     Config(input.maxFailures, concurrency, input.canary), devices, seq(|devices|, _ => TPending));
      rows := rows[id := row];
      return Ok(row);
    }

    /** Moves a change from one of `from` to `to`, or reports why not. */
    method Transition(id: int, to: Status, from: set<Status>) returns (r: Result<(), Error>)
      modifies this`rows
      ensures id !in old(rows) ==> r == Err(NotFound) && rows == old(rows)
      ensures id in old(rows) && old(rows)[id].status !in from ==> r == Err(BadState) && rows == old(rows)
      ensures id in old(rows) && old(rows)[id].status in from ==>
        r == Ok(()) && rows == old(rows)[id := old(rows)[id].(status := to)]
    {
      if id in rows && rows[id].status in from {
        rows := rows[id := rows[id].(status := to)];
        return Ok(());
      }
      return Err(if id in rows then BadState else NotFound);
    }

    /** The table after a request on one row, and what the caller is told. */
    ghost predicate Answers(before: map<int, Row>, id: int, spec: Result<Row, Error>, r: Result<(), Error>)
      reads this`rows
    {
      match spec
      case Ok(row) => r == Ok(()) && rows == before[id := row]
      case Err(e) => r == Err(e) && rows == before
    }

    method Submit(id: int) returns (r: Result<(), Error>)
      modifies this`rows
      ensures Answers(old(rows), id, if id in old(rows) then SubmitRow(old(rows)[id]) else Err(NotFound), r)
    {
      r := Transition(id, Pending, {Draft});
      if r.Ok? && rows[id].required == 0 {
        rows := rows[id := rows[id].(status := Approved)];
      }
    }

    method CountApprovals(votes: seq<Vote>) returns (n: nat)
      ensures n == Approvals(votes)
    {
      n := 0;
      for i := 0 to |votes|
        invariant n == Approvals(votes[..i])
      {
        assert votes[..i + 1][..i] == votes[..i];
        if votes[i].approve {
          n := n + 1;
        }
      }
      assert votes[..|votes|] == votes;
    }

    method Decide(id: int, user: int, approve: bool) returns (r: Result<(), Error>)
      modifies this`rows
      ensures Answers(old(rows), id, if id in old(rows) then DecideRow(old(rows)[id], user, approve) else Err(NotFound), r)
    {
      if id !in rows {
        return Err(NotFound);
      }
      var row := rows[id];
      if row.status != Pending {
        return Err(BadState);
      }
      if row.creator == Some(user) {
        return Err(OwnChange);
      }
      if user in Voters(row.votes) {  // UNIQUE (change_id, user_id)
        return Err(AlreadyDecided);
      }
      row := row.(votes := row.votes + [Vote(user, approve)]);
      rows := rows[id := row];
      if approve {
        var n := CountApprovals(row.votes);
        if row.required <= n {
          rows := rows[id := row.(status := Approved)];
        }
        r := Ok(());
      } else {
        r := Transition(id, Rejected, {Pending});
      }
    }

    /** Ends a change that has not started; a running one is asked to stop after the devices in progress. */
    method Cancel(id: int) returns (r: Result<(), Error>)
      modifies this`rows, this`cancel
      ensures id in old(rows) && old(rows)[id].status == Running ==>
        r == Ok(()) && rows == old(rows) && cancel == old(cancel) + {id}
      ensures !(id in old(rows) && old(rows)[id].status == Running) ==>
        && cancel == old(cancel)
        && Answers(old(rows), id, if id in old(rows) then CancelRow(old(rows)[id]) else Err(NotFound), r)
    {
      r := Transition(id, Cancelled, {Draft, Pending, Approved});
      if r.Ok? {
        rows := rows[id := rows[id].(targets := Sweep(rows[id].targets))];
      } else if r == Err(BadState) && rows[id].status == Running {
        cancel := cancel + {id};
        r := Ok(());
      }
    }

    method RunNow(id: int, hasReason: bool) returns (r: Result<(), Error>)
      modifies this`rows
      ensures !hasReason ==> r == Err(NoReason) && rows == old(rows)
      ensures hasReason ==>
        Answers(old(rows), id, if id in old(rows) then RunNowRow(old(rows)[id]) else Err(BadState), r)
    {
      if !hasReason {
        return Err(NoReason);
      }
      if id in rows && rows[id].status in {Approved, Pending, Draft} {
        rows := rows[id := rows[id].(mode := RightNow)];
        return Ok(());
      }
      return Err(BadState);
    }

    /** Locks all the devices or none. */
    method Lock(devices: seq<Device>) returns (ok: bool)
      modifies this`running
      ensures ok <==> Engine.Lock(old(running), DeviceIds(devices)).Some?
      ensures running == if ok then Engine.Lock(old(running), DeviceIds(devices)).value else old(running)
    {
      for i := 0 to |devices|
        invariant running == old(running)
        invariant forall j :: 0 <= j < i ==> devices[j].id !in running
      {
        if devices[i].id in running {
          assert devices[i].id in DeviceIds(devices);
          return false;
        }
      }
      for i := 0 to |devices|
        invariant running == old(running) + DeviceIds(devices[..i])
      {
        assert devices[..i + 1] == devices[..i] + [devices[i]];
        running := running + {devices[i].id};
      }
      assert devices[..|devices|] == devices;
      return true;
    }

    method Unlock(devices: seq<Device>)
      modifies this`running
      ensures running == old(running) - DeviceIds(devices)
    {
      for i := 0 to |devices|
        invariant running == old(running) - DeviceIds(devices[..i])
      {
        assert devices[..i + 1] == devices[..i] + [devices[i]];
        running := running - {devices[i].id};
      }
      assert devices[..|devices|] == devices;
    }

    /**
     One scheduler pass over the approved changes, newest first in `list`, tried oldest
     first. A listed change is started exactly when it is due and none of its devices is
     held by a change running before the pass or by an older one started in it.
     */
    method Tick(list: seq<int>, now: int) returns (started: set<int>)
      requires AllValid(windows)
      requires Distinct(list) && forall i :: 0 <= i < |list| ==> list[i] in rows && rows[list[i]].status == Approved
      modifies this`rows, this`running
      ensures forall i :: 0 <= i < |list| ==>
        (list[i] in started <==>
          && DueRow(old(rows)[list[i]], now)
          && old(running) !! DeviceIds(old(rows)[list[i]].devices)
          && forall j :: i < j < |list| && list[j] in started ==>
               DeviceIds(old(rows)[list[j]].devices) !! DeviceIds(old(rows)[list[i]].devices))
      ensures forall id :: id in started ==> id in list
      ensures rows == map id | id in old(rows) :: if id in started then old(rows)[id].(status := Running) else old(rows)[id]
      ensures forall d :: d in running <==>
        d in old(running) || exists id :: id in started && id in old(rows) && d in DeviceIds(old(rows)[id].devices)
    {
      started := {};
      var i := |list|;
      while i > 0
        invariant 0 <= i <= |list|
        invariant forall id :: id in started ==> id in list[i..]
        invariant rows == map id | id in old(rows) :: if id in started then old(rows)[id].(status := Running) else old(rows)[id]
        invariant forall d :: d in running <==> Held(old(rows), old(running), started, d)
        invariant forall k :: i <= k < |list| ==> (list[k] in started <==> Startable(old(rows), old(running), list, k, started, now))
      {
        i := i - 1;
        var id := list[i];
        assert list[i..] == [id] + list[i + 1..];
        assert id !in list[i + 1..];
        ghost var before := started;
        var c := rows[id];
        var due := DueAt(c.mode, c.runAt, Regrouped(c.devices, groups), windows, now);
        var locked := false;
        if due {
          locked := Lock(c.devices);
        }
        HeldDisjoint(old(rows), old(running), list, i, before);
        if locked {
          rows := rows[id := c.(status := Running)];
          started := started + {id};
        }
      }
    }

    ghost predicate DueRow(row: Row, now: int)
      reads this`windows, this`groups
    {
      Due(row.mode, row.runAt, Regrouped(row.devices, groups), windows, now)
    }

    /**
     The three run modes: at once, from the run time on, or while for each of the devices no
     enabled window covers the group it is in now or a covering one is open.
     */
    lemma DueRowIff(row: Row, now: int)
      requires forall i :: 0 <= i < |row.devices| ==> row.devices[i].id in groups
      ensures DueRow(row, now) <==>
        || row.mode == RightNow
        || (row.mode == AtTime && row.runAt.Some? && row.runAt.value <= now)
        || (row.mode == InWindow && forall i :: 0 <= i < |row.devices| ==> MayChange(windows, groups[row.devices[i].id], now))
    {
      var current := Regrouped(row.devices, groups);
      assert forall i :: 0 <= i < |row.devices| ==> current[i].group == groups[row.devices[i].id];
    }

    static ghost predicate Held(rows: map<int, Row>, running: set<int>, started: set<int>, d: int) {
      d in running || exists id :: id in started && id in rows && d in DeviceIds(rows[id].devices)
    }

    ghost predicate Startable(rows: map<int, Row>, running: set<int>, list: seq<int>, k: int, started: set<int>, now: int)
      requires 0 <= k < |list| && forall i :: 0 <= i < |list| ==> list[i] in rows
      reads this`windows, this`groups
    {
      && DueRow(rows[list[k]], now)
      && running !! DeviceIds(rows[list[k]].devices)
      && forall j :: k < j < |list| && list[j] in started ==> DeviceIds(rows[list[j]].devices) !! DeviceIds(rows[list[k]].devices)
    }

    /** The devices of list[k] are free exactly when no older started change has one of them. */
    static lemma HeldDisjoint(rows: map<int, Row>, running: set<int>, list: seq<int>, k: int, started: set<int>)
      requires 0 <= k < |list| && forall i :: 0 <= i < |list| ==> list[i] in rows
      requires forall id :: id in started ==> id in list[k + 1..]
      ensures (forall d :: d in DeviceIds(rows[list[k]].devices) ==> !Held(rows, running, started, d)) <==>
        && running !! DeviceIds(rows[list[k]].devices)
        && forall j :: k < j < |list| && list[j] in started ==> DeviceIds(rows[list[j]].devices) !! DeviceIds(rows[list[k]].devices)
    {
      var mine := DeviceIds(rows[list[k]].devices);
      if (forall j :: k < j < |list| && list[j] in started ==> DeviceIds(rows[list[j]].devices) !! mine) && running !! mine {
        forall id | id in started ensures id in rows && DeviceIds(rows[id].devices) !! mine {
          var j :| 0 <= j < |list[k + 1..]| && list[k + 1..][j] == id;
          assert list[k + 1 + j] == id;
        }
      }
      if forall d :: d in mine ==> !Held(rows, running, started, d) {
        forall j, d | k < j < |list| && list[j] in started && d in DeviceIds(rows[list[j]].devices) ensures d !in mine {
          var id := list[j];
          assert id in started && id in rows && d in DeviceIds(rows[id].devices);
          assert Held(rows, running, started, d);
        }
        forall d | d in running ensures d !in mine {
          assert Held(rows, running, started, d);
        }
      }
    }

    /** The three statements at the start of Run. */
    method Recover()
      modifies this`rows
      ensures rows == Recovery(3, old(rows))
    {
      ghost var start := rows;
      rows := map id | id in rows :: rows[id].(targets := FailRunning(rows[id].targets));
      RecoverPointwise(0, start, rows);
      ghost var one := rows;
      rows := map id | id in rows :: if rows[id].status == Running then rows[id].(targets := Sweep(rows[id].targets)) else rows[id];
      RecoverPointwise(1, one, rows);
      ghost var two := rows;
      rows := map id | id in rows :: if rows[id].status == Running then rows[id].(status := Failed) else rows[id];
      RecoverPointwise(2, two, rows);
      RecoverySteps(start, one, two);
    }
  }
}
