/**
 One row of the changes table with its targets and votes, and what each request does
 to it (internal/changes/changes.go). A request that the row's status does not allow
 leaves the row alone and reports why.
 */
module Workflow {
  import opened Common
  import opened Execution

  datatype Vote = Vote(user: int, approve: bool)

  datatype RunMode = InWindow | AtTime | RightNow

  datatype Row = Row(
    status: Status,
    required: nat,
    creator: Option<int>,
    votes: seq<Vote>,
    mode: RunMode,
    runAt: Option<int>,
    cfg: Config,
    devices: seq<Device>,
    targets: seq<Target>)

  datatype Error = NotFound | BadState | OwnChange | AlreadyDecided | NoReason

  function DeviceIds(devices: seq<Device>): set<int> {
    set d | d in devices :: d.id
  }

  /** The devices with the groups they are in now. */
  function Regrouped(devices: seq<Device>, groups: map<int, Option<int>>): seq<Device> {
    seq(|devices|, i requires 0 <= i < |devices| =>
      if devices[i].id in groups then devices[i].(group := groups[devices[i].id]) else devices[i])
  }

  function Approvals(votes: seq<Vote>): nat {
    if votes == [] then 0 else Approvals(votes[..|votes| - 1]) + (if votes[|votes| - 1].approve then 1 else 0)
  }

  function Voters(votes: seq<Vote>): set<int> {
    set v | v in votes :: v.user
  }

  /** UPDATE changes SET status = to WHERE status = ANY(from). */
  function Transition(row: Row, to: Status, from: set<Status>): Result<Row, Error> {
    if row.status in from then Ok(row.(status := to)) else Err(BadState)
  }

  function SubmitRow(row: Row): Result<Row, Error> {
    var moved := Transition(row, Pending, {Draft});
    if moved.Err? then moved
    else Ok(moved.value.(status := if row.required == 0 then Approved else Pending))
  }

  function DecideRow(row: Row, user: int, approve: bool): Result<Row, Error> {
    if row.status != Pending then Err(BadState)
    else if row.creator == Some(user) then Err(OwnChange)
    else if user in Voters(row.votes) then Err(AlreadyDecided)
    else
      var voted := row.(votes := row.votes + [Vote(user, approve)]);
      if !approve then Transition(voted, Rejected, {Pending})
      else if row.required <= Approvals(voted.votes) then Ok(voted.(status := Approved))
      else Ok(voted)
  }

  function CancelRow(row: Row): Result<Row, Error> {
    var moved := Transition(row, Cancelled, {Draft, Pending, Approved});
    if moved.Err? then moved else Ok(moved.value.(targets := Sweep(row.targets)))
  }

  function RunNowRow(row: Row): Result<Row, Error> {
    if row.status in {Approved, Pending, Draft} then Ok(row.(mode := RightNow)) else Err(BadState)
  }

  // ----- what every stored row satisfies

  /** Position in the lifecycle. */
  function Rank(status: Status): nat {
    match status
    case Draft => 0
    case Pending => 1
    case Approved => 2
    case Running => 3
    case _ => 4
  }

  /** The change is or was approved, and was not withdrawn before it started. */
  predicate PastApproval(status: Status) {
    status == Approved || status == Running || status == Succeeded || status == Failed || status == Partial
  }

  /** Nobody votes twice and the creator does not vote. */
  ghost predicate FairVotes(row: Row) {
    && (forall i, j :: 0 <= i < j < |row.votes| ==> row.votes[i].user != row.votes[j].user)
    && (forall i :: 0 <= i < |row.votes| ==> row.creator != Some(row.votes[i].user))
  }

  ghost predicate AllApprove(votes: seq<Vote>) {
    forall i :: 0 <= i < |votes| ==> votes[i].approve
  }

  ghost predicate VotesOk(row: Row) {
    && FairVotes(row)
    && (row.status == Draft ==> row.votes == [])
    && (row.status == Pending ==> AllApprove(row.votes) && |row.votes| < row.required)
    && (PastApproval(row.status) ==> AllApprove(row.votes) && |row.votes| == row.required)
    && (row.status == Cancelled ==> AllApprove(row.votes) && |row.votes| <= row.required)
    && (row.status == Rejected ==>
          0 < |row.votes| <= row.required && !row.votes[|row.votes| - 1].approve
          && AllApprove(row.votes[..|row.votes| - 1]))
  }

  ghost predicate Undone(t: Target) { t == TPending || t == TRunning }

  ghost predicate TargetsOk(row: Row) {
    var ok := multiset(row.targets)[TSucceeded];
    && |row.targets| == |row.devices| > 0
    && row.cfg.concurrency >= 1
    && multiset(row.targets)[TFailed] + multiset(row.targets)[TRunning] <= row.cfg.maxFailures + row.cfg.concurrency
    && (Rank(row.status) <= 2 || row.status == Rejected ==> forall i :: 0 <= i < |row.targets| ==> row.targets[i] == TPending)
    && (Rank(row.status) == 4 && row.status != Rejected ==> forall i :: 0 <= i < |row.targets| ==> !Undone(row.targets[i]))
    && (row.status == Succeeded ==> forall i :: 0 <= i < |row.targets| ==> row.targets[i] == TSucceeded)
    && (row.status == Partial ==> ok > 0 && exists i :: 0 <= i < |row.targets| && row.targets[i] != TSucceeded)
  }

  /** Every stored canary succeeded. */
  ghost predicate CanariesOk(row: Row) {
    forall j :: 0 <= j < Min(row.cfg.canary, |row.targets|) ==> row.targets[j] == TSucceeded
  }

  /** No other target ran unless every canary succeeded. */
  ghost predicate GateOk(row: Row) {
    forall i :: Min(row.cfg.canary, |row.targets|) <= i < |row.targets| && Ran(row.targets[i]) ==> CanariesOk(row)
  }

  ghost predicate RowOk(row: Row) { VotesOk(row) && TargetsOk(row) && GateOk(row) }

  /** What no request and no execution ever changes. */
  predicate SameRequest(row: Row, row': Row) {
    row'.required == row.required && row'.creator == row.creator && row'.cfg == row.cfg && row'.devices == row.devices
  }

  /** The row moved forward in its lifecycle or not at all, and kept its votes once approved. */
  predicate Forward(row: Row, row': Row) {
    && SameRequest(row, row')
    && (row'.status == row.status || Rank(row'.status) > Rank(row.status))
    && (Rank(row.status) >= 2 ==> row'.votes == row.votes)
    && (Rank(row.status) >= 2 && row.status != Rejected ==> row'.status != Rejected)
  }

  lemma {:induction false} AllApproveCount(votes: seq<Vote>)
    ensures Approvals(votes) <= |votes|
    ensures AllApprove(votes) ==> Approvals(votes) == |votes|
  {
    if votes != [] {
      AllApproveCount(votes[..|votes| - 1]);
    }
  }

  /** The places of the approving votes. */
  function ApprovingPlaces(votes: seq<Vote>): set<nat> {
    set i: nat | i < |votes| && votes[i].approve
  }

  lemma {:induction false} ApprovalsCount(votes: seq<Vote>)
    ensures Approvals(votes) == |ApprovingPlaces(votes)|
  {
    if votes != [] {
      var init := votes[..|votes| - 1];
      ApprovalsCount(init);
      assert ApprovingPlaces(votes) == ApprovingPlaces(init) + if votes[|votes| - 1].approve then {|votes| - 1} else {};
    }
  }

  lemma SubmitRowOk(row: Row)
    requires RowOk(row)
    ensures SubmitRow(row).Ok? ==> RowOk(SubmitRow(row).value) && Forward(row, SubmitRow(row).value)
    ensures SubmitRow(row) == if row.status != Draft then Err(BadState)
                              else Ok(row.(status := if row.required == 0 then Approved else Pending))
  {}

  lemma NewVoteFair(row: Row, user: int, approve: bool)
    requires FairVotes(row) && row.creator != Some(user) && user !in Voters(row.votes)
    ensures FairVotes(row.(votes := row.votes + [Vote(user, approve)]))
  {
    forall i | 0 <= i < |row.votes| ensures row.votes[i].user != user {
      assert row.votes[i] in row.votes;
    }
  }

  /** After the vote there are as many approvals as votes, or the last vote is the one rejection. */
  lemma NewVoteCount(votes: seq<Vote>, v: Vote)
    requires AllApprove(votes)
    ensures (votes + [v])[..|votes|] == votes
    ensures v.approve ==> AllApprove(votes + [v]) && Approvals(votes + [v]) == |votes| + 1
  {
    AllApproveCount(votes);
    assert (votes + [v])[..|votes|] == votes;
  }

  lemma DecideVotesOk(row: Row, user: int, approve: bool, row': Row)
    requires VotesOk(row) && DecideRow(row, user, approve) == Ok(row')
    ensures VotesOk(row') && row'.votes == row.votes + [Vote(user, approve)]
  {
    NewVoteFair(row, user, approve);
    assert FairVotes(row');
    NewVoteCount(row.votes, Vote(user, approve));
  }

  /** Enough approvals approve a change at exactly the number it needs; one rejection ends it. */
  lemma DecideRowOk(row: Row, user: int, approve: bool, row': Row)
    requires RowOk(row) && DecideRow(row, user, approve) == Ok(row')
    ensures RowOk(row') && Forward(row, row')
  {
    DecideVotesOk(row, user, approve, row');
  }

  /** The user has not voted on the change. */
  ghost predicate NoVoteOf(votes: seq<Vote>, user: int) {
    forall i :: 0 <= i < |votes| ==> votes[i].user != user
  }

  /**
   Exactly which votes are accepted, why the others are refused, and what an accepted one does:
   a rejection ends the change, the approval that makes up the required number approves it.
   */
  lemma DecideRowCases(row: Row, user: int, approve: bool)
    requires RowOk(row)
    ensures DecideRow(row, user, approve).Ok? <==>
      row.status == Pending && row.creator != Some(user) && NoVoteOf(row.votes, user)
    ensures var r := DecideRow(row, user, approve);
      r.Err? ==>
        r.error == if row.status != Pending then BadState else if row.creator == Some(user) then OwnChange else AlreadyDecided
    ensures var r := DecideRow(row, user, approve);
      r.Ok? ==>
        r.value == row.(votes := row.votes + [Vote(user, approve)],
                        status := if !approve then Rejected
                                  else if |row.votes| + 1 == row.required then Approved else Pending)
  {
    assert user in Voters(row.votes) <==> exists v :: v in row.votes && v.user == user;
    if !NoVoteOf(row.votes, user) {
      var i :| 0 <= i < |row.votes| && row.votes[i].user == user;
      assert row.votes[i] in row.votes;
    }
    if row.status == Pending {
      NewVoteCount(row.votes, Vote(user, approve));
    }
  }

  /** The users approve the change one after the other. */
  function ApprovedBy(row: Row, users: seq<int>): Result<Row, Error> {
    if users == [] then Ok(row)
    else
      var before := ApprovedBy(row, users[..|users| - 1]);
      if before.Err? then before else DecideRow(before.value, users[|users| - 1], true)
  }

  /** Different users, none of them the creator and none of whom has voted yet. */
  ghost predicate MayApprove(row: Row, users: seq<int>) {
    && Distinct(users)
    && forall i :: 0 <= i < |users| ==> row.creator != Some(users[i]) && NoVoteOf(row.votes, users[i])
  }

  function ApprovalsOf(users: seq<int>): seq<Vote> {
    seq(|users|, i requires 0 <= i < |users| => Vote(users[i], true))
  }

  /**
   Any further users, as many as approvals are missing, bring a pending change to approved, each
   of their votes being accepted; fewer leave it pending.
   */
  lemma {:induction false} MissingApprovals(row: Row, users: seq<int>)
    requires RowOk(row) && row.status == Pending && MayApprove(row, users) && |row.votes| + |users| <= row.required
    ensures ApprovedBy(row, users) == Ok(row.(
      votes := row.votes + ApprovalsOf(users),
      status := if |row.votes| + |users| == row.required then Approved else Pending))
    decreases |users|
  {
    if users == [] {
      assert row.votes + ApprovalsOf(users) == row.votes;
    } else {
      var init, user := users[..|users| - 1], users[|users| - 1];
      MissingApprovals(row, init);
      var before := ApprovedBy(row, init).value;
      ApprovingOk(row, init, before);
      OneApprovalMore(row, init, user, users);
      DecideRowCases(before, user, true);
    }
  }

  lemma OneApprovalMore(row: Row, init: seq<int>, user: int, users: seq<int>)
    requires users == init + [user] && MayApprove(row, users)
    ensures NoVoteOf(row.votes + ApprovalsOf(init), user)
    ensures row.votes + ApprovalsOf(users) == row.votes + ApprovalsOf(init) + [Vote(user, true)]
  {
    assert users[|init|] == user && forall i :: 0 <= i < |init| ==> users[i] == init[i];
  }

  lemma {:induction false} ApprovingOk(row: Row, users: seq<int>, end: Row)
    requires RowOk(row) && ApprovedBy(row, users) == Ok(end)
    ensures RowOk(end)
    decreases |users|
  {
    if users != [] {
      var before := ApprovedBy(row, users[..|users| - 1]).value;
      ApprovingOk(row, users[..|users| - 1], before);
      DecideRowOk(before, users[|users| - 1], true, end);
    }
  }

  lemma SkippedTally(s: seq<Target>)
    requires forall i :: 0 <= i < |s| ==> s[i] == TPending
    ensures multiset(Sweep(s))[TFailed] == 0 && multiset(Sweep(s))[TRunning] == 0
    ensures forall i :: 0 <= i < |s| ==> Sweep(s)[i] == TSkipped
  {
    assert forall t :: t in Sweep(s) ==> t == TSkipped;
  }

  lemma CancelRowOk(row: Row)
    requires RowOk(row)
    ensures CancelRow(row).Ok? ==> RowOk(CancelRow(row).value) && Forward(row, CancelRow(row).value)
    ensures CancelRow(row) == if Rank(row.status) > 2 then Err(BadState)
                              else Ok(row.(status := Cancelled, targets := seq(|row.targets|, _ => TSkipped)))
  {
    if CancelRow(row).Ok? {
      SkippedTally(row.targets);
      assert Sweep(row.targets) == seq(|row.targets|, _ => TSkipped);
    }
  }

  lemma RunNowRowOk(row: Row)
    requires RowOk(row)
    ensures RunNowRow(row).Ok? ==> RowOk(RunNowRow(row).value) && Forward(row, RunNowRow(row).value)
    ensures RunNowRow(row) == if Rank(row.status) > 2 then Err(BadState) else Ok(row.(mode := RightNow))
  {}

  // ----- restart recovery

  function FailRunning(targets: seq<Target>): seq<Target> {
    seq(|targets|, i requires 0 <= i < |targets| => if targets[i] == TRunning then TFailed else targets[i])
  }

  /** The three UPDATE statements at the start of Run, one row at a time. */
  function RecoverRow(step: nat, row: Row): Row {
    if step == 0 then row.(targets := FailRunning(row.targets))
    else if step == 1 then (if row.status == Running then row.(targets := Sweep(row.targets)) else row)
    else if row.status == Running then row.(status := Failed) else row
  }

  function RecoverRows(step: nat, rows: map<int, Row>): map<int, Row> {
    map id | id in rows :: RecoverRow(step, rows[id])
  }

  /** The first `steps` statements, the whole recovery for steps = 3. */
  function Recovery(steps: nat, rows: map<int, Row>): map<int, Row> {
    if steps == 0 then rows else RecoverRows(steps - 1, Recovery(steps - 1, rows))
  }

  /** Restarts that each crashed after some of the statements, then one that did not. */
  function Restarts(crashes: seq<nat>, rows: map<int, Row>): map<int, Row>
    requires forall i :: 0 <= i < |crashes| ==> crashes[i] <= 3
  {
    if crashes == [] then Recovery(3, rows) else Restarts(crashes[1..], Recovery(crashes[0], rows))
  }

  lemma RecoverPointwise(step: nat, rows: map<int, Row>, rows': map<int, Row>)
    requires rows'.Keys == rows.Keys && forall id :: id in rows ==> rows'[id] == RecoverRow(step, rows[id])
    ensures rows' == RecoverRows(step, rows)
  {
    forall id | id in rows' ensures rows'[id] == RecoverRows(step, rows)[id] {}
  }

  lemma RecoverySteps(rows: map<int, Row>, one: map<int, Row>, two: map<int, Row>)
    requires one == RecoverRows(0, rows) && two == RecoverRows(1, one)
    ensures Recovery(3, rows) == RecoverRows(2, two)
  {
    assert Recovery(0, rows) == rows;
    assert Recovery(1, rows) == one;
    assert Recovery(2, rows) == two;
  }

  /** One row after the whole recovery. */
  function Recovered(row: Row): Row {
    var failed := FailRunning(row.targets);
    if row.status == Running then row.(status := Failed, targets := Sweep(failed)) else row.(targets := failed)
  }

  lemma RecoveryIsRecovered(rows: map<int, Row>)
    ensures Recovery(3, rows) == map id | id in rows :: Recovered(rows[id])
  {
    var one, two, three := Recovery(1, rows), Recovery(2, rows), Recovery(3, rows);
    assert Recovery(0, rows) == rows;
    assert one == RecoverRows(0, rows);
    assert two == RecoverRows(1, one);
    assert three == RecoverRows(2, two);
    forall id | id in rows ensures three[id] == Recovered(rows[id]) {
      assert one[id] == RecoverRow(0, rows[id]) && two[id] == RecoverRow(1, one[id]);
    }
  }

  lemma RowRecoveredAgain(row: Row, k: nat)
    requires k <= 3
    ensures Recovered(if k == 0 then row
                      else if k == 1 then RecoverRow(0, row)
                      else if k == 2 then RecoverRow(1, RecoverRow(0, row))
                      else RecoverRow(2, RecoverRow(1, RecoverRow(0, row)))) == Recovered(row)
  {
    var failed := FailRunning(row.targets);
    assert FailRunning(failed) == failed;
    assert FailRunning(Sweep(failed)) == Sweep(failed);
    assert Sweep(Sweep(failed)) == Sweep(failed);
  }

  lemma RecoveryAgain(rows: map<int, Row>, k: nat)
    requires k <= 3
    ensures Recovery(3, Recovery(k, rows)) == Recovery(3, rows)
  {
    RecoveryIsRecovered(rows);
    var part := Recovery(k, rows);
    RecoveryIsRecovered(part);
    if k >= 1 { assert Recovery(1, rows) == RecoverRows(0, rows); }
    if k >= 2 { assert Recovery(2, rows) == RecoverRows(1, Recovery(1, rows)); }
    if k >= 3 { assert Recovery(3, rows) == RecoverRows(2, Recovery(2, rows)); }
    forall id | id in rows ensures id in part && Recovered(part[id]) == Recovered(rows[id]) {
      RowRecoveredAgain(rows[id], k);
    }
    assert part.Keys == rows.Keys;
  }

  /** No statement of recovery changes a change that is not running. */
  lemma RestIsUntouched(step: nat, row: Row)
    requires RowOk(row) && row.status != Running
    ensures RecoverRow(step, row) == row
  {
    assert FailRunning(row.targets) == row.targets;
  }

  /**
   Recovery converges: however often it is interrupted and between whichever of its
   statements, the restart that gets through leaves what an uninterrupted one leaves.
   */
  lemma {:induction false} RecoveryConverges(crashes: seq<nat>, rows: map<int, Row>)
    requires forall i :: 0 <= i < |crashes| ==> crashes[i] <= 3
    ensures Restarts(crashes, rows) == map id | id in rows :: Recovered(rows[id])
    decreases |crashes|
  {
    RecoveryIsRecovered(rows);
    if crashes != [] {
      var part := Recovery(crashes[0], rows);
      RecoveryConverges(crashes[1..], part);
      RecoveryIsRecovered(part);
      RecoveryAgain(rows, crashes[0]);
    }
  }

  /**
   What recovery does to a stored row: a running change fails with every target decided,
   any other change is left exactly as it was.
   */
  lemma RecoveredRow(row: Row)
    requires RowOk(row)
    ensures row.status != Running ==> Recovered(row) == row
    ensures row.status == Running ==>
      && Recovered(row).status == Failed
      && |Recovered(row).targets| == |row.targets|
      && forall i :: 0 <= i < |row.targets| ==>
           Recovered(row).targets[i] == (match row.targets[i] case TRunning => TFailed case TPending => TSkipped case t => t)
  {
    if row.status != Running {
      assert FailRunning(row.targets) == row.targets;
    }
  }
}
