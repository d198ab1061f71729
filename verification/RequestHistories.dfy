/**
 What the requests of a history have made of a change: its votes, its run mode and, until
 the scheduler starts it, its status, all told from the requests that were accepted.
 */
module RequestHistories {
  import opened Common
  import opened Execution
  import opened Workflow
  import opened Engine
  import opened EngineRuns
  import opened RolloutHistories

  /** The votes on a change in their order. */
  function Ballots(es: seq<Engine.Event>, id: int): seq<Workflow.Vote> {
    if es == [] then []
    else
      var e := es[|es| - 1];
      Ballots(es[..|es| - 1], id) + if e.Vote? && e.id == id then [Workflow.Vote(e.user, e.approve)] else []
  }

  /** The status that the requests alone lead to. */
  function Stage(es: seq<Engine.Event>, id: int, required: nat): Status {
    var ballots := Ballots(es, id);
    if Withdraw(id) in es then Cancelled
    else if ballots != [] && !ballots[|ballots| - 1].approve then Rejected
    else if Submit(id) !in es then Draft
    else if |ballots| < required then Pending
    else Approved
  }

  /** The row is what the requests made of the change created as `made`, unless it was started since. */
  ghost predicate Requested(es: seq<Engine.Event>, row: Row, id: int, made: Row) {
    && SameRequest(made, row) && row.runAt == made.runAt
    && row.votes == Ballots(es, id)
    && row.mode == (if RunNow(id) in es then RightNow else made.mode)
    && (row.status == Stage(es, id, made.required)
        || (Stage(es, id, made.required) == Approved && Rank(row.status) >= 3 && row.status != Rejected))
  }

  predicate Request(e: Engine.Event, id: int) {
    (e.Submit? || e.Vote? || e.Withdraw? || e.RunNow?) && e.id == id
  }

  lemma BallotsNext(es: seq<Engine.Event>, e: Engine.Event, id: int)
    ensures Ballots(es + [e], id)
         == Ballots(es, id) + if e.Vote? && e.id == id then [Workflow.Vote(e.user, e.approve)] else []
  {
    assert (es + [e])[..|es|] == es;
  }

  lemma StageKept(es: seq<Engine.Event>, e: Engine.Event, id: int, required: nat)
    requires !Request(e, id)
    ensures Stage(es + [e], id, required) == Stage(es, id, required) && Ballots(es + [e], id) == Ballots(es, id)
    ensures RunNow(id) in es + [e] <==> RunNow(id) in es
  {
    BallotsNext(es, e, id);
    assert Ballots(es, id) + [] == Ballots(es, id);
  }

  lemma RequestedSubmit(es: seq<Engine.Event>, row: Row, row': Row, id: int, made: Row)
    requires Requested(es, row, id, made) && row.status == Draft && row.votes == []
    requires row' == row.(status := if row.required == 0 then Approved else Pending)
    ensures Requested(es + [Submit(id)], row', id, made)
  {
    BallotsNext(es, Submit(id), id);
  }

  lemma RequestedVote(es: seq<Engine.Event>, row: Row, row': Row, id: int, made: Row, user: int, approve: bool)
    requires Requested(es, row, id, made) && row.status == Pending && |row.votes| < row.required
    requires row' == row.(votes := row.votes + [Workflow.Vote(user, approve)],
                          status := if !approve then Rejected
                                    else if |row.votes| + 1 == row.required then Approved else Pending)
    ensures Requested(es + [Engine.Vote(id, user, approve)], row', id, made)
  {
    BallotsNext(es, Engine.Vote(id, user, approve), id);
  }

  lemma RequestedWithdraw(es: seq<Engine.Event>, row: Row, row': Row, id: int, made: Row)
    requires Requested(es, row, id, made)
    requires row' == row.(status := Cancelled, targets := row'.targets)
    ensures Requested(es + [Withdraw(id)], row', id, made)
  {
    BallotsNext(es, Withdraw(id), id);
  }

  lemma RequestedRunNow(es: seq<Engine.Event>, row: Row, row': Row, id: int, made: Row)
    requires Requested(es, row, id, made) && row' == row.(mode := RightNow)
    ensures Requested(es + [RunNow(id)], row', id, made)
  {
    BallotsNext(es, RunNow(id), id);
  }

  lemma RequestedNext(es: seq<Engine.Event>, row: Row, s: State, e: Engine.Event, s': State, id: int, made: Row)
    requires RowOk(row) && Engine.Next(s, e) == Some(s') && id in s.rows && s.rows[id] == row && Request(e, id)
    requires Requested(es, row, id, made)
    ensures id in s'.rows && Requested(es + [e], s'.rows[id], id, made)
  {
    match e
    case Submit(_) =>
      SubmitRowOk(row);
      RequestedSubmit(es, row, SubmitRow(row).value, id, made);
    case Vote(_, user, approve) =>
      DecideRowCases(row, user, approve);
      RequestedVote(es, row, DecideRow(row, user, approve).value, id, made, user, approve);
    case Withdraw(_) =>
      CancelRowOk(row);
      RequestedWithdraw(es, row, CancelRow(row).value, id, made);
    case RunNow(_) =>
      RunNowRowOk(row);
      RequestedRunNow(es, row, RunNowRow(row).value, id, made);
  }

  /** Whatever is no request on the change keeps its votes and mode; its status at most goes on from approved. */
  lemma OtherKeeps(s: State, e: Engine.Event, s': State, id: int)
    requires Engine.Inv(s) && Engine.Next(s, e) == Some(s') && id in s.rows && !Request(e, id)
    ensures id in s'.rows
    ensures var row, row' := s.rows[id], s'.rows[id];
      && row'.votes == row.votes && row'.mode == row.mode && row'.runAt == row.runAt && SameRequest(row, row')
      && (row'.status == row.status || (row.status in {Approved, Running} && Rank(row'.status) >= 3 && row'.status != Rejected))
  {
    assert RowOk(s.rows[id]);
    if !Names(s, e, id) {
      OtherEvents(s, e, s', id);
    } else if e.Step? {
      StepExec(s, id, e.e, s');
    }
  }

  lemma RequestedKept(es: seq<Engine.Event>, s: State, e: Engine.Event, s': State, id: int, made: Row)
    requires Engine.Inv(s) && Engine.Next(s, e) == Some(s') && id in s.rows && !Request(e, id)
    requires Requested(es, s.rows[id], id, made)
    ensures id in s'.rows && Requested(es + [e], s'.rows[id], id, made)
  {
    OtherKeeps(s, e, s', id);
    StageKept(es, e, id, made.required);
  }

  lemma RequestedMade(es: seq<Engine.Event>, made: Row, id: int)
    requires NewRow(made) && forall k :: 0 <= k < |es| ==> !Request(es[k], id)
    ensures Requested(es + [Engine.Create(id, made)], made, id, made)
  {
    NoBallots(es, id);
    StageKept(es, Engine.Create(id, made), id, made.required);
  }

  lemma {:induction false} NoBallots(es: seq<Engine.Event>, id: int)
    requires forall k :: 0 <= k < |es| ==> !Request(es[k], id)
    ensures Ballots(es, id) == []
  {
    if es != [] {
      NoBallots(es[..|es| - 1], id);
    }
  }

  /** Nothing is asked of a change that does not exist yet. */
  lemma {:induction false} NotAskedYet(es: seq<Engine.Event>, s: State, id: int)
    requires History(es, s) && id !in s.rows
    ensures forall k :: 0 <= k < |es| ==> !Request(es[k], id)
    decreases |es|
  {
    if es != [] {
      var before := Last(es, s);
      StepForward(before, es[|es| - 1], s);
      NotAskedYet(es[..|es| - 1], before, id);
      OnlyExisting(before, es[|es| - 1], s, id);
    }
  }

  lemma OnlyExisting(s: State, e: Engine.Event, s': State, id: int)
    requires Engine.Next(s, e) == Some(s') && id !in s.rows
    ensures !Request(e, id) && (id in s'.rows ==> e == Engine.Create(id, s'.rows[id]) && NewRow(s'.rows[id]))
  {}

  /**
   In every history a change has exactly the accepted votes, in their order, the run mode it
   was created with unless it was told to run now, and the status its requests lead to, unless
   they led to approved and the scheduler started it.
   */
  lemma {:induction false} StatusIsRequested(es: seq<Engine.Event>, s: State, id: int) returns (made: Row)
    requires History(es, s) && id in s.rows
    ensures Engine.Create(id, made) in es && NewRow(made) && Requested(es, s.rows[id], id, made)
    decreases |es|
  {
    assert es != [];
    var init, e := es[..|es| - 1], es[|es| - 1];
    var before := Last(es, s);
    if id in before.rows {
      made := StatusIsRequested(init, before, id);
      if Request(e, id) {
        assert RowOk(before.rows[id]);
        RequestedNext(init, before.rows[id], before, e, s, id, made);
      } else {
        RequestedKept(init, before, e, s, id, made);
      }
    } else {
      made := s.rows[id];
      OnlyExisting(before, e, s, id);
      NotAskedYet(init, before, id);
      RequestedMade(init, made, id);
    }
  }

  lemma Takes(s: State, id: int, user: int, approve: bool)
    requires id in s.rows
    ensures Engine.Next(s, Submit(id)).Some? <==> SubmitRow(s.rows[id]).Ok?
    ensures Engine.Next(s, Engine.Vote(id, user, approve)).Some? <==> DecideRow(s.rows[id], user, approve).Ok?
    ensures Engine.Next(s, Withdraw(id)).Some? <==> CancelRow(s.rows[id]).Ok?
    ensures Engine.Next(s, RunNow(id)).Some? <==> RunNowRow(s.rows[id]).Ok?
    ensures Engine.Next(s, AskCancel(id)).Some? <==> s.rows[id].status == Running
  {}

  lemma RowTakes(row: Row, user: int, approve: bool)
    requires RowOk(row)
    ensures SubmitRow(row).Ok? <==> row.status == Draft
    ensures DecideRow(row, user, approve).Ok? <==>
      row.status == Pending && row.creator != Some(user) && forall v :: v in row.votes ==> v.user != user
    ensures CancelRow(row).Ok? <==> row.status in {Draft, Pending, Approved}
    ensures RunNowRow(row).Ok? <==> row.status in {Draft, Pending, Approved}
  {
    SubmitRowOk(row);
    DecideRowCases(row, user, approve);
    CancelRowOk(row);
    RunNowRowOk(row);
    assert NoVoteOf(row.votes, user) <==> forall v :: v in row.votes ==> v.user != user;
  }

  lemma ValidRow(es: seq<Engine.Event>, s: State, id: int)
    requires History(es, s) && id in s.rows
    ensures RowOk(s.rows[id])
  {
    HistoryInv(es, s);
  }

  /** Which requests a history accepts next. */
  lemma AcceptedIff(es: seq<Engine.Event>, s: State, id: int, user: int, approve: bool)
    requires History(es, s) && id in s.rows
    ensures Engine.Next(s, Submit(id)).Some? <==> s.rows[id].status == Draft
    ensures Engine.Next(s, Engine.Vote(id, user, approve)).Some? <==>
      s.rows[id].status == Pending && s.rows[id].creator != Some(user)
      && forall v :: v in Ballots(es, id) ==> v.user != user
    ensures Engine.Next(s, Withdraw(id)).Some? <==> s.rows[id].status in {Draft, Pending, Approved}
    ensures Engine.Next(s, RunNow(id)).Some? <==> s.rows[id].status in {Draft, Pending, Approved}
    ensures Engine.Next(s, AskCancel(id)).Some? <==> s.rows[id].status == Running
  {
    ValidRow(es, s, id);
    var made := StatusIsRequested(es, s, id);
    RowTakes(s.rows[id], user, approve);
    Takes(s, id, user, approve);
  }

  // ----- the cancel flag

  /** Change id was flagged and neither its execution nor a crash has cleared the flag since. */
  ghost predicate Flagged(es: seq<Engine.Event>, id: int) {
    exists j :: 0 <= j < |es| && es[j] == FlagCancel(id)
      && forall k :: j < k < |es| ==> es[k] != Step(id, ClearCancel) && es[k] != Crash
  }

  lemma FlaggedNext(es: seq<Engine.Event>, e: Engine.Event, id: int)
    ensures Flagged(es + [e], id) <==>
      e == FlagCancel(id) || (Flagged(es, id) && e != Step(id, ClearCancel) && e != Crash)
  {
    var all := es + [e];
    if e == FlagCancel(id) {
      assert all[|es|] == FlagCancel(id);
    } else if Flagged(es, id) && e != Step(id, ClearCancel) && e != Crash {
      var j :| 0 <= j < |es| && es[j] == FlagCancel(id)
        && forall k :: j < k < |es| ==> es[k] != Step(id, ClearCancel) && es[k] != Crash;
      assert all[j] == FlagCancel(id);
    }
    if Flagged(all, id) && e != FlagCancel(id) {
      var j :| 0 <= j < |all| && all[j] == FlagCancel(id)
        && forall k :: j < k < |all| ==> all[k] != Step(id, ClearCancel) && all[k] != Crash;
      assert es[j] == FlagCancel(id);
      assert all[|es|] == e;
      assert forall k :: j < k < |es| ==> es[k] == all[k];
    }
  }

  lemma FlagNext(s: State, e: Engine.Event, s': State, id: int)
    requires Engine.Next(s, e) == Some(s')
    ensures id in s'.cancel <==> e == FlagCancel(id) || (id in s.cancel && e != Step(id, ClearCancel) && e != Crash)
  {}

  /** The cancel flag of a change is set exactly while a request for it has not been cleared. */
  lemma {:induction false} FlagIsPending(es: seq<Engine.Event>, s: State, id: int)
    requires History(es, s)
    ensures id in s.cancel <==> Flagged(es, id)
    decreases |es|
  {
    if es != [] {
      var init, e := es[..|es| - 1], es[|es| - 1];
      var before := Last(es, s);
      FlagIsPending(init, before, id);
      FlagNext(before, e, s, id);
      FlaggedNext(init, e, id);
      assert es == init + [e];
    }
  }
}
