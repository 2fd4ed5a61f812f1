/** A project row and the lifecycle services that update it in place. */
module ProjectServices {
  import opened Common
  import opened Lifecycle

  class ProjectRow {
    var status: Status
    var fields: Fields
    var versions: seq<Version>
    var currentVersion: Option<nat>
    var archivedAt: Option<int>
    var reviews: seq<Review>
    var audit: seq<AuditEvent>

    function View(): Project reads this {
      Project(status, fields, versions, currentVersion, archivedAt, reviews, audit)
    }

    constructor (fields: Fields)
      ensures View() == NewDraft(fields)
    {
      status, this.fields, versions, currentVersion := Draft, fields, [], None;
      archivedAt, reviews, audit := None, [], [];
    }

    method CreateVersion()
      modifies this`versions
      ensures View() == WithVersion(old(View()))
    {
      var number := if versions == [] then 1 else versions[|versions| - 1].number + 1;
      versions := versions + [Version(number, fields, false)];
    }

    method AddReview(decision: Decision, to: Status)
      requires versions != []
      modifies this`reviews
      ensures View() == Reviewed(old(View()), decision, to)
    {
      reviews := reviews + [Review(decision, versions[|versions| - 1].number, status, to)];
    }

    method ChangeStatus(to: Status, action: Action, now: int)
      modifies this`status, this`archivedAt, this`audit
      ensures View() == Moved(old(View()), to, action, now)
    {
      var before := status;
      status := to;
      if to.Archived? { archivedAt := Some(now); }
      audit := audit + [AuditEvent(action, before, status)];
    }

    method PerformTransition(to: Status, action: Action, now: int) returns (r: Outcome)
      modifies this`status, this`archivedAt, this`audit
      ensures (View(), r) == Transition(old(View()), to, action, now)
    {
      if to !in Transitions(status) { return Err(TransitionNotAllowed); }
      ChangeStatus(to, action, now);
      return Ok(());
    }

    method SubmitForReview(authorized: bool, now: int) returns (r: Outcome)
      modifies this
      ensures (View(), r) == Submit(old(View()), authorized, now)
    {
      if !authorized { return Err(Unauthorized); }
      if !Complete(fields) { return Err(NotComplete); }
      CreateVersion();
      r := PerformTransition(InReview, Submitted, now);
    }

    method ResubmitForReview(authorized: bool, now: int) returns (r: Outcome)
      modifies this
      ensures (View(), r) == Resubmit(old(View()), authorized, now)
    {
      if !authorized { return Err(Unauthorized); }
      if !status.ChangesRequested? { return Err(TransitionNotAllowed); }
      CreateVersion();
      r := PerformTransition(InReview, Resubmitted, now);
    }

    method RecordDecision(decision: Decision, to: Status, action: Action, now: int) returns (r: Outcome)
      requires versions != []
      modifies this
      ensures (View(), r) == Transition(Reviewed(old(View()), decision, to), to, action, now)
    {
      AddReview(decision, to);
      r := PerformTransition(to, action, now);
    }

    /** Shared course of `request_changes`, `reject_submission`, `approve` and `revoke_approval`. */
    method DecideSubmission(authorized: bool, from: Status, to: Status, decision: Decision, action: Action,
                            argumentValid: bool, now: int) returns (r: Outcome)
      modifies this
      ensures (View(), r) == Decide(old(View()), authorized, from, to, decision, action, argumentValid, now)
    {
      var refusal := Refusal(View(), authorized, from, argumentValid);
      if refusal.Some? { return Err(refusal.value); }
      r := RecordDecision(decision, to, action, now);
    }

    method ServeLatest(reviewed: bool, action: Action)
      requires versions != []
      modifies this
      ensures View() == Published(old(View()), reviewed, action)
    {
      var before, last := status, versions[|versions| - 1];
      status := Open;
      currentVersion := Some(last.number);
      versions := versions[|versions| - 1 := last.(published := true)];
      if reviewed { reviews := reviews + [Review(PublishedIt, last.number, before, Open)]; }
      audit := audit + [AuditEvent(action, before, status)];
    }

    method PublishApproved(authorized: bool, ready: bool) returns (r: Outcome)
      modifies this
      ensures (View(), r) == Publish(old(View()), authorized, ready)
    {
      if !authorized { return Err(Unauthorized); }
      if !status.Approved? { return Err(TransitionNotAllowed); }
      if !ready { return Err(NotReady); }
      if versions == [] { return Err(NoVersion); }
      ServeLatest(true, Publication);
      return Ok(());
    }

    method PublishWhenDue(due: bool, ready: bool) returns (r: Outcome)
      modifies this
      ensures (View(), r) == PublishDue(old(View()), due, ready)
    {
      if !status.Approved? || !due { return Ok(()); }
      if !ready { return Err(NotReady); }
      if versions == [] { return Err(NoVersion); }
      ServeLatest(false, Publication);
      return Ok(());
    }

    method PublishDirectly(authorized: bool, ready: bool) returns (r: Outcome)
      modifies this
      ensures (View(), r) == PublishByPublisher(old(View()), authorized, ready)
    {
      if !authorized { return Err(Unauthorized); }
      if !status.Draft? { return Err(TransitionNotAllowed); }
      if !ready { return Err(NotReady); }
      CreateVersion();
      ServeLatest(true, PublisherPublication);
      return Ok(());
    }

    /** Applies the changes one by one; a material one on a public project sends it back to review. */
    method ApplyEdit(authorized: bool, changes: seq<Change>) returns (r: Outcome)
      modifies this
      ensures (View(), r) == Edit(old(View()), authorized, changes)
    {
      if !authorized { return Err(Unauthorized); }
      if status !in EDITABLE_STATES { return Err(Closed); }
      if !Known(changes) { return Err(UnknownField); }
      var changedMaterial := false;
      for i := 0 to |changes|
        invariant View() == old(View()).(fields := FieldsAfter(old(fields), changes, i))
        invariant changedMaterial <==> MaterialAmong(old(fields), changes, i)
      {
        var c := changes[i];
        if c.field in MATERIAL && Differs(fields, c) { changedMaterial := true; }
        fields := fields[c.field := c.value];
      }
      if changedMaterial && status in REVIEW_ON_EDIT {
        CreateVersion();
        audit := audit + [AuditEvent(MaterialEdit, status, InReview)];
        status := InReview;
      }
      return Ok(());
    }

    method SaveCompletionSummary(authorized: bool, valid: bool, outcome: string) returns (r: Outcome)
      modifies this
      ensures (View(), r) == SaveSummary(old(View()), authorized, valid, outcome)
    {
      if !authorized { return Err(Unauthorized); }
      if status !in {Open, Paused} { return Err(Closed); }
      if !valid { return Err(SummaryInvalid); }
      fields := fields[OutcomeSummary := outcome];
      audit := audit + [AuditEvent(SummaryUpdated, status, status)];
      return Ok(());
    }

    method PauseProject(authorized: bool, now: int) returns (r: Outcome)
      modifies this
      ensures (View(), r) == Pause(old(View()), authorized, now)
    {
      if !authorized { return Err(Unauthorized); }
      r := PerformTransition(Paused, Pausing, now);
    }

    method ResumeProject(authorized: bool, now: int) returns (r: Outcome)
      modifies this
      ensures (View(), r) == Resume(old(View()), authorized, now)
    {
      if !authorized { return Err(Unauthorized); }
      if status in {Completed, Cancelled} { return Err(TransitionNotAllowed); }
      r := PerformTransition(Open, Resuming, now);
    }

    method CompleteProject(authorized: bool, summaryValid: bool, now: int) returns (r: Outcome)
      modifies this
      ensures (View(), r) == Finish(old(View()), authorized, summaryValid, now)
    {
      if !authorized { return Err(Unauthorized); }
      if !summaryValid { return Err(SummaryInvalid); }
      r := PerformTransition(Completed, Completion, now);
    }

    method CancelProject(authorized: bool, reason: string, now: int) returns (r: Outcome)
      modifies this
      ensures (View(), r) == Cancel(old(View()), authorized, reason, now)
    {
      if !authorized { return Err(Unauthorized); }
      if reason != "" { fields := fields[OutcomeSummary := reason]; }
      r := PerformTransition(Cancelled, Cancellation, now);
    }

    method ArchiveProject(authorized: bool, reason: string, now: int) returns (r: Outcome)
      modifies this
      ensures (View(), r) == Archive(old(View()), authorized, reason, now)
    {
      if !authorized { return Err(Unauthorized); }
      if reason != "" { fields := fields[ArchiveReason := reason]; }
      r := PerformTransition(Archived, Archival, now);
    }

    method RestoreProject(authorized: bool, to: Option<Status>, now: int) returns (r: Outcome)
      modifies this
      ensures (View(), r) == Restore(old(View()), authorized, to, now)
    {
      if !authorized { return Err(Unauthorized); }
      if !status.Archived? { return Err(TransitionNotAllowed); }
      var target := to;
      if target.None? { target := PriorStatus(audit, |audit|); }
      if target.None? || target.value !in RESTORE_TARGETS { return Err(BadRestoreTarget); }
      if versions == [] { return Err(NoVersion); }
      AddReview(RestoredIt, target.value);
      archivedAt := None;
      ChangeStatus(target.value, Restoration, now);
      return Ok(());
    }

    method ReopenProject(authorized: bool, ready: bool, now: int) returns (r: Outcome)
      modifies this
      ensures (View(), r) == Reopen(old(View()), authorized, ready, now)
    {
      if !authorized { return Err(Unauthorized); }
      if status !in {Completed, Cancelled} { return Err(TransitionNotAllowed); }
      if !ready { return Err(NotReady); }
      r := PerformTransition(Open, Reopening, now);
    }
  }
}
