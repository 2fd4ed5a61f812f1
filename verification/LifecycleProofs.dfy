/** What every run of the lifecycle keeps: reviewed material, immutable versions, archive and restore. */
module LifecycleProofs {
  import opened Common
  import opened Lifecycle

  /** Both agree on every field whose change needs review. */
  ghost predicate SameMaterial(a: Fields, b: Fields) {
    forall f | f in MATERIAL :: Get(a, f) == Get(b, f)
  }

  predicate Public(s: Status) { s in {Open, Paused, Completed, Cancelled, Archived} }

  predicate UnderReview(s: Status) { s in {InReview, Approved} }

  /** The version a review or the project refers to exists. */
  predicate Numbered(p: Project, number: nat) { 1 <= number <= |p.versions| }

  ghost predicate MaterialOf(p: Project, number: nat)
    requires Numbered(p, number)
  {
    SameMaterial(p.fields, p.versions[number - 1].snapshot)
  }

  ghost predicate VersionsOk(p: Project) {
    && (forall i | 0 <= i < |p.versions| :: p.versions[i].number == i + 1)
    && (forall r | r in p.reviews :: Numbered(p, r.version))
    && (p.currentVersion.Some? ==> Numbered(p, p.currentVersion.value))
  }

  /** While under review the live material is the latest version's, which is newer than anything ever served. */
  ghost predicate ReviewOk(p: Project)
    requires VersionsOk(p)
  {
    UnderReview(p.status) ==>
      && p.versions != [] && MaterialOf(p, |p.versions|)
      && (p.currentVersion.Some? ==> p.currentVersion.value < |p.versions|)
  }

  /** While approved, every version since the approved one carries the live material. */
  ghost predicate ApprovalOk(p: Project)
    requires VersionsOk(p)
  {
    p.status.Approved? ==>
      && p.reviews != [] && ApprovalReview(p).decision.ApprovedIt?
      && (p.currentVersion.Some? ==> p.currentVersion.value < ApprovalReview(p).version)
      && (forall n | ApprovalReview(p).version <= n <= |p.versions| :: Numbered(p, n) && MaterialOf(p, n))
  }

  function ApprovalReview(p: Project): Review
    requires p.reviews != []
  {
    p.reviews[|p.reviews| - 1]
  }

  /** While public, the served version carries the live material and is no older than any approval. */
  ghost predicate ServedOk(p: Project)
    requires VersionsOk(p)
  {
    Public(p.status) ==>
      && p.currentVersion.Some? && MaterialOf(p, p.currentVersion.value)
      && (forall r | r in p.reviews && r.decision.ApprovedIt? :: r.version <= p.currentVersion.value)
  }

  predicate ArchiveOk(p: Project) {
    && (p.status.Archived? <==> p.archivedAt.Some?)
    && (p.status.Archived? ==>
          PriorStatus(p.audit, |p.audit|).Some? && PriorStatus(p.audit, |p.audit|).value in RESTORE_TARGETS)
  }

  ghost predicate Live(p: Project) {
    VersionsOk(p) && ReviewOk(p) && ApprovalOk(p) && ServedOk(p) && ArchiveOk(p)
  }

  lemma DraftIsLive(fields: Fields)
    ensures Live(NewDraft(fields))
  {}

  // ---- Edits ----

  /** An edit that is not flagged as material leaves every material field as it was. */
  lemma {:induction false} UnflaggedEditKeepsMaterial(fields: Fields, changes: seq<Change>, n: nat)
    requires n <= |changes| && !MaterialAmong(fields, changes, n)
    ensures SameMaterial(fields, FieldsAfter(fields, changes, n))
  {
    if n > 0 { UnflaggedEditKeepsMaterial(fields, changes, n - 1); }
  }

  /** A material field ends up different only through a flagged change: what the rule watches is what it protects. */
  lemma {:induction false} MaterialDifferenceIsFlagged(fields: Fields, changes: seq<Change>, f: Field)
    requires f in MATERIAL && Get(fields, f) != Get(FieldsAfter(fields, changes, |changes|), f)
    ensures MaterialAmong(fields, changes, |changes|)
  {
    if !MaterialAmong(fields, changes, |changes|) { UnflaggedEditKeepsMaterial(fields, changes, |changes|); }
  }

  // ---- Building blocks ----

  /** A new version of the current fields keeps every earlier reference and carries the live material. */
  lemma VersionAdded(p: Project)
    requires VersionsOk(p)
    ensures var q := WithVersion(p);
            VersionsOk(q) && |q.versions| == |p.versions| + 1 && MaterialOf(q, |q.versions|)
            && forall n | Numbered(p, n) :: q.versions[n - 1] == p.versions[n - 1]
  {}

  lemma PriorSkips(audit: seq<AuditEvent>, e: AuditEvent)
    ensures PriorStatus(audit + [e], |audit| + 1) ==
            if e.action.Archival? then Some(e.before) else PriorStatus(audit, |audit|)
  {
    PriorPrefix(audit, [e], |audit|);
  }

  lemma {:induction false} PriorPrefix(audit: seq<AuditEvent>, more: seq<AuditEvent>, n: nat)
    requires n <= |audit|
    ensures PriorStatus(audit + more, n) == PriorStatus(audit, n)
  {
    if n > 0 { PriorPrefix(audit, more, n - 1); }
  }

  /** Changing fields outside the material ones. */
  lemma OtherFieldsChange(p: Project, fields: Fields)
    requires Live(p) && SameMaterial(p.fields, fields)
    ensures Live(p.(fields := fields))
  {
    var q := p.(fields := fields);
    forall n | Numbered(p, n) ensures MaterialOf(p, n) <==> MaterialOf(q, n) {}
    hide MaterialOf, SameMaterial;
  }

  // ---- One lemma a family of calls ----

  lemma SubmitKeepsLive(p: Project, authorized: bool, now: int)
    requires Live(p)
    ensures Live(Submit(p, authorized, now).0) && Live(Resubmit(p, authorized, now).0)
  {
    hide SameMaterial, Complete;
    VersionAdded(p);
    var q := WithVersion(p);
    assert Live(q) by {
      assert p.status.Approved? ==> ApprovalReview(q) == ApprovalReview(p);
      forall n | Numbered(p, n) && MaterialOf(p, n) ensures MaterialOf(q, n) {}
    }
    PriorSkips(q.audit, AuditEvent(Submitted, q.status, InReview));
    PriorSkips(q.audit, AuditEvent(Resubmitted, q.status, InReview));
  }

  lemma DecideKeepsLive(p: Project, authorized: bool, to: Status, decision: Decision, action: Action, valid: bool,
                        now: int)
    requires Live(p)
    requires to in {ChangesRequested, Approved, Draft} && (decision.ApprovedIt? <==> to.Approved?) && !action.Archival?
    ensures Live(Decide(p, authorized, InReview, to, decision, action, valid, now).0)
  {
    hide SameMaterial;
    PriorSkips(p.audit, AuditEvent(action, p.status, to));
  }

  lemma RevokeKeepsLive(p: Project, authorized: bool, valid: bool, now: int)
    requires Live(p)
    ensures Live(Decide(p, authorized, Approved, ChangesRequested, RevokedIt, ApprovalRevoked, valid, now).0)
  {
    hide SameMaterial;
    PriorSkips(p.audit, AuditEvent(ApprovalRevoked, p.status, ChangesRequested));
  }

  /** Serving the latest version, where it carries the live material. */
  lemma ServingKeepsLive(p: Project, reviewed: bool, action: Action)
    requires VersionsOk(p) && p.versions != [] && MaterialOf(p, |p.versions|) && p.archivedAt.None? && !action.Archival?
    ensures Live(Published(p, reviewed, action))
  {
    var q := Published(p, reviewed, action);
    PriorSkips(p.audit, AuditEvent(action, p.status, Open));
    assert q.versions[|p.versions| - 1].snapshot == p.versions[|p.versions| - 1].snapshot;
    forall r | r in q.reviews ensures Numbered(q, r.version) {
      assert r in p.reviews || r == q.reviews[|q.reviews| - 1];
    }
  }

  lemma PublishKeepsLive(p: Project, authorized: bool, due: bool, ready: bool)
    requires Live(p)
    ensures Live(Publish(p, authorized, ready).0) && Live(PublishDue(p, due, ready).0)
    ensures Live(PublishByPublisher(p, authorized, ready).0)
  {
    if p.status.Approved? {
      ServingKeepsLive(p, true, Publication);
      ServingKeepsLive(p, false, Publication);
    }
    if p.status.Draft? {
      VersionAdded(p);
      ServingKeepsLive(WithVersion(p), true, PublisherPublication);
    }
  }

  lemma EditKeepsLive(p: Project, authorized: bool, changes: seq<Change>)
    requires Live(p)
    ensures Live(Edit(p, authorized, changes).0)
  {
    hide SameMaterial, FieldsAfter, MaterialAmong;
    var fields := FieldsAfter(p.fields, changes, |changes|);
    var q := p.(fields := fields);
    if MaterialAmong(p.fields, changes, |changes|) {
      if p.status in REVIEW_ON_EDIT {
        VersionAdded(q);
        PriorSkips(p.audit, AuditEvent(MaterialEdit, p.status, InReview));
      }
    } else {
      UnflaggedEditKeepsMaterial(p.fields, changes, |changes|);
      OtherFieldsChange(p, fields);
    }
  }

  /** A move from one public status to another. */
  lemma MoveKeepsLive(p: Project, to: Status, action: Action, now: int)
    requires Live(p) && Public(p.status) && Public(to)
    requires to.Archived? <==> action.Archival?
    requires to.Archived? ==> p.status in RESTORE_TARGETS
    requires !to.Archived? ==> !p.status.Archived?
    ensures Live(Moved(p, to, action, now))
  {
    PriorSkips(p.audit, AuditEvent(action, p.status, to));
  }

  /** The one call that does not keep the invariant: resuming an approved project. */
  predicate ResumesApproved(p: Project, c: Call) { c.op.DoResume? && c.authorized && p.status.Approved? }

  lemma TransitionKeepsLive(p: Project, to: Status, action: Action, now: int)
    requires Live(p) && to in {Open, Paused, Completed, Cancelled, Archived}
    requires to.Archived? <==> action.Archival?
    requires p.status.Approved? ==> !to.Open?
    ensures Live(Transition(p, to, action, now).0)
  {
    if to in Transitions(p.status) { MoveKeepsLive(p, to, action, now); }
  }

  lemma RunningKeepsLive(p: Project, c: Call)
    requires Live(p) && !ResumesApproved(p, c)
             && c.op in {DoPause, DoResume, DoFinish(true), DoFinish(false), DoReopen(true), DoReopen(false)}
    ensures Live(Step(p, c).0)
  {
    hide Live, Transition;
    TransitionKeepsLive(p, Paused, Pausing, c.now);
    TransitionKeepsLive(p, Completed, Completion, c.now);
    if !p.status.Approved? {
      TransitionKeepsLive(p, Open, Resuming, c.now);
      TransitionKeepsLive(p, Open, Reopening, c.now);
    }
  }

  lemma ClosingKeepsLive(p: Project, authorized: bool, reason: string, now: int)
    requires Live(p)
    ensures Live(Cancel(p, authorized, reason, now).0) && Live(Archive(p, authorized, reason, now).0)
  {
    hide Live, Transition;
    TransitionKeepsLive(p, Cancelled, Cancellation, now);
    TransitionKeepsLive(p, Archived, Archival, now);
    OtherFieldsChange(p, p.fields[OutcomeSummary := reason]);
    OtherFieldsChange(p, p.fields[ArchiveReason := reason]);
    TransitionKeepsLive(p.(fields := p.fields[OutcomeSummary := reason]), Cancelled, Cancellation, now);
    TransitionKeepsLive(p.(fields := p.fields[ArchiveReason := reason]), Archived, Archival, now);
  }

  lemma SummaryKeepsLive(p: Project, authorized: bool, valid: bool, outcome: string)
    requires Live(p)
    ensures Live(SaveSummary(p, authorized, valid, outcome).0)
  {
    var fields := p.fields[OutcomeSummary := outcome];
    assert SameMaterial(p.fields, fields);
    OtherFieldsChange(p, fields);
    AuditKeepsLive(p.(fields := fields), AuditEvent(SummaryUpdated, p.status, p.status));
  }

  lemma AuditKeepsLive(p: Project, e: AuditEvent)
    requires Live(p) && !e.action.Archival?
    ensures Live(p.(audit := p.audit + [e]))
  {
    hide SameMaterial;
    var q := p.(audit := p.audit + [e]);
    PriorSkips(p.audit, e);
    forall n | Numbered(p, n) && MaterialOf(p, n) ensures MaterialOf(q, n) {}
  }

  lemma RestoreKeepsLive(p: Project, authorized: bool, to: Option<Status>, now: int)
    requires Live(p)
    ensures Live(Restore(p, authorized, to, now).0)
  {
    hide SameMaterial;
    var (q, r) := Restore(p, authorized, to, now);
    if r.Ok? {
      PriorSkips(p.audit, AuditEvent(Restoration, Archived, q.status));
      forall x | x in q.reviews ensures Numbered(q, x.version) && (x.decision.ApprovedIt? ==> x in p.reviews) {}
    }
  }

  lemma StepKeepsLive(p: Project, c: Call)
    requires Live(p) && !ResumesApproved(p, c)
    ensures Live(Step(p, c).0)
  {
    hide Live, ResumesApproved, Submit, Resubmit, Decide, Publish, PublishDue, PublishByPublisher, Edit, SaveSummary;
    hide Pause, Resume, Finish, Cancel, Archive, Restore, Reopen;
    match c.op
    case DoSubmit => SubmitKeepsLive(p, c.authorized, c.now);
    case DoResubmit => SubmitKeepsLive(p, c.authorized, c.now);
    case DoRequestChanges(r) =>
      DecideKeepsLive(p, c.authorized, ChangesRequested, AskedChanges, ChangesWanted, r, c.now);
    case DoReject(r) => DecideKeepsLive(p, c.authorized, Draft, RejectedIt, Rejection, r, c.now);
    case DoApprove(v) => DecideKeepsLive(p, c.authorized, Approved, ApprovedIt, Approval, v, c.now);
    case DoRevokeApproval(r) => RevokeKeepsLive(p, c.authorized, r, c.now);
    case DoPublish(ready) => PublishKeepsLive(p, c.authorized, false, ready);
    case DoPublishDue(due, ready) => PublishKeepsLive(p, c.authorized, due, ready);
    case DoPublishByPublisher(ready) => PublishKeepsLive(p, c.authorized, false, ready);
    case DoEdit(changes) => EditKeepsLive(p, c.authorized, changes);
    case DoSaveSummary(valid, outcome) => SummaryKeepsLive(p, c.authorized, valid, outcome);
    case DoCancel(reason) => ClosingKeepsLive(p, c.authorized, reason, c.now);
    case DoArchive(reason) => ClosingKeepsLive(p, c.authorized, reason, c.now);
    case DoRestore(to) => RestoreKeepsLive(p, c.authorized, to, c.now);
    case _ => RunningKeepsLive(p, c);
  }

  /** Resuming an approved project opens it without serving the approved version. */
  lemma ResumingApprovedBreaks(p: Project, c: Call)
    requires Live(p) && ResumesApproved(p, c)
    ensures var q := Step(p, c).0;
            q.status.Open? && q.currentVersion == p.currentVersion && !Live(q)
  {
    var q := Step(p, c).0;
    assert ApprovalReview(p) in q.reviews;
  }

  /** Every state of the run, from its start to its end. */
  ghost predicate LiveThroughout(p: Project, calls: seq<Call>)
    decreases |calls|
  {
    Live(p) && (calls != [] ==> LiveThroughout(Step(p, calls[0]).0, calls[1..]))
  }

  /** No call of the run resumes an approved project. */
  predicate NeverResumesApproved(p: Project, calls: seq<Call>)
    decreases |calls|
  {
    calls != [] ==> !ResumesApproved(p, calls[0]) && NeverResumesApproved(Step(p, calls[0]).0, calls[1..])
  }

  /**
   * The material-edit rule over every run: the reviewed-material invariant holds in every state of a run
   * exactly when no call of it resumes a project that is approved but not yet published.
   */
  lemma {:induction false} ReviewedMaterialThroughout(p: Project, calls: seq<Call>)
    requires Live(p)
    ensures LiveThroughout(p, calls) <==> NeverResumesApproved(p, calls)
    decreases |calls|
  {
    if calls != [] {
      var q := Step(p, calls[0]).0;
      if ResumesApproved(p, calls[0]) {
        ResumingApprovedBreaks(p, calls[0]);
        assert !LiveThroughout(q, calls[1..]);
      } else {
        StepKeepsLive(p, calls[0]);
        ReviewedMaterialThroughout(q, calls[1..]);
      }
    }
  }

  lemma {:induction false} LiveAtEnd(p: Project, calls: seq<Call>)
    requires LiveThroughout(p, calls)
    ensures Live(Run(p, calls))
    decreases |calls|
  {
    if calls != [] { LiveAtEnd(Step(p, calls[0]).0, calls[1..]); }
  }

  /** From a new draft on, the project is live in every state exactly when no approved project is resumed. */
  lemma MaterialRuleFromDraft(fields: Fields, calls: seq<Call>)
    ensures LiveThroughout(NewDraft(fields), calls) <==> NeverResumesApproved(NewDraft(fields), calls)
  {
    DraftIsLive(fields);
    ReviewedMaterialThroughout(NewDraft(fields), calls);
  }

  // ---- What publication serves ----

  /** `q` serves the latest version of `p`, whose material is that of the version `p` was approved with. */
  ghost predicate ServesApproved(p: Project, q: Project) {
    && p.versions != [] && p.reviews != [] && Numbered(p, ApprovalReview(p).version) && |q.versions| == |p.versions|
    && q.currentVersion == Some(|p.versions|)
    && SameMaterial(q.versions[|p.versions| - 1].snapshot, p.versions[ApprovalReview(p).version - 1].snapshot)
  }

  lemma ServingServesApproved(p: Project, reviewed: bool, action: Action)
    requires Live(p) && p.status.Approved?
    ensures ServesApproved(p, Published(p, reviewed, action))
  {
    assert MaterialOf(p, |p.versions|) && MaterialOf(p, ApprovalReview(p).version);
  }

  /** Of all the calls that open an approved project, exactly those other than resume serve what was approved. */
  lemma OpeningServesApproved(p: Project, c: Call)
    requires Live(p) && p.status.Approved? && Step(p, c).0.status.Open?
    ensures ServesApproved(p, Step(p, c).0) <==> !c.op.DoResume?
  {
    hide Live, MaterialOf, SameMaterial, Published, ServesApproved;
    var q := Step(p, c).0;
    ServingServesApproved(p, true, Publication);
    ServingServesApproved(p, false, Publication);
    if c.op.DoResume? {
      ResumingApprovedBreaks(p, c);
      StaleServesNothing(p, q);
    } else {
      assert c.op.DoPublish? || c.op.DoPublishDue?;
    }
  }

  lemma StaleServesNothing(p: Project, q: Project)
    requires Live(p) && p.status.Approved? && q.currentVersion == p.currentVersion
    ensures !ServesApproved(p, q)
  {}

  /** While a project stays approved, only a submission, which is refused, adds a version after the approved one. */
  lemma OnlyRefusedSubmissionDrifts(p: Project, c: Call)
    requires p.status.Approved? && Step(p, c).0.status.Approved?
    ensures Step(p, c).0.reviews == p.reviews
    ensures Step(p, c).0.versions == p.versions <==> !(c.op.DoSubmit? && c.authorized && Complete(p.fields))
    ensures c.op.DoSubmit? ==> Step(p, c).1.Err?
  {
    hide Complete, FieldsAfter, MaterialAmong;
  }

  /** Approval marks the version under review, so an approved project starts with nothing newer than it. */
  lemma ApprovalNamesLatest(p: Project, authorized: bool, valid: bool, now: int)
    requires Live(p)
    ensures var (q, r) := Decide(p, authorized, InReview, Approved, ApprovedIt, Approval, valid, now);
            r.Ok? ==> q.reviews != [] && ApprovalReview(q).version == |q.versions| && q.versions == p.versions
  {}

  // ---- Immutable versions ----

  /** Earlier versions keep their number and snapshot; a publication stamp is never taken back. */
  predicate VersionsKept(p: Project, q: Project) {
    |p.versions| <= |q.versions|
    && forall i | 0 <= i < |p.versions| ::
         q.versions[i] == p.versions[i] || q.versions[i] == p.versions[i].(published := true)
  }

  lemma {:induction false} VersionsImmutable(p: Project, calls: seq<Call>)
    ensures VersionsKept(p, Run(p, calls))
    decreases |calls|
  {
    if calls != [] {
      assert VersionsKept(p, Step(p, calls[0]).0);
      VersionsImmutable(Step(p, calls[0]).0, calls[1..]);
    }
  }

  // ---- Between approval and publication ----

  predicate ApprovedThroughout(p: Project, calls: seq<Call>)
    decreases |calls|
  {
    p.status.Approved? && (calls != [] ==> ApprovedThroughout(Step(p, calls[0]).0, calls[1..]))
  }

  /** One of the calls submits the complete project, which stores a version and is then refused. */
  predicate RefusedSubmission(p: Project, calls: seq<Call>)
    decreases |calls|
  {
    calls != [] &&
      ((calls[0].op.DoSubmit? && calls[0].authorized && Complete(p.fields))
       || RefusedSubmission(Step(p, calls[0]).0, calls[1..]))
  }

  lemma {:induction false} ApprovedRun(p: Project, calls: seq<Call>)
    requires Live(p) && ApprovedThroughout(p, calls)
    ensures var q := Run(p, calls);
            && Live(q) && q.status.Approved? && q.reviews == p.reviews
            && (|q.versions| == |p.versions| <==> !RefusedSubmission(p, calls))
    decreases |calls|
  {
    hide Live, Complete, Step;
    if calls != [] {
      var q := Step(p, calls[0]).0;
      assert ApprovedThroughout(q, calls[1..]) && q.status.Approved?;
      if ResumesApproved(p, calls[0]) { ResumeOpens(p, calls[0]); }
      StepKeepsLive(p, calls[0]);
      OnlyRefusedSubmissionDrifts(p, calls[0]);
      ApprovedRun(q, calls[1..]);
      VersionsImmutable(q, calls[1..]);
      VersionsGrow(p, calls[0]);
    }
  }

  lemma ResumeOpens(p: Project, c: Call)
    requires ResumesApproved(p, c)
    ensures Step(p, c).0.status.Open?
  {}

  /** A call that changes the versions of an approved project adds to them. */
  lemma VersionsGrow(p: Project, c: Call)
    requires p.status.Approved? && Step(p, c).0.status.Approved?
    ensures Step(p, c).0.versions == p.versions || |Step(p, c).0.versions| > |p.versions|
  {
    hide Complete, FieldsAfter, MaterialAmong;
  }

  /**
   * An approved version is the very version that a later publication serves exactly when no submission was refused in
   * between; otherwise the version served is a newer one with the same material.
   */
  lemma ServedIsApproved(p: Project, calls: seq<Call>, reviewed: bool, action: Action)
    requires Live(p) && ApprovedThroughout(p, calls) && |p.versions| == ApprovalReview(p).version
    ensures var q := Run(p, calls);
            && q.versions != []
            && ServesApproved(q, Published(q, reviewed, action))
            && (Published(q, reviewed, action).currentVersion == Some(ApprovalReview(p).version) <==>
                !RefusedSubmission(p, calls))
  {
    ApprovedRun(p, calls);
    ServingServesApproved(Run(p, calls), reviewed, action);
    hide Run, ApprovedThroughout, RefusedSubmission;
  }

  // ---- Archive and restore ----

  predicate ArchivedThroughout(p: Project, calls: seq<Call>)
    decreases |calls|
  {
    p.status.Archived? && (calls != [] ==> ArchivedThroughout(Step(p, calls[0]).0, calls[1..]))
  }

  lemma ArchivedStepKeepsRecord(p: Project, c: Call)
    requires p.status.Archived? && Step(p, c).0.status.Archived?
    ensures var q := Step(p, c).0;
            q.audit == p.audit && q.currentVersion == p.currentVersion && SameMaterial(p.fields, q.fields)
  {
    hide Complete, FieldsAfter, MaterialAmong, PriorStatus, SameMaterial;
    ReasonsAreNotMaterial(p.fields, OutcomeSummary, if c.op.DoCancel? then c.op.reason else "");
    ReasonsAreNotMaterial(p.fields, ArchiveReason, if c.op.DoArchive? then c.op.reason else "");
    match c.op
    case DoCancel(_) =>
    case DoArchive(_) =>
    case DoSubmit =>
    case DoRestore(_) =>
    case _ => assert Step(p, c).0 == p;
  }

  /** The fields that closing calls write need no review. */
  lemma ReasonsAreNotMaterial(fields: Fields, f: Field, reason: string)
    requires f in {OutcomeSummary, ArchiveReason}
    ensures SameMaterial(fields, fields) && SameMaterial(fields, fields[f := reason])
  {}

  /** While archived, nothing but a restore changes the record of where the project came from. */
  lemma {:induction false} ArchiveRecordStands(p: Project, calls: seq<Call>)
    requires Live(p) && ArchivedThroughout(p, calls)
    ensures var q := Run(p, calls);
            Live(q) && q.status.Archived? && q.audit == p.audit
            && q.currentVersion == p.currentVersion && SameMaterial(p.fields, q.fields)
    decreases |calls|
  {
    hide Live, Step;
    if calls != [] {
      var q := Step(p, calls[0]).0;
      StepKeepsLive(p, calls[0]);
      ArchivedStepKeepsRecord(p, calls[0]);
      ArchiveRecordStands(q, calls[1..]);
    }
  }

  lemma ArchivingRecords(p: Project, reason: string, now: int)
    requires Live(p) && Archive(p, true, reason, now).1.Ok?
    ensures var a := Archive(p, true, reason, now).0;
            Live(a) && PriorStatus(a.audit, |a.audit|) == Some(p.status) && p.status in RESTORE_TARGETS
            && a.currentVersion == p.currentVersion && SameMaterial(p.fields, a.fields)
  {
    ClosingKeepsLive(p, true, reason, now);
    hide Live;
    PriorSkips(p.audit, AuditEvent(Archival, p.status, Archived));
  }

  /** A default restore returns to the recorded status. */
  lemma RestoringReturns(p: Project, now: int, to: Status)
    requires Live(p) && p.status.Archived? && PriorStatus(p.audit, |p.audit|) == Some(to)
    ensures var (q, r) := Restore(p, true, None, now);
            && r.Ok? && q.status == to && q.archivedAt.None? && q.currentVersion == p.currentVersion
            && q.fields == p.fields
  {
    hide SameMaterial;
  }

  /**
   * Archiving a project and restoring it by default, after any calls made while it is archived, succeeds and
   * returns it to the status it was archived from, with the same served version and material.
   */
  lemma ArchiveRestoreReturns(p: Project, reason: string, archived: int, calls: seq<Call>, restored: int)
    requires Live(p) && Archive(p, true, reason, archived).1.Ok?
    requires ArchivedThroughout(Archive(p, true, reason, archived).0, calls)
    ensures var (q, r) := Restore(Run(Archive(p, true, reason, archived).0, calls), true, None, restored);
            && r.Ok? && q.status == p.status && q.archivedAt.None? && q.currentVersion == p.currentVersion
            && SameMaterial(p.fields, q.fields) && Live(q)
  {
    hide Live, Archive, Restore, Run;
    var a := Archive(p, true, reason, archived).0;
    ArchivingRecords(p, reason, archived);
    ArchiveRecordStands(a, calls);
    RestoringReturns(Run(a, calls), restored, p.status);
    RestoreKeepsLive(Run(a, calls), true, None, restored);
  }

  /** One time in the archive: the archiving, the calls made meanwhile, and the default restore. */
  datatype Cycle = Cycle(reason: string, archived: int, calls: seq<Call>, restored: int)

  function Cycled(p: Project, c: Cycle): Project {
    Restore(Run(Archive(p, true, c.reason, c.archived).0, c.calls), true, None, c.restored).0
  }

  function CycledAll(p: Project, cycles: seq<Cycle>): Project
    decreases |cycles|
  {
    if cycles == [] then p else CycledAll(Cycled(p, cycles[0]), cycles[1..])
  }

  /** No call made in the archive takes the project out of it. */
  predicate StayArchived(p: Project, cycles: seq<Cycle>)
    decreases |cycles|
  {
    cycles != [] ==>
      && ArchivedThroughout(Archive(p, true, cycles[0].reason, cycles[0].archived).0, cycles[0].calls)
      && StayArchived(Cycled(p, cycles[0]), cycles[1..])
  }

  /** After any number of such cycles the project is back in its status, with the same served version and material. */
  lemma {:induction false} CyclesReturn(p: Project, cycles: seq<Cycle>)
    requires Live(p) && p.status in RESTORE_TARGETS && StayArchived(p, cycles)
    ensures var q := CycledAll(p, cycles);
            && Live(q) && q.status == p.status && q.archivedAt.None? && q.currentVersion == p.currentVersion
            && SameMaterial(p.fields, q.fields)
    decreases |cycles|
  {
    if cycles != [] {
      var c := cycles[0];
      assert Archive(p, true, c.reason, c.archived).1.Ok?;
      hide Live, Archive, Restore, Run;
      ArchiveRestoreReturns(p, c.reason, c.archived, c.calls, c.restored);
      CyclesReturn(Cycled(p, c), cycles[1..]);
    }
  }
}
