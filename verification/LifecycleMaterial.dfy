// The material-edit rule and the status machine, field by field and call by call: what a reader of the policy can check
// without looking at the sets and tables the services keep.
module LifecycleMaterial {
  import opened Common
  import opened Text
  import opened TextPatterns
  import opened Lifecycle
  import opened LifecycleProofs

  // ---- The eight fields that need review ----

  predicate NeedsReview(f: Field) {
    || f == License || f == RepositoryUrl || f == DataClassification || f == Description || f == ProblemStatement
    || f == SignoffModel || f == SecurityContact || f == CommunicationChannel
  }

  function Value(fields: Fields, f: Field): string { if f in fields then fields[f] else "" }

  /** Both hold the same licence, repository, classification, texts, sign-off, security contact and channel. */
  predicate SameReviewed(a: Fields, b: Fields) {
    && Value(a, License) == Value(b, License)
    && Value(a, RepositoryUrl) == Value(b, RepositoryUrl)
    && Value(a, DataClassification) == Value(b, DataClassification)
    && Value(a, Description) == Value(b, Description)
    && Value(a, ProblemStatement) == Value(b, ProblemStatement)
    && Value(a, SignoffModel) == Value(b, SignoffModel)
    && Value(a, SecurityContact) == Value(b, SecurityContact)
    && Value(a, CommunicationChannel) == Value(b, CommunicationChannel)
  }

  lemma MaterialIsReviewed(a: Fields, b: Fields)
    ensures SameMaterial(a, b) <==> SameReviewed(a, b)
    ensures forall f :: f in MATERIAL <==> NeedsReview(f)
  {
    forall f ensures Get(a, f) == Value(a, f) && Get(b, f) == Value(b, f) {}
  }

  // ---- Edits ----

  /** The last change of a field among the first `n`. */
  ghost predicate LastChange(changes: seq<Change>, k: nat, n: nat, f: Field) {
    k < n <= |changes| && changes[k].field == f && forall j | k < j < n :: changes[j].field != f
  }

  lemma {:induction false} LastChangeStands(fields: Fields, changes: seq<Change>, k: nat, n: nat, f: Field)
    requires LastChange(changes, k, n, f)
    ensures Value(FieldsAfter(fields, changes, n), f) == changes[k].value
    decreases n
  {
    if k < n - 1 { LastChangeStands(fields, changes, k, n - 1, f); }
  }

  lemma {:induction false} UnnamedStays(fields: Fields, changes: seq<Change>, n: nat, f: Field)
    requires n <= |changes| && forall k | 0 <= k < n :: changes[k].field != f
    ensures Value(FieldsAfter(fields, changes, n), f) == Value(fields, f)
  {
    if n > 0 { UnnamedStays(fields, changes, n - 1, f); }
  }

  /** A change of one of the eight fields away from what it held by then, or to an object, which always counts. */
  predicate Touches(fields: Fields, changes: seq<Change>, k: nat)
    requires k < |changes|
  {
    && NeedsReview(changes[k].field)
    && (changes[k].asObject || Value(FieldsAfter(fields, changes, k), changes[k].field) != changes[k].value)
  }

  lemma {:induction false} FlaggedIff(fields: Fields, changes: seq<Change>, n: nat)
    requires n <= |changes|
    ensures MaterialAmong(fields, changes, n) <==> exists k | 0 <= k < n :: Touches(fields, changes, k)
  {
    MaterialIsReviewed(fields, fields);
    if n > 0 {
      FlaggedIff(fields, changes, n - 1);
      var c := changes[n - 1];
      assert c.field in MATERIAL <==> NeedsReview(c.field);
      assert Touches(fields, changes, n - 1) <==>
        c.field in MATERIAL && Differs(FieldsAfter(fields, changes, n - 1), c);
    }
  }

  /**
   * An edit is taken from an authorised caller on a draft, a project sent back, an open or a paused one, naming no
   * read-only field, and sets each field to its last value.
   */
  lemma EditSetsFields(p: Project, authorized: bool, changes: seq<Change>, f: Field, k: nat)
    ensures var (q, r) := Edit(p, authorized, changes);
            && (r.Ok? <==> authorized && p.status in {Draft, ChangesRequested, Open, Paused}
                           && forall c | c in changes :: !c.field.ReadOnly?)
            && (r.Err? ==> q == p)
            && (r.Ok? && (forall c | c in changes :: c.field != f) ==> Value(q.fields, f) == Value(p.fields, f))
            && (r.Ok? && LastChange(changes, k, |changes|, f) ==> Value(q.fields, f) == changes[k].value)
  {
    if forall c | c in changes :: c.field != f {
      assert forall i | 0 <= i < |changes| :: changes[i] in changes;
      UnnamedStays(p.fields, changes, |changes|, f);
    }
    if LastChange(changes, k, |changes|, f) { LastChangeStands(p.fields, changes, k, |changes|, f); }
    hide FieldsAfter, MaterialAmong, Value, LastChange;
  }

  /**
   * An edit of an open or paused project brings it into review, with a new version of the edited fields, exactly when
   * it touches the licence, repository, classification, description, problem statement, sign-off, security contact or
   * channel; in particular whenever one of these ends up different. Any other edit leaves status, versions and audit.
   */
  lemma EditReviewed(p: Project, authorized: bool, changes: seq<Change>)
    requires Edit(p, authorized, changes).1.Ok?
    ensures var q := Edit(p, authorized, changes).0; var n := |p.versions|;
            && q.currentVersion == p.currentVersion && q.reviews == p.reviews && q.archivedAt == p.archivedAt
            && (if p.status in {Open, Paused} && exists k | 0 <= k < |changes| :: Touches(p.fields, changes, k) then
                  && q.status == InReview && |q.versions| == n + 1 && q.versions[..n] == p.versions
                  && q.versions[n].snapshot == q.fields && !q.versions[n].published
                  && q.audit == p.audit + [AuditEvent(MaterialEdit, p.status, InReview)]
                else
                  && q.status == p.status && q.versions == p.versions && q.audit == p.audit)
  {
    FlaggedIff(p.fields, changes, |changes|);
    hide FieldsAfter, MaterialAmong, Touches;
  }

  lemma DifferenceTouches(p: Project, authorized: bool, changes: seq<Change>)
    requires Edit(p, authorized, changes).1.Ok? && !SameReviewed(p.fields, Edit(p, authorized, changes).0.fields)
    ensures exists k | 0 <= k < |changes| :: Touches(p.fields, changes, k)
  {
    var fields := FieldsAfter(p.fields, changes, |changes|);
    assert Edit(p, authorized, changes).0.fields == fields;
    FlaggedIff(p.fields, changes, |changes|);
    MaterialIsReviewed(p.fields, fields);
    if !MaterialAmong(p.fields, changes, |changes|) { UnflaggedEditKeepsMaterial(p.fields, changes, |changes|); }
    hide FieldsAfter, MaterialAmong, Touches, SameMaterial, SameReviewed;
  }

  // ---- What is live was reviewed ----

  /**
   * From its creation on, unless an approved project is resumed: a public project shows in the eight fields what its
   * served version holds, and one in review or approved what its latest version holds.
   */
  lemma PublicFieldsWereReviewed(fields: Fields, calls: seq<Call>)
    requires NeverResumesApproved(NewDraft(fields), calls)
    ensures var q := Run(NewDraft(fields), calls); var n := |q.versions|;
            && (q.status in {Open, Paused, Completed, Cancelled, Archived} ==>
                  && q.currentVersion.Some? && 1 <= q.currentVersion.value <= n
                  && q.versions[q.currentVersion.value - 1].number == q.currentVersion.value
                  && SameReviewed(q.fields, q.versions[q.currentVersion.value - 1].snapshot))
            && (q.status in {InReview, Approved} ==> n > 0 && SameReviewed(q.fields, q.versions[n - 1].snapshot))
  {
    hide Run, LiveThroughout, NeverResumesApproved, SameReviewed, Live, NewDraft;
    MaterialRuleFromDraft(fields, calls);
    LiveAtEnd(NewDraft(fields), calls);
    LiveFieldsWereReviewed(Run(NewDraft(fields), calls));
  }

  lemma LiveFieldsWereReviewed(q: Project)
    requires Live(q)
    ensures var n := |q.versions|;
            && (q.status in {Open, Paused, Completed, Cancelled, Archived} ==>
                  && q.currentVersion.Some? && 1 <= q.currentVersion.value <= n
                  && q.versions[q.currentVersion.value - 1].number == q.currentVersion.value
                  && SameReviewed(q.fields, q.versions[q.currentVersion.value - 1].snapshot))
            && (q.status in {InReview, Approved} ==> n > 0 && SameReviewed(q.fields, q.versions[n - 1].snapshot))
  {
    hide SameMaterial, SameReviewed, ApprovalOk, ArchiveOk;
    if Public(q.status) { MaterialIsReviewed(q.fields, q.versions[q.currentVersion.value - 1].snapshot); }
    if UnderReview(q.status) { MaterialIsReviewed(q.fields, q.versions[|q.versions| - 1].snapshot); }
  }

  // ---- Which call goes through when, and where it leads ----

  /** Titles and summaries in both languages hold more than whitespace. */
  predicate Bilingual(fields: Fields) {
    forall f | f in {TitleEn, TitleNe, SummaryEn, SummaryNe} :: Worded(Value(fields, f))
  }

  /** The status the newest archiving left, if there was one. */
  ghost predicate ArchivedFrom(audit: seq<AuditEvent>, s: Status) {
    exists k | 0 <= k < |audit| ::
      audit[k].action == Archival && audit[k].before == s && forall j | k < j < |audit| :: audit[j].action != Archival
  }

  ghost predicate GoesThrough(p: Project, c: Call) {
    match c.op
    case DoSubmit => c.authorized && Bilingual(p.fields) && p.status in {Draft, ChangesRequested}
    case DoResubmit => c.authorized && p.status == ChangesRequested
    case DoRequestChanges(reason) => c.authorized && reason && p.status == InReview && p.versions != []
    case DoReject(reason) => c.authorized && reason && p.status == InReview && p.versions != []
    case DoApprove(valid) => c.authorized && valid && p.status == InReview && p.versions != []
    case DoRevokeApproval(reason) => c.authorized && reason && p.status == Approved && p.versions != []
    case DoPublish(ready) => c.authorized && ready && p.status == Approved && p.versions != []
    case DoPublishDue(due, ready) => due && p.status == Approved ==> ready && p.versions != []
    case DoPublishByPublisher(ready) => c.authorized && ready && p.status == Draft
    case DoEdit(changes) =>
      && c.authorized && p.status in {Draft, ChangesRequested, Open, Paused}
      && forall x | x in changes :: !x.field.ReadOnly?
    case DoSaveSummary(valid, _) => c.authorized && valid && p.status in {Open, Paused}
    case DoPause => c.authorized && p.status == Open
    case DoResume => c.authorized && p.status in {Paused, Approved}
    case DoFinish(valid) => c.authorized && valid && p.status in {Open, Paused}
    case DoCancel(_) => c.authorized && p.status in {Open, Paused}
    case DoArchive(_) => c.authorized && p.status in {Open, Paused, Completed, Cancelled}
    case DoRestore(to) =>
      && c.authorized && p.status == Archived && p.versions != []
      && exists s | s in {Open, Paused, Completed, Cancelled} ::
           if to.Some? then to.value == s else ArchivedFrom(p.audit, s)
    case DoReopen(ready) => c.authorized && ready && p.status in {Completed, Cancelled}
  }

  /** Where a call that goes through leads; edits, and restores without a target, are told apart above. */
  function Landing(p: Project, c: Call): Status {
    match c.op
    case DoSubmit => InReview
    case DoResubmit => InReview
    case DoRequestChanges(_) => ChangesRequested
    case DoReject(_) => Draft
    case DoApprove(_) => Approved
    case DoRevokeApproval(_) => ChangesRequested
    case DoPublish(_) => Open
    case DoPublishDue(due, _) => if due && p.status == Approved then Open else p.status
    case DoPublishByPublisher(_) => Open
    case DoPause => Paused
    case DoResume => Open
    case DoFinish(_) => Completed
    case DoCancel(_) => Cancelled
    case DoArchive(_) => Archived
    case DoRestore(to) => if to.Some? then to.value else p.status
    case DoReopen(_) => Open
    case _ => p.status
  }

  lemma {:induction false} PriorIsArchivedFrom(audit: seq<AuditEvent>, n: nat, s: Status)
    requires n <= |audit|
    ensures PriorStatus(audit, n) == Some(s) <==>
            exists k | 0 <= k < n :: audit[k].action == Archival && audit[k].before == s
                                     && forall j | k < j < n :: audit[j].action != Archival
  {
    if n > 0 { PriorIsArchivedFrom(audit, n - 1, s); }
  }

  lemma CompleteIsBilingual(fields: Fields)
    ensures Complete(fields) <==> Bilingual(fields)
  {
    forall f | f in {TitleEn, TitleNe, SummaryEn, SummaryNe}
      ensures Blank(Get(fields, f)) <==> !Worded(Value(fields, f))
    {
      BlankIs(Value(fields, f));
    }
    hide Blank, Worded;
  }

  /** A call goes through where it may and leads where it should, and is otherwise refused in place. */
  ghost predicate Lands(p: Project, c: Call) {
    var (q, r) := Step(p, c);
    && (r.Ok? <==> GoesThrough(p, c))
    && (r.Err? ==> q.status == p.status && q.currentVersion == p.currentVersion && q.reviews == p.reviews
                   && q.audit == p.audit && q.archivedAt == p.archivedAt)
    && (r.Ok? && !c.op.DoEdit? && (c.op.DoRestore? ==> c.op.to.Some?) ==> q.status == Landing(p, c))
    && (r.Ok? && c.op == DoRestore(None) ==> ArchivedFrom(p.audit, q.status))
  }

  lemma SubmissionLands(p: Project, c: Call)
    requires c.op.DoSubmit? || c.op.DoResubmit?
    ensures Lands(p, c)
  {
    CompleteIsBilingual(p.fields);
    hide Complete, Bilingual;
  }

  lemma DecisionLands(p: Project, c: Call)
    requires c.op.DoRequestChanges? || c.op.DoReject? || c.op.DoApprove? || c.op.DoRevokeApproval?
    ensures Lands(p, c)
  {}

  lemma PublicationLands(p: Project, c: Call)
    requires c.op.DoPublish? || c.op.DoPublishDue? || c.op.DoPublishByPublisher?
    ensures Lands(p, c)
  {}

  lemma EditLands(p: Project, c: Call)
    requires c.op.DoEdit? || c.op.DoSaveSummary?
    ensures Lands(p, c)
  {
    hide FieldsAfter, MaterialAmong;
  }

  lemma RunningLands(p: Project, c: Call)
    requires c.op.DoPause? || c.op.DoResume? || c.op.DoFinish? || c.op.DoReopen?
    ensures Lands(p, c)
  {}

  lemma ClosingLands(p: Project, c: Call)
    requires c.op.DoCancel? || c.op.DoArchive?
    ensures Lands(p, c)
  {}

  lemma RestoreLands(p: Project, c: Call)
    requires c.op.DoRestore?
    ensures Lands(p, c)
  {
    forall s: Status ensures PriorStatus(p.audit, |p.audit|) == Some(s) <==> ArchivedFrom(p.audit, s) {
      PriorIsArchivedFrom(p.audit, |p.audit|, s);
    }
    hide PriorStatus, ArchivedFrom;
    if PriorStatus(p.audit, |p.audit|).Some? { assert ArchivedFrom(p.audit, PriorStatus(p.audit, |p.audit|).value); }
  }

  /** So it is with every call. */
  lemma CallOutcome(p: Project, c: Call)
    ensures Lands(p, c)
  {
    hide *;
    match c.op
    case DoSubmit => SubmissionLands(p, c);
    case DoResubmit => SubmissionLands(p, c);
    case DoRequestChanges(_) => DecisionLands(p, c);
    case DoReject(_) => DecisionLands(p, c);
    case DoApprove(_) => DecisionLands(p, c);
    case DoRevokeApproval(_) => DecisionLands(p, c);
    case DoPublish(_) => PublicationLands(p, c);
    case DoPublishDue(_, _) => PublicationLands(p, c);
    case DoPublishByPublisher(_) => PublicationLands(p, c);
    case DoEdit(_) => EditLands(p, c);
    case DoSaveSummary(_, _) => EditLands(p, c);
    case DoCancel(_) => ClosingLands(p, c);
    case DoArchive(_) => ClosingLands(p, c);
    case DoRestore(_) => RestoreLands(p, c);
    case _ => RunningLands(p, c);
  }

  /** A cancellation and an archiving by an authorised caller write their reason even where they are then refused. */
  lemma ReasonsWritten(p: Project, authorized: bool, reason: string, now: int)
    ensures Cancel(p, authorized, reason, now).0.fields ==
            if authorized && reason != "" then p.fields[OutcomeSummary := reason] else p.fields
    ensures Archive(p, authorized, reason, now).0.fields ==
            if authorized && reason != "" then p.fields[ArchiveReason := reason] else p.fields
  {}

  /** A summary is written on an open or paused project when it is valid, and recorded. */
  lemma SummaryWritten(p: Project, authorized: bool, valid: bool, outcome: string)
    ensures SaveSummary(p, authorized, valid, outcome).0 ==
            if authorized && valid && p.status in {Open, Paused}
            then p.(fields := p.fields[OutcomeSummary := outcome],
                    audit := p.audit + [AuditEvent(SummaryUpdated, p.status, p.status)])
            else p
  {}

  // ---- What a call that moves a project leaves on record ----

  /** The number of the newest version. */
  function Newest(p: Project): nat { if p.versions == [] then 0 else p.versions[|p.versions| - 1].number }

  /** The decision that a call records about a version; the direct publication's is about the version it makes. */
  function Recorded(p: Project, c: Call, to: Status): Option<Review> {
    match c.op
    case DoApprove(_) => Some(Review(ApprovedIt, Newest(p), InReview, Approved))
    case DoRequestChanges(_) => Some(Review(AskedChanges, Newest(p), InReview, ChangesRequested))
    case DoReject(_) => Some(Review(RejectedIt, Newest(p), InReview, Draft))
    case DoRevokeApproval(_) => Some(Review(RevokedIt, Newest(p), Approved, ChangesRequested))
    case DoPublish(_) => Some(Review(PublishedIt, Newest(p), Approved, Open))
    case DoPublishByPublisher(_) =>
      Some(Review(PublishedIt, if p.versions == [] then 1 else Newest(p) + 1, Draft, Open))
    case DoRestore(_) => Some(Review(RestoredIt, Newest(p), Archived, to))
    case _ => None
  }

  /** The review and the audit event a move adds, and when it sets the archive date and the served version. */
  ghost predicate OnRecord(p: Project, c: Call) {
    var (q, r) := Step(p, c);
    var n := |p.audit|;
    r.Ok? && q.status != p.status ==>
      && |q.audit| == n + 1 && q.audit[..n] == p.audit && q.audit[n].before == p.status && q.audit[n].after == q.status
      && (q.audit[n].action == Archival <==> q.status == Archived)
      && (q.archivedAt == if q.status == Archived then Some(c.now) else if c.op.DoRestore? then None else p.archivedAt)
      && (c.op.DoPublish? || c.op.DoPublishDue? || c.op.DoPublishByPublisher? ||
            q.currentVersion == p.currentVersion)
      && (q.reviews == match Recorded(p, c, q.status) case None => p.reviews case Some(x) => p.reviews + [x])
  }

  lemma MoveRecorded(p: Project, c: Call)
    ensures OnRecord(p, c)
  {
    if c.op.DoEdit? || c.op.DoSaveSummary? {
      EditRecorded(p, c);
    } else if c.op.DoPublish? || c.op.DoPublishDue? || c.op.DoPublishByPublisher? || c.op.DoRestore? {
      ServingRecorded(p, c);
    } else if c.op.DoApprove? || c.op.DoRequestChanges? || c.op.DoReject? || c.op.DoRevokeApproval? {
      DecisionRecorded(p, c);
    } else {
      PlainRecorded(p, c);
    }
    hide *;
  }

  lemma EditRecorded(p: Project, c: Call)
    requires c.op.DoEdit? || c.op.DoSaveSummary?
    ensures OnRecord(p, c)
  {
    hide FieldsAfter, MaterialAmong;
  }

  lemma ServingRecorded(p: Project, c: Call)
    requires c.op.DoPublish? || c.op.DoPublishDue? || c.op.DoPublishByPublisher? || c.op.DoRestore?
    ensures OnRecord(p, c)
  {
    hide PriorStatus;
  }

  lemma DecisionRecorded(p: Project, c: Call)
    requires c.op.DoApprove? || c.op.DoRequestChanges? || c.op.DoReject? || c.op.DoRevokeApproval?
    ensures OnRecord(p, c)
  {}

  lemma PlainRecorded(p: Project, c: Call)
    requires c.op in {DoSubmit, DoResubmit, DoPause, DoResume} || c.op.DoFinish? || c.op.DoCancel? || c.op.DoArchive?
             || c.op.DoReopen?
    ensures OnRecord(p, c)
  {
    hide Complete, Transitions;
  }
}
