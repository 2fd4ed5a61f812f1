// The government project lifecycle: the status of a project, its fields, its immutable versions, and what each
// service call makes of them. A call that raises may already have written; what it wrote is kept, as the code
// does outside a transaction.
module Lifecycle {
  import opened Common
  import opened Text

  datatype Status = Draft | InReview | ChangesRequested | Approved | Open | Paused | Completed | Cancelled | Archived

  datatype Field =
    | License | RepositoryUrl | DataClassification | Description | ProblemStatement | SignoffModel
    | SecurityContact | CommunicationChannel
    | TitleEn | TitleNe | SummaryEn | SummaryNe | OutcomeSummary | ArchiveReason
    | Other(name: string) | ReadOnly(name: string)

  type Fields = map<Field, string>

  datatype Version = Version(number: nat, snapshot: Fields, published: bool)

  datatype Decision = ApprovedIt | AskedChanges | RejectedIt | PublishedIt | RevokedIt | RestoredIt

  datatype Review = Review(decision: Decision, version: nat, from: Status, to: Status)

  datatype Action = Submitted | Resubmitted | ChangesWanted | Rejection | Approval | ApprovalRevoked | Publication
                  | PublisherPublication | MaterialEdit | SummaryUpdated | Pausing | Resuming | Completion
                    | Cancellation
                  | Archival | Restoration | Reopening

  datatype AuditEvent = AuditEvent(action: Action, before: Status, after: Status)

  datatype Project = Project(
    status: Status, fields: Fields, versions: seq<Version>, currentVersion: Option<nat>,
    archivedAt: Option<int>, reviews: seq<Review>, audit: seq<AuditEvent>)

  datatype Error = Unauthorized | TransitionNotAllowed | NotComplete | NotReady | BadArgument | NoVersion
                 | BadRestoreTarget | Closed | UnknownField | SummaryInvalid

  type Outcome = Result<(), Error>

  const MATERIAL: set<Field> :=
    {License, RepositoryUrl, DataClassification, Description, ProblemStatement, SignoffModel, SecurityContact,
     CommunicationChannel}

  function Transitions(s: Status): set<Status> {
    match s
    case Draft => {InReview}
    case InReview => {ChangesRequested, Approved, Draft}
    case ChangesRequested => {InReview}
    case Approved => {Open, ChangesRequested}
    case Open => {Paused, Completed, Cancelled, Archived}
    case Paused => {Open, Completed, Cancelled, Archived}
    case Completed => {Archived, Open}
    case Cancelled => {Archived, Open}
    case Archived => {}
  }

  const RESTORE_TARGETS: set<Status> := {Open, Paused, Completed, Cancelled}
  const EDITABLE_STATES: set<Status> := {Draft, ChangesRequested, Open, Paused}
  const REVIEW_ON_EDIT: set<Status> := {Open, Paused}

  function Get(fields: Fields, f: Field): string { if f in fields then fields[f] else "" }

  function Latest(p: Project): Option<nat> {
    if p.versions == [] then None else Some(p.versions[|p.versions| - 1].number)
  }

  function WithVersion(p: Project): Project {
    p.(versions := p.versions + [Version(if p.versions == [] then 1
                                         else p.versions[|p.versions| - 1].number + 1, p.fields, false)])
  }

  function Reviewed(p: Project, decision: Decision, to: Status): Project
    requires p.versions != []
  {
    p.(reviews := p.reviews + [Review(decision, Latest(p).value, p.status, to)])
  }

  function Audited(p: Project, action: Action, before: Status): Project {
    p.(audit := p.audit + [AuditEvent(action, before, p.status)])
  }

  /** The status change itself, with its archive stamp and audit event. */
  function Moved(p: Project, to: Status, action: Action, now: int): Project {
    Audited(p.(status := to, archivedAt := if to.Archived? then Some(now) else p.archivedAt), action, p.status)
  }

  /** `_perform_transition` without override. */
  function Transition(p: Project, to: Status, action: Action, now: int): (Project, Outcome) {
    if to !in Transitions(p.status) then (p, Err(TransitionNotAllowed)) else (Moved(p, to, action, now), Ok(()))
  }

  predicate Complete(fields: Fields) {
    !Blank(Get(fields, TitleEn)) && !Blank(Get(fields, TitleNe)) && !Blank(Get(fields, SummaryEn))
      && !Blank(Get(fields, SummaryNe))
  }

  /** `submit_for_review`: the version is stored before the transition is checked. */
  function Submit(p: Project, authorized: bool, now: int): (Project, Outcome) {
    if !authorized then (p, Err(Unauthorized))
    else if !Complete(p.fields) then (p, Err(NotComplete))
    else Transition(WithVersion(p), InReview, Submitted, now)
  }

  function Resubmit(p: Project, authorized: bool, now: int): (Project, Outcome) {
    if !authorized then (p, Err(Unauthorized))
    else if !p.status.ChangesRequested? then (p, Err(TransitionNotAllowed))
    else Transition(WithVersion(p), InReview, Resubmitted, now)
  }

  /** Why a decision on the current submission is refused: who asks, its status, its reason or date, its version. */
  function Refusal(p: Project, authorized: bool, from: Status, argumentValid: bool): (r: Option<Error>)
    ensures r.None? <==> authorized && p.status == from && argumentValid && p.versions != []
  {
    if !authorized then Some(Unauthorized)
    else if p.status != from then Some(TransitionNotAllowed)
    else if !argumentValid then Some(BadArgument)
    else if p.versions == [] then Some(NoVersion)
    else None
  }

  /** A decision on the current submission: the review row and the transition it causes. */
  function Decide(p: Project, authorized: bool, from: Status, to: Status, decision: Decision, action: Action,
                  argumentValid: bool, now: int)
    : (Project, Outcome)
  {
    match Refusal(p, authorized, from, argumentValid)
    case Some(e) => (p, Err(e))
    case None => Transition(Reviewed(p, decision, to), to, action, now)
  }

  /** The publication of the latest version; the caller has checked status and readiness. */
  function Published(p: Project, reviewed: bool, action: Action): Project
    requires p.versions != []
  {
    var last := p.versions[|p.versions| - 1];
    var q := p.(status := Open, currentVersion := Some(last.number),
                versions := p.versions[|p.versions| - 1 := last.(published := true)],
                reviews := if reviewed then p.reviews + [Review(PublishedIt, last.number, p.status, Open)]
                  else p.reviews);
    Audited(q, action, p.status)
  }

  function Publish(p: Project, authorized: bool, ready: bool): (Project, Outcome) {
    if !authorized then (p, Err(Unauthorized))
    else if !p.status.Approved? then (p, Err(TransitionNotAllowed))
    else if !ready then (p, Err(NotReady))
    else if p.versions == [] then (p, Err(NoVersion))
    else (Published(p, true, Publication), Ok(()))
  }

  /** `publish_due_scheduled` on one project: only approved ones whose date has come are looked at. */
  function PublishDue(p: Project, due: bool, ready: bool): (Project, Outcome) {
    if !p.status.Approved? || !due then (p, Ok(()))
    else if !ready then (p, Err(NotReady))
    else if p.versions == [] then (p, Err(NoVersion))
    else (Published(p, false, Publication), Ok(()))
  }

  function PublishByPublisher(p: Project, authorized: bool, ready: bool): (Project, Outcome) {
    if !authorized then (p, Err(Unauthorized))
    else if !p.status.Draft? then (p, Err(TransitionNotAllowed))
    else if !ready then (p, Err(NotReady))
    else (Published(WithVersion(p), true, PublisherPublication), Ok(()))
  }

  // ---- Edits ----

  /**
   * One keyword argument of an edit; `asObject` where a related object is passed, which never equals the stored key.
   */
  datatype Change = Change(field: Field, value: string, asObject: bool)

  predicate Differs(fields: Fields, c: Change) { c.asObject || Get(fields, c.field) != c.value }

  /** The fields after the first `n` changes. */
  function FieldsAfter(fields: Fields, changes: seq<Change>, n: nat): Fields
    requires n <= |changes|
  {
    if n == 0 then fields else FieldsAfter(fields, changes, n - 1)[changes[n - 1].field := changes[n - 1].value]
  }

  /** Whether one of the first `n` changes is a material one. */
  predicate MaterialAmong(fields: Fields, changes: seq<Change>, n: nat)
    requires n <= |changes|
  {
    n > 0 && (MaterialAmong(fields, changes, n - 1)
              || (changes[n - 1].field in MATERIAL && Differs(FieldsAfter(fields, changes, n - 1), changes[n - 1])))
  }

  predicate Known(changes: seq<Change>) { forall c | c in changes :: !c.field.ReadOnly? }

  function Edit(p: Project, authorized: bool, changes: seq<Change>): (Project, Outcome) {
    if !authorized then (p, Err(Unauthorized))
    else if p.status !in EDITABLE_STATES then (p, Err(Closed))
    else if !Known(changes) then (p, Err(UnknownField))
    else
      var q := p.(fields := FieldsAfter(p.fields, changes, |changes|));
      if MaterialAmong(p.fields, changes, |changes|) && p.status in REVIEW_ON_EDIT
      then (Audited(WithVersion(q).(status := InReview), MaterialEdit, p.status), Ok(()))
      else (q, Ok(()))
  }

  function SaveSummary(p: Project, authorized: bool, valid: bool, outcome: string): (Project, Outcome) {
    if !authorized then (p, Err(Unauthorized))
    else if p.status !in {Open, Paused} then (p, Err(Closed))
    else if !valid then (p, Err(SummaryInvalid))
    else (Audited(p.(fields := p.fields[OutcomeSummary := outcome]), SummaryUpdated, p.status), Ok(()))
  }

  // ---- Running, closing and archiving ----

  function Pause(p: Project, authorized: bool, now: int): (Project, Outcome) {
    if !authorized then (p, Err(Unauthorized)) else Transition(p, Paused, Pausing, now)
  }

  /** `resume` refuses completed and cancelled projects; for the rest the transition table decides. */
  function Resume(p: Project, authorized: bool, now: int): (Project, Outcome) {
    if !authorized then (p, Err(Unauthorized))
    else if p.status in {Completed, Cancelled} then (p, Err(TransitionNotAllowed))
    else Transition(p, Open, Resuming, now)
  }

  function Finish(p: Project, authorized: bool, summaryValid: bool, now: int): (Project, Outcome) {
    if !authorized then (p, Err(Unauthorized))
    else if !summaryValid then (p, Err(SummaryInvalid))
    else Transition(p, Completed, Completion, now)
  }

  /** `cancel` writes its reason before the transition is checked. */
  function Cancel(p: Project, authorized: bool, reason: string, now: int): (Project, Outcome) {
    if !authorized then (p, Err(Unauthorized))
    else Transition(if reason == "" then p
                    else p.(fields := p.fields[OutcomeSummary := reason]), Cancelled, Cancellation, now)
  }

  function Archive(p: Project, authorized: bool, reason: string, now: int): (Project, Outcome) {
    if !authorized then (p, Err(Unauthorized))
    else Transition(if reason == "" then p
                    else p.(fields := p.fields[ArchiveReason := reason]), Archived, Archival, now)
  }

  /** The status before the newest archival in the first `n` audit events. */
  function PriorStatus(audit: seq<AuditEvent>, n: nat): Option<Status>
    requires n <= |audit|
  {
    if n == 0 then None
    else if audit[n - 1].action.Archival? then Some(audit[n - 1].before)
    else PriorStatus(audit, n - 1)
  }

  function Restore(p: Project, authorized: bool, to: Option<Status>, now: int): (Project, Outcome) {
    if !authorized then (p, Err(Unauthorized))
    else if !p.status.Archived? then (p, Err(TransitionNotAllowed))
    else
      var target := if to.Some? then to else PriorStatus(p.audit, |p.audit|);
      if target.None? || target.value !in RESTORE_TARGETS then (p, Err(BadRestoreTarget))
      else if p.versions == [] then (p, Err(NoVersion))
      else (Moved(Reviewed(p, RestoredIt, target.value).(archivedAt := None), target.value, Restoration, now), Ok(()))
  }

  function Reopen(p: Project, authorized: bool, ready: bool, now: int): (Project, Outcome) {
    if !authorized then (p, Err(Unauthorized))
    else if p.status !in {Completed, Cancelled} then (p, Err(TransitionNotAllowed))
    else if !ready then (p, Err(NotReady))
    else Transition(p, Open, Reopening, now)
  }

  // ---- Runs ----

  datatype Op =
    | DoSubmit | DoResubmit | DoRequestChanges(reasonGiven: bool) | DoReject(reasonGiven: bool)
    | DoApprove(scheduleValid: bool) | DoRevokeApproval(reasonGiven: bool)
    | DoPublish(ready: bool) | DoPublishDue(due: bool, ready: bool) | DoPublishByPublisher(ready: bool)
    | DoEdit(changes: seq<Change>) | DoSaveSummary(valid: bool, outcome: string)
    | DoPause | DoResume | DoFinish(valid: bool) | DoCancel(reason: string)
    | DoArchive(reason: string) | DoRestore(to: Option<Status>) | DoReopen(ready: bool)

  /** One call: by an actor who is or is not authorized for it, at `now`. */
  datatype Call = Call(op: Op, authorized: bool, now: int)

  function Step(p: Project, c: Call): (Project, Outcome) {
    match c.op
    case DoSubmit => Submit(p, c.authorized, c.now)
    case DoResubmit => Resubmit(p, c.authorized, c.now)
    case DoRequestChanges(r) =>
      Decide(p, c.authorized, InReview, ChangesRequested, AskedChanges, ChangesWanted, r, c.now)
    case DoReject(r) => Decide(p, c.authorized, InReview, Draft, RejectedIt, Rejection, r, c.now)
    case DoApprove(v) => Decide(p, c.authorized, InReview, Approved, ApprovedIt, Approval, v, c.now)
    case DoRevokeApproval(r) =>
      Decide(p, c.authorized, Approved, ChangesRequested, RevokedIt, ApprovalRevoked, r, c.now)
    case DoPublish(ready) => Publish(p, c.authorized, ready)
    case DoPublishDue(due, ready) => PublishDue(p, due, ready)
    case DoPublishByPublisher(ready) => PublishByPublisher(p, c.authorized, ready)
    case DoEdit(changes) => Edit(p, c.authorized, changes)
    case DoSaveSummary(valid, outcome) => SaveSummary(p, c.authorized, valid, outcome)
    case DoPause => Pause(p, c.authorized, c.now)
    case DoResume => Resume(p, c.authorized, c.now)
    case DoFinish(valid) => Finish(p, c.authorized, valid, c.now)
    case DoCancel(reason) => Cancel(p, c.authorized, reason, c.now)
    case DoArchive(reason) => Archive(p, c.authorized, reason, c.now)
    case DoRestore(to) => Restore(p, c.authorized, to, c.now)
    case DoReopen(ready) => Reopen(p, c.authorized, ready, c.now)
  }

  function Run(p: Project, calls: seq<Call>): Project
    decreases |calls|
  {
    if calls == [] then p else Run(Step(p, calls[0]).0, calls[1..])
  }

  function NewDraft(fields: Fields): Project { Project(Draft, fields, [], None, None, [], []) }
}
