/** Provider events: what a webhook payload or an Events API entry says, and the verified event it stands for. */
module GithubEvents {
  import opened Common

  datatype EventType = PullRequestEvent | IssuesEvent | ReviewEvent | ReleaseEvent | OtherEvent

  datatype EventKind = PrMerged | IssueCompleted | ReviewApproved | ReleasePublished

  /** A missing actor object reads as two empty strings. */
  datatype Actor = Actor(login: string, kind: string)

  datatype RepositoryRef = RepositoryRef(nodeId: string, name: string)

  datatype PullRequest =
    PullRequest(id: Option<string>, merged: bool, number: Option<int>, author: Option<Actor>, baseRef: string)

  /** `state_reason` defaults to "completed" only where the key is absent. */
  datatype Issue = Issue(id: Option<string>, number: Option<int>, stateReason: Option<string>)

  datatype Review = Review(id: Option<string>, state: string)

  datatype Release = Release(id: Option<string>)

  datatype Payload = Payload(
    action: string, sender: Actor, repository: RepositoryRef,
    pullRequest: PullRequest, issue: Issue, review: Review, release: Release)

  datatype ParsedEvent = ParsedEvent(
    kind: EventKind, action: string, actorLogin: string, actorKind: string, isBot: bool,
    nodeId: string, repositoryName: string, number: Option<int>, eventId: string, triggeredBy: string)

  const BOT_SUFFIX := "[bot]"

  predicate EndsWith(s: string, suffix: string) {
    |suffix| <= |s| && s[|s| - |suffix|..] == suffix
  }

  predicate IsBot(actor: Actor) { EndsWith(actor.login, BOT_SUFFIX) || actor.kind == "Bot" }

  function Credit(kind: EventKind, p: Payload, number: Option<int>, eventId: string, credited: Actor): ParsedEvent {
    ParsedEvent(kind, p.action, credited.login, credited.kind, IsBot(credited), p.repository.nodeId,
                p.repository.name, number, eventId, p.sender.login)
  }

  /** `parse_event`: the verified event of a payload, or None when it earns no credit. */
  function ParseEvent(event: EventType, p: Payload): (r: Option<ParsedEvent>)
    ensures r.Some? ==> r.value.nodeId == p.repository.nodeId && r.value.triggeredBy == p.sender.login
  {
    match event
    case PullRequestEvent =>
      if p.action == "closed" && p.pullRequest.id.Some? && p.pullRequest.merged
      then Some(Credit(PrMerged, p, p.pullRequest.number, p.pullRequest.id.value,
                       if p.pullRequest.author.Some? then p.pullRequest.author.value else p.sender))
      else None
    case IssuesEvent =>
      if p.action == "closed" && p.issue.id.Some?
        && (p.issue.stateReason.None? || p.issue.stateReason.value == "completed")
      then Some(Credit(IssueCompleted, p, p.issue.number, p.issue.id.value, p.sender))
      else None
    case ReviewEvent =>
      if p.action == "submitted" && p.review.id.Some? && p.review.state == "approved"
      then Some(Credit(ReviewApproved, p, p.pullRequest.number, p.review.id.value, p.sender))
      else None
    case ReleaseEvent =>
      if p.action == "published" && p.release.id.Some?
      then Some(Credit(ReleasePublished, p, None, p.release.id.value, p.sender))
      else None
    case OtherEvent => None
  }

  /** Pull requests and their reviews count only on the project's default branch. */
  predicate OnBranch(event: EventType, p: Payload, branch: string) {
    event.PullRequestEvent? || event.ReviewEvent? ==> branch != "" && p.pullRequest.baseRef == branch
  }

  // ---- The Events API ----

  /** One Events API entry; `event` is None for an unmapped type, `payload` and `actor` where they are not objects. */
  datatype RawEvent = RawEvent(
    id: Option<string>, event: Option<EventType>, repositoryName: string, payload: Option<Payload>,
      actor: Option<Actor>)

  /** What the sweep knows of its repository; names are case-folded. */
  datatype Target = Target(foldedName: string, repository: RepositoryRef, branch: string)

  datatype ReconciliationEvent = ReconciliationEvent(deliveryId: string, parsed: ParsedEvent)

  datatype FetchError = ForeignRepository | NoProject | NoDefaultBranch | BadCursor | ProviderFailure

  /** The webhook payload an API entry is rewritten into before it is parsed. */
  function AsWebhook(event: EventType, payload: Payload, actor: Actor, target: Target): Payload {
    payload.(sender := actor, repository := target.repository,
             action := if event.ReviewEvent? && payload.action == "created" then "submitted" else payload.action)
  }

  function DeliveryIdOf(raw: RawEvent, parsed: ParsedEvent): string {
    "reconciliation-" + (if raw.id.Some? then raw.id.value else parsed.eventId)
  }

  /** `_normalize_api_event`. */
  function Normalize(raw: RawEvent, target: Target, enabled: set<EventType>)
    : Result<Option<ReconciliationEvent>, FetchError> {
    if raw.event.None? || raw.event.value !in enabled then Ok(None)
    else if raw.repositoryName != target.foldedName then Err(ForeignRepository)
    else if raw.payload.None? || raw.actor.None? then Ok(None)
    else
      var event := raw.event.value;
      var p := AsWebhook(event, raw.payload.value, raw.actor.value, target);
      if (event.PullRequestEvent? || event.ReviewEvent?) && p.pullRequest.baseRef != target.branch then Ok(None)
      else match ParseEvent(event, p)
        case None => Ok(None)
        case Some(parsed) => Ok(Some(ReconciliationEvent(DeliveryIdOf(raw, parsed), parsed)))
  }

  /** `raw` is the Events API entry of the activity that `payload` reports by webhook. */
  predicate SameActivity(raw: RawEvent, event: EventType, payload: Payload, target: Target) {
    && raw.event == Some(event)
    && raw.repositoryName == target.foldedName
    && raw.actor == Some(payload.sender)
    && payload.repository == target.repository
    && raw.payload.Some?
    && raw.payload.value.(sender := payload.sender, repository := payload.repository, action := payload.action)
      == payload
    && (raw.payload.value.action == payload.action
        || (event.ReviewEvent? && raw.payload.value.action == "created" && payload.action == "submitted"))
  }

  /**
   * Both sources see one activity as the same verified event, and one of them credits it exactly when the other does.
   */
  lemma SourcesAgree(raw: RawEvent, event: EventType, payload: Payload, target: Target, enabled: set<EventType>)
    requires SameActivity(raw, event, payload, target) && event in enabled && target.branch != ""
    requires event.ReviewEvent? ==> payload.action != "created"
    ensures Normalize(raw, target, enabled).Ok?
    ensures var n := Normalize(raw, target, enabled).value;
            && (n.Some? <==> OnBranch(event, payload, target.branch) && ParseEvent(event, payload).Some?)
            && (n.Some? ==> n.value.parsed == ParseEvent(event, payload).value)
  {
    assert AsWebhook(event, raw.payload.value, raw.actor.value, target) == payload;
  }
}
