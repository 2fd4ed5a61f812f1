// Which activity earns credit, stated on the fields of a delivery alone: what the provider's objects must say, the row
// that then waits for credit, and that nothing else ever gains a contribution.
module LedgerActivity {
  import opened Common
  import opened GithubEvents
  import opened Ledger
  import opened LedgerCredit

  // ---- What earns credit ----

  predicate MergedPull(event: EventType, p: Payload) {
    event == PullRequestEvent && p.action == "closed" && p.pullRequest.id.Some? && p.pullRequest.merged
  }

  predicate CompletedIssue(event: EventType, p: Payload) {
    && event == IssuesEvent && p.action == "closed" && p.issue.id.Some?
    && (p.issue.stateReason.Some? ==> p.issue.stateReason.value == "completed")
  }

  predicate ApprovedReview(event: EventType, p: Payload) {
    event == ReviewEvent && p.action == "submitted" && p.review.id.Some? && p.review.state == "approved"
  }

  predicate PublishedRelease(event: EventType, p: Payload) {
    event == ReleaseEvent && p.action == "published" && p.release.id.Some?
  }

  predicate Earned(event: EventType, p: Payload) {
    MergedPull(event, p) || CompletedIssue(event, p) || ApprovedReview(event, p) || PublishedRelease(event, p)
  }

  /** The id of the object an event is about. */
  function ObjectId(event: EventType, p: Payload): Option<string> {
    match event
    case PullRequestEvent => p.pullRequest.id
    case IssuesEvent => p.issue.id
    case ReviewEvent => p.review.id
    case ReleaseEvent => p.release.id
    case OtherEvent => None
  }

  /** Who is credited: the author of a merged pull request, whoever merged it, and otherwise the sender. */
  function CreditedActor(event: EventType, p: Payload): Actor {
    if event == PullRequestEvent && p.pullRequest.author.Some? then p.pullRequest.author.value else p.sender
  }

  predicate BotAccount(a: Actor) {
    a.kind == "Bot" || (|a.login| >= 5 && a.login[|a.login| - 5..] == "[bot]")
  }

  /** What the ledger keeps of an earned event. */
  predicate Describes(e: ParsedEvent, event: EventType, p: Payload) {
    && Some(e.eventId) == ObjectId(event, p)
    && e.kind == (match event case PullRequestEvent => PrMerged case IssuesEvent => IssueCompleted
                              case ReviewEvent => ReviewApproved case _ => ReleasePublished)
    && e.actorLogin == CreditedActor(event, p).login && e.actorKind == CreditedActor(event, p).kind
    && (e.isBot <==> BotAccount(CreditedActor(event, p)))
    && e.nodeId == p.repository.nodeId && e.repositoryName == p.repository.name
    && e.number == (match event case IssuesEvent => p.issue.number case ReleaseEvent => None
                    case _ => p.pullRequest.number)
    && e.action == p.action && e.triggeredBy == p.sender.login
  }

  /** A pull request or review is on the default branch of the project its repository is bound to, if it is bound. */
  ghost predicate Branched(cfg: Config, cs: seq<Connection>, event: EventType, p: Payload) {
    event in {PullRequestEvent, ReviewEvent} ==>
      forall k | 0 <= k < |cs| && cs[k].nodeId == p.repository.nodeId
                 && (forall j | 0 <= j < k :: cs[j].nodeId != p.repository.nodeId) && cs[k].project.Some? ::
        cs[k].project.value in cfg.branches && cfg.branches[cs[k].project.value] != ""
        && p.pullRequest.baseRef == cfg.branches[cs[k].project.value]
  }

  lemma EarnedParses(event: EventType, p: Payload)
    ensures var e := ParseEvent(event, p);
            (e.Some? <==> Earned(event, p)) && (e.Some? ==> Describes(e.value, event, p))
  {
    hide IsBot, BotAccount;
    BotIs(CreditedActor(event, p));
    match event
    case PullRequestEvent =>
    case IssuesEvent =>
    case ReviewEvent =>
    case ReleaseEvent =>
    case OtherEvent =>
  }

  lemma BotIs(a: Actor)
    ensures IsBot(a) <==> BotAccount(a)
  {}

  lemma BranchedMatches(cfg: Config, cs: seq<Connection>, event: EventType, p: Payload)
    ensures MatchesBranch(cfg, cs, event, p) <==> Branched(cfg, cs, event, p)
  {}

  // ---- Deliveries ----

  /**
   * A delivery adds a pending row exactly when its signature is valid, it is in the replay window, its activity earns
   * credit, its type is enabled, its branch is the configured one, and both its id and its object's id are new. The row
   * is keyed by the object and describes the activity.
   */
  lemma PendingIffEarned(cfg: Config, s: State, d: Delivery, now: int)
    ensures var t := Ingest(cfg, s, d, now).0; var n := |s.rows|;
            && (|t.rows| > n && t.rows[n].state.Pending? <==>
                && d.signatureValid && d.inWindow && d.body.Activity?
                && Earned(d.body.event, d.body.payload) && d.body.event in cfg.enabled
                && Branched(cfg, s.connections, d.body.event, d.body.payload)
                && (forall i | 0 <= i < n ::
                      s.rows[i].deliveryId != d.id
                      && Some(s.rows[i].eventId) != ObjectId(d.body.event, d.body.payload)))
            && (|t.rows| > n && t.rows[n].state.Pending? ==>
                && t.rows[n].deliveryId == d.id && t.rows[n].source == Webhook && t.rows[n].payload.Some?
                && Some(t.rows[n].eventId) == ObjectId(d.body.event, d.body.payload)
                && Describes(t.rows[n].payload.value, d.body.event, d.body.payload))
  {
    if d.body.Activity? {
      EarnedParses(d.body.event, d.body.payload);
      BranchedMatches(cfg, s.connections, d.body.event, d.body.payload);
    }
    hide ParseEvent, MatchesBranch, Branched, Earned, Describes, ApplyAccess;
  }

  /** What any delivery leaves in the ledger: at most one row, of its own id, whose state says how it was received. */
  lemma RowSaysHowReceived(cfg: Config, s: State, d: Delivery, now: int)
    ensures var t := Ingest(cfg, s, d, now).0; var n := |s.rows|;
            && t.contributions == s.contributions && n <= |t.rows| <= n + 1 && t.rows[..n] == s.rows
            && (|t.rows| > n ==>
                var r := t.rows[n];
                && r.deliveryId == d.id && r.source == Webhook && r.attempts == 0
                && (r.state == Rejected <==> !d.signatureValid || !d.inWindow)
                && (r.state == Failed <==>
                    d.signatureValid && d.inWindow && d.body.Access? && MissingParts(d.body.access))
                && (r.state == Duplicate <==>
                    && d.signatureValid && d.inWindow && d.body.Activity? && Earned(d.body.event, d.body.payload)
                    && exists i | 0 <= i < n :: Some(s.rows[i].eventId) == ObjectId(d.body.event, d.body.payload))
                && (r.state != Pending ==> r.eventId == d.id)
                && (r.payload.Some? <==> r.state in {Pending, Duplicate}))
  {
    if d.body.Activity? { EarnedParses(d.body.event, d.body.payload); }
    hide ParseEvent, MatchesBranch, Earned, Describes, ApplyAccess;
  }

  /** An access event without its installation, or a removal without its list. */
  predicate MissingParts(a: AccessEvent) {
    match a
    case Deleted(i) => i.None?
    case Suspended(i) => i.None?
    case Unsuspended(i) => i.None?
    case Removed(i, r) => i.None? || r.None?
    case OtherAccess => false
  }

  // ---- The Events API ----

  /** The activity of an API entry in the words of a webhook. */
  function AsActivity(raw: RawEvent, target: Target): Payload
    requires raw.event.Some? && raw.payload.Some? && raw.actor.Some?
  {
    var p := raw.payload.value;
    p.(sender := raw.actor.value, repository := target.repository,
       action := if raw.event.value == ReviewEvent && p.action == "created" then "submitted" else p.action)
  }

  /**
   * An API entry is recorded exactly when it is of an enabled type and the swept repository, names its actor, and its
   * activity earns credit on the configured branch; it fails the page exactly when it is of another repository.
   */
  lemma RecordedIffEarned(raw: RawEvent, target: Target, enabled: set<EventType>)
    ensures var r := Normalize(raw, target, enabled); var known := raw.event.Some? && raw.event.value in enabled;
            && (r.Err? <==> known && raw.repositoryName != target.foldedName)
            && (r.Err? ==> r.error == ForeignRepository)
            && (r.Ok? && r.value.Some? <==>
                && known && raw.repositoryName == target.foldedName && raw.payload.Some? && raw.actor.Some?
                && (raw.event.value in {PullRequestEvent, ReviewEvent} ==>
                      raw.payload.value.pullRequest.baseRef == target.branch)
                && Earned(raw.event.value, AsActivity(raw, target)))
            && (r.Ok? && r.value.Some? ==>
                && Describes(r.value.value.parsed, raw.event.value, AsActivity(raw, target))
                && r.value.value.deliveryId == "reconciliation-" + raw.id.GetOr(r.value.value.parsed.eventId))
  {
    if raw.event.Some? && raw.payload.Some? && raw.actor.Some? {
      EarnedParses(raw.event.value, AsActivity(raw, target));
    }
    hide ParseEvent, Earned, Describes;
  }

  // ---- Runs ----

  /** A step that brings credited activity on the object: an earned webhook of it, or a page that lists it. */
  ghost predicate Earns(step: Step, id: string) {
    match step
    case Hook(d, _) =>
      && d.signatureValid && d.inWindow && d.body.Activity? && Earned(d.body.event, d.body.payload)
      && ObjectId(d.body.event, d.body.payload) == Some(id)
    case Sweep(_, fetched, _) => fetched.Ok? && exists e | e in fetched.value.events :: e.parsed.eventId == id
    case _ => false
  }

  /** Neither credited nor on the way to it. */
  ghost predicate Uncredited(s: State, id: string) {
    && (forall r | r in s.rows && r.eventId == id :: !r.state.Pending?)
    && (forall c | c in s.contributions :: c.eventRef != id)
  }

  lemma DeliveryLeavesUncredited(cfg: Config, s: State, d: Delivery, now: int, id: string)
    requires Uncredited(s, id) && !Earns(Hook(d, now), id)
    ensures Uncredited(Ingest(cfg, s, d, now).0, id)
  {
    PendingIffEarned(cfg, s, d, now);
    RowSaysHowReceived(cfg, s, d, now);
    hide Ingest, Earned, Describes, Branched, MissingParts;
    var t := Ingest(cfg, s, d, now).0;
    assert forall r | r in t.rows :: r in s.rows || r == t.rows[|s.rows|];
  }

  lemma StepLeavesUncredited(cfg: Config, s: State, step: Step, id: string)
    requires LedgerOk(s) && Uncredited(s, id) && !Earns(step, id)
    ensures Uncredited(Next(cfg, s, step), id)
  {
    StepKeepsLedger(cfg, s, step);
    var t := Next(cfg, s, step);
    match step {
      case Hook(d, now) => DeliveryLeavesUncredited(cfg, s, d, now, id);
      case Work(limit, env) => DrainLeavesUncredited(s, PendingFrom(s.rows, 0, limit), env, Tally(0, 0, 0), id);
      case Sweep(k, fetched, now) =>
        if k < |s.connections| && fetched.Ok? {
          PageLeavesUncredited(s, s.connections[k].nodeId, fetched.value.events, 0, 0, id);
        }
      case _ =>
    }
  }

  lemma {:induction false} DrainLeavesUncredited(s: State, todo: seq<nat>, env: Env, t: Tally, id: string)
    requires LedgerOk(s) && Todo(s, todo) && Uncredited(s, id)
    ensures Uncredited(DrainRows(s, todo, env, t).0, id)
    decreases |todo|
  {
    if todo != [] {
      var (s', v) := ProcessOne(s, todo[0], env);
      ProcessKeepsLedger(s, todo[0], env);
      TodoAdvances(s, todo, env);
      JudgeAddsOwnReference(s, s.rows[todo[0]], env);
      hide Judge, LedgerOk;
      assert s.rows[todo[0]].eventId != id;
      assert forall r | r in s'.rows :: r in s.rows || r.eventId != id;
      DrainLeavesUncredited(s', todo[1..], env, Counted(t, v), id);
    }
  }

  lemma {:induction false} PageLeavesUncredited(s: State, nodeId: string, events: seq<ReconciliationEvent>, i: nat,
                                                n: nat, id: string)
    requires Uncredited(s, id) && i <= |events| && forall e | e in events :: e.parsed.eventId != id
    ensures var r := PersistFrom(s.rows, nodeId, events, i, n); r.Ok? ==> Uncredited(s.(rows := r.value.0), id)
    decreases |events| - i
  {
    if i < |events| {
      var e := events[i];
      PageLeavesUncredited(s, nodeId, events, i + 1, n, id);
      PageLeavesUncredited(s.(rows := s.rows + [RecoveredRow(e)]), nodeId, events, i + 1, n + 1, id);
    }
  }

  /**
   * Over every run, what never earns credit never gains a contribution: an object of which no accepted delivery and no
   * page reports a merge, a completion, an approval or a publication.
   */
  lemma {:induction false} UnearnedNeverCredited(cfg: Config, s: State, steps: seq<Step>, id: string)
    requires LedgerOk(s) && Uncredited(s, id) && forall step | step in steps :: !Earns(step, id)
    ensures Uncredited(Run(cfg, s, steps), id)
    decreases |steps|
  {
    hide Next, LedgerOk, Uncredited, Earns;
    if steps != [] {
      StepLeavesUncredited(cfg, s, steps[0], id);
      StepKeepsLedger(cfg, s, steps[0]);
      UnearnedNeverCredited(cfg, Next(cfg, s, steps[0]), steps[1..], id);
    }
  }

  /** In particular a pull request that was never merged, however often it was closed. */
  lemma UnmergedPullNeverCredited(cfg: Config, connections: seq<Connection>, steps: seq<Step>, id: string)
    requires forall step | step in steps && step.Hook? && step.delivery.body.Activity? ::
               var p := step.delivery.body.payload;
               ObjectId(step.delivery.body.event, p) == Some(id) ==>
                 step.delivery.body.event == PullRequestEvent && !p.pullRequest.merged
    requires forall step | step in steps && step.Sweep? && step.fetched.Ok? ::
               forall e | e in step.fetched.value.events :: e.parsed.eventId != id
    ensures forall c | c in Run(cfg, State([], [], connections), steps).contributions :: c.eventRef != id
  {
    FreshLedgerOk(connections);
    UnearnedNeverCredited(cfg, State([], [], connections), steps, id);
    hide Run;
  }
}
