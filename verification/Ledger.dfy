// The event ledger, the candidate contributions it credits and the repository connections that feed it:
// what each service call does to them. Every call is a function from the stored state to the stored state;
// `SyncService` performs the same calls in place.
module Ledger {
  import opened Common
  import opened GithubEvents

  datatype Source = Webhook | Reconciliation

  datatype ProcessingState = Pending | Processed | Failed | Duplicate | Rejected

  /** One ledger row; `payload` is None where no parsed event is stored. */
  datatype Row = Row(
    deliveryId: string, eventId: string, source: Source, payload: Option<ParsedEvent>,
    state: ProcessingState, attempts: nat)

  datatype SyncState = Idle | Syncing | Degraded | Stopped

  /** `sync_cursor`: empty, a page number, or text that is not a number. */
  datatype Cursor = Start | Page(number: int) | Malformed

  datatype RevokedReason = NotRevoked | InstallationDeleted | InstallationSuspended | UnsuspendedUnbound
    | RepositoryRemoved

  datatype Connection = Connection(
    installationId: int, repositoryId: int, nodeId: string, activatedBy: nat, project: Option<nat>,
    syncState: SyncState, cursor: Cursor, failures: nat, nextAttempt: Option<int>,
    deactivatedAt: Option<int>, revoked: RevokedReason)

  /** A contribution record created from a provider event; `eventRef` is its unique provider reference. */
  datatype Contribution = Contribution(project: nat, eventRef: string)

  datatype State = State(rows: seq<Row>, contributions: seq<Contribution>, connections: seq<Connection>)

  /** Settings: verified event types, each project's default branch, the retry delays. */
  datatype Config = Config(enabled: set<EventType>, branches: map<nat, string>, retryBase: int, retryMax: int)

  datatype StoreError = UniquenessViolated | NoContributionType

  predicate HasDelivery(rows: seq<Row>, id: string) { exists i | 0 <= i < |rows| :: rows[i].deliveryId == id }

  predicate HasEvent(rows: seq<Row>, id: string) { exists i | 0 <= i < |rows| :: rows[i].eventId == id }

  predicate HasContribution(cs: seq<Contribution>, ref: string) { exists i | 0 <= i < |cs| :: cs[i].eventRef == ref }

  /** Insert under the two unique constraints of the ledger. */
  function Insert(rows: seq<Row>, row: Row): Result<seq<Row>, StoreError> {
    if HasDelivery(rows, row.deliveryId) || HasEvent(rows, row.eventId) then Err(UniquenessViolated)
    else Ok(rows + [row])
  }

  // ---- Access changes reported by the provider ----

  /** The connections an access webhook is about. */
  datatype Scope = Installation(id: int) | Repositories(id: int, repositories: set<int>)

  predicate InScope(c: Connection, scope: Scope) {
    c.installationId == scope.id && (scope.Repositories? ==> c.repositoryId in scope.repositories)
  }

  predicate RevokedAs(c: Connection, reason: RevokedReason) {
    c.syncState.Stopped? && c.project.None? && c.revoked == reason
  }

  predicate Revokes(c: Connection, scope: Scope, reason: RevokedReason) {
    InScope(c, scope) && !RevokedAs(c, reason)
  }

  function RevokeOne(c: Connection, scope: Scope, reason: RevokedReason, now: int): Connection {
    if !Revokes(c, scope, reason) then c
    else c.(syncState := Stopped, project := None, revoked := reason, nextAttempt := None,
            deactivatedAt := if c.deactivatedAt.Some? then c.deactivatedAt else Some(now))
  }

  function Revoke(cs: seq<Connection>, scope: Scope, reason: RevokedReason, now: int): seq<Connection> {
    seq(|cs|, i requires 0 <= i < |cs| => RevokeOne(cs[i], scope, reason, now))
  }

  /** How many of the first `n` connections the revocation changes. */
  function AffectedUpTo(cs: seq<Connection>, scope: Scope, reason: RevokedReason, n: nat): nat
    requires n <= |cs|
  {
    if n == 0 then 0
    else AffectedUpTo(cs, scope, reason, n - 1) + (if Revokes(cs[n - 1], scope, reason) then 1 else 0)
  }

  function UnsuspendOne(c: Connection, installation: int): Connection {
    if c.installationId == installation && c.revoked.InstallationSuspended?
    then c.(syncState := Stopped, revoked := UnsuspendedUnbound, failures := 0, nextAttempt := None)
    else c
  }

  function Unsuspend(cs: seq<Connection>, installation: int): seq<Connection> {
    seq(|cs|, i requires 0 <= i < |cs| => UnsuspendOne(cs[i], installation))
  }

  /** An installation webhook; an id or list that is not of the expected type is None. */
  datatype AccessEvent =
    | Deleted(installation: Option<int>)
    | Suspended(installation: Option<int>)
    | Unsuspended(installation: Option<int>)
    | Removed(installation: Option<int>, repositories: Option<set<int>>)
    | OtherAccess

  predicate WellFormedAccess(a: AccessEvent) {
    a.OtherAccess? || (a.installation.Some? && (a.Removed? ==> a.repositories.Some?))
  }

  function ApplyAccess(cs: seq<Connection>, a: AccessEvent, now: int): seq<Connection> {
    if !WellFormedAccess(a) then cs
    else match a
      case Deleted(i) => Revoke(cs, Installation(i.value), InstallationDeleted, now)
      case Suspended(i) => Revoke(cs, Installation(i.value), InstallationSuspended, now)
      case Unsuspended(i) => Unsuspend(cs, i.value)
      case Removed(i, r) => if r.value == {} then cs
        else Revoke(cs, Repositories(i.value, r.value), RepositoryRemoved, now)
      case OtherAccess => cs
  }

  // ---- Webhook deliveries ----

  datatype Body = Undecodable | Access(access: AccessEvent) | Activity(event: EventType, payload: Payload)

  /** One delivery: its GUID, whether its signature and timestamp check out, and its body. */
  datatype Delivery = Delivery(id: string, signatureValid: bool, inWindow: bool, body: Body)

  datatype IngestOutcome = Existing(row: Row) | Recorded(row: Row) | SignatureRefused(row: Row)
    | ReplayRefused(row: Row)
                         | Conflict

  /** The first connection of a repository node. */
  function FindNode(cs: seq<Connection>, nodeId: string): (r: Option<nat>)
    ensures r.Some? ==> r.value < |cs| && cs[r.value].nodeId == nodeId
    ensures r.Some? ==> forall i | 0 <= i < r.value :: cs[i].nodeId != nodeId
    ensures r.None? ==> forall i | 0 <= i < |cs| :: cs[i].nodeId != nodeId
  {
    if cs == [] then None
    else if cs[0].nodeId == nodeId then Some(0)
    else match FindNode(cs[1..], nodeId)
      case None => None
      case Some(i) => Some(i + 1)
  }

  function BranchOf(cfg: Config, project: nat): string {
    if project in cfg.branches then cfg.branches[project] else ""
  }

  /** `_matches_configured_branch`: deliveries before enrolment or binding are not filtered by branch. */
  predicate MatchesBranch(cfg: Config, cs: seq<Connection>, event: EventType, p: Payload) {
    match FindNode(cs, p.repository.nodeId)
    case None => true
    case Some(k) => cs[k].project.None? || OnBranch(event, p, BranchOf(cfg, cs[k].project.value))
  }

  /** A row that records a delivery without using any provider event's key but its own id. */
  function Noted(d: Delivery, state: ProcessingState): Row { Row(d.id, d.id, Webhook, None, state, 0) }

  /** The row a delivery is recorded as, when its id is new. */
  function RowFor(cfg: Config, s: State, d: Delivery): Row {
    if !d.signatureValid || !d.inWindow then Noted(d, Rejected)
    else match d.body
      case Undecodable => Noted(d, Processed)
      case Access(a) => Noted(d, if WellFormedAccess(a) then Processed else Failed)
      case Activity(event, p) =>
        match ParseEvent(event, p)
        case None => Noted(d, Processed)
        case Some(parsed) =>
          if HasEvent(s.rows, parsed.eventId) then Row(d.id, d.id, Webhook, Some(parsed), Duplicate, 0)
          else if event !in cfg.enabled || !MatchesBranch(cfg, s.connections, event, p) then Noted(d, Processed)
          else Row(d.id, parsed.eventId, Webhook, Some(parsed), Pending, 0)
  }

  predicate Accepted(d: Delivery) { d.signatureValid && d.inWindow }

  /** `ingest_webhook`: one transaction, undone as a whole when the insert violates a unique constraint. */
  function Ingest(cfg: Config, s: State, d: Delivery, now: int): (State, IngestOutcome) {
    match FindDelivery(s.rows, d.id)
    case Some(i) => (s, Existing(s.rows[i]))
    case None =>
      var row := RowFor(cfg, s, d);
      match Insert(s.rows, row)
      case Err(_) => (s, Conflict)
      case Ok(rows) =>
        var connections := if Accepted(d) && d.body.Access? then ApplyAccess(s.connections, d.body.access, now)
          else s.connections;
        (s.(rows := rows, connections := connections),
         if !d.signatureValid then SignatureRefused(row) else if !d.inWindow then ReplayRefused(row) else Recorded(row))
  }

  function FindDelivery(rows: seq<Row>, id: string): (r: Option<nat>)
    ensures r.Some? ==> r.value < |rows| && rows[r.value].deliveryId == id
    ensures r.None? <==> !HasDelivery(rows, id)
  {
    if rows == [] then None
    else if rows[0].deliveryId == id then Some(0)
    else match FindDelivery(rows[1..], id)
      case None => assert forall i | 0 < i < |rows| :: rows[i] == rows[1..][i - 1]; None
      case Some(i) => Some(i + 1)
  }

  // ---- The draining worker ----

  /** Whether the contributions service can be imported and its contribution type is seeded. */
  datatype Env = Env(serviceAvailable: bool, typeSeeded: bool)

  datatype Verdict = Done | Refused | Blocked

  datatype Tally = Tally(processed: nat, failed: nat, blocked: nat)

  function Counted(t: Tally, v: Verdict): Tally {
    match v
    case Done => t.(processed := t.processed + 1)
    case Refused => t.(failed := t.failed + 1)
    case Blocked => t.(blocked := t.blocked + 1)
  }

  /** `record_candidate_from_github` for a non-bot event; Err where it raises. */
  function RecordCandidate(cs: seq<Contribution>, p: ParsedEvent, project: nat, env: Env)
    : Result<seq<Contribution>, StoreError> {
    if Contribution(project, p.eventId) in cs then Ok(cs)
    else if !env.typeSeeded then Err(NoContributionType)
    else if HasContribution(cs, p.eventId) then Err(UniquenessViolated)
    else Ok(cs + [Contribution(project, p.eventId)])
  }

  /** What the worker decides about one pending row, and the contributions after it. */
  function Judge(s: State, row: Row, env: Env): (Verdict, seq<Contribution>) {
    if row.payload.None? then (Refused, s.contributions)
    else
      var p := row.payload.value;
      if p.isBot then (Done, s.contributions)
      else match FindNode(s.connections, p.nodeId)
        case None => (Refused, s.contributions)
        case Some(k) =>
          var c := s.connections[k];
          if c.syncState.Stopped? || c.deactivatedAt.Some? || c.project.None? then (Refused, s.contributions)
          else if !env.serviceAvailable then (Blocked, s.contributions)
          else match RecordCandidate(s.contributions, p, c.project.value, env)
            case Err(_) => (Refused, s.contributions)
            case Ok(cs) => (Done, cs)
  }

  function Settle(row: Row, v: Verdict): Row {
    match v
    case Done => row.(state := Processed, attempts := row.attempts + 1)
    case Refused => row.(state := Failed, attempts := row.attempts + 1)
    case Blocked => row
  }

  function ProcessOne(s: State, i: nat, env: Env): (State, Verdict)
    requires i < |s.rows|
  {
    var (v, cs) := Judge(s, s.rows[i], env);
    (s.(rows := s.rows[i := Settle(s.rows[i], v)], contributions := cs), v)
  }

  /** The first `limit` pending rows from position `from` on, oldest first. */
  function PendingFrom(rows: seq<Row>, from: nat, limit: nat): (r: seq<nat>)
    requires from <= |rows|
    ensures |r| <= limit && |r| <= |rows| - from
    ensures forall j | 0 <= j < |r| :: from <= r[j] < |rows| && rows[r[j]].state.Pending?
    ensures forall j, k | 0 <= j < k < |r| :: r[j] < r[k]
    ensures |r| < limit ==> forall i | from <= i < |rows| && rows[i].state.Pending? :: i in r
    decreases |rows| - from
  {
    if from == |rows| || limit == 0 then []
    else if rows[from].state.Pending? then [from] + PendingFrom(rows, from + 1, limit - 1)
    else PendingFrom(rows, from + 1, limit)
  }

  function DrainRows(s: State, todo: seq<nat>, env: Env, t: Tally): (r: (State, Tally))
    requires forall j | 0 <= j < |todo| :: todo[j] < |s.rows|
    ensures |r.0.rows| == |s.rows|
    decreases |todo|
  {
    if todo == [] then (s, t)
    else
      var (s', v) := ProcessOne(s, todo[0], env);
      DrainRows(s', todo[1..], env, Counted(t, v))
  }

  /** `process_pending`. */
  function Drain(s: State, limit: nat, env: Env): (State, Tally) {
    DrainRows(s, PendingFrom(s.rows, 0, limit), env, Tally(0, 0, 0))
  }

  // ---- Reconciliation ----

  datatype FetchedPage = FetchedPage(events: seq<ReconciliationEvent>, next: Cursor)

  datatype SyncError = SyncFailed

  /** `_persist_reconciliation_page` from the event at `i` on; Err where it raises. */
  function PersistFrom(rows: seq<Row>, nodeId: string, events: seq<ReconciliationEvent>, i: nat, recovered: nat)
    : Result<(seq<Row>, nat), SyncError>
    requires i <= |events|
    decreases |events| - i
  {
    if i == |events| then Ok((rows, recovered))
    else
      var e := events[i];
      if e.parsed.nodeId != nodeId then Err(SyncFailed)
      else if HasEvent(rows, e.parsed.eventId) then PersistFrom(rows, nodeId, events, i + 1, recovered)
      else match Insert(rows, RecoveredRow(e))
        case Err(_) => Err(SyncFailed)
        case Ok(rows') => PersistFrom(rows', nodeId, events, i + 1, recovered + 1)
  }

  function RecoveredRow(e: ReconciliationEvent): Row {
    Row(e.deliveryId, e.parsed.eventId, Reconciliation, Some(e.parsed), Pending, 0)
  }

  function Pow2(n: nat): nat { if n == 0 then 1 else 2 * Pow2(n - 1) }

  /** Seconds to wait after the given number of consecutive failures. */
  function RetryDelay(cfg: Config, failures: nat): int
    requires failures > 0
  {
    var base := Max(1, cfg.retryBase);
    Min(Max(base, cfg.retryMax), base * Pow2(Min(failures - 1, 30)))
  }

  function MarkFailed(cfg: Config, c: Connection, now: int): Connection {
    if c.syncState.Stopped? then c
    else c.(syncState := Degraded, failures := c.failures + 1,
            nextAttempt := Some(now + RetryDelay(cfg, c.failures + 1)))
  }

  function Synced(c: Connection, next: Cursor): Connection {
    c.(cursor := next, syncState := Idle, failures := 0, nextAttempt := None)
  }

  /**
   * `reconcile`: `fetched` is what the fetcher returned or raised. A failure rolls back everything but the failure
   * mark.
   */
  function Reconcile(cfg: Config, s: State, k: nat, fetched: Result<FetchedPage, FetchError>, now: int)
    : (State, Result<nat, SyncError>)
    requires k < |s.connections|
  {
    var c := s.connections[k];
    var failed := s.(connections := s.connections[k := MarkFailed(cfg, c, now)]);
    if c.syncState.Stopped? then (s, Ok(0))
    else match fetched
      case Err(_) => (failed, Err(SyncFailed))
      case Ok(page) =>
        match PersistFrom(s.rows, c.nodeId, page.events, 0, 0)
        case Err(_) => (failed, Err(SyncFailed))
        case Ok((rows, recovered)) =>
          (s.(rows := rows, connections := s.connections[k := Synced(c, page.next)]), Ok(recovered))
  }

  // ---- Enrolment, binding and disconnection ----

  datatype Enrolment = Enrolment(user: nat, installationId: int, repositoryId: int, nodeId: string)

  function FindRepository(cs: seq<Connection>, repositoryId: int): (r: Option<nat>)
    ensures r.Some? ==> r.value < |cs| && cs[r.value].repositoryId == repositoryId
    ensures r.None? ==> forall i | 0 <= i < |cs| :: cs[i].repositoryId != repositoryId
  {
    if cs == [] then None
    else if cs[0].repositoryId == repositoryId then Some(0)
    else match FindRepository(cs[1..], repositoryId)
      case None => None
      case Some(i) => Some(i + 1)
  }

  function Reenrolled(c: Connection, e: Enrolment): Connection {
    if c.syncState.Stopped? || c.deactivatedAt.Some?
    then c.(installationId := e.installationId, nodeId := e.nodeId, activatedBy := e.user, syncState := Idle,
            deactivatedAt := None, revoked := NotRevoked, failures := 0, nextAttempt := None)
    else c
  }

  function Fresh(e: Enrolment): Connection {
    Connection(e.installationId, e.repositoryId, e.nodeId, e.user, None, Idle, Start, 0, None, None, NotRevoked)
  }

  function Enroll(cs: seq<Connection>, e: Enrolment): seq<Connection> {
    match FindRepository(cs, e.repositoryId)
    case None => cs + [Fresh(e)]
    case Some(k) => cs[k := Reenrolled(cs[k], e)]
  }

  datatype BindError = NotAuthorized | WrongRepository | Disconnected | NotYours | AlreadyBound

  /** Who binds what: `authorized` and `urlMatches` are the checks made before the row is locked. */
  datatype Binding = Binding(actor: nat, project: nat, personal: bool, authorized: bool, urlMatches: bool)

  /** `bind_repository`: the row after it and whether it was bound just now. */
  function Bind(c: Connection, b: Binding): Result<(Connection, bool), BindError> {
    if !b.authorized then Err(NotAuthorized)
    else if !b.urlMatches then Err(WrongRepository)
    else if c.deactivatedAt.Some? || c.syncState.Stopped? then Err(Disconnected)
    else if b.personal && c.activatedBy != b.actor then Err(NotYours)
    else if c.project == Some(b.project) then Ok((c, false))
    else if c.project.Some? then Err(AlreadyBound)
    else Ok((c.(project := Some(b.project)), true))
  }

  /** A running connection, free or bound to this project already, that the actor may bind to it. */
  predicate Bindable(c: Connection, b: Binding) {
    && b.authorized && b.urlMatches && !c.syncState.Stopped? && c.deactivatedAt.None?
    && (b.personal ==> c.activatedBy == b.actor) && (c.project.None? || c.project == Some(b.project))
  }

  /**
   * A binding goes through exactly where the connection can be bound. From then on it succeeds again without any
   * change, and no other project can be bound.
   */
  lemma BindingHolds(c: Connection, b: Binding, other: Binding)
    requires other.project != b.project
    ensures Bind(c, b).Ok? <==> Bindable(c, b)
    ensures Bind(c, b).Ok? ==>
              var (bound, first) := Bind(c, b).value;
              && bound == c.(project := Some(b.project)) && (first <==> c.project.None?)
              && Bind(bound, b) == Ok((bound, false)) && Bind(bound, other).Err?
  {}

  function DisconnectOne(c: Connection, user: nat, now: int): Connection {
    if c.activatedBy == user && c.deactivatedAt.None? then c.(syncState := Stopped, deactivatedAt := Some(now)) else c
  }

  /** `disconnect`; `linked` is whether the user has a connection that is not yet revoked. */
  function Disconnect(cs: seq<Connection>, user: nat, linked: bool, now: int): seq<Connection> {
    if !linked then cs else seq(|cs|, i requires 0 <= i < |cs| => DisconnectOne(cs[i], user, now))
  }

  // ---- Runs ----

  datatype Step =
    | Hook(delivery: Delivery, now: int)
    | Work(limit: nat, env: Env)
    | Sweep(connection: nat, fetched: Result<FetchedPage, FetchError>, now: int)
    | Enrol(enrolment: Enrolment)
    | BindTo(connection: nat, binding: Binding)
    | Unlink(user: nat, linked: bool, now: int)

  function Next(cfg: Config, s: State, step: Step): State {
    match step
    case Hook(d, now) => Ingest(cfg, s, d, now).0
    case Work(limit, env) => Drain(s, limit, env).0
    case Sweep(k, fetched, now) => if k < |s.connections| then Reconcile(cfg, s, k, fetched, now).0 else s
    case Enrol(e) => s.(connections := Enroll(s.connections, e))
    case BindTo(k, b) =>
      if k < |s.connections| && Bind(s.connections[k], b).Ok?
      then s.(connections := s.connections[k := Bind(s.connections[k], b).value.0])
      else s
    case Unlink(user, linked, now) => s.(connections := Disconnect(s.connections, user, linked, now))
  }

  function Run(cfg: Config, s: State, steps: seq<Step>): State
    decreases |steps|
  {
    if steps == [] then s else Run(cfg, Next(cfg, s, steps[0]), steps[1..])
  }
}
