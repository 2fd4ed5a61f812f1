/** What each call does to the ledger and its connections, field by field and on its inputs alone. */
module LedgerMeaning {
  import opened Common
  import opened GithubEvents
  import opened Ledger
  import opened LedgerSweep
  import opened LedgerActivity
  import opened LedgerAccess

  // ---- Access changes ----

  /** The connections an installation webhook is about. */
  predicate Concerns(a: AccessEvent, c: Connection) {
    match a
    case Deleted(i) => i == Some(c.installationId)
    case Suspended(i) => i == Some(c.installationId)
    case Unsuspended(i) => i == Some(c.installationId) && c.revoked == InstallationSuspended
    case Removed(i, r) => i == Some(c.installationId) && r.Some? && c.repositoryId in r.value
    case OtherAccess => false
  }

  function ReasonFor(a: AccessEvent): RevokedReason {
    match a
    case Deleted(_) => InstallationDeleted
    case Suspended(_) => InstallationSuspended
    case Unsuspended(_) => UnsuspendedUnbound
    case Removed(_, _) => RepositoryRemoved
    case OtherAccess => NotRevoked
  }

  /** The same repository of the same installation, at the same place of its sweep. */
  predicate SameRepository(c: Connection, d: Connection) {
    && d.installationId == c.installationId && d.repositoryId == c.repositoryId && d.nodeId == c.nodeId
    && d.activatedBy == c.activatedBy && d.cursor == c.cursor
  }

  /** Stopped for the reason, unbound, with no attempt due, and deactivated now unless it was before. */
  predicate RevokedNow(c: Connection, d: Connection, reason: RevokedReason, now: int) {
    && SameRepository(c, d) && d.failures == c.failures
    && d.syncState == Stopped && d.project == None && d.revoked == reason && d.nextAttempt == None
    && d.deactivatedAt == Some(c.deactivatedAt.GetOr(now))
  }

  /**
   * An access event rewrites the connections it concerns and no other: a removal of access unbinds and stops them,
   * unless that was recorded before, and an unsuspension keeps them stopped and unbound but clears their failures.
   */
  lemma AccessMeans(cs: seq<Connection>, a: AccessEvent, now: int, i: nat)
    requires i < |cs|
    ensures var t := ApplyAccess(cs, a, now); var c := cs[i];
            && |t| == |cs|
            && (!Concerns(a, c) ==> t[i] == c)
            && (Concerns(a, c) && a.Unsuspended? ==>
                  && SameRepository(c, t[i]) && t[i].syncState == Stopped && t[i].revoked == UnsuspendedUnbound
                  && t[i].failures == 0 && t[i].nextAttempt == None && t[i].project == c.project
                  && t[i].deactivatedAt == c.deactivatedAt)
            && (Concerns(a, c) && !a.Unsuspended? ==>
                  if c.syncState == Stopped && c.project == None && c.revoked == ReasonFor(a) then t[i] == c
                  else RevokedNow(c, t[i], ReasonFor(a), now))
  {}

  ghost function Differing(cs: seq<Connection>, t: seq<Connection>, n: nat): set<nat>
    requires n <= |cs| && n <= |t|
  {
    set i: nat | i < n && cs[i] != t[i]
  }

  /** The number a revocation reports is the number of connections it changes. */
  lemma {:induction false} AffectedAreChanged(cs: seq<Connection>, scope: Scope, reason: RevokedReason, now: int,
                                              n: nat)
    requires n <= |cs|
    ensures AffectedUpTo(cs, scope, reason, n) == |Differing(cs, Revoke(cs, scope, reason, now), n)|
  {
    if n > 0 {
      var t := Revoke(cs, scope, reason, now);
      assert Revokes(cs[n - 1], scope, reason) <==> cs[n - 1] != t[n - 1];
      hide Revoke, Revokes;
      AffectedAreChanged(cs, scope, reason, now, n - 1);
      hide AffectedUpTo;
      DifferingGrows(cs, t, n);
    }
  }

  lemma DifferingGrows(cs: seq<Connection>, t: seq<Connection>, n: nat)
    requires 0 < n <= |cs| && n <= |t|
    ensures |Differing(cs, t, n)| == |Differing(cs, t, n - 1)| + if cs[n - 1] != t[n - 1] then 1 else 0
  {
    var before := Differing(cs, t, n - 1);
    if cs[n - 1] != t[n - 1] {
      assert Differing(cs, t, n) == before + {n - 1};
    } else {
      assert Differing(cs, t, n) == before;
    }
  }

  predicate KnownId(rows: seq<Row>, id: string) {
    exists i | 0 <= i < |rows| :: rows[i].deliveryId == id || rows[i].eventId == id
  }

  /** A verified delivery of a new id changes connections as its access event says; no other delivery changes any. */
  lemma DeliveryChangesAccess(cfg: Config, s: State, d: Delivery, now: int)
    ensures Ingest(cfg, s, d, now).0.connections ==
              if d.signatureValid && d.inWindow && d.body.Access? && !KnownId(s.rows, d.id)
              then ApplyAccess(s.connections, d.body.access, now) else s.connections
  {
    hide ApplyAccess, ParseEvent, MatchesBranch;
  }

  /** What the sender is told: the earlier row, a refusal, or the row now recorded; nothing is kept of a conflict. */
  lemma AnswerMeans(cfg: Config, s: State, d: Delivery, now: int)
    ensures var (t, r) := Ingest(cfg, s, d, now); var n := |s.rows|;
            && (r.Existing? <==> HasDelivery(s.rows, d.id))
            && (r.Existing? ==> t == s && r.row in s.rows && r.row.deliveryId == d.id)
            && (r.Conflict? ==> t == s && !HasDelivery(s.rows, d.id) && HasEvent(s.rows, d.id))
            && (r.SignatureRefused? || r.ReplayRefused? || r.Recorded? ==> |t.rows| == n + 1 && r.row == t.rows[n])
            && (r.SignatureRefused? ==> !d.signatureValid)
            && (r.ReplayRefused? ==> d.signatureValid && !d.inWindow)
            && (r.Recorded? ==> d.signatureValid && d.inWindow)
  {
    hide ApplyAccess, ParseEvent, MatchesBranch;
  }

  // ---- The worker ----

  /** The first connection of a repository, if there is one, is running and bound. */
  ghost predicate Runs(cs: seq<Connection>, nodeId: string, k: nat) {
    && k < |cs| && cs[k].nodeId == nodeId && (forall j | 0 <= j < k :: cs[j].nodeId != nodeId)
    && !cs[k].syncState.Stopped? && cs[k].deactivatedAt.None? && cs[k].project.Some?
  }

  /** Whether the event has its record already, or one can be made of it now. */
  predicate Recordable(cs: seq<Contribution>, project: nat, id: string, env: Env) {
    || (exists c | c in cs :: c.project == project && c.eventRef == id)
    || (env.typeSeeded && forall c | c in cs :: c.eventRef != id)
  }

  /**
   * A pending row is credited to the project its repository is bound to. It waits while the service is missing, and is
   * done without credit where a bot acted; everything else fails.
   */
  lemma SettlementMeans(s: State, row: Row, env: Env, k: nat)
    requires k <= |s.connections| && row.payload.Some? && !row.payload.value.isBot
    requires var node := row.payload.value.nodeId;
             Runs(s.connections, node, k) || forall j: nat | j < |s.connections| :: !Runs(s.connections, node, j)
    ensures var (v, cs) := Judge(s, row, env); var e := row.payload.value; var runs := Runs(s.connections, e.nodeId, k);
            && (v == Blocked <==> runs && !env.serviceAvailable)
            && (v == Done <==> runs && env.serviceAvailable
                               && Recordable(s.contributions, s.connections[k].project.value, e.eventId, env))
            && (v != Done ==> cs == s.contributions)
            && (v == Done ==>
                  var credit := Contribution(s.connections[k].project.value, e.eventId);
                  cs == if credit in s.contributions then s.contributions else s.contributions + [credit])
  {
    var e := row.payload.value;
    var found := FindNode(s.connections, e.nodeId);
    if found.Some? {
      var c := s.connections[found.value];
      assert !c.syncState.Stopped? && c.deactivatedAt.None? && c.project.Some? ==>
          Runs(s.connections, e.nodeId, found.value);
      if c.project.Some? { RecordedIff(s.contributions, e, c.project.value, env); }
    }
    hide RecordCandidate, Recordable;
  }

  lemma RecordedIff(cs: seq<Contribution>, e: ParsedEvent, project: nat, env: Env)
    ensures var r := RecordCandidate(cs, e, project, env); var credit := Contribution(project, e.eventId);
            && (r.Ok? <==> Recordable(cs, project, e.eventId, env))
            && (r.Ok? ==> r.value == if credit in cs then cs else cs + [credit])
  {
    var credit := Contribution(project, e.eventId);
    assert forall c | c in cs :: c.project == project && c.eventRef == e.eventId ==> c == credit;
    assert HasContribution(cs, e.eventId) <==> exists c | c in cs :: c.eventRef == e.eventId;
  }

  lemma BotsEarnNothing(s: State, row: Row, env: Env)
    requires row.payload.Some? ==> row.payload.value.isBot
    ensures Judge(s, row, env) == (if row.payload.Some? then Done else Refused, s.contributions)
  {}

  /** What the ledger keeps of the verdict on the row at `i`; every other row stays as it is. */
  lemma VerdictRecorded(s: State, i: nat, env: Env)
    requires i < |s.rows|
    ensures var (t, v) := ProcessOne(s, i, env); var r := s.rows[i];
            && v == Judge(s, r, env).0 && t.contributions == Judge(s, r, env).1 && t.connections == s.connections
            && t.rows == s.rows[i := t.rows[i]]
            && (v == Blocked ==> t.rows[i] == r)
            && (v != Blocked ==> t.rows[i] == r.(state := if v == Done then Processed else Failed,
                                                 attempts := r.attempts + 1))
  {
    hide Judge;
  }

  /** The worker takes the oldest rows: none that is pending before one it takes is left out. */
  lemma {:induction false} OldestTaken(rows: seq<Row>, from: nat, limit: nat, i: nat, j: nat)
    requires from <= i < |rows| && rows[i].state.Pending?
    requires j < |PendingFrom(rows, from, limit)| && i <= PendingFrom(rows, from, limit)[j]
    ensures i in PendingFrom(rows, from, limit)
    decreases |rows| - from
  {
    if i > from {
      if rows[from].state.Pending? {
        assert j > 0;
        OldestTaken(rows, from + 1, limit - 1, i, j - 1);
      } else {
        OldestTaken(rows, from + 1, limit, i, j);
      }
    }
  }

  // ---- Sweeps ----

  /** What the first `j` of the events bring: the event there is in none of the rows and none before it. */
  ghost predicate News(rows: seq<Row>, events: seq<ReconciliationEvent>, from: nat, j: nat)
    requires j < |events|
  {
    && (forall i | 0 <= i < |rows| :: rows[i].eventId != events[j].parsed.eventId)
    && (forall i | from <= i < j :: events[i].parsed.eventId != events[j].parsed.eventId)
  }

  /** An event of another repository, or a new one whose delivery id is taken, by a row or by news before it. */
  ghost predicate Rejects(rows: seq<Row>, nodeId: string, events: seq<ReconciliationEvent>, from: nat, j: nat)
    requires j < |events|
  {
    || events[j].parsed.nodeId != nodeId
    || (News(rows, events, from, j)
        && ((exists i | 0 <= i < |rows| :: rows[i].deliveryId == events[j].deliveryId)
            || NewsBefore(rows, events, from, j, events[j].deliveryId)))
  }

  ghost predicate NewsBefore(rows: seq<Row>, events: seq<ReconciliationEvent>, from: nat, j: nat, deliveryId: string)
    requires j < |events|
  {
    exists i | from <= i < j :: News(rows, events, from, i) && events[i].deliveryId == deliveryId
  }

  ghost predicate NoneRejected(rows: seq<Row>, nodeId: string, events: seq<ReconciliationEvent>, from: nat) {
    forall j | from <= j < |events| :: !Rejects(rows, nodeId, events, from, j)
  }

  predicate Recovers(r: Row, e: ReconciliationEvent) {
    && r.deliveryId == e.deliveryId && r.eventId == e.parsed.eventId && r.source == Reconciliation
    && r.payload == Some(e.parsed) && r.state == Pending && r.attempts == 0
  }

  /** The rows a page adds are its news, in order. */
  ghost predicate Appended(rows: seq<Row>, added: seq<Row>, events: seq<ReconciliationEvent>, from: nat, js: seq<nat>) {
    && |js| == |added| && (forall x, y | 0 <= x < y < |js| :: js[x] < js[y])
    && (forall x | 0 <= x < |js| ::
          from <= js[x] < |events| && News(rows, events, from, js[x]) && Recovers(added[x], events[js[x]]))
    && (forall j | from <= j < |events| && News(rows, events, from, j) :: j in js)
  }

  lemma NewsAfterSkipped(rows: seq<Row>, events: seq<ReconciliationEvent>, from: nat, j: nat)
    requires from < j < |events| && !News(rows, events, from, from)
    ensures News(rows, events, from + 1, j) <==> News(rows, events, from, j)
  {}

  lemma NewsAfterAdded(rows: seq<Row>, row: Row, events: seq<ReconciliationEvent>, from: nat, j: nat)
    requires from < j < |events| && row.eventId == events[from].parsed.eventId
    ensures News(rows + [row], events, from + 1, j) <==> News(rows, events, from, j)
  {
    assert (rows + [row])[|rows|] == row;
    assert forall i | 0 <= i < |rows| :: (rows + [row])[i] == rows[i];
  }

  /**
   * A page is recorded exactly when none of its events is rejected. Then its news are appended in order, as pending
   * rows, and counted.
   */
  lemma {:induction false} PageMeans(rows: seq<Row>, nodeId: string, events: seq<ReconciliationEvent>, from: nat,
                                     n: nat)
    returns (js: seq<nat>)
    requires from <= |events|
    ensures var r := PersistFrom(rows, nodeId, events, from, n);
            && (r.Ok? <==> NoneRejected(rows, nodeId, events, from))
            && (r.Ok? ==> rows <= r.value.0 && r.value.1 == n + |r.value.0| - |rows|
                          && Appended(rows, r.value.0[|rows|..], events, from, js))
    decreases |events| - from
  {
    js := [];
    if from == |events| { return; }
    var e := events[from];
    hide NoneRejected, Appended;
    if e.parsed.nodeId != nodeId {
      StoppedStep(rows, nodeId, events, from);
    } else if HasEvent(rows, e.parsed.eventId) {
      js := PageMeans(rows, nodeId, events, from + 1, n);
      SkippedStep(rows, nodeId, events, from, js);
    } else if HasDelivery(rows, e.deliveryId) {
      StoppedStep(rows, nodeId, events, from);
    } else {
      var row := RecoveredRow(e);
      var later := PageMeans(rows + [row], nodeId, events, from + 1, n + 1);
      js := [from] + later;
      AddedStep(rows, nodeId, events, from, row, later);
      var r := PersistFrom(rows, nodeId, events, from, n);
      if r.Ok? {
        assert r.value.0[|rows|..] == [row] + r.value.0[|rows + [row]|..];
      }
    }
  }

  lemma StoppedStep(rows: seq<Row>, nodeId: string, events: seq<ReconciliationEvent>, from: nat)
    requires from < |events|
    requires || events[from].parsed.nodeId != nodeId
             || (!HasEvent(rows, events[from].parsed.eventId) && HasDelivery(rows, events[from].deliveryId))
    ensures !NoneRejected(rows, nodeId, events, from)
  {
    assert Rejects(rows, nodeId, events, from, from);
  }

  lemma SkippedStep(rows: seq<Row>, nodeId: string, events: seq<ReconciliationEvent>, from: nat, js: seq<nat>)
    requires from < |events| && HasEvent(rows, events[from].parsed.eventId) && events[from].parsed.nodeId == nodeId
    ensures NoneRejected(rows, nodeId, events, from) <==> NoneRejected(rows, nodeId, events, from + 1)
    ensures forall added :: Appended(rows, added, events, from + 1, js) ==> Appended(rows, added, events, from, js)
  {
    assert !News(rows, events, from, from);
    forall j | from < j < |events|
      ensures News(rows, events, from, j) <==> News(rows, events, from + 1, j)
    {
      NewsAfterSkipped(rows, events, from, j);
    }
    hide News;
    assert !Rejects(rows, nodeId, events, from, from);
    forall j | from < j < |events|
      ensures Rejects(rows, nodeId, events, from, j) <==> Rejects(rows, nodeId, events, from + 1, j)
    {
      var id := events[j].deliveryId;
      assert NewsBefore(rows, events, from, j, id) <==> NewsBefore(rows, events, from + 1, j, id) by {
        if i :| from <= i < j && News(rows, events, from, i) && events[i].deliveryId == id {
          assert News(rows, events, from + 1, i);
        }
        if i :| from + 1 <= i < j && News(rows, events, from + 1, i) && events[i].deliveryId == id {
          assert News(rows, events, from, i);
        }
      }
    }
    hide Rejects;
    forall j | from <= j < |events| && NoneRejected(rows, nodeId, events, from + 1)
      ensures !Rejects(rows, nodeId, events, from, j)
    {
      if j > from { assert !Rejects(rows, nodeId, events, from + 1, j); }
    }
    var next := from + 1;
    forall j | from < j < |events| && NoneRejected(rows, nodeId, events, from)
      ensures !Rejects(rows, nodeId, events, next, j)
    {
      assert !Rejects(rows, nodeId, events, from, j);
    }
  }

  lemma AddedStep(rows: seq<Row>, nodeId: string, events: seq<ReconciliationEvent>, from: nat, row: Row, js: seq<nat>)
    requires from < |events| && !HasEvent(rows, events[from].parsed.eventId) && events[from].parsed.nodeId == nodeId
    requires !HasDelivery(rows, events[from].deliveryId) && Recovers(row, events[from])
    ensures NoneRejected(rows, nodeId, events, from) <==> NoneRejected(rows + [row], nodeId, events, from + 1)
    ensures forall added :: Appended(rows + [row], added, events, from + 1, js) ==>
                              Appended(rows, [row] + added, events, from, [from] + js)
  {
    assert News(rows, events, from, from);
    forall j | from < j < |events|
      ensures News(rows, events, from, j) <==> News(rows + [row], events, from + 1, j)
    {
      NewsAfterAdded(rows, row, events, from, j);
    }
    hide News, HasEvent;
    assert !Rejects(rows, nodeId, events, from, from);
    forall j | from < j < |events|
      ensures Rejects(rows, nodeId, events, from, j) <==> Rejects(rows + [row], nodeId, events, from + 1, j)
    {
      TakenAfterAdded(rows, row, events, from, j);
    }
    hide Rejects;
    forall j | from <= j < |events| && NoneRejected(rows + [row], nodeId, events, from + 1)
      ensures !Rejects(rows, nodeId, events, from, j)
    {
      if j > from { assert !Rejects(rows + [row], nodeId, events, from + 1, j); }
    }
    var next := from + 1;
    forall j | from < j < |events| && NoneRejected(rows, nodeId, events, from)
      ensures !Rejects(rows + [row], nodeId, events, next, j)
    {
      assert !Rejects(rows, nodeId, events, from, j);
    }
  }

  /** A delivery id is taken after the row is added exactly when it was taken, or is the row's. */
  lemma TakenAfterAdded(rows: seq<Row>, row: Row, events: seq<ReconciliationEvent>, from: nat, j: nat)
    requires from < j < |events| && Recovers(row, events[from]) && News(rows, events, from, from)
    ensures var id := events[j].deliveryId; var more := rows + [row];
            (exists i | 0 <= i < |more| :: more[i].deliveryId == id) || NewsBefore(more, events, from + 1, j, id)
            <==> (exists i | 0 <= i < |rows| :: rows[i].deliveryId == id) || NewsBefore(rows, events, from, j, id)
  {
    var id := events[j].deliveryId;
    var more := rows + [row];
    assert more[|rows|] == row && forall i | 0 <= i < |rows| :: more[i] == rows[i];
    forall i | from < i < j ensures News(rows, events, from, i) <==> News(more, events, from + 1, i) {
      NewsAfterAdded(rows, row, events, from, i);
    }
    hide News;
    if i :| from <= i < j && News(rows, events, from, i) && events[i].deliveryId == id {
      assert i > from ==> News(more, events, from + 1, i);
    }
    if i :| from + 1 <= i < j && News(more, events, from + 1, i) && events[i].deliveryId == id {
      assert News(rows, events, from, i);
    }
  }

  predicate SameAccess(c: Connection, d: Connection) {
    && d.installationId == c.installationId && d.repositoryId == c.repositoryId && d.nodeId == c.nodeId
    && d.activatedBy == c.activatedBy && d.project == c.project && d.deactivatedAt == c.deactivatedAt
    && d.revoked == c.revoked
  }

  /**
   * A sweep of a stopped connection does nothing. One that cannot be fetched or recorded leaves the rows alone and
   * postpones the next attempt; any other moves the cursor on and forgets earlier failures.
   */
  lemma SweepMeans(cfg: Config, s: State, k: nat, fetched: Result<FetchedPage, FetchError>, now: int)
    requires k < |s.connections|
    ensures var (t, r) := Reconcile(cfg, s, k, fetched, now); var c := s.connections[k]; var d := t.connections[k];
            && t.contributions == s.contributions && t.connections == s.connections[k := d] && SameAccess(c, d)
            && (c.syncState.Stopped? ==> t == s && r == Ok(0))
            && (!c.syncState.Stopped? ==>
                  && (r.Ok? <==> fetched.Ok? && PersistFrom(s.rows, c.nodeId, fetched.value.events, 0, 0).Ok?)
                  && (r.Ok? ==>
                        && PersistFrom(s.rows, c.nodeId, fetched.value.events, 0, 0) == Ok((t.rows, r.value))
                        && d.cursor == fetched.value.next && d.syncState == Idle && d.failures == 0
                        && d.nextAttempt == None)
                  && (r.Err? ==>
                        && t.rows == s.rows && d.cursor == c.cursor && d.syncState == Degraded
                        && d.failures == c.failures + 1
                        && d.nextAttempt == Some(now + RetryDelay(cfg, c.failures + 1))))
  {
    hide PersistFrom, RetryDelay;
  }

  /** The first wait is the base; it doubles with each failure up to the maximum, and from 31 failures on it stays. */
  lemma DelayDoubles(cfg: Config, n: nat)
    requires n > 0
    ensures var base := Max(1, cfg.retryBase);
            && RetryDelay(cfg, 1) == base
            && RetryDelay(cfg, n + 1) ==
                 if n <= 30 then Min(Max(base, cfg.retryMax), 2 * RetryDelay(cfg, n)) else RetryDelay(cfg, n)
  {
    var base := Max(1, cfg.retryBase);
    assert Pow2(0) == 1;
    if n <= 30 {
      assert Pow2(n) == 2 * Pow2(n - 1);
      assert base * Pow2(n) == 2 * (base * Pow2(n - 1));
      Pow2Grows(0, n - 1);
      ScaleGrows(base, 1, Pow2(n - 1));
    }
    hide Pow2;
  }

  /** The page a cursor asks for. */
  function PageAt(cursor: Cursor): Option<int> {
    match cursor
    case Start => Some(1)
    case Page(n) => Some(n)
    case Malformed => None
  }

  /**
   * A fetch needs a bound project with a default branch and a page from 1 on; a full page is followed by the next one.
   */
  lemma FetchMeans(cfg: Config, c: Connection, provider: Provider)
    ensures var r := FetchPage(cfg, c, provider);
            && (r == Err(NoProject) <==> c.project.None?)
            && (r == Err(NoDefaultBranch) <==>
                  c.project.Some? && (c.project.value !in cfg.branches || cfg.branches[c.project.value] == ""))
            && (r == Err(BadCursor) <==>
                  && c.project.Some? && c.project.value in cfg.branches && cfg.branches[c.project.value] != ""
                  && (c.cursor.Malformed? || (c.cursor.Page? && c.cursor.number < 1)))
            && (r.Ok? ==>
                  var n := PageAt(c.cursor).value;
                  r.value.next == if |provider.events| >= 100 * n then Page(n + 1) else Start)
  {
    if c.project.Some? {
      var n := PageNumber(c.cursor);
      if n.Ok? && n.value >= 1 {
        var raws := RawPage(provider.events, n.value);
        OnlyForeignFails(raws, TargetOf(cfg, c.nodeId, c.project.value, provider), cfg.enabled, |raws|);
      }
    }
    hide Normalize, NormalizedUpTo;
  }

  lemma {:induction false} OnlyForeignFails(raws: seq<RawEvent>, target: Target, enabled: set<EventType>, n: nat)
    requires n <= |raws|
    ensures var r := NormalizedUpTo(raws, target, enabled, n); r.Err? ==> r.error == ForeignRepository
  {
    if n > 0 { OnlyForeignFails(raws, target, enabled, n - 1); }
  }

  // ---- Enrolment, binding and disconnection ----

  /**
   * Enrolling a repository not seen before adds a running, unbound connection; enrolling a stopped one restarts it for
   * the new user, keeping its binding and its cursor; enrolling a running one changes nothing.
   */
  lemma EnrolmentMeans(cs: seq<Connection>, e: Enrolment)
    ensures var t := Enroll(cs, e); var n := |cs|;
            && ((forall i | 0 <= i < n :: cs[i].repositoryId != e.repositoryId) ==>
                  && |t| == n + 1 && t[..n] == cs
                  && t[n].installationId == e.installationId && t[n].repositoryId == e.repositoryId
                  && t[n].nodeId == e.nodeId && t[n].activatedBy == e.user && t[n].project == None
                  && t[n].syncState == Idle && t[n].cursor == Start && t[n].failures == 0
                  && t[n].nextAttempt == None && t[n].deactivatedAt == None && t[n].revoked == NotRevoked)
            && forall k | 0 <= k < n && cs[k].repositoryId == e.repositoryId
                          && (forall i | 0 <= i < n && i != k :: cs[i].repositoryId != e.repositoryId) ::
                 && t == cs[k := t[k]]
                 && (!cs[k].syncState.Stopped? && cs[k].deactivatedAt.None? ==> t[k] == cs[k])
                 && (cs[k].syncState.Stopped? || cs[k].deactivatedAt.Some? ==>
                       && t[k].installationId == e.installationId && t[k].repositoryId == e.repositoryId
                       && t[k].nodeId == e.nodeId && t[k].activatedBy == e.user && t[k].project == cs[k].project
                       && t[k].syncState == Idle && t[k].cursor == cs[k].cursor && t[k].failures == 0
                       && t[k].nextAttempt == None && t[k].deactivatedAt == None && t[k].revoked == NotRevoked)
  {}

  /** Why a binding is refused, in the order the reasons are looked at. */
  lemma RefusalMeans(c: Connection, b: Binding)
    requires Bind(c, b).Err?
    ensures Bind(c, b).error ==
              if !b.authorized then NotAuthorized
              else if !b.urlMatches then WrongRepository
              else if !(c.deactivatedAt == None && c.syncState != Stopped) then Disconnected
              else if b.personal && b.actor != c.activatedBy then NotYours
              else AlreadyBound
  {}

  /** Disconnecting a linked account stops the connections it activated that still run; their bindings stay. */
  lemma DisconnectionMeans(cs: seq<Connection>, user: nat, linked: bool, now: int, i: nat)
    requires i < |cs|
    ensures var t := Disconnect(cs, user, linked, now);
            && |t| == |cs|
            && (linked && cs[i].activatedBy == user && cs[i].deactivatedAt == None ==>
                  && SameRepository(cs[i], t[i]) && t[i].project == cs[i].project && t[i].revoked == cs[i].revoked
                  && t[i].failures == cs[i].failures && t[i].nextAttempt == cs[i].nextAttempt
                  && t[i].syncState == Stopped && t[i].deactivatedAt == Some(now))
            && (!linked || cs[i].activatedBy != user || cs[i].deactivatedAt != None ==> t[i] == cs[i])
  {}
}
