/** The services over the stored tables, performed in place and proved to do exactly what `Ledger` says. */
module SyncServices {
  import opened Common
  import opened GithubEvents
  import opened Ledger

  class SyncService {
    var rows: seq<Row>
    var contributions: seq<Contribution>
    var connections: seq<Connection>

    function View(): State reads this { State(rows, contributions, connections) }

    constructor ()
      ensures View() == State([], [], [])
    {
      rows, contributions, connections := [], [], [];
    }

    method IngestWebhook(cfg: Config, d: Delivery, now: int) returns (r: IngestOutcome)
      modifies this
      ensures (View(), r) == Ingest(cfg, old(View()), d, now)
    {
      var existing := FindDelivery(rows, d.id);
      if existing.Some? { return Existing(rows[existing.value]); }
      var row := RowFor(cfg, View(), d);
      if HasDelivery(rows, row.deliveryId) || HasEvent(rows, row.eventId) { return Conflict; }
      if Accepted(d) && d.body.Access? { ApplyAccessEvent(d.body.access, now); }
      rows := rows + [row];
      if !d.signatureValid { return SignatureRefused(row); }
      if !d.inWindow { return ReplayRefused(row); }
      return Recorded(row);
    }

    method ApplyAccessEvent(a: AccessEvent, now: int)
      modifies this`connections
      ensures connections == ApplyAccess(old(connections), a, now)
    {
      if !WellFormedAccess(a) { return; }
      var affected: nat;
      match a {
        case Deleted(i) => affected := RevokeAll(Installation(i.value), InstallationDeleted, now);
        case Suspended(i) => affected := RevokeAll(Installation(i.value), InstallationSuspended, now);
        case Unsuspended(i) => UnsuspendAll(i.value);
        case Removed(i, r) =>
          if r.value != {} { affected := RevokeAll(Repositories(i.value, r.value), RepositoryRemoved, now); }
        case OtherAccess =>
      }
    }

    /** Revokes every connection in scope that is not revoked for this reason already, and counts them. */
    method RevokeAll(scope: Scope, reason: RevokedReason, now: int) returns (affected: nat)
      modifies this`connections
      ensures connections == Revoke(old(connections), scope, reason, now)
      ensures affected == AffectedUpTo(old(connections), scope, reason, |connections|)
    {
      affected := 0;
      for i := 0 to |connections|
        invariant |connections| == |old(connections)|
        invariant connections[..i] == Revoke(old(connections), scope, reason, now)[..i]
        invariant connections[i..] == old(connections)[i..]
        invariant affected == AffectedUpTo(old(connections), scope, reason, i)
      {
        var c := connections[i];
        assert c == old(connections)[i];
        if Revokes(c, scope, reason) {
          connections := connections[i := RevokeOne(c, scope, reason, now)];
          affected := affected + 1;
        }
      }
    }

    method UnsuspendAll(installation: int)
      modifies this`connections
      ensures connections == Unsuspend(old(connections), installation)
    {
      for i := 0 to |connections|
        invariant |connections| == |old(connections)|
        invariant connections[..i] == Unsuspend(old(connections), installation)[..i]
        invariant connections[i..] == old(connections)[i..]
      {
        assert connections[i] == old(connections)[i];
        connections := connections[i := UnsuspendOne(connections[i], installation)];
      }
    }

    /** Drains up to `limit` pending rows; the tally accounts for every row it looked at. */
    method ProcessPending(limit: nat, env: Env) returns (t: Tally)
      modifies this
      ensures (View(), t) == Drain(old(View()), limit, env)
    {
      var todo := PendingFrom(rows, 0, limit);
      t := Tally(0, 0, 0);
      for n := 0 to |todo|
        invariant |rows| == |old(rows)|
        invariant DrainRows(View(), todo[n..], env, t) == DrainRows(old(View()), todo, env, Tally(0, 0, 0))
      {
        ghost var before := View();
        assert todo[n..][0] == todo[n] && todo[n..][1..] == todo[n + 1..];
        var i := todo[n];
        var (verdict, candidates) := Judge(View(), rows[i], env);
        contributions := candidates;
        rows := rows[i := Settle(rows[i], verdict)];
        t := Counted(t, verdict);
        assert (View(), verdict) == ProcessOne(before, i, env);
      }
    }

    method ReconcileRepository(cfg: Config, k: nat, fetched: Result<FetchedPage, FetchError>, now: int)
      returns (r: Result<nat, SyncError>)
      requires k < |connections|
      modifies this
      ensures (View(), r) == Reconcile(cfg, old(View()), k, fetched, now)
    {
      if connections[k].syncState.Stopped? { return Ok(0); }
      var saved := connections[k];
      connections := connections[k := saved.(syncState := Syncing)];
      var persisted := Err(SyncFailed);
      if fetched.Ok? { persisted := PersistPage(saved.nodeId, fetched.value.events); }
      if persisted.Err? {
        connections := connections[k := saved];
        assert connections == old(connections);
        connections := connections[k := MarkFailed(cfg, saved, now)];
        return Err(SyncFailed);
      }
      connections := connections[k := Synced(saved, fetched.value.next)];
      assert connections == old(connections)[k := Synced(saved, fetched.value.next)];
      return persisted;
    }

    /** Stores the page's unknown events; on failure the rows it stored are rolled back. */
    method PersistPage(nodeId: string, events: seq<ReconciliationEvent>) returns (r: Result<nat, SyncError>)
      modifies this`rows
      ensures match PersistFrom(old(rows), nodeId, events, 0, 0)
              case Err(_) => r.Err? && rows == old(rows)
              case Ok((stored, recovered)) => r == Ok(recovered) && rows == stored
    {
      var saved, recovered := rows, 0;
      for i := 0 to |events|
        invariant PersistFrom(rows, nodeId, events, i, recovered) == PersistFrom(saved, nodeId, events, 0, 0)
      {
        var e := events[i];
        if e.parsed.nodeId != nodeId {
          rows := saved;
          return Err(SyncFailed);
        }
        if !HasEvent(rows, e.parsed.eventId) {
          var inserted := Insert(rows, RecoveredRow(e));
          if inserted.Err? {
            rows := saved;
            return Err(SyncFailed);
          }
          rows := inserted.value;
          recovered := recovered + 1;
        }
      }
      return Ok(recovered);
    }

    method EnrollRepository(e: Enrolment) returns (created: bool)
      modifies this`connections
      ensures connections == Enroll(old(connections), e)
      ensures created <==> FindRepository(old(connections), e.repositoryId).None?
    {
      var existing := FindRepository(connections, e.repositoryId);
      if existing.None? {
        connections := connections + [Fresh(e)];
        return true;
      }
      connections := connections[existing.value := Reenrolled(connections[existing.value], e)];
      return false;
    }

    /** The guards of a binding in their order; binding a repository to the project it is bound to does nothing. */
    method BindRepository(k: nat, b: Binding) returns (r: Result<bool, BindError>)
      requires k < |connections|
      modifies this`connections
      ensures r.Ok? <==> Bindable(old(connections)[k], b)
      ensures r.Ok? ==> connections == old(connections)[k := old(connections)[k].(project := Some(b.project))]
      ensures r.Ok? ==> (r.value <==> old(connections)[k].project.None?)
      ensures r.Err? ==> connections == old(connections) && Bind(old(connections)[k], b) == Err(r.error)
    {
      var c := connections[k];
      if !b.authorized { return Err(NotAuthorized); }
      if !b.urlMatches { return Err(WrongRepository); }
      if c.deactivatedAt.Some? || c.syncState.Stopped? { return Err(Disconnected); }
      if b.personal && c.activatedBy != b.actor { return Err(NotYours); }
      if c.project == Some(b.project) {
        assert connections == connections[k := c];
        return Ok(false);
      }
      if c.project.Some? { return Err(AlreadyBound); }
      connections := connections[k := c.(project := Some(b.project))];
      return Ok(true);
    }

    method DisconnectUser(user: nat, linked: bool, now: int)
      modifies this`connections
      ensures connections == Disconnect(old(connections), user, linked, now)
    {
      if !linked { return; }
      for i := 0 to |connections|
        invariant |connections| == |old(connections)|
        invariant connections[..i] == Disconnect(old(connections), user, linked, now)[..i]
        invariant connections[i..] == old(connections)[i..]
      {
        assert connections[i] == old(connections)[i];
        connections := connections[i := DisconnectOne(connections[i], user, now)];
      }
    }
  }
}
