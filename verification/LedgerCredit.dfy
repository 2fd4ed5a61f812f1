/** At-most-once credit: what every run of the services keeps about rows and contributions. */
module LedgerCredit {
  import opened Common
  import opened GithubEvents
  import opened Ledger

  ghost predicate UniqueKeys(rows: seq<Row>) {
    forall i, j | 0 <= i < j < |rows| :: rows[i].deliveryId != rows[j].deliveryId && rows[i].eventId != rows[j].eventId
  }

  ghost predicate UniqueRefs(cs: seq<Contribution>) {
    forall i, j | 0 <= i < j < |cs| :: cs[i].eventRef != cs[j].eventRef
  }

  /** A row that was credited: the worker settled it as processed and its actor is not a bot. */
  predicate Credits(r: Row) { r.state.Processed? && r.payload.Some? && !r.payload.value.isBot }

  /** Rows that can earn credit are keyed by their own event. */
  predicate RowOk(r: Row) {
    r.state.Pending? || Credits(r) ==> r.payload.Some? && r.payload.value.eventId == r.eventId
  }

  /** Contributions and credited rows correspond one to one. */
  ghost predicate CreditMatches(rows: seq<Row>, cs: seq<Contribution>) {
    && (forall i | 0 <= i < |rows| && Credits(rows[i]) :: HasContribution(cs, rows[i].eventId))
    && (forall c | c in cs :: exists i | 0 <= i < |rows| :: Credits(rows[i]) && rows[i].eventId == c.eventRef)
  }

  ghost predicate LedgerOk(s: State) {
    && UniqueKeys(s.rows)
    && UniqueRefs(s.contributions)
    && (forall r | r in s.rows :: RowOk(r))
    && CreditMatches(s.rows, s.contributions)
  }

  /** Nothing recorded is lost or altered: a settled row is final, and a pending row only ever gets settled. */
  predicate RowKept(old_: Row, new_: Row) {
    if old_.state.Pending?
    then new_ == old_.(state := new_.state, attempts := new_.attempts)
    else new_ == old_
  }

  ghost predicate Kept(s: State, t: State) {
    && |s.rows| <= |t.rows|
    && (forall i | 0 <= i < |s.rows| :: RowKept(s.rows[i], t.rows[i]))
    && s.contributions <= t.contributions
  }

  lemma KeptTransitive(s: State, t: State, u: State)
    requires Kept(s, t) && Kept(t, u)
    ensures Kept(s, u)
  {
    forall i | 0 <= i < |s.rows| ensures RowKept(s.rows[i], u.rows[i]) {
      assert RowKept(s.rows[i], t.rows[i]) && RowKept(t.rows[i], u.rows[i]);
    }
  }

  lemma InsertKeepsLedger(s: State, row: Row)
    requires LedgerOk(s) && RowOk(row) && !Credits(row) && Insert(s.rows, row).Ok?
    ensures LedgerOk(s.(rows := s.rows + [row])) && Kept(s, s.(rows := s.rows + [row]))
  {
    var t := s.(rows := s.rows + [row]);
    forall c | c in t.contributions
      ensures exists i | 0 <= i < |t.rows| :: Credits(t.rows[i]) && t.rows[i].eventId == c.eventRef
    {
      var i :| 0 <= i < |s.rows| && Credits(s.rows[i]) && s.rows[i].eventId == c.eventRef;
      assert t.rows[i] == s.rows[i];
    }
  }

  lemma IngestKeepsLedger(cfg: Config, s: State, d: Delivery, now: int)
    requires LedgerOk(s)
    ensures var t := Ingest(cfg, s, d, now).0; LedgerOk(t) && Kept(s, t)
  {
    var row := RowFor(cfg, s, d);
    if FindDelivery(s.rows, d.id).None? && Insert(s.rows, row).Ok? { InsertKeepsLedger(s, row); }
  }

  /** Recording a candidate keeps references unique, adds at most the event's own, and leaves exactly one of it. */
  lemma CandidateRecorded(cs: seq<Contribution>, p: ParsedEvent, project: nat, env: Env)
    requires UniqueRefs(cs)
    ensures var r := RecordCandidate(cs, p, project, env);
            r.Ok? ==> UniqueRefs(r.value) && cs <= r.value && HasContribution(r.value, p.eventId)
                      && forall c | c in r.value :: c in cs || c.eventRef == p.eventId
  {
    var r := RecordCandidate(cs, p, project, env);
    if r.Ok? {
      if Contribution(project, p.eventId) in cs {
        var i :| 0 <= i < |cs| && cs[i] == Contribution(project, p.eventId);
        assert cs[i].eventRef == p.eventId;
      } else {
        assert r.value[|cs|].eventRef == p.eventId;
      }
    }
  }

  /** What the worker adds to the contributions: nothing, or the row's own reference on its way to being credited. */
  lemma JudgeAddsOwnReference(s: State, row: Row, env: Env)
    requires UniqueRefs(s.contributions) && row.state.Pending? && RowOk(row)
    ensures var (v, cs) := Judge(s, row, env);
            && UniqueRefs(cs) && s.contributions <= cs
            && (Credits(Settle(row, v)) ==> HasContribution(cs, row.eventId))
            && (forall c | c in cs :: c in s.contributions || (Credits(Settle(row, v)) && c.eventRef == row.eventId))
  {
    var p := row.payload.value;
    var k := FindNode(s.connections, p.nodeId);
    if k.Some? && s.connections[k.value].project.Some? {
      CandidateRecorded(s.contributions, p, s.connections[k.value].project.value, env);
    }
  }

  lemma SettleKeepsMatch(rows: seq<Row>, i: nat, row: Row, cs: seq<Contribution>, cs': seq<Contribution>)
    requires CreditMatches(rows, cs) && i < |rows| && !Credits(rows[i]) && cs <= cs'
    requires row.eventId == rows[i].eventId
    requires Credits(row) ==> HasContribution(cs', row.eventId)
    requires forall c | c in cs' :: c in cs || (Credits(row) && c.eventRef == row.eventId)
    ensures CreditMatches(rows[i := row], cs')
  {
    var after := rows[i := row];
    forall j | 0 <= j < |after| && Credits(after[j]) ensures HasContribution(cs', after[j].eventId) {
      if j != i {
        var n :| 0 <= n < |cs| && cs[n].eventRef == rows[j].eventId;
        assert cs'[n] == cs[n];
      }
    }
    forall c | c in cs' ensures exists j | 0 <= j < |after| :: Credits(after[j]) && after[j].eventId == c.eventRef {
      if c in cs {
        var j :| 0 <= j < |rows| && Credits(rows[j]) && rows[j].eventId == c.eventRef;
        assert after[j] == rows[j];
      } else {
        assert Credits(after[i]);
      }
    }
  }

  lemma ProcessKeepsLedger(s: State, i: nat, env: Env)
    requires LedgerOk(s) && i < |s.rows| && s.rows[i].state.Pending?
    ensures var t := ProcessOne(s, i, env).0; LedgerOk(t) && Kept(s, t)
  {
    hide Judge, HasContribution;
    var (v, cs) := Judge(s, s.rows[i], env);
    JudgeAddsOwnReference(s, s.rows[i], env);
    SettleKeepsMatch(s.rows, i, Settle(s.rows[i], v), s.contributions, cs);
    var t := ProcessOne(s, i, env).0;
    assert forall r | r in t.rows :: r in s.rows || r == t.rows[i];
  }

  /** The rows still to be drained are pending and distinct. */
  ghost predicate Todo(s: State, todo: seq<nat>) {
    && (forall j | 0 <= j < |todo| :: todo[j] < |s.rows| && s.rows[todo[j]].state.Pending?)
    && (forall j, k | 0 <= j < k < |todo| :: todo[j] < todo[k])
  }

  lemma TodoAdvances(s: State, todo: seq<nat>, env: Env)
    requires todo != [] && Todo(s, todo)
    ensures Todo(ProcessOne(s, todo[0], env).0, todo[1..])
  {
    var t := ProcessOne(s, todo[0], env).0;
    forall j | 0 <= j < |todo[1..]| ensures todo[1..][j] < |t.rows| && t.rows[todo[1..][j]].state.Pending? {
      assert todo[1..][j] == todo[j + 1] && todo[0] < todo[j + 1];
    }
  }

  /** A drain keeps the ledger, and its tally accounts for every row it took. */
  lemma {:induction false} DrainKeepsLedger(s: State, todo: seq<nat>, env: Env, t: Tally)
    requires LedgerOk(s) && Todo(s, todo)
    ensures var (u, n) := DrainRows(s, todo, env, t);
            LedgerOk(u) && Kept(s, u)
            && n.processed + n.failed + n.blocked == t.processed + t.failed + t.blocked + |todo|
    decreases |todo|
  {
    if todo != [] {
      var (s', v) := ProcessOne(s, todo[0], env);
      ProcessKeepsLedger(s, todo[0], env);
      TodoAdvances(s, todo, env);
      DrainKeepsLedger(s', todo[1..], env, Counted(t, v));
      KeptTransitive(s, s', DrainRows(s, todo, env, t).0);
    }
  }

  lemma {:induction false} PersistKeepsLedger(s: State, nodeId: string, events: seq<ReconciliationEvent>, i: nat,
                                              n: nat)
    requires LedgerOk(s) && i <= |events|
    ensures var r := PersistFrom(s.rows, nodeId, events, i, n);
            r.Ok? ==> LedgerOk(s.(rows := r.value.0)) && Kept(s, s.(rows := r.value.0))
    decreases |events| - i
  {
    if i < |events| {
      var e := events[i];
      if HasEvent(s.rows, e.parsed.eventId) {
        PersistKeepsLedger(s, nodeId, events, i + 1, n);
      } else if Insert(s.rows, RecoveredRow(e)).Ok? {
        InsertKeepsLedger(s, RecoveredRow(e));
        var t := s.(rows := s.rows + [RecoveredRow(e)]);
        PersistKeepsLedger(t, nodeId, events, i + 1, n + 1);
        var r := PersistFrom(s.rows, nodeId, events, i, n);
        if r.Ok? && e.parsed.nodeId == nodeId { KeptTransitive(s, t, s.(rows := r.value.0)); }
      }
    }
  }

  lemma StepKeepsLedger(cfg: Config, s: State, step: Step)
    requires LedgerOk(s)
    ensures LedgerOk(Next(cfg, s, step)) && Kept(s, Next(cfg, s, step))
  {
    match step
    case Hook(d, now) => IngestKeepsLedger(cfg, s, d, now);
    case Work(limit, env) => DrainKeepsLedger(s, PendingFrom(s.rows, 0, limit), env, Tally(0, 0, 0));
    case Sweep(k, fetched, now) =>
      if k < |s.connections| && fetched.Ok? {
        PersistKeepsLedger(s, s.connections[k].nodeId, fetched.value.events, 0, 0);
      }
    case _ =>
  }

  /**
   * Over every run of webhooks, sweeps, drains, enrolments, bindings and disconnections, whatever they carry
   * and however they fail: no two rows share a delivery or event key, no settled row changes again, and
   * contributions correspond one to one to credited rows.
   */
  lemma {:induction false} AtMostOnceCredit(cfg: Config, s: State, steps: seq<Step>)
    requires LedgerOk(s)
    ensures LedgerOk(Run(cfg, s, steps)) && Kept(s, Run(cfg, s, steps))
    decreases |steps|
  {
    if steps != [] {
      var t := Next(cfg, s, steps[0]);
      StepKeepsLedger(cfg, s, steps[0]);
      AtMostOnceCredit(cfg, t, steps[1..]);
      KeptTransitive(s, t, Run(cfg, s, steps));
    }
  }

  lemma FreshLedgerOk(connections: seq<Connection>)
    ensures LedgerOk(State([], [], connections))
  {}

  /** From an empty ledger on, there are as many contributions as credited rows, and each row has its own. */
  lemma OneContributionPerCredit(cfg: Config, connections: seq<Connection>, steps: seq<Step>)
    ensures var s := Run(cfg, State([], [], connections), steps);
            LedgerOk(s) && |s.contributions| == |CreditedRows(s)|
  {
    FreshLedgerOk(connections);
    AtMostOnceCredit(cfg, State([], [], connections), steps);
    hide Run;
    CreditCounted(Run(cfg, State([], [], connections), steps));
  }

  ghost function CreditedRows(s: State): set<nat> { set i | 0 <= i < |s.rows| && Credits(s.rows[i]) }

  lemma CreditCounted(s: State)
    requires LedgerOk(s)
    ensures |s.contributions| == |CreditedRows(s)|
  {
    var rowKeys := set i | i in CreditedRows(s) :: s.rows[i].eventId;
    var refs := set n | 0 <= n < |s.contributions| :: s.contributions[n].eventRef;
    assert rowKeys == refs by {
      forall id | id in refs ensures id in rowKeys {
        var n :| 0 <= n < |s.contributions| && s.contributions[n].eventRef == id;
        assert s.contributions[n] in s.contributions;
        var i :| 0 <= i < |s.rows| && Credits(s.rows[i]) && s.rows[i].eventId == id;
        assert i in CreditedRows(s);
      }
    }
    ImageSize(s.rows, CreditedRows(s));
    RefsSize(s.contributions);
  }

  lemma {:induction false} ImageSize(rows: seq<Row>, ids: set<nat>)
    requires UniqueKeys(rows) && forall i | i in ids :: i < |rows|
    ensures |set i | i in ids :: rows[i].eventId| == |ids|
    decreases |ids|
  {
    var image := set i | i in ids :: rows[i].eventId;
    if ids == {} {
      assert image == {};
    } else {
      var n :| n in ids;
      var rest := ids - {n};
      ImageSize(rows, rest);
      var before := set i | i in rest :: rows[i].eventId;
      assert image == before + {rows[n].eventId};
      assert rows[n].eventId !in before;
    }
  }

  lemma {:induction false} RefsSize(cs: seq<Contribution>)
    requires UniqueRefs(cs)
    ensures |set n | 0 <= n < |cs| :: cs[n].eventRef| == |cs|
  {
    var refs := set n | 0 <= n < |cs| :: cs[n].eventRef;
    if cs == [] {
      assert refs == {};
    } else {
      var last := |cs| - 1;
      var rest := cs[..last];
      RefsSize(rest);
      var before := set n | 0 <= n < |rest| :: rest[n].eventRef;
      assert refs == before + {cs[last].eventRef} by {
        forall id | id in before ensures id in refs {
          var n :| 0 <= n < |rest| && rest[n].eventRef == id;
          assert cs[n].eventRef == id;
        }
        forall id | id in refs && id != cs[last].eventRef ensures id in before {
          var n :| 0 <= n < |cs| && cs[n].eventRef == id;
          assert rest[n].eventRef == id;
        }
      }
    }
  }

  // ---- What a delivery uses up ----

  /** A delivery of a verified event whose type and branch are configured. */
  predicate Creditable(cfg: Config, s: State, d: Delivery) {
    && Accepted(d) && d.body.Activity? && ParseEvent(d.body.event, d.body.payload).Some?
    && d.body.event in cfg.enabled && MatchesBranch(cfg, s.connections, d.body.event, d.body.payload)
  }

  function EventOf(cfg: Config, s: State, d: Delivery): string
    requires Creditable(cfg, s, d)
  {
    ParseEvent(d.body.event, d.body.payload).value.eventId
  }

  /**
   * A rejected or ignored delivery takes its own id as its event key, be it refused, undecodable, an access change, of
   * no verified event, of a type that is not enabled, or off the configured branch. An event not yet in the ledger can
   * still be recorded after it exactly when its id is not that event's id.
   */
  lemma UnverifiedDeliveryUsesOnlyItsId(cfg: Config, s: State, d: Delivery, now: int, eventId: string)
    requires !Creditable(cfg, s, d)
    requires !HasDelivery(s.rows, d.id) && !HasEvent(s.rows, d.id) && !HasEvent(s.rows, eventId)
    ensures var t := Ingest(cfg, s, d, now).0;
            |t.rows| == |s.rows| + 1 && !t.rows[|s.rows|].state.Pending?
            && (HasEvent(t.rows, eventId) <==> d.id == eventId)
  {
    var t := Ingest(cfg, s, d, now).0;
    assert t.rows == s.rows + [RowFor(cfg, s, d)];
    if d.id == eventId {
      assert t.rows[|s.rows|].eventId == eventId;
    }
  }

  /**
   * A creditable delivery is admitted, as a pending row under its event's id, exactly when both its ids are new. With a
   * new delivery id only, it is noted as a duplicate unless that id is taken as an event key; nothing else is changed.
   */
  lemma CreditableAdmittedIff(cfg: Config, s: State, d: Delivery, now: int)
    requires Creditable(cfg, s, d)
    ensures var t := Ingest(cfg, s, d, now).0; var p := ParseEvent(d.body.event, d.body.payload);
            && (t.rows == s.rows + [Row(d.id, EventOf(cfg, s, d), Webhook, p, Pending, 0)]
                <==> !HasDelivery(s.rows, d.id) && !HasEvent(s.rows, EventOf(cfg, s, d)))
            && (t.rows == s.rows + [Row(d.id, d.id, Webhook, p, Duplicate, 0)]
                <==> !HasDelivery(s.rows, d.id) && HasEvent(s.rows, EventOf(cfg, s, d)) && !HasEvent(s.rows, d.id))
            && (t == s <==>
                HasDelivery(s.rows, d.id) || (HasEvent(s.rows, EventOf(cfg, s, d)) && HasEvent(s.rows, d.id)))
  {
    var r, q := RowFor(cfg, s, d), Ingest(cfg, s, d, now).0.rows;
    assert forall row: Row :: (s.rows + [row])[|s.rows|] == row && |s.rows + [row]| == |s.rows| + 1;
    assert q == s.rows || q == s.rows + [r];
  }

  /** The first delivery of an id decides: whatever runs after it, no later delivery of the id has any effect. */
  lemma FirstDeliveryDecides(cfg: Config, s: State, steps: seq<Step>, d: Delivery, now: int)
    requires LedgerOk(s) && HasDelivery(s.rows, d.id)
    ensures var t := Run(cfg, s, steps);
            HasDelivery(t.rows, d.id) && Ingest(cfg, t, d, now).0 == t && Ingest(cfg, t, d, now).1.Existing?
  {
    AtMostOnceCredit(cfg, s, steps);
    hide Run;
    var t := Run(cfg, s, steps);
    var i :| 0 <= i < |s.rows| && s.rows[i].deliveryId == d.id;
    assert RowKept(s.rows[i], t.rows[i]);
  }

  /** So a delivery refused for its signature or its age is not credited by a redelivery under the same id. */
  lemma RefusalOutlastsRedelivery(cfg: Config, s: State, refused: Delivery, good: Delivery, steps: seq<Step>, t1: int,
                                  t2: int)
    requires LedgerOk(s) && !Accepted(refused) && good.id == refused.id
    requires !HasDelivery(s.rows, refused.id) && !HasEvent(s.rows, refused.id)
    ensures var after := Ingest(cfg, s, refused, t1).0; var t := Run(cfg, after, steps);
            && after.rows == s.rows + [Noted(refused, Rejected)]
            && |t.rows| > |s.rows| && t.rows[|s.rows|] == Noted(refused, Rejected)
            && Ingest(cfg, t, good, t2).0 == t
  {
    var after := Ingest(cfg, s, refused, t1).0;
    IngestKeepsLedger(cfg, s, refused, t1);
    assert after.rows[|s.rows|] == Noted(refused, Rejected);
    FirstDeliveryDecides(cfg, after, steps, good, t2);
    AtMostOnceCredit(cfg, after, steps);
    hide Run;
    assert RowKept(after.rows[|s.rows|], Run(cfg, after, steps).rows[|s.rows|]);
  }

  /** Such a collision costs the credit: an unsigned delivery named like an event blocks it for good. */
  lemma CollidingDeliveryBlocksCredit(cfg: Config, p: Payload)
    requires ParseEvent(IssuesEvent, p).Some? && ParseEvent(IssuesEvent, p).value.eventId == "7"
    ensures var forged := Delivery("7", false, true, Undecodable);
            var genuine := Delivery("guid", true, true, Activity(IssuesEvent, p));
            var s := Run(cfg, State([], [], []), [Hook(forged, 0), Hook(genuine, 1)]);
            s.rows == [Noted(forged, Rejected), Row("guid", "guid", Webhook, ParseEvent(IssuesEvent, p), Duplicate, 0)]
  {
    var forged := Delivery("7", false, true, Undecodable);
    var genuine := Delivery("guid", true, true, Activity(IssuesEvent, p));
    var first := Next(cfg, State([], [], []), Hook(forged, 0));
    assert first.rows == [Noted(forged, Rejected)];
    assert first.rows[0].eventId == "7" && "7" != "guid" by { assert |"7"| != |"guid"|; }
    assert !HasDelivery(first.rows, "guid") && HasEvent(first.rows, "7") && !HasEvent(first.rows, "guid");
    assert [Hook(forged, 0), Hook(genuine, 1)][1..] == [Hook(genuine, 1)];
    var second := Next(cfg, first, Hook(genuine, 1));
    assert Run(cfg, first, [Hook(genuine, 1)]) == Run(cfg, second, []);
  }
}
