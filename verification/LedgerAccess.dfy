/** The repository access machine: what every run keeps about connections, and what stopping one guarantees. */
module LedgerAccess {
  import opened Common
  import opened GithubEvents
  import opened Ledger
  import opened LedgerCredit
  import opened LedgerSweep

  /** What holds of a connection in every committed state. */
  predicate AccessOk(c: Connection) {
    && !c.syncState.Syncing?
    && (c.syncState.Stopped? <==> c.deactivatedAt.Some?)
    && (!c.revoked.NotRevoked? ==> c.syncState.Stopped? && c.project.None? && c.nextAttempt.None?)
  }

  ghost predicate ConnectionsOk(cs: seq<Connection>) {
    && (forall c | c in cs :: AccessOk(c))
    && (forall i, j | 0 <= i < j < |cs| :: cs[i].repositoryId != cs[j].repositoryId)
  }

  /**
   * What one call may do to a connection that is stopped, unless it enrols that repository:
   * it stays stopped since the same time, and its binding can only be cleared.
   */
  predicate StaysStopped(c: Connection, c': Connection) {
    c.repositoryId == c'.repositoryId && c.nodeId == c'.nodeId
    && (c.syncState.Stopped? && c.deactivatedAt.Some? ==>
          c'.syncState.Stopped? && c'.deactivatedAt == c.deactivatedAt && (c'.project == c.project || c'.project.None?))
  }

  ghost predicate AllStayStopped(cs: seq<Connection>, cs': seq<Connection>) {
    |cs| <= |cs'| && forall i | 0 <= i < |cs| :: StaysStopped(cs[i], cs'[i])
  }

  lemma AccessEventKeeps(cs: seq<Connection>, a: AccessEvent, now: int)
    requires ConnectionsOk(cs)
    ensures var cs' := ApplyAccess(cs, a, now); |cs'| == |cs| && ConnectionsOk(cs') && AllStayStopped(cs, cs')
  {
    var cs' := ApplyAccess(cs, a, now);
    forall i | 0 <= i < |cs| ensures AccessOk(cs'[i]) && StaysStopped(cs[i], cs'[i]) {
      assert AccessOk(cs[i]);
    }
  }

  lemma ReplaceKeeps(cs: seq<Connection>, k: nat, c: Connection)
    requires ConnectionsOk(cs) && k < |cs| && AccessOk(c) && c.repositoryId == cs[k].repositoryId
    ensures ConnectionsOk(cs[k := c])
  {}

  lemma EnrolKeeps(cs: seq<Connection>, e: Enrolment)
    requires ConnectionsOk(cs)
    ensures ConnectionsOk(Enroll(cs, e))
    ensures forall i | 0 <= i < |cs| && cs[i].repositoryId != e.repositoryId :: Enroll(cs, e)[i] == cs[i]
  {
    var k := FindRepository(cs, e.repositoryId);
    if k.Some? {
      assert AccessOk(cs[k.value]);
      ReplaceKeeps(cs, k.value, Reenrolled(cs[k.value], e));
    }
  }

  lemma StepKeepsAccess(cfg: Config, s: State, step: Step)
    requires ConnectionsOk(s.connections)
    ensures ConnectionsOk(Next(cfg, s, step).connections)
    ensures !step.Enrol? ==> AllStayStopped(s.connections, Next(cfg, s, step).connections)
  {
    var t := Next(cfg, s, step);
    match step
    case Hook(d, now) =>
      if Accepted(d) && d.body.Access? { AccessEventKeeps(s.connections, d.body.access, now); }
    case Work(limit, env) => DrainKeepsConnections(s, PendingFrom(s.rows, 0, limit), env, Tally(0, 0, 0));
    case Sweep(k, fetched, now) =>
      if k < |s.connections| {
        assert AccessOk(s.connections[k]);
        ReplaceKeeps(s.connections, k, t.connections[k]);
        assert t.connections == s.connections[k := t.connections[k]];
      }
    case Enrol(e) => EnrolKeeps(s.connections, e);
    case BindTo(k, b) =>
      if k < |s.connections| {
        assert AccessOk(s.connections[k]);
        ReplaceKeeps(s.connections, k, t.connections[k]);
        assert t.connections == s.connections[k := t.connections[k]];
      }
    case Unlink(user, linked, now) =>
      forall i | 0 <= i < |s.connections|
        ensures AccessOk(t.connections[i]) && StaysStopped(s.connections[i], t.connections[i])
      {
        assert AccessOk(s.connections[i]);
      }
  }

  /** In every state a run reaches, every connection is in one of the access machine's states. */
  lemma {:induction false} AccessOkAlways(cfg: Config, s: State, steps: seq<Step>)
    requires ConnectionsOk(s.connections)
    ensures ConnectionsOk(Run(cfg, s, steps).connections)
    decreases |steps|
  {
    if steps != [] {
      StepKeepsAccess(cfg, s, steps[0]);
      AccessOkAlways(cfg, Next(cfg, s, steps[0]), steps[1..]);
    }
  }

  /** Only enrolment leaves STOPPED: without one, every stopped connection stays stopped over any run. */
  lemma {:induction false} OnlyEnrolmentRestarts(cfg: Config, s: State, steps: seq<Step>)
    requires ConnectionsOk(s.connections) && forall step | step in steps :: !step.Enrol?
    ensures AllStayStopped(s.connections, Run(cfg, s, steps).connections)
    decreases |steps|
  {
    if steps != [] {
      var t := Next(cfg, s, steps[0]);
      StepKeepsAccess(cfg, s, steps[0]);
      OnlyEnrolmentRestarts(cfg, t, steps[1..]);
      var u := Run(cfg, s, steps);
      forall i | 0 <= i < |s.connections| ensures StaysStopped(s.connections[i], u.connections[i]) {
        assert StaysStopped(s.connections[i], t.connections[i]) && StaysStopped(t.connections[i], u.connections[i]);
      }
    }
  }

  /** Enrolling a stopped repository is what restarts it: idle, with no trace of the stop but its old binding. */
  lemma EnrolmentRestarts(cs: seq<Connection>, e: Enrolment, k: nat)
    requires ConnectionsOk(cs) && k < |cs| && cs[k].repositoryId == e.repositoryId && cs[k].syncState.Stopped?
    ensures var c := Enroll(cs, e)[k];
            c.syncState.Idle? && c.deactivatedAt.None? && c.revoked.NotRevoked? && c.failures == 0
              && c.nextAttempt.None?
            && c.project == cs[k].project && c.cursor == cs[k].cursor
            && (!cs[k].revoked.NotRevoked? ==> c.project.None?)
  {
    var found := FindRepository(cs, e.repositoryId);
    assert found == Some(k);
    assert AccessOk(cs[k]);
  }

  // ---- What a binding means ----

  predicate SameBinding(c: Connection, c': Connection) { c.project.Some? ==> c'.project == c.project }

  ghost predicate BindingsStay(cs: seq<Connection>, cs': seq<Connection>) {
    |cs| <= |cs'| && forall i | 0 <= i < |cs| :: SameBinding(cs[i], cs'[i])
  }

  lemma StepKeepsBindings(cfg: Config, s: State, step: Step)
    requires step.Hook? ==> !step.delivery.body.Access?
    ensures BindingsStay(s.connections, Next(cfg, s, step).connections)
  {
    match step
    case Work(limit, env) => DrainKeepsConnections(s, PendingFrom(s.rows, 0, limit), env, Tally(0, 0, 0));
    case _ =>
    hide DrainRows, PersistFrom, RowFor;
  }

  /** Once bound, a repository stays with its project over every run, until the provider reports an access change. */
  lemma {:induction false} BindingLasts(cfg: Config, s: State, steps: seq<Step>)
    requires forall step | step in steps && step.Hook? :: !step.delivery.body.Access?
    ensures BindingsStay(s.connections, Run(cfg, s, steps).connections)
    decreases |steps|
  {
    hide Next;
    if steps != [] {
      var t := Next(cfg, s, steps[0]);
      StepKeepsBindings(cfg, s, steps[0]);
      BindingLasts(cfg, t, steps[1..]);
      var u := Run(cfg, t, steps[1..]);
      forall i | 0 <= i < |s.connections| ensures SameBinding(s.connections[i], u.connections[i]) {
        assert SameBinding(s.connections[i], t.connections[i]) && SameBinding(t.connections[i], u.connections[i]);
      }
    }
  }

  /** Repeating an access event changes nothing and affects no connection. */
  lemma AccessEventIdempotent(cs: seq<Connection>, a: AccessEvent, first: int, second: int)
    ensures ApplyAccess(ApplyAccess(cs, a, first), a, second) == ApplyAccess(cs, a, first)
  {}

  lemma {:induction false} RepeatedRevocationAffectsNone(
    cs: seq<Connection>, scope: Scope, reason: RevokedReason, now: int, n: nat)
    requires n <= |cs|
    ensures AffectedUpTo(Revoke(cs, scope, reason, now), scope, reason, n) == 0
  {
    if n > 0 { RepeatedRevocationAffectsNone(cs, scope, reason, now, n - 1); }
  }

  // ---- What stopping a connection means for credit ----

  /** The repository's connection is stopped. */
  predicate StoppedFor(cs: seq<Connection>, nodeId: string) {
    var k := FindNode(cs, nodeId); k.Some? && cs[k.value].syncState.Stopped? && cs[k.value].deactivatedAt.Some?
  }

  lemma {:induction false} FindNodeKept(cs: seq<Connection>, cs': seq<Connection>, nodeId: string)
    requires AllStayStopped(cs, cs') && FindNode(cs, nodeId).Some?
    ensures FindNode(cs', nodeId) == FindNode(cs, nodeId)
  {
    assert StaysStopped(cs[0], cs'[0]);
    if cs[0].nodeId != nodeId {
      forall i | 0 <= i < |cs[1..]| ensures StaysStopped(cs[1..][i], cs'[1..][i]) {
        assert StaysStopped(cs[i + 1], cs'[i + 1]);
      }
      FindNodeKept(cs[1..], cs'[1..], nodeId);
    }
  }

  lemma {:induction false} DrainSkipsStopped(s: State, todo: seq<nat>, env: Env, t: Tally, i: nat)
    requires LedgerOk(s) && Todo(s, todo) && i < |s.rows|
    requires s.rows[i].payload.Some? && !s.rows[i].payload.value.isBot && !Credits(s.rows[i])
    requires StoppedFor(s.connections, s.rows[i].payload.value.nodeId)
    ensures !Credits(DrainRows(s, todo, env, t).0.rows[i])
    ensures DrainRows(s, todo, env, t).0.rows[i].payload == s.rows[i].payload
    decreases |todo|
  {
    if todo != [] {
      var (s', v) := ProcessOne(s, todo[0], env);
      ProcessKeepsLedger(s, todo[0], env);
      TodoAdvances(s, todo, env);
      DrainSkipsStopped(s', todo[1..], env, Counted(t, v), i);
    }
  }

  lemma StepSkipsStopped(cfg: Config, s: State, step: Step, i: nat)
    requires LedgerOk(s) && i < |s.rows| && s.rows[i].payload.Some? && !s.rows[i].payload.value.isBot
    requires !Credits(s.rows[i]) && StoppedFor(s.connections, s.rows[i].payload.value.nodeId)
    ensures var t := Next(cfg, s, step);
            i < |t.rows| && t.rows[i].payload == s.rows[i].payload && !Credits(t.rows[i])
  {
    StepKeepsLedger(cfg, s, step);
    assert RowKept(s.rows[i], Next(cfg, s, step).rows[i]);
    match step
    case Work(limit, env) =>
      DrainSkipsStopped(s, PendingFrom(s.rows, 0, limit), env, Tally(0, 0, 0), i);
    case Sweep(k, fetched, now) =>
      if k < |s.connections| && fetched.Ok? {
        PersistAppends(s.rows, s.connections[k].nodeId, fetched.value.events, 0, 0);
      }
    case _ =>
  }

  lemma {:induction false} PersistAppends(rows: seq<Row>, nodeId: string, events: seq<ReconciliationEvent>, i: nat,
                                          n: nat)
    requires i <= |events|
    ensures var r := PersistFrom(rows, nodeId, events, i, n); r.Ok? ==> rows <= r.value.0
    decreases |events| - i
  {
    if i < |events| {
      var e := events[i];
      PersistAppends(rows, nodeId, events, i + 1, n);
      if Insert(rows, RecoveredRow(e)).Ok? { PersistAppends(rows + [RecoveredRow(e)], nodeId, events, i + 1, n + 1); }
    }
  }

  /** While a repository stays stopped, no event of it that was not yet credited ever is, over any run. */
  lemma {:induction false} StoppedEarnsNothing(cfg: Config, s: State, steps: seq<Step>, i: nat)
    requires LedgerOk(s) && ConnectionsOk(s.connections) && forall step | step in steps :: !step.Enrol?
    requires i < |s.rows| && s.rows[i].payload.Some? && !s.rows[i].payload.value.isBot && !Credits(s.rows[i])
    requires StoppedFor(s.connections, s.rows[i].payload.value.nodeId)
    ensures var t := Run(cfg, s, steps); i < |t.rows| && !Credits(t.rows[i])
    decreases |steps|
  {
    if steps != [] {
      var t := Next(cfg, s, steps[0]);
      StepKeepsLedger(cfg, s, steps[0]);
      StepKeepsAccess(cfg, s, steps[0]);
      StepSkipsStopped(cfg, s, steps[0], i);
      var node := s.rows[i].payload.value.nodeId;
      FindNodeKept(s.connections, t.connections, node);
      assert StaysStopped(s.connections[FindNode(s.connections, node).value],
                          t.connections[FindNode(s.connections, node).value]);
      StoppedEarnsNothing(cfg, t, steps[1..], i);
    }
  }

  // ---- Retries ----

  lemma {:induction false} Pow2Grows(i: nat, j: nat)
    requires i <= j
    ensures 1 <= Pow2(i) <= Pow2(j)
  {
    if i < j { Pow2Grows(i, j - 1); } else if i > 0 { Pow2Grows(i - 1, i - 1); }
  }

  lemma ScaleGrows(base: int, p: nat, q: nat)
    requires base >= 1 && 1 <= p <= q
    ensures base <= base * p <= base * q
  {
    assert base * q == base * p + base * (q - p);
    assert base * p == base + base * (p - 1);
  }

  /** The delay never shrinks as failures accumulate and stays between the base and the maximum. */
  lemma RetryDelayGrows(cfg: Config, m: nat, n: nat)
    requires 1 <= m <= n
    ensures var base := Max(1, cfg.retryBase);
            base <= RetryDelay(cfg, m) <= RetryDelay(cfg, n) <= Max(base, cfg.retryMax)
  {
    var base := Max(1, cfg.retryBase);
    Pow2Grows(Min(m - 1, 30), Min(n - 1, 30));
    ScaleGrows(base, Pow2(Min(m - 1, 30)), Pow2(Min(n - 1, 30)));
  }

  /** After n failed attempts in a row the connection counts n failures and waits for the n-th delay. */
  lemma {:induction false} FailuresAccumulate(cfg: Config, s: State, k: nat, provider: Provider, moves: seq<Move>)
    requires k < |s.connections| && !s.connections[k].syncState.Stopped?
    requires moves != [] && forall m | m in moves :: m.Attempted? && !m.attempt.up
    ensures var c := Moves(cfg, s, k, provider, moves).connections;
            && c[k].syncState.Degraded?
            && c[k].failures == s.connections[k].failures + |moves|
            && c[k].nextAttempt == Some(moves[|moves| - 1].attempt.now + RetryDelay(cfg, c[k].failures))
    decreases |moves|
  {
    var t := Moved(cfg, s, k, provider, moves[0]);
    if |moves| > 1 {
      FailuresAccumulate(cfg, t, k, provider, moves[1..]);
    } else {
      assert moves[1..] == [];
    }
  }
}
