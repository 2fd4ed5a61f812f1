// Order independence: while one active, bound connection stays so, which of its repository's events end up credited
// depends only on which arrived and on what unlucky drains lost, never on source, order or repetition, nor on anything
// that happens to other repositories. A delivery brings its event when it is the first of its id.
module LedgerTracking {
  import opened Common
  import opened GithubEvents
  import opened Ledger
  import opened LedgerCredit

  /**
   * What is said during a run about the events of one repository: the event that the first delivery of each id carries,
   * for the deliveries that carry one, and the event of each event id.
   */
  datatype World = World(
    carrier: map<string, ParsedEvent>, events: map<string, ParsedEvent>, nodeId: string, connection: nat, project: nat)

  /** All deliveries of an event agree on it, and delivery ids and event ids are disjoint namespaces. */
  ghost predicate Consistent(w: World) {
    && w.carrier.Keys !! w.events.Keys
    && (forall id | id in w.carrier ::
          var p := w.carrier[id]; p.nodeId == w.nodeId && p.eventId in w.events && w.events[p.eventId] == p)
    && (forall id | id in w.events :: w.events[id].eventId == id)
  }

  /** The connection is the repository's, active and bound to the project. */
  predicate Listed(w: World, cs: seq<Connection>) {
    && FindNode(cs, w.nodeId) == Some(w.connection)
    && cs[w.connection].project == Some(w.project)
    && cs[w.connection].deactivatedAt.None?
    && !cs[w.connection].syncState.Stopped?
  }

  /** An id that is neither a delivery nor an event of the world. */
  predicate Unknown(w: World, id: string) { id !in w.carrier && id !in w.events }

  predicate Carried(w: World, e: ReconciliationEvent) {
    e.deliveryId in w.carrier && w.carrier[e.deliveryId] == e.parsed
  }

  /** A webhook whose delivery id is in the ledger already. */
  predicate Repeats(s: State, step: Step) { step.Hook? && HasDelivery(s.rows, step.delivery.id) }

  /** A delivery or a page of the world's events, or a drain, whatever the worker finds. */
  ghost predicate Own(cfg: Config, w: World, s: State, step: Step) {
    match step
    case Hook(d, _) =>
      d.id in w.carrier && Creditable(cfg, s, d) && ParseEvent(d.body.event, d.body.payload) == Some(w.carrier[d.id])
    case Work(_, _) => true
    case Sweep(k, fetched, _) =>
      k == w.connection && (fetched.Ok? ==> forall e | e in fetched.value.events :: Carried(w, e))
    case _ => false
  }

  /**
   * A refused, ignored or unrelated delivery, a page of another connection, or any change of connections, that uses
   * none of the world's ids and leaves its connection listed.
   */
  ghost predicate Elsewhere(cfg: Config, w: World, s: State, step: Step) {
    && Listed(w, Next(cfg, s, step).connections)
    && match step
       case Hook(d, _) => Unknown(w, d.id) && (Creditable(cfg, s, d) ==> Unknown(w, EventOf(cfg, s, d)))
       case Sweep(k, fetched, _) =>
         && k != w.connection
         && (fetched.Ok? ==> forall e | e in fetched.value.events ::
               Unknown(w, e.deliveryId) && Unknown(w, e.parsed.eventId))
       case _ => true
  }

  ghost predicate Faithful(cfg: Config, w: World, s: State, step: Step) {
    Repeats(s, step) || Own(cfg, w, s, step) || Elsewhere(cfg, w, s, step)
  }

  /** A run that says what the world says: repeated deliveries and steps elsewhere may say anything else. */
  ghost predicate FaithfulRun(cfg: Config, w: World, s: State, steps: seq<Step>)
    decreases |steps|
  {
    steps != [] ==> Faithful(cfg, w, s, steps[0]) && FaithfulRun(cfg, w, Next(cfg, s, steps[0]), steps[1..])
  }

  // ---- What arrives, what is credited, what is lost ----

  /** The ids of the world's events a step brings. */
  function Brings(w: World, step: Step): set<string> {
    match step
    case Hook(d, _) => if d.id in w.carrier then {w.carrier[d.id].eventId} else {}
    case Sweep(k, Ok(page), _) => if k == w.connection then set e | e in page.events :: e.parsed.eventId else {}
    case _ => {}
  }

  function Arrived(w: World, steps: seq<Step>): set<string> {
    if steps == [] then {} else Brings(w, steps[0]) + Arrived(w, steps[1..])
  }

  function Credited(w: World, s: State): set<string> {
    set c | c in s.contributions && c.eventRef in w.events :: c.eventRef
  }

  function HumanEvents(w: World, ids: set<string>): set<string> {
    set id | id in ids && id in w.events && !w.events[id].isBot
  }

  /** The human events that still wait in a pending row. */
  function Waiting(w: World, s: State): set<string> {
    set r | r in s.rows && r.state.Pending? && r.eventId in w.events && !w.events[r.eventId].isBot :: r.eventId
  }

  /** The events whose row the worker gave up. */
  function GivenUp(w: World, s: State): set<string> {
    set r | r in s.rows && r.state.Failed? && r.eventId in w.events :: r.eventId
  }

  /** A worker that finds the service, but not the contribution type its records need. */
  predicate Starved(env: Env) { env.serviceAvailable && !env.typeSeeded }

  predicate TakesHuman(w: World, r: Row) { r.eventId in w.events && !w.events[r.eventId].isBot }

  ghost function Taken(w: World, rows: seq<Row>, todo: seq<nat>): set<string>
    requires forall j | 0 <= j < |todo| :: todo[j] < |rows|
  {
    set j | 0 <= j < |todo| && TakesHuman(w, rows[todo[j]]) :: rows[todo[j]].eventId
  }

  /** The human events a step loses: those a starved drain takes. */
  ghost function LostBy(w: World, s: State, step: Step): set<string> {
    if step.Work? && Starved(step.env) then Taken(w, s.rows, PendingFrom(s.rows, 0, step.limit)) else {}
  }

  ghost function Lost(cfg: Config, w: World, s: State, steps: seq<Step>): set<string>
    decreases |steps|
  {
    if steps == [] then {} else LostBy(w, s, steps[0]) + Lost(cfg, w, Next(cfg, s, steps[0]), steps[1..])
  }

  // ---- The invariant of a faithful run ----

  /** The row that holds an event itself, rather than a record of a delivery. */
  predicate Primary(w: World, r: Row)
    requires r.deliveryId in w.carrier
  {
    var p := w.carrier[r.deliveryId];
    && r.payload == Some(p) && r.eventId == p.eventId
    && (r.state.Pending? || r.state.Processed? || (r.state.Failed? && !p.isBot))
  }

  ghost predicate RowTracks(w: World, r: Row, seen: set<string>) {
    if r.deliveryId in w.carrier
    then
      && w.carrier[r.deliveryId].eventId in seen
      && (Primary(w, r) || (r.state.Duplicate? && r.eventId == r.deliveryId))
    else Unknown(w, r.deliveryId) && Unknown(w, r.eventId)
  }

  ghost predicate Tracks(w: World, s: State, seen: set<string>) {
    && Listed(w, s.connections)
    && (forall r | r in s.rows :: RowTracks(w, r, seen))
    && (forall id | id in seen :: id in w.events && HasEvent(s.rows, id))
    && (forall c | c in s.contributions && c.eventRef in w.events :: c.project == w.project)
  }

  /** An event key in use belongs to an event that has arrived; a delivery key in use is the delivery's own. */
  lemma KeysInUse(w: World, s: State, seen: set<string>, id: string)
    requires Consistent(w) && Tracks(w, s, seen) && HasEvent(s.rows, id)
    ensures id in w.events ==> id in seen
    ensures id in w.carrier ==> HasDelivery(s.rows, id)
  {
    var i :| 0 <= i < |s.rows| && s.rows[i].eventId == id;
    assert RowTracks(w, s.rows[i], seen);
  }

  lemma DeliveryInUse(w: World, s: State, seen: set<string>, id: string)
    requires Tracks(w, s, seen) && HasDelivery(s.rows, id)
    ensures id in w.carrier ==> w.carrier[id].eventId in seen
  {
    var i :| 0 <= i < |s.rows| && s.rows[i].deliveryId == id;
    assert RowTracks(w, s.rows[i], seen);
  }

  /** Adding a row that tracks the world, together with the event it brings, gives nothing up. */
  lemma AddRow(w: World, s: State, seen: set<string>, row: Row, new_: set<string>)
    requires Tracks(w, s, seen) && RowTracks(w, row, seen + new_)
    requires forall id | id in new_ :: id in w.events && (id in seen || row.eventId == id)
    requires row.state.Failed? ==> row.eventId !in w.events
    ensures var t := s.(rows := s.rows + [row]); Tracks(w, t, seen + new_) && GivenUp(w, t) == GivenUp(w, s)
  {
    var rows := s.rows + [row];
    forall id | id in seen + new_ ensures id in w.events && HasEvent(rows, id) {
      if id in seen {
        var i :| 0 <= i < |s.rows| && s.rows[i].eventId == id;
        assert rows[i].eventId == id;
      } else {
        assert rows[|s.rows|].eventId == id;
      }
    }
    forall r | r in rows ensures RowTracks(w, r, seen + new_) {
      if r != row { assert RowTracks(w, r, seen); }
    }
  }

  lemma HookTracks(cfg: Config, w: World, s: State, seen: set<string>, d: Delivery, now: int)
    requires Consistent(w) && Tracks(w, s, seen) && !HasDelivery(s.rows, d.id) && Own(cfg, w, s, Hook(d, now))
    ensures var t := Ingest(cfg, s, d, now).0;
            Tracks(w, t, seen + Brings(w, Hook(d, now))) && GivenUp(w, t) == GivenUp(w, s)
  {
    var p := w.carrier[d.id];
    var row := RowFor(cfg, s, d);
    if HasEvent(s.rows, d.id) { KeysInUse(w, s, seen, d.id); }
    if HasEvent(s.rows, p.eventId) { KeysInUse(w, s, seen, p.eventId); }
    AddRow(w, s, seen, row, {p.eventId});
  }

  lemma HookElsewhere(cfg: Config, w: World, s: State, seen: set<string>, d: Delivery, now: int)
    requires Tracks(w, s, seen) && !HasDelivery(s.rows, d.id) && Elsewhere(cfg, w, s, Hook(d, now))
    ensures var t := Ingest(cfg, s, d, now).0; Tracks(w, t, seen) && GivenUp(w, t) == GivenUp(w, s)
  {
    var row := RowFor(cfg, s, d);
    var t := Ingest(cfg, s, d, now).0;
    if t.rows != s.rows {
      assert seen + {} == seen;
      AddRow(w, s, seen, row, {});
      assert t.rows == s.rows + [row];
    }
    assert GivenUp(w, t) == GivenUp(w, s.(rows := t.rows));
  }

  // ---- Drains ----

  /** No contribution stands yet for an event whose row is pending. */
  lemma PendingUncredited(s: State, i: nat, c: Contribution)
    requires LedgerOk(s) && i < |s.rows| && s.rows[i].state.Pending? && c in s.contributions
    ensures c.eventRef != s.rows[i].eventId
  {
    var j :| 0 <= j < |s.rows| && Credits(s.rows[j]) && s.rows[j].eventId == c.eventRef;
  }

  /** What the worker decides about a pending row: of the world's human events it loses exactly those it starves. */
  lemma PendingJudged(w: World, s: State, seen: set<string>, i: nat, env: Env)
    requires Consistent(w) && Tracks(w, s, seen) && LedgerOk(s) && i < |s.rows| && s.rows[i].state.Pending?
    ensures var (v, cs) := Judge(s, s.rows[i], env);
            && (forall c | c in cs && c.eventRef in w.events :: c.project == w.project)
            && (env.serviceAvailable ==> !v.Blocked?)
            && (v.Refused? && s.rows[i].deliveryId in w.carrier ==> !w.carrier[s.rows[i].deliveryId].isBot)
            && (s.rows[i].eventId in w.events ==>
                  && (w.events[s.rows[i].eventId].isBot ==> v.Done?)
                  && (v.Refused? <==> Starved(env) && TakesHuman(w, s.rows[i])))
  {
    var row := s.rows[i];
    assert RowTracks(w, row, seen) && RowOk(row);
    forall c | c in s.contributions ensures c.eventRef != row.eventId { PendingUncredited(s, i, c); }
    hide LedgerOk, RowTracks;
    assert !HasContribution(s.contributions, row.eventId);
  }

  lemma SettleTracks(w: World, s: State, seen: set<string>, i: nat, v: Verdict, cs: seq<Contribution>)
    requires Tracks(w, s, seen) && i < |s.rows| && s.rows[i].state.Pending?
    requires forall c | c in cs && c.eventRef in w.events :: c.project == w.project
    requires v.Refused? && s.rows[i].deliveryId in w.carrier ==> !w.carrier[s.rows[i].deliveryId].isBot
    ensures var t := s.(rows := s.rows[i := Settle(s.rows[i], v)], contributions := cs);
            && Tracks(w, t, seen)
            && GivenUp(w, t) == GivenUp(w, s)
                                + if v.Refused? && s.rows[i].eventId in w.events then {s.rows[i].eventId} else {}
  {
    var rows := s.rows[i := Settle(s.rows[i], v)];
    assert RowTracks(w, s.rows[i], seen);
    assert RowTracks(w, rows[i], seen);
    forall r | r in rows ensures RowTracks(w, r, seen) {
      if r != rows[i] { assert r in s.rows; }
    }
    forall id | id in seen ensures HasEvent(rows, id) {
      var j :| 0 <= j < |s.rows| && s.rows[j].eventId == id;
      assert rows[j].eventId == id;
    }
    forall r | r in s.rows && r.state.Failed? ensures r in rows {
      var j :| 0 <= j < |s.rows| && s.rows[j] == r;
      assert rows[j] == r;
    }
    assert rows[i] in rows;
    assert forall r | r in rows :: r == rows[i] || r in s.rows;
  }

  /** A drain keeps the invariant and gives up exactly the human events it starves. */
  lemma {:induction false} DrainTracks(w: World, s: State, seen: set<string>, todo: seq<nat>, env: Env, t: Tally)
    requires Consistent(w) && Tracks(w, s, seen) && LedgerOk(s) && Todo(s, todo)
    ensures var u := DrainRows(s, todo, env, t).0;
            && Tracks(w, u, seen)
            && GivenUp(w, u) == GivenUp(w, s) + (if Starved(env) then Taken(w, s.rows, todo) else {})
    decreases |todo|
  {
    if todo == [] {
      assert Taken(w, s.rows, todo) == {};
    } else {
      var i := todo[0];
      var (s', v) := ProcessOne(s, i, env);
      PendingJudged(w, s, seen, i, env);
      hide Tracks, LedgerOk, GivenUp, Judge, Consistent;
      SettleTracks(w, s, seen, i, v, Judge(s, s.rows[i], env).1);
      TodoAdvances(s, todo, env);
      ProcessKeepsLedger(s, i, env);
      DrainTracks(w, s', seen, todo[1..], env, Counted(t, v));
      TakenSplits(w, s.rows, s'.rows, todo);
      hide Taken, Todo;
    }
  }

  lemma TakenSplits(w: World, rows: seq<Row>, after: seq<Row>, todo: seq<nat>)
    requires todo != [] && |after| == |rows| && forall j | 0 <= j < |todo| :: todo[j] < |rows|
    requires forall j | 0 <= j < |rows| :: after[j].eventId == rows[j].eventId
    ensures Taken(w, rows, todo) ==
            (if TakesHuman(w, rows[todo[0]]) then {rows[todo[0]].eventId} else {}) + Taken(w, after, todo[1..])
  {
    var rest := todo[1..];
    assert forall j | 0 < j < |todo| :: todo[j] == rest[j - 1];
    forall j | 0 <= j < |rest| ensures rest[j] == todo[j + 1] && rest[j] < |rows| {}
  }

  /** With the service available, a drain with room for every row leaves nothing pending, in any state. */
  lemma DrainSettlesAll(s: State, limit: nat, env: Env)
    requires env.serviceAvailable && limit > |s.rows|
    ensures forall r | r in Drain(s, limit, env).0.rows :: !r.state.Pending?
  {
    var todo := PendingFrom(s.rows, 0, limit);
    TakenSettles(s, todo, env, Tally(0, 0, 0));
  }

  lemma {:induction false} TakenSettles(s: State, todo: seq<nat>, env: Env, t: Tally)
    requires env.serviceAvailable && Todo(s, todo)
    ensures var u := DrainRows(s, todo, env, t).0;
            forall i | 0 <= i < |u.rows| && u.rows[i].state.Pending? :: s.rows[i].state.Pending? && i !in todo
    decreases |todo|
  {
    if todo != [] {
      var (s', v) := ProcessOne(s, todo[0], env);
      TodoAdvances(s, todo, env);
      TakenSettles(s', todo[1..], env, Counted(t, v));
      assert forall j | j in todo :: j == todo[0] || j in todo[1..];
    }
  }

  // ---- Sweeps ----

  lemma {:induction false} FindNodeByIds(cs: seq<Connection>, cs': seq<Connection>, nodeId: string)
    requires |cs| == |cs'| && forall i | 0 <= i < |cs| :: cs[i].nodeId == cs'[i].nodeId
    ensures FindNode(cs, nodeId) == FindNode(cs', nodeId)
  {
    if cs != [] && cs[0].nodeId != nodeId { FindNodeByIds(cs[1..], cs'[1..], nodeId); }
  }

  function PageIds(events: seq<ReconciliationEvent>, i: nat): set<string>
    requires i <= |events|
  {
    set e | e in events[i..] :: e.parsed.eventId
  }

  lemma PageIdsStep(events: seq<ReconciliationEvent>, i: nat)
    requires i < |events|
    ensures PageIds(events, i) == {events[i].parsed.eventId} + PageIds(events, i + 1)
  {
    assert events[i..] == [events[i]] + events[i + 1..];
  }

  /** Persisting a faithful page never fails and brings in every event of it. */
  lemma {:induction false} PersistTracks(w: World, s: State, seen: set<string>, events: seq<ReconciliationEvent>,
                                         i: nat, n: nat)
    requires Consistent(w) && Tracks(w, s, seen) && i <= |events|
    requires forall e | e in events :: Carried(w, e)
    ensures var r := PersistFrom(s.rows, w.nodeId, events, i, n);
            && r.Ok? && Tracks(w, s.(rows := r.value.0), seen + PageIds(events, i))
            && GivenUp(w, s.(rows := r.value.0)) == GivenUp(w, s)
    decreases |events| - i
  {
    if i < |events| {
      var e := events[i];
      var id := e.parsed.eventId;
      PageIdsStep(events, i);
      assert Carried(w, e);
      if HasEvent(s.rows, id) {
        KeysInUse(w, s, seen, id);
        PersistTracks(w, s, seen, events, i + 1, n);
        assert seen + PageIds(events, i) == seen + PageIds(events, i + 1);
      } else {
        if HasDelivery(s.rows, e.deliveryId) { DeliveryInUse(w, s, seen, e.deliveryId); }
        AddRow(w, s, seen, RecoveredRow(e), {id});
        PersistTracks(w, s.(rows := s.rows + [RecoveredRow(e)]), seen + {id}, events, i + 1, n + 1);
        assert seen + {id} + PageIds(events, i + 1) == seen + PageIds(events, i);
      }
    }
  }

  lemma SweepTracks(cfg: Config, w: World, s: State, seen: set<string>, k: nat,
                    fetched: Result<FetchedPage, FetchError>, now: int)
    requires Consistent(w) && Tracks(w, s, seen) && Own(cfg, w, s, Sweep(k, fetched, now))
    ensures var t := Next(cfg, s, Sweep(k, fetched, now));
            Tracks(w, t, seen + Brings(w, Sweep(k, fetched, now))) && GivenUp(w, t) == GivenUp(w, s)
  {
    var t := Next(cfg, s, Sweep(k, fetched, now));
    FindNodeByIds(s.connections, t.connections, w.nodeId);
    if fetched.Ok? {
      var events := fetched.value.events;
      PersistTracks(w, s, seen, events, 0, 0);
      assert events[0..] == events;
    }
  }

  /** A page of another connection adds rows of other events only. */
  lemma {:induction false} PersistElsewhere(w: World, s: State, seen: set<string>, nodeId: string,
                                            events: seq<ReconciliationEvent>, i: nat, n: nat)
    requires Tracks(w, s, seen) && i <= |events|
    requires forall e | e in events :: Unknown(w, e.deliveryId) && Unknown(w, e.parsed.eventId)
    ensures var r := PersistFrom(s.rows, nodeId, events, i, n);
            r.Ok? ==> Tracks(w, s.(rows := r.value.0), seen) && GivenUp(w, s.(rows := r.value.0)) == GivenUp(w, s)
    decreases |events| - i
  {
    if i < |events| {
      var e := events[i];
      if HasEvent(s.rows, e.parsed.eventId) {
        PersistElsewhere(w, s, seen, nodeId, events, i + 1, n);
      } else {
        assert seen + {} == seen;
        AddRow(w, s, seen, RecoveredRow(e), {});
        PersistElsewhere(w, s.(rows := s.rows + [RecoveredRow(e)]), seen, nodeId, events, i + 1, n + 1);
      }
    }
  }

  // ---- Runs ----

  lemma StepElsewhere(cfg: Config, w: World, s: State, seen: set<string>, step: Step)
    requires Tracks(w, s, seen) && Elsewhere(cfg, w, s, step) && !Repeats(s, step) && !step.Work?
    ensures Brings(w, step) == {}
    ensures var t := Next(cfg, s, step); Tracks(w, t, seen) && GivenUp(w, t) == GivenUp(w, s)
  {
    var t := Next(cfg, s, step);
    match step
    case Hook(d, now) => HookElsewhere(cfg, w, s, seen, d, now);
    case Sweep(k, fetched, now) =>
      if k < |s.connections| && fetched.Ok? {
        PersistElsewhere(w, s, seen, s.connections[k].nodeId, fetched.value.events, 0, 0);
      }
      assert GivenUp(w, t) == GivenUp(w, s.(rows := t.rows));
    case _ =>
  }

  lemma StepTracks(cfg: Config, w: World, s: State, seen: set<string>, step: Step)
    requires Consistent(w) && Tracks(w, s, seen) && LedgerOk(s) && Faithful(cfg, w, s, step)
    ensures var t := Next(cfg, s, step);
            Tracks(w, t, seen + Brings(w, step)) && GivenUp(w, t) == GivenUp(w, s) + LostBy(w, s, step)
  {
    hide GivenUp, LedgerOk, RowTracks;
    if Repeats(s, step) {
      DeliveryInUse(w, s, seen, step.delivery.id);
      assert seen + Brings(w, step) == seen;
    } else if step.Work? {
      DrainTracks(w, s, seen, PendingFrom(s.rows, 0, step.limit), step.env, Tally(0, 0, 0));
      assert seen + Brings(w, step) == seen;
    } else if Own(cfg, w, s, step) {
      match step
      case Hook(d, now) => HookTracks(cfg, w, s, seen, d, now);
      case Sweep(k, fetched, now) => SweepTracks(cfg, w, s, seen, k, fetched, now);
    } else {
      StepElsewhere(cfg, w, s, seen, step);
      assert seen + Brings(w, step) == seen;
    }
  }

  lemma {:induction false} RunTracks(cfg: Config, w: World, s: State, seen: set<string>, steps: seq<Step>)
    requires Consistent(w) && Tracks(w, s, seen) && LedgerOk(s) && FaithfulRun(cfg, w, s, steps)
    ensures var t := Run(cfg, s, steps);
            Tracks(w, t, seen + Arrived(w, steps)) && GivenUp(w, t) == GivenUp(w, s) + Lost(cfg, w, s, steps)
    decreases |steps|
  {
    hide Tracks, GivenUp, LedgerOk, Consistent, Faithful, Next, Brings, LostBy;
    if steps == [] {
      assert seen + Arrived(w, steps) == seen;
    } else {
      StepTracks(cfg, w, s, seen, steps[0]);
      StepKeepsLedger(cfg, s, steps[0]);
      RunTracks(cfg, w, Next(cfg, s, steps[0]), seen + Brings(w, steps[0]), steps[1..]);
      assert seen + Brings(w, steps[0]) + Arrived(w, steps[1..]) == seen + Arrived(w, steps);
    }
  }

  /** An arrived human event that neither waits nor was given up is credited. */
  lemma HumanCredited(w: World, s: State, seen: set<string>, id: string)
    requires Consistent(w) && Tracks(w, s, seen) && LedgerOk(s)
    requires id in HumanEvents(w, seen) && id !in GivenUp(w, s) && id !in Waiting(w, s)
    ensures id in Credited(w, s)
  {
    var i :| 0 <= i < |s.rows| && s.rows[i].eventId == id;
    assert RowTracks(w, s.rows[i], seen);
    assert s.rows[i] in s.rows;
    assert Credits(s.rows[i]);
    var n :| 0 <= n < |s.contributions| && s.contributions[n].eventRef == id;
    assert s.contributions[n] in s.contributions;
  }

  /** A credited event arrived, is a human one, and its one row is settled as processed. */
  lemma CreditedHuman(w: World, s: State, seen: set<string>, id: string)
    requires Consistent(w) && Tracks(w, s, seen) && LedgerOk(s) && id in Credited(w, s)
    ensures id in HumanEvents(w, seen) && id !in GivenUp(w, s) && id !in Waiting(w, s)
  {
    var c :| c in s.contributions && c.eventRef == id;
    var i :| 0 <= i < |s.rows| && Credits(s.rows[i]) && s.rows[i].eventId == c.eventRef;
    assert RowTracks(w, s.rows[i], seen);
    assert forall r | r in s.rows && r.eventId == id :: r == s.rows[i];
    hide CreditMatches, RowTracks;
  }

  lemma GivenUpHuman(w: World, s: State, seen: set<string>, id: string)
    requires Consistent(w) && Tracks(w, s, seen) && id in GivenUp(w, s)
    ensures id in HumanEvents(w, seen)
  {
    var r :| r in s.rows && r.state.Failed? && r.eventId == id;
    assert RowTracks(w, r, seen);
  }

  /** An arrived human event is credited, waits in a pending row, or was given up, and nothing else is any of these. */
  lemma CreditAccounts(w: World, s: State, seen: set<string>)
    requires Consistent(w) && Tracks(w, s, seen) && LedgerOk(s)
    ensures Credited(w, s) == HumanEvents(w, seen) - GivenUp(w, s) - Waiting(w, s)
    ensures GivenUp(w, s) <= HumanEvents(w, seen)
  {
    hide *;
    forall id | id in HumanEvents(w, seen) - GivenUp(w, s) - Waiting(w, s) ensures id in Credited(w, s) {
      HumanCredited(w, s, seen, id);
    }
    forall id | id in Credited(w, s) ensures id in HumanEvents(w, seen) - GivenUp(w, s) - Waiting(w, s) {
      CreditedHuman(w, s, seen, id);
    }
    forall id | id in GivenUp(w, s) ensures id in HumanEvents(w, seen) { GivenUpHuman(w, s, seen, id); }
  }

  /**
   * In every state of a faithful run from an empty ledger, the credited events are exactly the human ones that arrived,
   * less those that starved drains took and those that still wait in a pending row.
   */
  lemma CreditIsWhatArrived(cfg: Config, w: World, connections: seq<Connection>, steps: seq<Step>)
    requires Consistent(w) && Listed(w, connections)
    requires FaithfulRun(cfg, w, State([], [], connections), steps)
    ensures var s0 := State([], [], connections); var s := Run(cfg, s0, steps);
            && Credited(w, s) == HumanEvents(w, Arrived(w, steps)) - Lost(cfg, w, s0, steps) - Waiting(w, s)
            && Lost(cfg, w, s0, steps) <= HumanEvents(w, Arrived(w, steps))
  {
    hide RowTracks, FaithfulRun, Credited, HumanEvents, Consistent, Run, Waiting, Lost, Arrived;
    var s0 := State([], [], connections);
    FreshLedgerOk(connections);
    assert GivenUp(w, s0) == {};
    RunTracks(cfg, w, s0, {}, steps);
    assert {} + Arrived(w, steps) == Arrived(w, steps);
    assert {} + Lost(cfg, w, s0, steps) == Lost(cfg, w, s0, steps);
    AtMostOnceCredit(cfg, s0, steps);
    CreditAccounts(w, Run(cfg, s0, steps), Arrived(w, steps));
  }
}
