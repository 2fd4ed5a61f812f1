/** What order independence of credit comes to, and the drains that break it. */
module LedgerOrder {
  import opened Common
  import opened GithubEvents
  import opened Ledger
  import opened LedgerCredit
  import opened LedgerTracking

  // ---- Drains that lose nothing ----

  /** A drain that finds the service but not the contribution type takes a pending human event of the world. */
  ghost predicate StarvesHuman(w: World, s: State, step: Step) {
    && step.Work? && Starved(step.env)
    && exists i | 0 <= i < |s.rows| :: i in PendingFrom(s.rows, 0, step.limit) && TakesHuman(w, s.rows[i])
  }

  ghost predicate NeverStarved(cfg: Config, w: World, s: State, steps: seq<Step>)
    decreases |steps|
  {
    steps != [] ==> !StarvesHuman(w, s, steps[0]) && NeverStarved(cfg, w, Next(cfg, s, steps[0]), steps[1..])
  }

  lemma StarvesLoses(w: World, s: State, step: Step)
    ensures LostBy(w, s, step) == {} <==> !StarvesHuman(w, s, step)
  {
    if step.Work? && Starved(step.env) {
      var todo := PendingFrom(s.rows, 0, step.limit);
      if i :| 0 <= i < |s.rows| && i in todo && TakesHuman(w, s.rows[i]) {
        assert s.rows[i].eventId in Taken(w, s.rows, todo);
      } else {
        forall j | 0 <= j < |todo| ensures !TakesHuman(w, s.rows[todo[j]]) { assert todo[j] in todo; }
      }
    }
  }

  lemma {:induction false} NothingLostIff(cfg: Config, w: World, s: State, steps: seq<Step>)
    ensures Lost(cfg, w, s, steps) == {} <==> NeverStarved(cfg, w, s, steps)
    decreases |steps|
  {
    hide LostBy, StarvesHuman, Next;
    if steps != [] {
      StarvesLoses(w, s, steps[0]);
      NothingLostIff(cfg, w, Next(cfg, s, steps[0]), steps[1..]);
    }
  }

  /**
   * A faithful run that leaves no human event waiting has credited every one that arrived exactly when no drain of it
   * that found the service but not the contribution type took a pending one.
   */
  lemma AllCreditedIff(cfg: Config, w: World, connections: seq<Connection>, steps: seq<Step>)
    requires Consistent(w) && Listed(w, connections)
    requires FaithfulRun(cfg, w, State([], [], connections), steps)
    requires Waiting(w, Run(cfg, State([], [], connections), steps)) == {}
    ensures var s0 := State([], [], connections);
            Credited(w, Run(cfg, s0, steps)) == HumanEvents(w, Arrived(w, steps)) <==> NeverStarved(cfg, w, s0, steps)
  {
    hide FaithfulRun, Credited, HumanEvents, Consistent, Run, Waiting, Lost, Arrived, NeverStarved, Listed;
    CreditIsWhatArrived(cfg, w, connections, steps);
    NothingLostIff(cfg, w, State([], [], connections), steps);
  }

  // ---- The final drain ----

  lemma {:induction false} RunThen(cfg: Config, s: State, steps: seq<Step>, last: Step)
    ensures Run(cfg, s, steps + [last]) == Next(cfg, Run(cfg, s, steps), last)
    decreases |steps|
  {
    hide Next;
    if steps == [] {
      assert steps + [last] == [last] && [last][1..] == [];
      assert Run(cfg, s, [last]) == Run(cfg, Next(cfg, s, last), []);
    } else {
      assert (steps + [last])[0] == steps[0] && (steps + [last])[1..] == steps[1..] + [last];
      RunThen(cfg, Next(cfg, s, steps[0]), steps[1..], last);
    }
  }

  /** Whatever ran before it, a drain that finds the service and has room for every row leaves nothing waiting. */
  lemma FinalDrainSettles(cfg: Config, w: World, s: State, steps: seq<Step>, limit: nat, env: Env)
    requires env.serviceAvailable && limit > |Run(cfg, s, steps).rows|
    ensures Waiting(w, Run(cfg, s, steps + [Work(limit, env)])) == {}
  {
    RunThen(cfg, s, steps, Work(limit, env));
    DrainSettlesAll(Run(cfg, s, steps), limit, env);
    hide Run, Drain;
  }

  // ---- Order independence ----

  /**
   * Two runs about one repository, each with its own deliveries, sweeps and drains, that leave none of its human events
   * waiting, credit the same events exactly when they brought the same human events less what each lost. If no drain
   * starved a human event in either, exactly when they brought the same human events, in any order, from any source and
   * however often.
   */
  lemma OrderIndependence(cfg: Config, w: World, v: World, connections: seq<Connection>, one: seq<Step>, two: seq<Step>)
    requires Consistent(w) && Consistent(v) && v == w.(carrier := v.carrier) && Listed(w, connections)
    requires FaithfulRun(cfg, w, State([], [], connections), one)
    requires FaithfulRun(cfg, v, State([], [], connections), two)
    requires Waiting(w, Run(cfg, State([], [], connections), one)) == {}
    requires Waiting(v, Run(cfg, State([], [], connections), two)) == {}
    ensures var s0 := State([], [], connections);
            var same := Credited(w, Run(cfg, s0, one)) == Credited(v, Run(cfg, s0, two));
            && (same <==> HumanEvents(w, Arrived(w, one)) - Lost(cfg, w, s0, one)
                          == HumanEvents(v, Arrived(v, two)) - Lost(cfg, v, s0, two))
            && (NeverStarved(cfg, w, s0, one) && NeverStarved(cfg, v, s0, two) ==>
                  (same <==> HumanEvents(w, Arrived(w, one)) == HumanEvents(v, Arrived(v, two))))
  {
    hide FaithfulRun, Credited, HumanEvents, Consistent, Run, Waiting, Lost, Arrived, NeverStarved;
    assert Listed(v, connections);
    CreditIsWhatArrived(cfg, w, connections, one);
    CreditIsWhatArrived(cfg, v, connections, two);
    var s0 := State([], [], connections);
    NothingLostIff(cfg, w, s0, one);
    NothingLostIff(cfg, v, s0, two);
    var mine, yours := HumanEvents(w, Arrived(w, one)), HumanEvents(v, Arrived(v, two));
    assert Credited(w, Run(cfg, s0, one)) == mine - Lost(cfg, w, s0, one);
    assert Credited(v, Run(cfg, s0, two)) == yours - Lost(cfg, v, s0, two);
    assert mine - {} == mine && yours - {} == yours;
  }

  // ---- Drains that lose an event ----

  const SEEDED := Env(true, true)
  const STARVED := Env(true, false)

  function PendingRow(d: Delivery, p: ParsedEvent): Row { Row(d.id, p.eventId, Webhook, Some(p), Pending, 0) }

  lemma RunThree(cfg: Config, s: State, a: Step, b: Step, c: Step)
    ensures Run(cfg, s, [a, b, c]) == Next(cfg, Next(cfg, Next(cfg, s, a), b), c)
  {
    hide Next;
    assert [a, b, c] == [] + [a] + [b] + [c];
    RunThen(cfg, s, [], a);
    RunThen(cfg, s, [] + [a], b);
    RunThen(cfg, s, [] + [a] + [b], c);
  }

  /** A drain of a ledger whose one row is pending settles that row. */
  lemma DrainOne(s: State, limit: nat, env: Env)
    requires |s.rows| == 1 && s.rows[0].state.Pending? && limit >= 1
    ensures Drain(s, limit, env).0 == ProcessOne(s, 0, env).0
  {
    assert PendingFrom(s.rows, 1, limit - 1) == [];
    var todo := PendingFrom(s.rows, 0, limit);
    assert todo == [0] && todo[1..] == [];
    var (u, v) := ProcessOne(s, 0, env);
    assert DrainRows(u, todo[1..], env, Counted(Tally(0, 0, 0), v)).0 == u;
  }

  lemma {:induction false} NonePending(rows: seq<Row>, from: nat, limit: nat)
    requires from <= |rows| && forall r | r in rows :: !r.state.Pending?
    ensures PendingFrom(rows, from, limit) == []
    decreases |rows| - from
  {
    if from < |rows| { NonePending(rows, from + 1, limit); }
  }

  /**
   * The same delivery and the same drains in two orders: a drain that starves the event before a good one loses it for
   * good, while coming before the delivery it does no harm.
   */
  lemma DrainOrderMatters(cfg: Config, connections: seq<Connection>, k: nat, project: nat, d: Delivery, now: int,
                          limit: nat)
    requires Creditable(cfg, State([], [], connections), d) && limit >= 1
    requires var p := ParseEvent(d.body.event, d.body.payload).value;
             !p.isBot && Listed(World(map[], map[], p.nodeId, k, project), connections)
    ensures var s0 := State([], [], connections); var p := ParseEvent(d.body.event, d.body.payload).value;
            var hook, starved, good := Hook(d, now), Work(limit, STARVED), Work(limit, SEEDED);
            && Run(cfg, s0, [hook, starved, good])
               == State([PendingRow(d, p).(state := Failed, attempts := 1)], [], connections)
            && Run(cfg, s0, [starved, hook, good])
               == State([PendingRow(d, p).(state := Processed, attempts := 1)], [Contribution(project, p.eventId)],
                        connections)
  {
    var s0 := State([], [], connections);
    var p := ParseEvent(d.body.event, d.body.payload).value;
    var pending := State([PendingRow(d, p)], [], connections);
    var failed := State([PendingRow(d, p).(state := Failed, attempts := 1)], [], connections);
    assert Next(cfg, s0, Hook(d, now)) == pending;
    DrainOne(pending, limit, STARVED);
    DrainOne(pending, limit, SEEDED);
    NonePending(s0.rows, 0, limit);
    NonePending(failed.rows, 0, limit);
    assert pending.rows[0 := failed.rows[0]] == failed.rows;
    assert ProcessOne(pending, 0, STARVED).0 == failed;
    assert [] + [Contribution(project, p.eventId)] == [Contribution(project, p.eventId)];
    hide Drain, Next;
    RunThree(cfg, s0, Hook(d, now), Work(limit, STARVED), Work(limit, SEEDED));
    RunThree(cfg, s0, Work(limit, STARVED), Hook(d, now), Work(limit, SEEDED));
  }
}
