/** How often a denial is reported: once a window when calls take no time, more often when they do. */
module RateLimitDenials {
  import opened Common
  import opened RateLimit
  import opened RateLimitReports

  predicate Busy(c: Call) { !Finished(c) && c.pc != Clock }

  /** Time passes only while no call is between its clock and its last operation. */
  predicate Prompt(cfg: Config, s: State, actions: seq<Action>)
    decreases |actions|
  {
    actions == [] ||
      ((actions[0].Tick? ==> forall k | 0 <= k < |s.calls| :: !Busy(s.calls[k]))
       && Prompt(cfg, Next(cfg, s, actions[0]), actions[1..]))
  }

  /** A busy call read the clock now, and the window that counts for it is still open. */
  predicate BusyOk(cfg: Config, s: State, c: Call) {
    Busy(c) ==>
      && c.clock == s.now
      && (c.pc.AddReset? || c.pc.GetReset? || c.pc.AddDenied? ==> Subject(c) in s.cache.counts)
      && (c.pc.AddReset? ==> s.cache.counts[Subject(c)].expires == s.now + cfg.window as real)
      && (c.pc.GetReset? || c.pc.AddDenied? ==>
          s.now < s.cache.counts[Subject(c)].expires == c.pc.start + cfg.window as real)
      && (c.pc.AddDenied? ==> s.now + c.pc.retry as real >= c.pc.start + cfg.window as real)
  }

  /** A reset time is the end of the current window or not after its start. */
  predicate ResetOk(cfg: Config, cache: Cache, x: string)
    requires x in cache.resets
  {
    && x in cache.counts && cache.resets[x].at == cache.resets[x].expires
    && (cache.resets[x].at == cache.counts[x].expires
        || cache.resets[x].at <= cache.counts[x].expires - cfg.window as real)
  }

  ghost predicate DenialsOk(cfg: Config, s: State) {
    && (forall x | x in s.cache.counts :: s.cache.counts[x].expires <= s.now + cfg.window as real)
    && (forall k | 0 <= k < |s.calls| :: BusyOk(cfg, s, s.calls[k]))
    && (forall x | x in s.cache.resets :: ResetOk(cfg, s.cache, x))
    && (forall d | d in s.denials :: Timely(cfg, d))
  }

  lemma CeilAbove(x: real, n: int)
    ensures x <= Ceil(x) as real && (x <= n as real ==> Ceil(x) <= n)
  {}

  /** The wait lasts to the end of the window. */
  lemma WaitLasts(cfg: Config, s: State, c: Call)
    requires cfg.window >= 1 && DenialsOk(cfg, s) && BusyOk(cfg, s, c) && Busy(c) && c.pc.GetReset?
    ensures s.now + RetryAfter(ResetAlive(s, Subject(c)), c.clock, cfg.window) as real >= c.pc.start
            + cfg.window as real
  {
    var x := Subject(c);
    match ResetAlive(s, x)
    case None =>
    case Some(at) =>
      assert ResetOk(cfg, s.cache, x);
      CeilAbove(at - s.now, cfg.window);
  }

  /** Other calls are not disturbed by one operation: windows in use stay open. */
  lemma OthersBusyOk(cfg: Config, s: State, k: nat, j: nat)
    requires cfg.window >= 1 && DenialsOk(cfg, s) && k < |s.calls| && j < |s.calls| && j != k
    ensures BusyOk(cfg, Operate(cfg, s, k), s.calls[j])
  {
    assert BusyOk(cfg, s, s.calls[j]);
  }

  lemma OwnBusyOk(cfg: Config, s: State, k: nat)
    requires cfg.window >= 1 && DenialsOk(cfg, s) && k < |s.calls|
    ensures BusyOk(cfg, Operate(cfg, s, k), Operate(cfg, s, k).calls[k])
  {
    var c := s.calls[k];
    assert BusyOk(cfg, s, c);
    if Busy(c) && c.pc.GetReset? { WaitLasts(cfg, s, c); }
  }

  lemma CacheOk(cfg: Config, s: State, k: nat)
    requires cfg.window >= 1 && DenialsOk(cfg, s) && k < |s.calls|
    ensures var t := Operate(cfg, s, k);
            && (forall x | x in t.cache.counts :: t.cache.counts[x].expires <= t.now + cfg.window as real)
            && (forall x | x in t.cache.resets :: ResetOk(cfg, t.cache, x))
            && (forall x | x in s.cache.counts ::
                x in t.cache.counts && s.cache.counts[x].expires <= t.cache.counts[x].expires)
  {
    var t := Operate(cfg, s, k);
    assert BusyOk(cfg, s, s.calls[k]);
    forall x | x in t.cache.resets ensures ResetOk(cfg, t.cache, x) {
      if x in s.cache.resets { assert ResetOk(cfg, s.cache, x); }
    }
  }

  /** A prompt call reports within its window, and the report is remembered to the end of it. */
  lemma OperateReports(cfg: Config, s: State, k: nat)
    requires cfg.window >= 1 && DenialsOk(cfg, s) && k < |s.calls|
    ensures forall d | d in Operate(cfg, s, k).denials :: Timely(cfg, d)
  {
    assert BusyOk(cfg, s, s.calls[k]);
    ReportMade(cfg, s, k);
    hide Operate;
  }

  lemma NextReports(cfg: Config, s: State, a: Action)
    requires cfg.window >= 1 && DenialsOk(cfg, s)
    requires a.Tick? ==> forall k | 0 <= k < |s.calls| :: !Busy(s.calls[k])
    ensures DenialsOk(cfg, Next(cfg, s, a))
  {
    var t := Next(cfg, s, a);
    if a.Operation? && a.call < |s.calls| {
      var k := a.call;
      OwnBusyOk(cfg, s, k);
      CacheOk(cfg, s, k);
      OperateReports(cfg, s, k);
      OthersStand(cfg, s, k);
      hide Operate, BusyOk, ResetOk, Timely;
      forall j | 0 <= j < |t.calls| ensures BusyOk(cfg, t, t.calls[j]) {
        if j != k { OthersBusyOk(cfg, s, k, j); }
      }
    } else if !a.Operation? {
      ElsewhereReports(cfg, s, a);
    }
  }

  lemma OthersStand(cfg: Config, s: State, k: nat)
    requires k < |s.calls|
    ensures forall j | 0 <= j < |s.calls| && j != k :: Operate(cfg, s, k).calls[j] == s.calls[j]
  {}

  lemma ElsewhereReports(cfg: Config, s: State, a: Action)
    requires cfg.window >= 1 && DenialsOk(cfg, s) && !a.Operation?
    requires a.Tick? ==> forall k | 0 <= k < |s.calls| :: !Busy(s.calls[k])
    ensures DenialsOk(cfg, Next(cfg, s, a))
  {
    hide ResetOk, Timely;
    var t := Next(cfg, s, a);
    forall k | 0 <= k < |t.calls| ensures BusyOk(cfg, t, t.calls[k]) {
      if k < |s.calls| { assert BusyOk(cfg, s, s.calls[k]); }
    }
  }

  lemma {:induction false} RunReports(cfg: Config, s: State, actions: seq<Action>)
    requires cfg.window >= 1 && DenialsOk(cfg, s) && Prompt(cfg, s, actions)
    ensures DenialsOk(cfg, Run(cfg, s, actions))
    decreases |actions|
  {
    if actions != [] {
      NextReports(cfg, s, actions[0]);
      RunReports(cfg, Next(cfg, s, actions[0]), actions[1..]);
    }
    hide DenialsOk, Next, Busy;
  }

  /**
   * However the operations of different calls interleave, prompt calls report a subject's denial at most once a window.
   */
  lemma ReportedOnce(cfg: Config, actions: seq<Action>)
    requires cfg.window >= 1 && Prompt(cfg, START, actions)
    ensures Reported(Run(cfg, START, actions).denials)
  {
    RunReports(cfg, START, actions);
    TimelyReportsAreSingle(cfg, actions);
    hide Run, Prompt, Reported;
  }

  /**
   * Slowness alone is enough: after any prompt run, a window that was reported and is still open can be reported again,
   * though its report is remembered to its end, but only by a call that reports after that end.
   */
  lemma SlownessReportsAgain(cfg: Config, past: seq<Action>, i: nat)
    requires cfg.window >= 1 && Prompt(cfg, START, past) && i < |Run(cfg, START, past).denials|
    requires var s := Run(cfg, START, past); Latest(s.denials, i) && s.now < End(cfg, s.denials[i])
    ensures var s := Run(cfg, START, past); var d := s.denials[i];
            && End(cfg, d) <= d.until
            && (exists actions :: Again(s, Run(cfg, s, actions), d))
            && !(exists actions :: OnTime(cfg, s, actions) && Again(s, Run(cfg, s, actions), d))
  {
    hide Run, OnTime, Again, Prompt;
    RunReports(cfg, START, past);
    assert Timely(cfg, Run(cfg, START, past).denials[i]);
    AgainIff(cfg, past, i, i);
  }

  // ---- When calls take time ----

  const ONE := Config(1, 10)

  function Waiting(clock: real, pc: Pc): Call { Call(["ip", "user"], true, clock, pc, []) }

  function Passed(clock: real): Call { Call(["ip", "user"], true, clock, Clock, [ALLOWED]) }

  function Refused(clock: real, retry: int): Call {
    Call(["ip", "user"], true, clock, Clock, [Decision(false, retry, true)])
  }

  const FIRST := Use(0, 0, "ip", 5.0, 1, 5.0)
  const SECOND := Use(1, 0, "ip", 5.0, 2, 5.0)
  const THIRD := Use(2, 0, "ip", 10.0, 3, 5.0)

  function Table(count: nat, denied: map<string, real>): Cache {
    Cache(map["ip" := Count(count, 15.0)], map["ip" := Stamp(10.0, 15.0)], denied)
  }

  const OPENED := State(5.0, Table(1, map[]), [Passed(0.0)], [FIRST], [])
  const REFUSED := State(5.0, Table(2, map["ip" := 10.0]), [Passed(0.0), Refused(5.0, 5)], [FIRST, SECOND],
                         [Denial("ip", 5.0, 5.0, 10.0)])
  const AGAIN := State(10.0, Table(3, map["ip" := 11.0]), [Passed(0.0), Refused(5.0, 5), Refused(10.0, 1)],
                       [FIRST, SECOND, THIRD], [Denial("ip", 5.0, 5.0, 10.0), Denial("ip", 10.0, 5.0, 11.0)])

  /** A call that read the clock five seconds before it opened the window: the reset time it stores is too early. */
  lemma Opening()
    ensures Run(ONE, START, [Arrive("ip", "user", true), Operation(0)] + [Tick(5.0), Operation(0)] + [Operation(0)])
            == OPENED
  {
    var a := State(0.0, START.cache, [Waiting(0.0, Add)], [], []);
    var b := State(5.0, Cache(map["ip" := Count(1, 15.0)], map[], map[]), [Waiting(0.0, AddReset)], [FIRST], []);
    assert Next(ONE, Next(ONE, START, Arrive("ip", "user", true)), Operation(0)) == a;
    assert Next(ONE, Next(ONE, a, Tick(5.0)), Operation(0)) == b;
    assert Decide(b.calls[0], ALLOWED) == Passed(0.0);
    assert Next(ONE, b, Operation(0)) == OPENED;
    hide Next;
    RunTwo(ONE, START, Arrive("ip", "user", true), Operation(0));
    RunTwo(ONE, a, Tick(5.0), Operation(0));
    RunOne(ONE, b, Operation(0));
    RunConcat(ONE, START, [Arrive("ip", "user", true), Operation(0)], [Tick(5.0), Operation(0)]);
    RunConcat(ONE, START, [Arrive("ip", "user", true), Operation(0)] + [Tick(5.0), Operation(0)], [Operation(0)]);
  }

  /** The next attempt is refused and reported, and the report remembered only until that early reset time. */
  lemma Refusing()
    ensures Run(ONE, OPENED, [Arrive("ip", "user", true), Operation(1)] + [Operation(1), Operation(1)]
                + [Operation(1), Operation(1)]) == REFUSED
  {
    var t := Table(1, map[]);
    var u := Table(2, map[]);
    var a := State(5.0, t, [Passed(0.0), Waiting(5.0, Add)], [FIRST], []);
    var b := State(5.0, u, [Passed(0.0), Waiting(5.0, GetReset(5.0))], [FIRST, SECOND], []);
    assert Next(ONE, Next(ONE, OPENED, Arrive("ip", "user", true)), Operation(1)) == a;
    assert u.counts == t.counts["ip" := Count(2, 15.0)];
    assert Next(ONE, Next(ONE, a, Operation(1)), Operation(1)) == b;
    assert RetryAfter(Some(10.0), 5.0, 10) == 5;
    var c := State(5.0, u, [Passed(0.0), Waiting(5.0, AddDenied(5.0, 5))], [FIRST, SECOND], []);
    assert Next(ONE, b, Operation(1)) == c;
    assert Decide(c.calls[1], Decision(false, 5, true)) == Refused(5.0, 5);
    assert Next(ONE, c, Operation(1)) == REFUSED;
    hide Next;
    RunTwo(ONE, OPENED, Arrive("ip", "user", true), Operation(1));
    RunTwo(ONE, a, Operation(1), Operation(1));
    RunTwo(ONE, b, Operation(1), Operation(1));
    RunConcat(ONE, OPENED, [Arrive("ip", "user", true), Operation(1)], [Operation(1), Operation(1)]);
    RunConcat(ONE, OPENED, [Arrive("ip", "user", true), Operation(1)] + [Operation(1), Operation(1)],
              [Operation(1), Operation(1)]);
  }

  /** In the same window the third attempt is reported again. */
  lemma RefusingAgain()
    ensures Run(ONE, REFUSED, [Tick(5.0)] + [Arrive("ip", "user", true), Operation(2)] + [Operation(2), Operation(2)]
                + [Operation(2), Operation(2)]) == AGAIN
  {
    var u := Table(2, map["ip" := 10.0]);
    var v := Table(3, map["ip" := 10.0]);
    var late := REFUSED.(now := 10.0);
    var a := late.(calls := [Passed(0.0), Refused(5.0, 5), Waiting(10.0, Add)]);
    var b := State(10.0, v, [Passed(0.0), Refused(5.0, 5), Waiting(10.0, GetReset(5.0))], [FIRST, SECOND, THIRD],
                   [Denial("ip", 5.0, 5.0, 10.0)]);
    var c := b.(calls := [Passed(0.0), Refused(5.0, 5), Waiting(10.0, AddDenied(5.0, 1))]);
    assert Next(ONE, REFUSED, Tick(5.0)) == late;
    assert Next(ONE, Next(ONE, late, Arrive("ip", "user", true)), Operation(2)) == a;
    assert u.counts["ip" := Count(3, 15.0)] == v.counts;
    assert Next(ONE, Next(ONE, a, Operation(2)), Operation(2)) == b;
    assert RetryAfter(Some(10.0), 10.0, 10) == 1;
    assert Next(ONE, b, Operation(2)) == c;
    assert Decide(c.calls[2], Decision(false, 1, true)) == Refused(10.0, 1);
    assert Next(ONE, c, Operation(2)) == AGAIN;
    hide Next;
    RunOne(ONE, REFUSED, Tick(5.0));
    RunTwo(ONE, late, Arrive("ip", "user", true), Operation(2));
    RunTwo(ONE, a, Operation(2), Operation(2));
    RunTwo(ONE, b, Operation(2), Operation(2));
    RunConcat(ONE, REFUSED, [Tick(5.0)], [Arrive("ip", "user", true), Operation(2)]);
    RunConcat(ONE, REFUSED, [Tick(5.0)] + [Arrive("ip", "user", true), Operation(2)], [Operation(2), Operation(2)]);
    RunConcat(ONE, REFUSED, [Tick(5.0)] + [Arrive("ip", "user", true), Operation(2)] + [Operation(2), Operation(2)],
              [Operation(2), Operation(2)]);
  }

  const OPENING := [Arrive("ip", "user", true), Operation(0)] + [Tick(5.0), Operation(0)] + [Operation(0)]
  const REFUSING := [Arrive("ip", "user", true), Operation(1)] + [Operation(1), Operation(1)]
    + [Operation(1), Operation(1)]
  const REFUSING_AGAIN := [Tick(5.0)] + [Arrive("ip", "user", true), Operation(2)] + [Operation(2), Operation(2)]
    + [Operation(2), Operation(2)]

  /** When time passes inside a call, one window can see two reports of its denial. */
  lemma ReportedTwice()
    ensures Run(ONE, START, OPENING + REFUSING + REFUSING_AGAIN) == AGAIN && !Reported(AGAIN.denials)
  {
    hide Next, Run;
    Opening();
    Refusing();
    RefusingAgain();
    RunConcat(ONE, START, OPENING, REFUSING);
    RunConcat(ONE, START, OPENING + REFUSING, REFUSING_AGAIN);
    assert AGAIN.denials[0].start == AGAIN.denials[1].start && AGAIN.denials[0].subject == AGAIN.denials[1].subject;
  }
}
