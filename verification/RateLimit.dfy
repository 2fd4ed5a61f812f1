// The fixed-window rate limiter. Calls from many workers interleave cache operation by cache operation; each operation
// is atomic and entries expire on their own. Times are seconds as reals.
module RateLimit {
  import opened Common

  /** The limit and window of one surface. */
  datatype Config = Config(limit: int, window: nat)

  datatype Count = Count(val: nat, expires: real)
  datatype Stamp = Stamp(at: real, expires: real)

  /** The three cache entries of each subject: its count, when its window ends, and that a denial was reported. */
  datatype Cache = Cache(counts: map<string, Count>, resets: map<string, Stamp>, denied: map<string, real>)

  datatype Decision = Decision(allowed: bool, retryAfter: int, firstDenial: bool)

  /** Where a call is within its current subject; `start` is when the window that refused it began. */
  datatype Pc = Clock | Add | AddReset | Incr | Get | GetReset(start: real) | AddDenied(start: real, retry: int)

  /** A call works through its subjects one after the other; `clock` is the time it read for the current one. */
  datatype Call = Call(subjects: seq<string>, consume: bool, clock: real, pc: Pc, decisions: seq<Decision>)

  /** A counted attempt: who made it for which subject, when, its place in the window, and when the window began. */
  datatype Use = Use(call: nat, stage: nat, subject: string, at: real, count: nat, start: real)

  /** A reported denial: when it was reported, when the window that refused began, and until when it is remembered. */
  datatype Denial = Denial(subject: string, at: real, start: real, until: real)

  datatype State = State(now: real, cache: Cache, calls: seq<Call>, uses: seq<Use>, denials: seq<Denial>)

  const START := State(0.0, Cache(map[], map[], map[]), [], [], [])

  // ---- Steps ----

  function Ceil(x: real): int { -((-x).Floor) }

  /** `_retry_after`. */
  function RetryAfter(resetAt: Option<real>, clock: real, window: nat): int {
    if resetAt.None? then window else Max(1, Min(window, Ceil(resetAt.value - clock)))
  }

  predicate Finished(c: Call) { |c.decisions| >= |c.subjects| }

  /** The subject the call is at. */
  function Subject(c: Call): string
    requires !Finished(c)
  {
    c.subjects[|c.decisions|]
  }

  function CountAlive(s: State, subject: string): Option<Count> {
    if subject in s.cache.counts && s.now < s.cache.counts[subject].expires then Some(s.cache.counts[subject]) else None
  }

  function ResetAlive(s: State, subject: string): Option<real> {
    if subject in s.cache.resets && s.now < s.cache.resets[subject].expires then Some(s.cache.resets[subject].at)
      else None
  }

  predicate DeniedAlive(s: State, subject: string) { subject in s.cache.denied && s.now < s.cache.denied[subject] }

  function Decide(c: Call, d: Decision): Call { c.(pc := Clock, decisions := c.decisions + [d]) }

  const ALLOWED := Decision(true, 0, false)

  /** A cache that fails denies for a whole window. */
  function Failed(cfg: Config): Decision { Decision(false, cfg.window, false) }

  function WithCall(s: State, k: nat, c: Call): State
    requires k < |s.calls|
  {
    s.(calls := s.calls[k := c])
  }

  function Counted(s: State, k: nat, subject: string, count: Count, start: real): State
    requires k < |s.calls|
  {
    s.(cache := s.cache.(counts := s.cache.counts[subject := count]),
       uses := s.uses + [Use(k, |s.calls[k].decisions|, subject, s.now, count.val, start)])
  }

  /** The next operation of call `k`. */
  function Operate(cfg: Config, s: State, k: nat): (t: State)
    requires k < |s.calls|
    ensures |t.calls| == |s.calls|
  {
    var c := s.calls[k];
    if Finished(c) then s
    else
      var x := Subject(c);
      var w := cfg.window as real;
      match c.pc
      case Clock => WithCall(s, k, c.(clock := s.now, pc := if c.consume then Add else Get))
      case Add =>
        if CountAlive(s, x).Some? then WithCall(s, k, c.(pc := Incr))
        else WithCall(Counted(s, k, x, Count(1, s.now + w), s.now), k, c.(pc := AddReset))
      case AddReset =>
        var resets := if ResetAlive(s, x).Some? then s.cache.resets
          else s.cache.resets[x := Stamp(c.clock + w, s.now + w)];
        WithCall(s.(cache := s.cache.(resets := resets)), k, Decide(c, ALLOWED))
      case Incr =>
        (match CountAlive(s, x)
         case None => WithCall(s, k, Decide(c, Failed(cfg)))
         case Some(n) =>
           var t := Counted(s, k, x, Count(n.val + 1, n.expires), n.expires - w);
           WithCall(t, k, if n.val + 1 <= cfg.limit then Decide(c, ALLOWED) else c.(pc := GetReset(n.expires - w))))
      case Get =>
        (match CountAlive(s, x)
         case None => WithCall(s, k, Decide(c, ALLOWED))
         case Some(n) =>
           WithCall(s, k, if n.val < cfg.limit then Decide(c, ALLOWED) else c.(pc := GetReset(n.expires - w))))
      case GetReset(start) =>
        WithCall(s, k, c.(pc := AddDenied(start, RetryAfter(ResetAlive(s, x), c.clock, cfg.window))))
      case AddDenied(start, retry) =>
        if DeniedAlive(s, x) then WithCall(s, k, Decide(c, Decision(false, retry, false)))
        else WithCall(s.(cache := s.cache.(denied := s.cache.denied[x := s.now + retry as real]),
                         denials := s.denials + [Denial(x, s.now, start, s.now + retry as real)]),
                      k, Decide(c, Decision(false, retry, true)))
  }

  datatype Action = Tick(elapsed: real) | Arrive(client: string, principal: string, consume: bool)
    | Operation(call: nat) | Outage(call: nat)

  function Next(cfg: Config, s: State, a: Action): State {
    match a
    case Tick(elapsed) => if elapsed >= 0.0 then s.(now := s.now + elapsed) else s
    case Arrive(client, principal, consume) =>
      s.(calls := s.calls + [Call([client, principal], consume, s.now, Clock, [])])
    case Operation(k) => if k < |s.calls| then Operate(cfg, s, k) else s
    case Outage(k) =>
      if k < |s.calls| && !Finished(s.calls[k]) && s.calls[k].pc != Clock
      then WithCall(s, k, Decide(s.calls[k], Failed(cfg))) else s
  }

  function Run(cfg: Config, s: State, actions: seq<Action>): State
    decreases |actions|
  {
    if actions == [] then s else Run(cfg, Next(cfg, s, actions[0]), actions[1..])
  }

  lemma {:induction false} RunConcat(cfg: Config, s: State, a: seq<Action>, b: seq<Action>)
    ensures Run(cfg, s, a + b) == Run(cfg, Run(cfg, s, a), b)
    decreases |a|
  {
    hide Next;
    if a == [] {
      assert a + b == b;
    } else {
      assert (a + b)[0] == a[0] && (a + b)[1..] == a[1..] + b;
      RunConcat(cfg, Next(cfg, s, a[0]), a[1..], b);
    }
  }

  lemma RunOne(cfg: Config, s: State, a: Action)
    ensures Run(cfg, s, [a]) == Next(cfg, s, a)
  {
    hide Next;
    assert Run(cfg, s, [a]) == Run(cfg, Next(cfg, s, a), [a][1..]);
  }

  lemma RunTwo(cfg: Config, s: State, a: Action, b: Action)
    ensures Run(cfg, s, [a, b]) == Next(cfg, Next(cfg, s, a), b)
  {
    assert [a, b] == [a] + [b];
    RunConcat(cfg, s, [a], [b]);
    RunOne(cfg, s, a);
    RunOne(cfg, Next(cfg, s, a), b);
    hide Next, Run;
  }

  /** What a finished call answers: allowed when every subject is, else the longest wait. */
  function Merged(ds: seq<Decision>): Decision {
    if ds == [] then ALLOWED
    else
      var rest := Merged(ds[1..]);
      if ds[0].allowed then rest
      else if rest.allowed then ds[0]
      else Decision(false, Max(ds[0].retryAfter, rest.retryAfter), ds[0].firstDenial || rest.firstDenial)
  }

  lemma {:induction false} MergedMeans(ds: seq<Decision>)
    ensures Merged(ds).allowed <==> forall i | 0 <= i < |ds| :: ds[i].allowed
    ensures !Merged(ds).allowed ==>
            exists i | 0 <= i < |ds| :: !ds[i].allowed && ds[i].retryAfter == Merged(ds).retryAfter
    ensures !Merged(ds).allowed ==>
            forall i | 0 <= i < |ds| && !ds[i].allowed :: ds[i].retryAfter <= Merged(ds).retryAfter
    ensures !Merged(ds).allowed ==>
            (Merged(ds).firstDenial <==> exists i | 0 <= i < |ds| :: !ds[i].allowed && ds[i].firstDenial)
  {
    if ds != [] {
      MergedMeans(ds[1..]);
      var rest := ds[1..];
      assert forall i | 0 <= i < |rest| :: rest[i] == ds[i + 1];
      assert forall i | 1 <= i < |ds| :: ds[i] == rest[i - 1];
    }
  }
}
