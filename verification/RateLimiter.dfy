/** The limiter as the code writes it, one call at a time, and that it is the interleaved one left undisturbed. */
module RateLimiter {
  import opened Common
  import opened RateLimit

  // ---- One subject at one instant ----

  function AliveCount(c: Cache, x: string, now: real): Option<Count> {
    if x in c.counts && now < c.counts[x].expires then Some(c.counts[x]) else None
  }

  function AliveReset(c: Cache, x: string, now: real): Option<real> {
    if x in c.resets && now < c.resets[x].expires then Some(c.resets[x].at) else None
  }

  /** Refuses for the wait the reset time asks for, and reports it unless that was done. */
  function Refuse(cfg: Config, c: Cache, x: string, now: real): (Cache, Decision) {
    var retry := RetryAfter(AliveReset(c, x, now), now, cfg.window);
    if x in c.denied && now < c.denied[x] then (c, Decision(false, retry, false))
    else (c.(denied := c.denied[x := now + retry as real]), Decision(false, retry, true))
  }

  function Consume(cfg: Config, c: Cache, x: string, now: real): (Cache, Decision) {
    match AliveCount(c, x, now)
    case None =>
      var w := cfg.window as real;
      var begun := c.(counts := c.counts[x := Count(1, now + w)]);
      (if AliveReset(c, x, now).Some? then begun else begun.(resets := c.resets[x := Stamp(now + w, now + w)]), ALLOWED)
    case Some(n) =>
      var counted := c.(counts := c.counts[x := Count(n.val + 1, n.expires)]);
      if n.val + 1 <= cfg.limit then (counted, ALLOWED) else Refuse(cfg, counted, x, now)
  }

  function Check(cfg: Config, c: Cache, x: string, now: real): (Cache, Decision) {
    match AliveCount(c, x, now)
    case None => (c, ALLOWED)
    case Some(n) => if n.val < cfg.limit then (c, ALLOWED) else Refuse(cfg, c, x, now)
  }

  /** All subjects in order; a refusal of one does not spare the others. */
  function Decided(cfg: Config, c: Cache, subjects: seq<string>, consume: bool, now: real, n: nat)
    : (Cache, seq<Decision>)
    requires n <= |subjects|
  {
    if n == 0 then (c, [])
    else
      var (before, ds) := Decided(cfg, c, subjects, consume, now, n - 1);
      var (after, d) := if consume then Consume(cfg, before, subjects[n - 1], now)
        else Check(cfg, before, subjects[n - 1], now);
      (after, ds + [d])
  }

  class Limiter {
    var counts: map<string, Count>
    var resets: map<string, Stamp>
    var denied: map<string, real>

    function View(): Cache reads this { Cache(counts, resets, denied) }

    constructor ()
      ensures View() == Cache(map[], map[], map[])
    {
      counts, resets, denied := map[], map[], map[];
    }

    method ConsumeSubject(cfg: Config, x: string, now: real) returns (d: Decision)
      modifies this
      ensures (View(), d) == Consume(cfg, old(View()), x, now)
    {
      if !(x in counts && now < counts[x].expires) {
        counts := counts[x := Count(1, now + cfg.window as real)];
        if !(x in resets && now < resets[x].expires) {
          resets := resets[x := Stamp(now + cfg.window as real, now + cfg.window as real)];
        }
        return ALLOWED;
      }
      counts := counts[x := counts[x].(val := counts[x].val + 1)];
      if counts[x].val <= cfg.limit { return ALLOWED; }
      d := Deny(cfg, x, now);
    }

    method CheckSubject(cfg: Config, x: string, now: real) returns (d: Decision)
      modifies this
      ensures (View(), d) == Check(cfg, old(View()), x, now)
    {
      if !(x in counts && now < counts[x].expires) || counts[x].val < cfg.limit { return ALLOWED; }
      d := Deny(cfg, x, now);
    }

    method Deny(cfg: Config, x: string, now: real) returns (d: Decision)
      modifies this`denied
      ensures (View(), d) == Refuse(cfg, old(View()), x, now)
    {
      var resetAt := if x in resets && now < resets[x].expires then Some(resets[x].at) else None;
      var retry := RetryAfter(resetAt, now, cfg.window);
      var first := !(x in denied && now < denied[x]);
      if first { denied := denied[x := now + retry as real]; }
      d := Decision(false, retry, first);
    }

    /** `consume_rate_limit` and `check_rate_limit`. */
    method Decide(cfg: Config, subjects: seq<string>, consume: bool, now: real) returns (d: Decision)
      modifies this
      ensures View() == Decided(cfg, old(View()), subjects, consume, now, |subjects|).0
      ensures d == Merged(Decided(cfg, old(View()), subjects, consume, now, |subjects|).1)
    {
      var decisions: seq<Decision> := [];
      for n := 0 to |subjects|
        invariant (View(), decisions) == Decided(cfg, old(View()), subjects, consume, now, n)
      {
        var one: Decision;
        if consume {
          one := ConsumeSubject(cfg, subjects[n], now);
        } else {
          one := CheckSubject(cfg, subjects[n], now);
        }
        decisions := decisions + [one];
      }
      d := Merged(decisions);
    }
  }

  // ---- The interleaved limiter, undisturbed ----

  function Operations(cfg: Config, s: State, k: nat, n: nat): (t: State)
    requires k < |s.calls|
    ensures |t.calls| == |s.calls|
  {
    if n == 0 then s else Operate(cfg, Operations(cfg, s, k, n - 1), k)
  }

  /** From the refusal on: reading the reset time and reporting. */
  lemma RefusalAlone(cfg: Config, s: State, k: nat)
    requires k < |s.calls| && !Finished(s.calls[k]) && s.calls[k].pc.GetReset? && s.calls[k].clock == s.now
    ensures var t := Operate(cfg, Operate(cfg, s, k), k);
            var (cache, d) := Refuse(cfg, s.cache, Subject(s.calls[k]), s.now);
            t.cache == cache && t.now == s.now && t.calls[k] == Decide(s.calls[k], d)
  {
    var u := Operate(cfg, s, k);
    assert u.calls[k].pc.AddDenied?;
  }

  lemma ConsumeAlone(cfg: Config, s: State, k: nat) returns (n: nat)
    requires k < |s.calls| && !Finished(s.calls[k]) && s.calls[k].pc.Clock? && s.calls[k].consume
    ensures var c := s.calls[k]; var t := Operations(cfg, s, k, n);
            var (cache, d) := Consume(cfg, s.cache, Subject(c), s.now);
            t.cache == cache && t.now == s.now && t.calls[k] == Decide(c.(clock := s.now), d)
  {
    hide Operations, Operate, Refuse, RetryAfter;
    Unrolled(cfg, s, k);
    var third := Operate(cfg, Operate(cfg, Operate(cfg, s, k), k), k);
    match AliveCount(s.cache, Subject(s.calls[k]), s.now) {
      case None =>
        OpeningAlone(cfg, s, k);
        n := 3;
      case Some(m) =>
        CountingAlone(cfg, s, k, m);
        if m.val + 1 <= cfg.limit {
          n := 3;
        } else {
          RefusalAlone(cfg, third, k);
          n := 5;
        }
    }
  }

  /** A window that is not open is opened, and its reset time stored. */
  lemma OpeningAlone(cfg: Config, s: State, k: nat)
    requires k < |s.calls| && !Finished(s.calls[k]) && s.calls[k].pc.Clock? && s.calls[k].consume
    requires AliveCount(s.cache, Subject(s.calls[k]), s.now).None?
    ensures var c := s.calls[k]; var t := Operate(cfg, Operate(cfg, Operate(cfg, s, k), k), k);
            var (cache, d) := Consume(cfg, s.cache, Subject(c), s.now);
            t.cache == cache && t.now == s.now && t.calls[k] == Decide(c.(clock := s.now), d)
  {
    var a := Operate(cfg, s, k);
    assert a == s.(calls := a.calls) && a.calls[k] == s.calls[k].(clock := s.now, pc := Add);
    var b := Operate(cfg, a, k);
    assert b.calls[k] == s.calls[k].(clock := s.now, pc := AddReset) && b.cache.resets == s.cache.resets;
  }

  /** In an open window the attempt is counted, and refused past the limit. */
  lemma CountingAlone(cfg: Config, s: State, k: nat, m: Count)
    requires k < |s.calls| && !Finished(s.calls[k]) && s.calls[k].pc.Clock? && s.calls[k].consume
    requires AliveCount(s.cache, Subject(s.calls[k]), s.now) == Some(m)
    ensures var c := s.calls[k].(clock := s.now); var t := Operate(cfg, Operate(cfg, Operate(cfg, s, k), k), k);
            var x := Subject(c);
            && t.now == s.now && t.cache == s.cache.(counts := s.cache.counts[x := Count(m.val + 1, m.expires)])
            && t.calls[k] == if m.val + 1 <= cfg.limit then Decide(c, ALLOWED)
              else c.(pc := GetReset(m.expires - cfg.window as real))
  {
    var a := Operate(cfg, s, k);
    assert a == s.(calls := a.calls) && a.calls[k] == s.calls[k].(clock := s.now, pc := Add);
    var b := Operate(cfg, a, k);
    assert b == s.(calls := b.calls) && b.calls[k] == s.calls[k].(clock := s.now, pc := Incr);
  }

  lemma CheckAlone(cfg: Config, s: State, k: nat) returns (n: nat)
    requires k < |s.calls| && !Finished(s.calls[k]) && s.calls[k].pc.Clock? && !s.calls[k].consume
    ensures var c := s.calls[k]; var t := Operations(cfg, s, k, n);
            var (cache, d) := Check(cfg, s.cache, Subject(c), s.now);
            t.cache == cache && t.now == s.now && t.calls[k] == Decide(c.(clock := s.now), d)
  {
    var b := Operate(cfg, Operate(cfg, s, k), k);
    Unrolled(cfg, s, k);
    match AliveCount(s.cache, Subject(s.calls[k]), s.now) {
      case None => n := 2;
      case Some(m) => if m.val < cfg.limit { n := 2; } else { n := 4; RefusalAlone(cfg, b, k); }
    }
    hide Refuse, RetryAfter, Operations;
  }

  /**
   * Left alone, the operations of a call for one subject have the effect and give the answer of the code read in one
   * go.
   */
  lemma SubjectAlone(cfg: Config, s: State, k: nat) returns (n: nat)
    requires k < |s.calls| && !Finished(s.calls[k]) && s.calls[k].pc.Clock?
    ensures var c := s.calls[k]; var t := Operations(cfg, s, k, n);
            var (cache, d) := if c.consume then Consume(cfg, s.cache, Subject(c), s.now)
              else Check(cfg, s.cache, Subject(c), s.now);
            t.cache == cache && t.now == s.now && t.calls[k] == Decide(c.(clock := s.now), d)
  {
    hide Consume, Check, Operations, Operate;
    if s.calls[k].consume { n := ConsumeAlone(cfg, s, k); } else { n := CheckAlone(cfg, s, k); }
  }

  lemma Unrolled(cfg: Config, s: State, k: nat)
    requires k < |s.calls|
    ensures var a := Operate(cfg, s, k); var b := Operate(cfg, a, k); var c := Operate(cfg, b, k);
            var d := Operate(cfg, c, k);
            && Operations(cfg, s, k, 2) == b && Operations(cfg, s, k, 3) == c && Operations(cfg, s, k, 4) == d
            && Operations(cfg, s, k, 5) == Operate(cfg, d, k)
  {
    hide Operate;
    assert Operations(cfg, s, k, 0) == s;
    assert Operations(cfg, s, k, 1) == Operate(cfg, s, k);
    assert Operations(cfg, s, k, 3) == Operate(cfg, Operations(cfg, s, k, 2), k);
  }
}
