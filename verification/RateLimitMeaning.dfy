// That the limiter refuses no one it should let through: attempts are numbered within their window without gaps,
// and the number decides. What single operations answer is stated on the cache alone.
module RateLimitMeaning {
  import opened Common
  import opened RateLimit
  import opened RateLimitProofs

  // ---- Numbering ----

  /** The attempts counted before for the same subject in the same window. */
  ghost function Earlier(uses: seq<Use>, i: nat): set<nat>
    requires i <= |uses|
  {
    if i == |uses| then {}
    else set j: nat | j < i && uses[j].subject == uses[i].subject && uses[j].start == uses[i].start
  }

  ghost function InWindow(uses: seq<Use>, x: string, start: real): set<nat> {
    set j: nat | j < |uses| && uses[j].subject == x && uses[j].start == start
  }

  /** Every attempt's number is its place in its window, and the count of the current window is how many it has seen. */
  ghost predicate Numbered(cfg: Config, s: State) {
    && (forall i: nat | i < |s.uses| :: s.uses[i].count == |Earlier(s.uses, i)| + 1)
    && (forall x | x in s.cache.counts :: Seen(cfg, s.uses, x, s.cache.counts[x]))
  }

  ghost predicate Seen(cfg: Config, uses: seq<Use>, x: string, n: Count) {
    n.val == |InWindow(uses, x, n.expires - cfg.window as real)|
  }

  lemma StartNumbered(cfg: Config)
    ensures Numbered(cfg, START)
  {}

  /** The uses before a new one keep their places. */
  lemma PlaceStays(uses: seq<Use>, u: Use, i: nat)
    requires i < |uses|
    ensures Earlier(uses + [u], i) == Earlier(uses, i)
  {
    assert forall j: nat | j < |uses| :: (uses + [u])[j] == uses[j];
  }

  lemma NewPlace(uses: seq<Use>, u: Use)
    ensures Earlier(uses + [u], |uses|) == InWindow(uses, u.subject, u.start)
  {
    assert forall j: nat | j < |uses| :: (uses + [u])[j] == uses[j];
  }

  lemma WindowGrows(uses: seq<Use>, u: Use, x: string, start: real)
    ensures var same := u.subject == x && u.start == start;
            |InWindow(uses + [u], x, start)| == |InWindow(uses, x, start)| + if same then 1 else 0
  {
    var n := |uses|;
    assert forall j: nat | j < n :: (uses + [u])[j] == uses[j];
    var old_, new_ := InWindow(uses, x, start), InWindow(uses + [u], x, start);
    if u.subject == x && u.start == start { assert new_ == old_ + {n}; } else { assert new_ == old_; }
  }

  /** A window that begins now has seen nothing yet. */
  lemma NewWindowEmpty(cfg: Config, s: State, x: string)
    requires cfg.window >= 1 && UsesOk(cfg, s) && CountAlive(s, x).None?
    ensures InWindow(s.uses, x, s.now) == {}
  {
    forall j: nat | j < |s.uses| && s.uses[j].subject == x ensures s.uses[j].start != s.now {
      assert UseOk(cfg, s, s.uses[j]);
    }
  }

  /** One more use, numbered by its place in its window. */
  lemma NumbersOneMore(cfg: Config, s: State, t: State, x: string, n: Count)
    requires cfg.window >= 1 && Numbered(cfg, s) && |t.uses| == |s.uses| + 1
    requires var u := t.uses[|s.uses|];
             && t.uses == s.uses + [u] && t.cache.counts == s.cache.counts[x := n]
             && u.subject == x && u.start == n.expires - cfg.window as real && u.count == n.val
             && n.val == |InWindow(s.uses, x, u.start)| + 1
    ensures Numbered(cfg, t)
  {
    hide Earlier, InWindow;
    var u := t.uses[|s.uses|];
    NewPlace(s.uses, u);
    forall i: nat | i < |t.uses| ensures t.uses[i].count == |Earlier(t.uses, i)| + 1 {
      if i < |s.uses| {
        assert t.uses[i] == s.uses[i];
        PlaceStays(s.uses, u, i);
      }
    }
    forall y | y in t.cache.counts ensures Seen(cfg, t.uses, y, t.cache.counts[y]) {
      WindowGrows(s.uses, u, y, t.cache.counts[y].expires - cfg.window as real);
      if y != x { assert t.cache.counts[y] == s.cache.counts[y]; }
    }
  }

  lemma SameNumbers(cfg: Config, s: State, t: State)
    requires Numbered(cfg, s) && t.uses == s.uses && t.cache.counts == s.cache.counts
    ensures Numbered(cfg, t)
  {
    hide Seen, Earlier;
  }

  lemma OperateNumbers(cfg: Config, s: State, k: nat)
    requires cfg.window >= 1 && UsesOk(cfg, s) && Numbered(cfg, s) && k < |s.calls|
    ensures Numbered(cfg, Operate(cfg, s, k))
  {
    hide Operate, UsesOk, Earlier, InWindow, Numbered;
    var c, t := s.calls[k], Operate(cfg, s, k);
    if Finished(c) {
      NothingOperated(cfg, s, k);
    } else {
      var x := Subject(c);
      CountsOrNot(cfg, s, k);
      PlaceTaken(cfg, s, x);
      if t.uses == s.uses { SameNumbers(cfg, s, t); } else { NumbersOneMore(cfg, s, t, x, t.cache.counts[x]); }
    }
  }

  lemma NothingOperated(cfg: Config, s: State, k: nat)
    requires k < |s.calls| && Finished(s.calls[k])
    ensures Operate(cfg, s, k) == s
  {}

  /** The window an attempt is counted in has seen as many attempts as its count says, or none. */
  lemma PlaceTaken(cfg: Config, s: State, x: string)
    requires cfg.window >= 1 && UsesOk(cfg, s) && Numbered(cfg, s)
    ensures match CountAlive(s, x)
            case None => |InWindow(s.uses, x, s.now)| == 0
            case Some(m) => m.val == |InWindow(s.uses, x, m.expires - cfg.window as real)|
  {
    hide UsesOk, InWindow, Earlier;
    if CountAlive(s, x).None? {
      NewWindowEmpty(cfg, s, x);
    } else {
      assert Seen(cfg, s.uses, x, s.cache.counts[x]);
    }
  }

  lemma NextNumbers(cfg: Config, s: State, a: Action)
    requires cfg.window >= 1 && StateOk(cfg, s) && Numbered(cfg, s)
    ensures Numbered(cfg, Next(cfg, s, a))
  {
    hide Operate, Earlier, InWindow, Numbered;
    if a.Operation? && a.call < |s.calls| {
      OperateNumbers(cfg, s, a.call);
    } else {
      SameNumbers(cfg, s, Next(cfg, s, a));
    }
  }

  lemma {:induction false} RunNumbers(cfg: Config, s: State, actions: seq<Action>)
    requires cfg.window >= 1 && StateOk(cfg, s) && Numbered(cfg, s)
    ensures Numbered(cfg, Run(cfg, s, actions))
    decreases |actions|
  {
    hide StateOk, Numbered, Next;
    if actions != [] {
      NextKeeps(cfg, s, actions[0]);
      NextNumbers(cfg, s, actions[0]);
      RunNumbers(cfg, Next(cfg, s, actions[0]), actions[1..]);
    }
  }

  // ---- The number decides ----

  predicate FirstOrWithin(cfg: Config, u: Use) { u.count == 1 || u.count <= cfg.limit }

  /** A cache that failed denies for a whole window and reports nothing. */
  predicate CacheFailed(cfg: Config, d: Decision) { !d.allowed && d.retryAfter == cfg.window && !d.firstDenial }

  predicate Decided(cfg: Config, c: Call, u: Use) {
    && (u.stage < |c.decisions| && FirstOrWithin(cfg, u) ==>
          c.decisions[u.stage].allowed || CacheFailed(cfg, c.decisions[u.stage]))
    && (u.stage == |c.decisions| && FirstOrWithin(cfg, u) ==> c.pc.AddReset?)
  }

  ghost predicate AllDecided(cfg: Config, s: State) {
    && (forall x | x in s.cache.counts :: s.cache.counts[x].val >= 1)
    && forall i | 0 <= i < |s.uses| :: s.uses[i].call < |s.calls| && Decided(cfg, s.calls[s.uses[i].call], s.uses[i])
  }

  /** Going on with its call, a use is decided by its number. */
  lemma StaysDecided(cfg: Config, s: State, k: nat, u: Use)
    requires k < |s.calls| && !Finished(s.calls[k]) && Attributed(cfg, s.calls[k], u) && Decided(cfg, s.calls[k], u)
    ensures Decided(cfg, Operate(cfg, s, k).calls[k], u)
  {}

  lemma NewDecided(cfg: Config, s: State, k: nat)
    requires k < |s.calls| && !Finished(s.calls[k]) && Operate(cfg, s, k).uses != s.uses
    requires forall x | x in s.cache.counts :: s.cache.counts[x].val >= 1
    ensures var t := Operate(cfg, s, k);
            |t.uses| == |s.uses| + 1 && t.uses[|s.uses|].call == k && Decided(cfg, t.calls[k], t.uses[|s.uses|])
  {}

  lemma OperateDecides(cfg: Config, s: State, k: nat)
    requires UsesOk(cfg, s) && AllDecided(cfg, s) && k < |s.calls|
    ensures AllDecided(cfg, Operate(cfg, s, k))
  {
    var t := Operate(cfg, s, k);
    if !Finished(s.calls[k]) {
      CountsOrNot(cfg, s, k);
      if t.uses != s.uses { NewDecided(cfg, s, k); }
      forall i | 0 <= i < |s.uses| && s.uses[i].call == k ensures Decided(cfg, t.calls[k], s.uses[i]) {
        assert UseOk(cfg, s, s.uses[i]);
        StaysDecided(cfg, s, k, s.uses[i]);
      }
      hide Operate, UsesOk, Decided;
      forall i | 0 <= i < |t.uses|
        ensures t.uses[i].call < |t.calls| && Decided(cfg, t.calls[t.uses[i].call], t.uses[i])
      {
        if i < |s.uses| { assert t.uses[i] == s.uses[i]; }
      }
    }
  }

  lemma NextDecides(cfg: Config, s: State, a: Action)
    requires UsesOk(cfg, s) && AllDecided(cfg, s)
    ensures AllDecided(cfg, Next(cfg, s, a))
  {
    if a.Operation? && a.call < |s.calls| { OperateDecides(cfg, s, a.call); }
    if a.Outage? && a.call < |s.calls| {
      forall i | 0 <= i < |s.uses| && s.uses[i].call == a.call
        ensures Decided(cfg, Next(cfg, s, a).calls[a.call], s.uses[i])
      {
        assert UseOk(cfg, s, s.uses[i]);
      }
    }
    hide Operate, UsesOk;
  }

  lemma {:induction false} RunDecides(cfg: Config, s: State, actions: seq<Action>)
    requires cfg.window >= 1 && StateOk(cfg, s) && AllDecided(cfg, s)
    ensures AllDecided(cfg, Run(cfg, s, actions))
    decreases |actions|
  {
    if actions != [] {
      NextKeeps(cfg, s, actions[0]);
      NextDecides(cfg, s, actions[0]);
      RunDecides(cfg, Next(cfg, s, actions[0]), actions[1..]);
    }
    hide UsesOk, AllDecided, Next;
  }

  /**
   * Over every run and interleaving: an attempt's number is one more than the attempts counted before it for its
   * subject in its window, and it is let through exactly when this is the first or the number is within the limit,
   * unless the cache failed.
   */
  lemma NumberDecides(cfg: Config, actions: seq<Action>, i: nat)
    requires cfg.window >= 1 && i < |Run(cfg, START, actions).uses|
    ensures var s := Run(cfg, START, actions); var u := s.uses[i];
            && u.count == |Earlier(s.uses, i)| + 1
            && u.call < |s.calls| && u.subject in s.calls[u.call].subjects && s.calls[u.call].consume
            && (u.stage < |s.calls[u.call].decisions| ==>
                  var d := s.calls[u.call].decisions[u.stage];
                  if d.allowed then u.count == 1 || u.count <= cfg.limit
                  else (u.count > 1 && u.count > cfg.limit) || CacheFailed(cfg, d))
  {
    hide Run, Earlier, InWindow;
    StartNumbered(cfg);
    RunKeeps(cfg, START, actions);
    RunNumbers(cfg, START, actions);
    RunDecides(cfg, START, actions);
    var s := Run(cfg, START, actions);
    assert UseOk(cfg, s, s.uses[i]);
    assert Decided(cfg, s.calls[s.uses[i].call], s.uses[i]);
  }

  // ---- Single operations ----

  /** A check lets through exactly where no count is kept, or it is below the limit; it counts nothing. */
  lemma CheckDecides(cfg: Config, s: State, k: nat)
    requires k < |s.calls| && !Finished(s.calls[k]) && s.calls[k].pc == Get
    ensures var c, t := s.calls[k], Operate(cfg, s, k); var x := c.subjects[|c.decisions|];
            && t.uses == s.uses && t.cache == s.cache && t.denials == s.denials
            && (if x !in s.cache.counts || s.cache.counts[x].expires <= s.now || s.cache.counts[x].val < cfg.limit
                then t.calls[k].decisions == c.decisions + [Decision(true, 0, false)]
                else t.calls[k].decisions == c.decisions && t.calls[k].pc.GetReset?)
  {}

  /** The last operation of a refused call answers the wait, and a first denial exactly when it records one. */
  lemma ReportDecides(cfg: Config, s: State, k: nat)
    requires k < |s.calls| && !Finished(s.calls[k]) && s.calls[k].pc.AddDenied?
    ensures var c, t := s.calls[k], Operate(cfg, s, k); var x := c.subjects[|c.decisions|];
            var first := x !in s.cache.denied || s.cache.denied[x] <= s.now;
            && t.calls[k].decisions == c.decisions + [Decision(false, c.pc.retry, first)]
            && |t.denials| == |s.denials| + (if first then 1 else 0)
            && (first ==> t.cache.denied == s.cache.denied[x := s.now + c.pc.retry as real])
  {}

  /** A refused call waits the fewest whole seconds to the reset time it reads, at least one and at most a window. */
  lemma WaitIsLeast(resetAt: Option<real>, clock: real, window: nat, r: int)
    requires window >= 1
    ensures var wait := RetryAfter(resetAt, clock, window);
            && 1 <= wait <= window && (resetAt.None? ==> wait == window)
            && (resetAt.Some? ==>
                  && (wait < window ==> resetAt.value <= clock + wait as real)
                  && (1 <= r < wait ==> clock + r as real < resetAt.value))
  {}

  /** A cache failure after the clock was read answers the current subject, and only it. */
  lemma OutageDecides(cfg: Config, s: State, k: nat)
    requires k < |s.calls|
    ensures var c, t := s.calls[k], Next(cfg, s, Outage(k));
            if |c.decisions| < |c.subjects| && c.pc != Clock
            then t.calls == s.calls[k := c.(pc := Clock,
                                            decisions := c.decisions + [Decision(false, cfg.window, false)])]
                 && t.cache == s.cache && t.uses == s.uses && t.denials == s.denials
            else t == s
  {}
}
