/** How many attempts the limiter lets through, whatever the interleaving. */
module RateLimitProofs {
  import opened Common
  import opened RateLimit

  /** The attempt that opened the window, or one within the limit. */
  predicate Within(cfg: Config, u: Use) { u.count == 1 || u.count <= cfg.limit }

  /** Two uses of a subject are in one window with different places in it, or in windows that do not overlap. */
  predicate Apart(cfg: Config, u: Use, v: Use) {
    u.subject == v.subject ==>
      if u.start == v.start then u.count != v.count
      else u.start + cfg.window as real <= v.start || v.start + cfg.window as real <= u.start
  }

  /** A use is not later than the window of its subject, and in the current one its place is taken. */
  predicate Counts(cfg: Config, u: Use, n: Count) {
    var end := u.start + cfg.window as real;
    if end == n.expires then 1 <= u.count <= n.val else u.count >= 1 && end <= n.expires - cfg.window as real
  }

  /** The call a use belongs to has got past counting it, and lets it through only when it is within the limit. */
  predicate Attributed(cfg: Config, c: Call, u: Use) {
    && u.stage < |c.subjects| && u.subject == c.subjects[u.stage] && c.consume && u.stage <= |c.decisions|
    && (u.stage < |c.decisions| ==> c.decisions[u.stage].allowed ==> Within(cfg, u))
    && (u.stage == |c.decisions| ==> c.pc.AddReset? || c.pc.GetReset? || c.pc.AddDenied?)
    && (u.stage == |c.decisions| && c.pc.AddReset? ==> u.count == 1)
  }

  ghost predicate UseOk(cfg: Config, s: State, u: Use) {
    && u.start <= u.at < u.start + cfg.window as real && u.at <= s.now
    && u.call < |s.calls| && Attributed(cfg, s.calls[u.call], u)
    && u.subject in s.cache.counts && Counts(cfg, u, s.cache.counts[u.subject])
  }

  ghost predicate UsesOk(cfg: Config, s: State) {
    && (forall i | 0 <= i < |s.uses| :: UseOk(cfg, s, s.uses[i]))
    && (forall i, j | 0 <= i < j < |s.uses| :: Apart(cfg, s.uses[i], s.uses[j]))
    && (forall i, j | 0 <= i < j < |s.uses| :: s.uses[i].call != s.uses[j].call || s.uses[i].stage != s.uses[j].stage)
    && (forall x | x in s.cache.counts :: s.cache.counts[x].expires <= s.now + cfg.window as real)
  }

  // ---- Every step keeps the account ----

  /** A call going on without counting keeps the account of what was counted. */
  lemma GoesOn(cfg: Config, s: State, t: State, k: nat, c: Call)
    requires cfg.window >= 1 && UsesOk(cfg, s) && k < |s.calls|
    requires t.now == s.now && t.uses == s.uses && t.cache.counts == s.cache.counts && t.calls == s.calls[k := c]
    requires c.subjects == s.calls[k].subjects && c.consume == s.calls[k].consume
    requires forall i | 0 <= i < |s.uses| && s.uses[i].call == k :: Attributed(cfg, c, s.uses[i])
    ensures UsesOk(cfg, t)
  {
    forall i | 0 <= i < |t.uses| ensures UseOk(cfg, t, t.uses[i]) {
      assert UseOk(cfg, s, s.uses[i]);
    }
    hide Apart, Attributed, Counts;
  }

  /** Counting one more attempt: its place is new in the window, and a new window starts after the last one ended. */
  lemma CountsOneMore(cfg: Config, s: State, t: State, k: nat, c: Call, n: Count)
    requires cfg.window >= 1 && UsesOk(cfg, s) && k < |s.calls| && !Finished(s.calls[k])
    requires s.calls[k].pc.Add? || s.calls[k].pc.Incr?
    requires c.subjects == s.calls[k].subjects && c.consume && s.calls[k].consume
    requires var x := Subject(s.calls[k]); var w := cfg.window as real;
             && t.now == s.now && t.cache.counts == s.cache.counts[x := n] && t.calls == s.calls[k := c]
             && t.uses == s.uses + [Use(k, |s.calls[k].decisions|, x, s.now, n.val, n.expires - w)]
             && (match CountAlive(s, x) case None => n == Count(1, s.now + w)
                 case Some(m) => n == Count(m.val + 1, m.expires))
    requires Attributed(cfg, c, t.uses[|s.uses|])
    requires forall i | 0 <= i < |s.uses| && s.uses[i].call == k :: Attributed(cfg, c, s.uses[i])
    ensures UsesOk(cfg, t)
  {
    var x := Subject(s.calls[k]);
    var u := t.uses[|s.uses|];
    forall i | 0 <= i < |s.uses|
      ensures UseOk(cfg, t, s.uses[i]) && Apart(cfg, s.uses[i], u)
              && (s.uses[i].call != u.call || s.uses[i].stage != u.stage)
    {
      assert UseOk(cfg, s, s.uses[i]);
    }
    assert Counts(cfg, u, n);
    assert UseOk(cfg, t, u);
    forall i | 0 <= i < |t.uses| ensures UseOk(cfg, t, t.uses[i]) {
      if i < |s.uses| { assert t.uses[i] == s.uses[i]; }
    }
    hide UseOk, Apart, Attributed, Counts;
  }

  /** Going on with its call, a use stays attributed to it. */
  lemma StaysAttributed(cfg: Config, s: State, k: nat, u: Use)
    requires k < |s.calls| && !Finished(s.calls[k]) && CallOk(s.calls[k]) && Attributed(cfg, s.calls[k], u)
    ensures Attributed(cfg, Operate(cfg, s, k).calls[k], u)
  {}

  /** What an operation changes besides its own call: nothing that counts, or one more use. */
  lemma CountsOrNot(cfg: Config, s: State, k: nat)
    requires k < |s.calls| && !Finished(s.calls[k])
    ensures var c, t := s.calls[k], Operate(cfg, s, k); var x := Subject(c);
            && t.now == s.now && t.calls == s.calls[k := t.calls[k]]
            && t.calls[k].subjects == c.subjects && t.calls[k].consume == c.consume
            && if t.uses == s.uses then t.cache.counts == s.cache.counts
               else
                 && (c.pc.Add? || c.pc.Incr?) && x in t.cache.counts
                 && var n := t.cache.counts[x];
                    var u := Use(k, |c.decisions|, x, s.now, n.val, n.expires - cfg.window as real);
                    && t.cache.counts == s.cache.counts[x := n] && t.uses == s.uses + [u]
                    && match CountAlive(s, x)
                       case None => n == Count(1, s.now + cfg.window as real)
                       case Some(m) => n == Count(m.val + 1, m.expires)
  {}

  /** The use an operation adds is attributed to its call. */
  lemma NewAttributed(cfg: Config, s: State, k: nat)
    requires k < |s.calls| && !Finished(s.calls[k]) && CallOk(s.calls[k]) && Operate(cfg, s, k).uses != s.uses
    ensures var t := Operate(cfg, s, k); |t.uses| == |s.uses| + 1 && Attributed(cfg, t.calls[k], t.uses[|s.uses|])
  {}

  lemma OperateKeeps(cfg: Config, s: State, k: nat)
    requires cfg.window >= 1 && UsesOk(cfg, s) && k < |s.calls| && CallOk(s.calls[k])
    ensures UsesOk(cfg, Operate(cfg, s, k))
  {
    var c := s.calls[k];
    var t := Operate(cfg, s, k);
    if !Finished(c) {
      var d := t.calls[k];
      CountsOrNot(cfg, s, k);
      forall i | 0 <= i < |s.uses| && s.uses[i].call == k ensures Attributed(cfg, d, s.uses[i]) {
        assert UseOk(cfg, s, s.uses[i]);
        StaysAttributed(cfg, s, k, s.uses[i]);
      }
      hide Operate, UsesOk, Attributed;
      if t.uses == s.uses {
        GoesOn(cfg, s, t, k, d);
      } else {
        NewAttributed(cfg, s, k);
        CountsOneMore(cfg, s, t, k, d, t.cache.counts[Subject(c)]);
      }
    }
  }

  /** A counting call is at a counting step, a checking one is not. */
  predicate CallOk(c: Call) {
    && (c.pc.Add? || c.pc.AddReset? || c.pc.Incr? ==> c.consume)
    && (c.pc.Get? ==> !c.consume)
    && |c.decisions| <= |c.subjects|
  }

  ghost predicate StateOk(cfg: Config, s: State) {
    UsesOk(cfg, s) && forall k | 0 <= k < |s.calls| :: CallOk(s.calls[k])
  }

  lemma NextKeeps(cfg: Config, s: State, a: Action)
    requires cfg.window >= 1 && StateOk(cfg, s)
    ensures StateOk(cfg, Next(cfg, s, a))
  {
    hide StateOk, Operate;
    var t := Next(cfg, s, a);
    match a
    case Tick(_) => OthersKeep(cfg, s, t);
    case Arrive(_, _, _) => OthersKeep(cfg, s, t);
    case Operation(k) => if k < |s.calls| { OperationKeeps(cfg, s, k); }
    case Outage(k) => if t != s { OutageKeeps(cfg, s, k); }
  }

  lemma OperationKeeps(cfg: Config, s: State, k: nat)
    requires cfg.window >= 1 && StateOk(cfg, s) && k < |s.calls|
    ensures StateOk(cfg, Operate(cfg, s, k))
  {
    var t := Operate(cfg, s, k);
    OperateKeeps(cfg, s, k);
    CallStaysOk(cfg, s, k);
    if !Finished(s.calls[k]) { CountsOrNot(cfg, s, k); }
    hide UsesOk, CallOk;
  }

  lemma CallStaysOk(cfg: Config, s: State, k: nat)
    requires k < |s.calls| && CallOk(s.calls[k])
    ensures CallOk(Operate(cfg, s, k).calls[k])
  {}

  lemma OutageKeeps(cfg: Config, s: State, k: nat)
    requires cfg.window >= 1 && StateOk(cfg, s) && k < |s.calls| && Next(cfg, s, Outage(k)) != s
    ensures StateOk(cfg, Next(cfg, s, Outage(k)))
  {
    var t := Next(cfg, s, Outage(k));
    forall i | 0 <= i < |s.uses| && s.uses[i].call == k ensures Attributed(cfg, t.calls[k], s.uses[i]) {
      assert UseOk(cfg, s, s.uses[i]);
    }
    GoesOn(cfg, s, t, k, t.calls[k]);
    hide UsesOk;
  }

  lemma OthersKeep(cfg: Config, s: State, t: State)
    requires StateOk(cfg, s) && s.now <= t.now && t.cache == s.cache && t.uses == s.uses
    requires |s.calls| <= |t.calls| && t.calls[..|s.calls|] == s.calls
             && forall k | |s.calls| <= k < |t.calls| :: CallOk(t.calls[k])
    ensures StateOk(cfg, t)
  {
    forall k | 0 <= k < |s.calls| ensures t.calls[k] == s.calls[k] { assert t.calls[..|s.calls|][k] == t.calls[k]; }
    forall i | 0 <= i < |s.uses| ensures UseOk(cfg, t, t.uses[i]) { assert UseOk(cfg, s, s.uses[i]); }
    hide UseOk, CallOk, Apart;
  }

  lemma {:induction false} RunKeeps(cfg: Config, s: State, actions: seq<Action>)
    requires cfg.window >= 1 && StateOk(cfg, s)
    ensures StateOk(cfg, Run(cfg, s, actions))
    decreases |actions|
  {
    if actions != [] {
      NextKeeps(cfg, s, actions[0]);
      RunKeeps(cfg, Next(cfg, s, actions[0]), actions[1..]);
    }
    hide StateOk, Next;
  }

  // ---- The bound ----

  /** Attempts for a subject that a call let through and that were counted in a stretch of time. */
  ghost function LetThrough(s: State, x: string, from: real, to: real): set<nat> {
    set i: nat | i < |s.uses| && s.uses[i].subject == x && from <= s.uses[i].at < to && Passed(s, s.uses[i])
  }

  predicate Passed(s: State, u: Use) {
    u.call < |s.calls| && u.stage < |s.calls[u.call].decisions| && s.calls[u.call].decisions[u.stage].allowed
  }

  /** Numbers below a bound that are all different are not more than the bound. */
  lemma {:induction false} Pigeonhole(uses: seq<Use>, ids: set<nat>, bound: nat)
    requires forall i | i in ids :: i < |uses| && 1 <= uses[i].count <= bound
    requires forall i, j | i in ids && j in ids && i != j :: uses[i].count != uses[j].count
    ensures |ids| <= bound
    decreases bound
  {
    if ids != {} {
      if i :| i in ids && uses[i].count == bound {
        assert forall j | j in ids - {i} :: uses[j].count != bound;
        Pigeonhole(uses, ids - {i}, bound - 1);
      } else {
        Pigeonhole(uses, ids, bound - 1);
      }
    }
  }

  /** In one window, however long it is looked at, at most the limit (and always the first) get through. */
  lemma OneWindow(cfg: Config, s: State, ids: set<nat>)
    requires StateOk(cfg, s)
    requires forall i | i in ids :: i < |s.uses| && Passed(s, s.uses[i])
    requires forall i, j | i in ids && j in ids :: SameWindow(s.uses[i], s.uses[j])
    ensures |ids| <= Max(1, cfg.limit)
  {
    forall i | i in ids ensures 1 <= s.uses[i].count <= Max(1, cfg.limit) {
      assert UseOk(cfg, s, s.uses[i]);
      assert Within(cfg, s.uses[i]);
    }
    forall i, j | i in ids && j in ids && i != j ensures s.uses[i].count != s.uses[j].count {
      assert SameWindow(s.uses[i], s.uses[j]);
      if i < j { assert Apart(cfg, s.uses[i], s.uses[j]); } else { assert Apart(cfg, s.uses[j], s.uses[i]); }
    }
    hide StateOk, UsesOk, UseOk;
    Pigeonhole(s.uses, ids, Max(1, cfg.limit));
  }

  predicate SameWindow(u: Use, v: Use) { u.subject == v.subject && u.start == v.start }

  /**
   * In any stretch as long as a window, at most twice the limit get through: it touches at most two windows. A limit
   * below one still lets the attempt through that opens a window.
   */
  lemma AnyStretch(cfg: Config, actions: seq<Action>, x: string, from: real)
    requires cfg.window >= 1
    ensures |LetThrough(Run(cfg, START, actions), x, from, from + cfg.window as real)| <= 2 * Max(1, cfg.limit)
  {
    RunKeeps(cfg, START, actions);
    StretchBound(cfg, Run(cfg, START, actions), x, from);
    hide *;
  }

  lemma StretchBound(cfg: Config, s: State, x: string, from: real)
    requires StateOk(cfg, s)
    ensures |LetThrough(s, x, from, from + cfg.window as real)| <= 2 * Max(1, cfg.limit)
  {
    var w := cfg.window as real;
    var all := LetThrough(s, x, from, from + w);
    forall j | j in all ensures StartsIn(cfg, s, j, x, from) { TwoUses(cfg, s, j, j); }
    hide StateOk, LetThrough;
    var early := set j | j in all && s.uses[j].start <= from;
    EarlyAndLate(cfg, s, all, early, x, from);
  }

  predicate StartsIn(cfg: Config, s: State, j: nat, x: string, from: real) {
    && j < |s.uses| && Passed(s, s.uses[j]) && s.uses[j].subject == x
    && from - cfg.window as real < s.uses[j].start < from + cfg.window as real
  }

  lemma EarlyAndLate(cfg: Config, s: State, all: set<nat>, early: set<nat>, x: string, from: real)
    requires StateOk(cfg, s) && early <= all
    requires forall j | j in all :: StartsIn(cfg, s, j, x, from) && (j in early <==> s.uses[j].start <= from)
    ensures |all| <= 2 * Max(1, cfg.limit)
  {
    hide StateOk, Passed;
    OneStretch(cfg, s, early, x, from - cfg.window as real);
    OneStretch(cfg, s, all - early, x, from);
  }

  /** Windows that start in a stretch no longer than a window are one and the same. */
  lemma OneStretch(cfg: Config, s: State, ids: set<nat>, x: string, lo: real)
    requires StateOk(cfg, s)
    requires forall i | i in ids ::
             i < |s.uses| && Passed(s, s.uses[i]) && s.uses[i].subject == x
               && lo < s.uses[i].start <= lo + cfg.window as real
    ensures |ids| <= Max(1, cfg.limit)
  {
    forall j, k | j in ids && k in ids ensures SameWindow(s.uses[j], s.uses[k]) { TwoUses(cfg, s, j, k); }
    OneWindow(cfg, s, ids);
    hide StateOk, Passed;
  }

  lemma TwoUses(cfg: Config, s: State, j: nat, k: nat)
    requires StateOk(cfg, s) && j < |s.uses| && k < |s.uses|
    ensures s.uses[j].start <= s.uses[j].at < s.uses[j].start + cfg.window as real
    ensures s.uses[k].start <= s.uses[k].at < s.uses[k].start + cfg.window as real
    ensures s.uses[j].subject == s.uses[k].subject ==>
              s.uses[j].start == s.uses[k].start || s.uses[j].start + cfg.window as real <= s.uses[k].start
              || s.uses[k].start + cfg.window as real <= s.uses[j].start
  {
    assert UseOk(cfg, s, s.uses[j]) && UseOk(cfg, s, s.uses[k]);
    if j < k { assert Apart(cfg, s.uses[j], s.uses[k]); }
    if k < j { assert Apart(cfg, s.uses[k], s.uses[j]); }
  }

  // ---- What an answer means ----

  /** The call counted an attempt for the subject at this stage. */
  ghost predicate Witnessed(s: State, k: nat, stage: nat) {
    exists i: nat :: i < |s.uses| && s.uses[i].call == k && s.uses[i].stage == stage
  }

  /** Every wait is at least a second and at most the window, and only counted attempts are let through. */
  ghost predicate AnswersOk(cfg: Config, s: State, k: nat)
    requires k < |s.calls|
  {
    var c := s.calls[k];
    && (forall j | 0 <= j < |c.decisions| :: DecisionOk(cfg, c.decisions[j]))
    && (c.pc.AddDenied? ==> 1 <= c.pc.retry <= cfg.window)
    && (c.consume ==> forall j: nat | j < |c.decisions| && c.decisions[j].allowed :: Witnessed(s, k, j))
    && (c.pc.AddReset? ==> Witnessed(s, k, |c.decisions|))
  }

  predicate DecisionOk(cfg: Config, d: Decision) {
    if d.allowed then d.retryAfter == 0 else 1 <= d.retryAfter <= cfg.window
  }

  ghost predicate AllAnswersOk(cfg: Config, s: State) {
    forall k | 0 <= k < |s.calls| :: AnswersOk(cfg, s, k)
  }

  lemma WitnessStays(s: State, t: State, k: nat, stage: nat)
    requires Witnessed(s, k, stage) && |s.uses| <= |t.uses| && t.uses[..|s.uses|] == s.uses
    ensures Witnessed(t, k, stage)
  {
    var i: nat :| i < |s.uses| && s.uses[i].call == k && s.uses[i].stage == stage;
    assert t.uses[i] == t.uses[..|s.uses|][i];
  }

  lemma AnswersStay(cfg: Config, s: State, t: State, k: nat)
    requires k < |s.calls| && AnswersOk(cfg, s, k) && |s.uses| <= |t.uses| && t.uses[..|s.uses|] == s.uses
    requires k < |t.calls| && t.calls[k] == s.calls[k]
    ensures AnswersOk(cfg, t, k)
  {
    var c := s.calls[k];
    forall j: nat | c.consume && j < |c.decisions| && c.decisions[j].allowed ensures Witnessed(t, k, j) {
      WitnessStays(s, t, k, j);
    }
    if c.pc.AddReset? { WitnessStays(s, t, k, |c.decisions|); }
    hide Witnessed;
  }

  lemma AnswerGiven(cfg: Config, s: State, k: nat)
    requires cfg.window >= 1 && k < |s.calls| && CallOk(s.calls[k]) && AnswersOk(cfg, s, k)
    ensures var t := Operate(cfg, s, k); |s.uses| <= |t.uses| && t.uses[..|s.uses|] == s.uses && AnswersOk(cfg, t, k)
  {
    var c, t := s.calls[k], Operate(cfg, s, k);
    if !Finished(c) {
      if |t.uses| > |s.uses| { assert t.uses[|s.uses|].call == k && t.uses[|s.uses|].stage == |c.decisions|; }
      var d := t.calls[k];
      forall j: nat | c.consume && j < |c.decisions| && c.decisions[j].allowed ensures Witnessed(t, k, j) {
        WitnessStays(s, t, k, j);
      }
      if c.pc.AddReset? { WitnessStays(s, t, k, |c.decisions|); }
    }
  }

  lemma NextAnswers(cfg: Config, s: State, a: Action)
    requires cfg.window >= 1 && StateOk(cfg, s) && AllAnswersOk(cfg, s)
    ensures AllAnswersOk(cfg, Next(cfg, s, a))
  {
    var t := Next(cfg, s, a);
    var who := match a case Operation(k) => k case Outage(k) => k case _ => |s.calls|;
    if a.Operation? && who < |s.calls| { AnswerGiven(cfg, s, who); }
    assert |s.uses| <= |t.uses| && t.uses[..|s.uses|] == s.uses;
    forall k | 0 <= k < |t.calls| ensures AnswersOk(cfg, t, k) {
      if k < |s.calls| { assert AnswersOk(cfg, s, k); }
      if k < |s.calls| && t.calls[k] == s.calls[k] {
        AnswersStay(cfg, s, t, k);
      } else if a.Outage? {
        forall j: nat | s.calls[k].consume && j < |s.calls[k].decisions| && s.calls[k].decisions[j].allowed
          ensures Witnessed(t, k, j)
        {
          WitnessStays(s, t, k, j);
        }
      }
    }
  }

  lemma {:induction false} RunAnswers(cfg: Config, s: State, actions: seq<Action>)
    requires cfg.window >= 1 && StateOk(cfg, s) && AllAnswersOk(cfg, s)
    ensures AllAnswersOk(cfg, Run(cfg, s, actions))
    decreases |actions|
  {
    if actions != [] {
      NextKeeps(cfg, s, actions[0]);
      NextAnswers(cfg, s, actions[0]);
      RunAnswers(cfg, Next(cfg, s, actions[0]), actions[1..]);
    }
    hide StateOk, AllAnswersOk, Next;
  }

  /** The attempt counted for a subject, within its limit. */
  ghost predicate CountedWithin(cfg: Config, s: State, k: nat, stage: nat, x: string) {
    exists i: nat :: i < |s.uses| && s.uses[i].call == k && s.uses[i].stage == stage && s.uses[i].subject == x
      && Within(cfg, s.uses[i])
  }

  /**
   * An allowed attempt was counted once for the client and once for the account, within the limit both times; a refused
   * one is told to wait between a second and the window.
   */
  lemma AnswerMeans(cfg: Config, actions: seq<Action>, k: nat)
    requires cfg.window >= 1 && k < |Run(cfg, START, actions).calls|
    requires var c := Run(cfg, START, actions).calls[k]; c.consume && Finished(c)
    ensures var s := Run(cfg, START, actions); var c := s.calls[k]; var d := Merged(c.decisions);
            if d.allowed then forall j: nat | j < |c.subjects| :: CountedWithin(cfg, s, k, j, c.subjects[j])
            else 1 <= d.retryAfter <= cfg.window
  {
    var s := Run(cfg, START, actions);
    RunKeeps(cfg, START, actions);
    RunAnswers(cfg, START, actions);
    var c := s.calls[k];
    assert AnswersOk(cfg, s, k) && CallOk(c);
    MergedMeans(c.decisions);
    if Merged(c.decisions).allowed {
      forall j: nat | j < |c.subjects| ensures CountedWithin(cfg, s, k, j, c.subjects[j]) {
        assert Witnessed(s, k, j);
        var i: nat :| i < |s.uses| && s.uses[i].call == k && s.uses[i].stage == j;
        assert UseOk(cfg, s, s.uses[i]);
      }
    }
    hide Run, Merged, Within;
  }
}
