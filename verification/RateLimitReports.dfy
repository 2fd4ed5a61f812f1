/** When a denial is reported again: what separates two reports, and from which states a window can see another one. */
module RateLimitReports {
  import opened Common
  import opened RateLimit

  function End(cfg: Config, d: Denial): real { d.start + cfg.window as real }

  /** Refused, and not yet at the end of its last operation, the one that reports. */
  predicate Refused(c: Call) { !Finished(c) && (c.pc.GetReset? || c.pc.AddDenied?) }

  predicate RefusedIn(c: Call, d: Denial) { Refused(c) && Subject(c) == d.subject && c.pc.start == d.start }

  // ---- Every state of every run ----

  /** A window that refused is the current one and has used up its limit, or ended before the current one began. */
  predicate WindowStands(cfg: Config, s: State, x: string, start: real) {
    var end := start + cfg.window as real;
    && x in s.cache.counts
    && (if end == s.cache.counts[x].expires then s.cache.counts[x].val >= cfg.limit
        else end <= s.cache.counts[x].expires - cfg.window as real)
  }

  predicate RefusalOk(cfg: Config, s: State, c: Call) {
    Refused(c) ==> WindowStands(cfg, s, Subject(c), c.pc.start) && (c.pc.AddDenied? ==> c.pc.retry >= 1)
  }

  predicate MarkOk(cfg: Config, s: State, d: Denial) {
    && WindowStands(cfg, s, d.subject, d.start)
    && d.subject in s.cache.denied && d.until <= s.cache.denied[d.subject]
  }

  /** A later report of a subject comes only when the earlier one is no longer remembered. */
  ghost predicate Spaced(ds: seq<Denial>) {
    forall i, j | 0 <= i < j < |ds| && ds[i].subject == ds[j].subject :: ds[i].until <= ds[j].at
  }

  /** The report at `i` is the subject's latest. */
  ghost predicate Latest(ds: seq<Denial>, i: nat)
    requires i < |ds|
  {
    forall j | i < j < |ds| :: ds[j].subject != ds[i].subject
  }

  /** What the cache remembers of a subject is its latest report. */
  ghost predicate LatestRemembered(s: State) {
    forall i: nat | i < |s.denials| && Latest(s.denials, i) ::
      s.denials[i].subject in s.cache.denied && s.cache.denied[s.denials[i].subject] == s.denials[i].until
  }

  ghost predicate ReportsOk(cfg: Config, s: State) {
    && (forall x | x in s.cache.counts :: s.cache.counts[x].expires <= s.now + cfg.window as real)
    && (forall k | 0 <= k < |s.calls| :: RefusalOk(cfg, s, s.calls[k]))
    && (forall i | 0 <= i < |s.denials| :: MarkOk(cfg, s, s.denials[i]))
    && Spaced(s.denials)
    && LatestRemembered(s)
  }

  lemma WindowsStand(cfg: Config, s: State, k: nat, x: string, start: real)
    requires cfg.window >= 1 && ReportsOk(cfg, s) && k < |s.calls| && WindowStands(cfg, s, x, start)
    ensures WindowStands(cfg, Operate(cfg, s, k), x, start)
  {}

  lemma OwnRefusalOk(cfg: Config, s: State, k: nat)
    requires cfg.window >= 1 && ReportsOk(cfg, s) && k < |s.calls|
    ensures RefusalOk(cfg, Operate(cfg, s, k), Operate(cfg, s, k).calls[k])
  {
    assert RefusalOk(cfg, s, s.calls[k]);
  }

  /** What one operation does to the reports: none, or one more where no report of the subject is remembered. */
  lemma ReportMade(cfg: Config, s: State, k: nat)
    requires k < |s.calls|
    ensures var t := Operate(cfg, s, k);
            && t.now == s.now
            && (forall j | 0 <= j < |s.calls| && j != k :: t.calls[j] == s.calls[j])
            && (t.denials != s.denials || t.cache.denied != s.cache.denied ==>
                  var c := s.calls[k];
                  && Refused(c) && c.pc.AddDenied? && !DeniedAlive(s, Subject(c)) && t.cache.counts == s.cache.counts
                  && t.denials == s.denials + [Denial(Subject(c), s.now, c.pc.start, s.now + c.pc.retry as real)]
                  && t.cache.denied == s.cache.denied[Subject(c) := s.now + c.pc.retry as real])
  {}

  lemma CountsStay(cfg: Config, s: State, k: nat)
    requires ReportsOk(cfg, s) && k < |s.calls|
    ensures var t := Operate(cfg, s, k);
            forall x | x in t.cache.counts :: t.cache.counts[x].expires <= t.now + cfg.window as real
  {}

  lemma LatestStays(cfg: Config, s: State, k: nat)
    requires LatestRemembered(s) && k < |s.calls|
    ensures LatestRemembered(Operate(cfg, s, k))
  {
    var c, t := s.calls[k], Operate(cfg, s, k);
    ReportMade(cfg, s, k);
    hide Operate;
    forall i: nat | i < |t.denials| && Latest(t.denials, i)
      ensures t.denials[i].subject in t.cache.denied && t.cache.denied[t.denials[i].subject] == t.denials[i].until
    {
      if i < |s.denials| {
        assert forall j | i < j < |s.denials| :: t.denials[j] == s.denials[j];
        assert Latest(s.denials, i);
        if t.denials != s.denials { assert t.denials[|s.denials|].subject != t.denials[i].subject; }
      }
    }
  }

  lemma OperateKeeps(cfg: Config, s: State, k: nat)
    requires cfg.window >= 1 && ReportsOk(cfg, s) && k < |s.calls|
    ensures ReportsOk(cfg, Operate(cfg, s, k))
  {
    var c, t := s.calls[k], Operate(cfg, s, k);
    CountsStay(cfg, s, k);
    OwnRefusalOk(cfg, s, k);
    LatestStays(cfg, s, k);
    ReportMade(cfg, s, k);
    assert RefusalOk(cfg, s, c);
    hide Operate, Finished, LatestRemembered;
    forall j | 0 <= j < |t.calls| ensures RefusalOk(cfg, t, t.calls[j]) {
      if j != k && Refused(s.calls[j]) {
        assert RefusalOk(cfg, s, s.calls[j]);
        WindowsStand(cfg, s, k, Subject(s.calls[j]), s.calls[j].pc.start);
      }
    }
    forall i | 0 <= i < |t.denials| ensures MarkOk(cfg, t, t.denials[i]) {
      if i < |s.denials| {
        assert MarkOk(cfg, s, s.denials[i]);
        WindowsStand(cfg, s, k, s.denials[i].subject, s.denials[i].start);
      }
    }
    forall i | 0 <= i < |s.denials| && t.denials != s.denials && s.denials[i].subject == Subject(c)
      ensures s.denials[i].until <= s.now
    {
      assert MarkOk(cfg, s, s.denials[i]);
    }
  }

  lemma NextKeeps(cfg: Config, s: State, a: Action)
    requires cfg.window >= 1 && ReportsOk(cfg, s)
    ensures ReportsOk(cfg, Next(cfg, s, a))
  {
    if a.Operation? && a.call < |s.calls| {
      OperateKeeps(cfg, s, a.call);
    } else {
      var t := Next(cfg, s, a);
      forall k | 0 <= k < |t.calls| ensures RefusalOk(cfg, t, t.calls[k]) {
        if k < |s.calls| { assert RefusalOk(cfg, s, s.calls[k]); }
      }
      forall i | 0 <= i < |t.denials| ensures MarkOk(cfg, t, t.denials[i]) { assert MarkOk(cfg, s, s.denials[i]); }
    }
  }

  lemma {:induction false} RunKeeps(cfg: Config, s: State, actions: seq<Action>)
    requires cfg.window >= 1 && ReportsOk(cfg, s)
    ensures ReportsOk(cfg, Run(cfg, s, actions))
    decreases |actions|
  {
    hide ReportsOk, Next;
    if actions != [] {
      NextKeeps(cfg, s, actions[0]);
      RunKeeps(cfg, Next(cfg, s, actions[0]), actions[1..]);
    }
  }

  /**
   * However calls interleave and however slow they are, two reports of a subject are apart by the first one's memory.
   */
  lemma ReportsAreSpaced(cfg: Config, actions: seq<Action>)
    requires cfg.window >= 1
    ensures Spaced(Run(cfg, START, actions).denials)
  {
    hide Run;
    RunKeeps(cfg, START, actions);
  }

  /** No two denials of a subject in the same window. */
  ghost predicate Reported(ds: seq<Denial>) {
    forall i, j | 0 <= i < j < |ds| :: ds[i].subject != ds[j].subject || ds[i].start != ds[j].start
  }

  /** Remembered to the end of its window, and reported before that. */
  predicate Timely(cfg: Config, d: Denial) { d.at < End(cfg, d) <= d.until }

  /**
   * A window is reported twice only if its first report was remembered for too short a time or its second came after
   * the window was over.
   */
  lemma TimelyReportsAreSingle(cfg: Config, actions: seq<Action>)
    requires cfg.window >= 1
    ensures var ds := Run(cfg, START, actions).denials;
            && (forall i, j | 0 <= i < j < |ds| && ds[i].subject == ds[j].subject && ds[i].start == ds[j].start ::
                  ds[i].until < End(cfg, ds[i]) || End(cfg, ds[j]) <= ds[j].at)
            && ((forall d | d in ds :: Timely(cfg, d)) ==> Reported(ds))
  {
    hide Run;
    ReportsAreSpaced(cfg, actions);
    var ds := Run(cfg, START, actions).denials;
    if forall d | d in ds :: Timely(cfg, d) {
      forall i, j | 0 <= i < j < |ds| && ds[i].subject == ds[j].subject ensures ds[i].start != ds[j].start {
        assert Timely(cfg, ds[i]) && Timely(cfg, ds[j]);
      }
    }
  }

  // ---- Which states can see a window reported again ----

  /** The state reached after a further run holds one more report of the window of `d`. */
  ghost predicate Again(s: State, t: State, d: Denial) {
    exists i | |s.denials| <= i < |t.denials| :: t.denials[i].subject == d.subject && t.denials[i].start == d.start
  }

  /** A refused call of the window has yet to do the operation that reports. */
  ghost predicate Underway(s: State, d: Denial) { exists k | 0 <= k < |s.calls| :: RefusedIn(s.calls[k], d) }

  /** No refused call reports after its window is over. */
  predicate OnTime(cfg: Config, s: State, actions: seq<Action>)
    decreases |actions|
  {
    actions == [] || (!Late(cfg, s, actions[0]) && OnTime(cfg, Next(cfg, s, actions[0]), actions[1..]))
  }

  predicate Late(cfg: Config, s: State, a: Action) {
    && a.Operation? && a.call < |s.calls| && Refused(s.calls[a.call]) && s.calls[a.call].pc.AddDenied?
    && s.calls[a.call].pc.start + cfg.window as real <= s.now
  }

  /** The window is over and none of its refused calls is underway. */
  ghost predicate Settled(cfg: Config, s: State, d: Denial) { End(cfg, d) <= s.now && !Underway(s, d) }

  /** After its window is over, no call comes to be refused in it. */
  lemma NoneRefusedLate(cfg: Config, s: State, k: nat, d: Denial)
    requires cfg.window >= 1 && End(cfg, d) <= s.now && k < |s.calls| && !RefusedIn(s.calls[k], d)
    ensures !RefusedIn(Operate(cfg, s, k).calls[k], d)
  {}

  lemma NextSettled(cfg: Config, s: State, a: Action, d: Denial)
    requires cfg.window >= 1 && Settled(cfg, s, d)
    ensures var t := Next(cfg, s, a); Settled(cfg, t, d) && s.denials <= t.denials && !Again(s, t, d)
  {
    var t := Next(cfg, s, a);
    if a.Operation? && a.call < |s.calls| {
      NoneRefusedLate(cfg, s, a.call, d);
      ReportMade(cfg, s, a.call);
      assert !RefusedIn(s.calls[a.call], d);
    }
    hide Operate;
    forall k | 0 <= k < |t.calls| ensures !RefusedIn(t.calls[k], d) {
      if k < |s.calls| { assert !RefusedIn(s.calls[k], d); }
    }
  }

  lemma AgainSplits(s: State, t: State, u: State, d: Denial)
    requires s.denials <= t.denials <= u.denials && !Again(s, t, d) && !Again(t, u, d)
    ensures !Again(s, u, d)
  {
    forall i | |s.denials| <= i < |u.denials|
      ensures u.denials[i].subject != d.subject || u.denials[i].start != d.start
    {
      if i < |t.denials| { assert u.denials[i] == t.denials[i]; }
    }
  }

  lemma {:induction false} SettledStays(cfg: Config, s: State, actions: seq<Action>, d: Denial)
    requires cfg.window >= 1 && Settled(cfg, s, d)
    ensures var t := Run(cfg, s, actions); s.denials <= t.denials && !Again(s, t, d)
    decreases |actions|
  {
    hide Next, Settled;
    if actions != [] {
      var t := Next(cfg, s, actions[0]);
      NextSettled(cfg, s, actions[0], d);
      SettledStays(cfg, t, actions[1..], d);
      AgainSplits(s, t, Run(cfg, t, actions[1..]), d);
    }
  }

  /** The subject's report is remembered to the end of the window, or the window is over. */
  predicate Remembered(cfg: Config, s: State, d: Denial) {
    d.subject in s.cache.denied && (End(cfg, d) <= s.now || End(cfg, d) <= s.cache.denied[d.subject])
  }

  lemma NextRemembered(cfg: Config, s: State, a: Action, d: Denial)
    requires cfg.window >= 1 && Remembered(cfg, s, d) && !Late(cfg, s, a)
    ensures var t := Next(cfg, s, a); Remembered(cfg, t, d) && s.denials <= t.denials && !Again(s, t, d)
  {
    if a.Operation? && a.call < |s.calls| {
      ReportMade(cfg, s, a.call);
      hide Operate;
    }
  }

  lemma {:induction false} RememberedStays(cfg: Config, s: State, actions: seq<Action>, d: Denial)
    requires cfg.window >= 1 && Remembered(cfg, s, d) && OnTime(cfg, s, actions)
    ensures var t := Run(cfg, s, actions); s.denials <= t.denials && !Again(s, t, d)
    decreases |actions|
  {
    hide Next, Remembered, Late;
    if actions != [] {
      var t := Next(cfg, s, actions[0]);
      NextRemembered(cfg, s, actions[0], d);
      RememberedStays(cfg, t, actions[1..], d);
      AgainSplits(s, t, Run(cfg, t, actions[1..]), d);
    }
  }

  // ---- The runs that report again ----

  /** How long until no report of the subject is remembered. */
  function Wait(s: State, x: string): real {
    if DeniedAlive(s, x) then s.cache.denied[x] - s.now else 0.0
  }

  /** A refused call at its last operation that pauses until the earlier report is forgotten. */
  lemma WaitReports(cfg: Config, s: State, k: nat, d: Denial)
    requires k < |s.calls| && RefusedIn(s.calls[k], d) && s.calls[k].pc.AddDenied?
    ensures Again(s, Run(cfg, s, [Tick(Wait(s, d.subject)), Operation(k)]), d)
  {
    var t := Next(cfg, s, Tick(Wait(s, d.subject)));
    var u := Next(cfg, t, Operation(k));
    RunTwo(cfg, s, Tick(Wait(s, d.subject)), Operation(k));
    hide Run;
    assert u.denials[|s.denials|].subject == d.subject;
  }

  /** A refused call reads its reset time, if it has not yet, and then pauses. */
  lemma UnderwayReports(cfg: Config, s: State, k: nat, d: Denial) returns (actions: seq<Action>)
    requires k < |s.calls| && RefusedIn(s.calls[k], d)
    ensures Again(s, Run(cfg, s, actions), d)
  {
    if s.calls[k].pc.AddDenied? {
      WaitReports(cfg, s, k, d);
      actions := [Tick(Wait(s, d.subject)), Operation(k)];
    } else {
      var t := Next(cfg, s, Operation(k));
      WaitReports(cfg, t, k, d);
      actions := [Operation(k)] + [Tick(Wait(t, d.subject)), Operation(k)];
      hide Run;
      RunOne(cfg, s, Operation(k));
      RunConcat(cfg, s, [Operation(k)], [Tick(Wait(t, d.subject)), Operation(k)]);
    }
  }

  /** A new call that only asks, of which the subject is the client, up to where it is about to report. */
  function Asking(s: State, x: string): seq<Action> {
    [Arrive(x, x, false), Operation(|s.calls|)] + [Operation(|s.calls|), Operation(|s.calls|)]
  }

  /** While the window is open such a call is refused, in no time. */
  lemma AskingIsRefused(cfg: Config, s: State, d: Denial)
    requires cfg.window >= 1 && ReportsOk(cfg, s) && d in s.denials && s.now < End(cfg, d)
    ensures var t := Run(cfg, s, Asking(s, d.subject)); var k := |s.calls|;
            && t.now == s.now && t.cache == s.cache && t.denials == s.denials
            && |t.calls| == k + 1 && RefusedIn(t.calls[k], d) && t.calls[k].pc.AddDenied?
  {
    var k, x := |s.calls|, d.subject;
    assert MarkOk(cfg, s, d);
    var a := Next(cfg, s, Arrive(x, x, false));
    var b := Next(cfg, a, Operation(k));
    assert b.calls[k] == Call([x, x], false, s.now, Get, []) && b == s.(calls := b.calls);
    var c := Next(cfg, b, Operation(k));
    assert CountAlive(b, x) == Some(s.cache.counts[x]);
    assert c.calls[k] == Call([x, x], false, s.now, GetReset(d.start), []) && c == s.(calls := c.calls);
    var e := Next(cfg, c, Operation(k));
    assert e == s.(calls := e.calls) && e.calls[k].pc.AddDenied?;
    hide Next, Run;
    RunTwo(cfg, s, Arrive(x, x, false), Operation(k));
    RunTwo(cfg, b, Operation(k), Operation(k));
    RunConcat(cfg, s, [Arrive(x, x, false), Operation(k)], [Operation(k), Operation(k)]);
  }

  /** An asking call never reports late: it does not report at all. */
  lemma AskingIsOnTime(cfg: Config, s: State, x: string, more: seq<Action>)
    requires OnTime(cfg, Run(cfg, s, Asking(s, x)), more)
    ensures OnTime(cfg, s, Asking(s, x) + more)
  {
    var k := |s.calls|;
    var a := Next(cfg, s, Arrive(x, x, false));
    var b := Next(cfg, a, Operation(k));
    var c := Next(cfg, b, Operation(k));
    var e := Next(cfg, c, Operation(k));
    assert !Late(cfg, a, Operation(k)) && !Late(cfg, b, Operation(k)) && !Late(cfg, c, Operation(k));
    hide Next, Late;
    RunTwo(cfg, s, Arrive(x, x, false), Operation(k));
    RunTwo(cfg, b, Operation(k), Operation(k));
    RunConcat(cfg, s, [Arrive(x, x, false), Operation(k)], [Operation(k), Operation(k)]);
    hide Run;
    OnTimeStep(cfg, c, Operation(k), more);
    OnTimeStep(cfg, b, Operation(k), [Operation(k)] + more);
    OnTimeStep(cfg, a, Operation(k), [Operation(k)] + ([Operation(k)] + more));
    OnTimeStep(cfg, s, Arrive(x, x, false), [Operation(k)] + ([Operation(k)] + ([Operation(k)] + more)));
    assert Asking(s, x) + more == [Arrive(x, x, false)] + ([Operation(k)] + ([Operation(k)] + ([Operation(k)] + more)));
  }

  lemma OnTimeStep(cfg: Config, s: State, a: Action, more: seq<Action>)
    requires !Late(cfg, s, a) && OnTime(cfg, Next(cfg, s, a), more)
    ensures OnTime(cfg, s, [a] + more)
  {
    hide Next, Late;
    assert ([a] + more)[0] == a && ([a] + more)[1..] == more;
  }

  lemma OpenReports(cfg: Config, s: State, d: Denial) returns (actions: seq<Action>)
    requires cfg.window >= 1 && ReportsOk(cfg, s) && d in s.denials && s.now < End(cfg, d)
    ensures Again(s, Run(cfg, s, actions), d)
  {
    var t := Run(cfg, s, Asking(s, d.subject));
    AskingIsRefused(cfg, s, d);
    var more := UnderwayReports(cfg, t, |s.calls|, d);
    actions := Asking(s, d.subject) + more;
    RunConcat(cfg, s, Asking(s, d.subject), more);
    hide Run, ReportsOk;
  }

  /** Once the report is forgotten, an asking call reports again and on time while the window is open. */
  lemma ForgottenReports(cfg: Config, s: State, d: Denial) returns (actions: seq<Action>)
    requires cfg.window >= 1 && ReportsOk(cfg, s) && d in s.denials && s.now < End(cfg, d)
    requires d.subject in s.cache.denied && s.cache.denied[d.subject] < End(cfg, d)
    ensures OnTime(cfg, s, actions) && Again(s, Run(cfg, s, actions), d)
  {
    var k, wait := |s.calls|, Tick(Wait(s, d.subject));
    var t := Next(cfg, s, wait);
    NextKeeps(cfg, s, wait);
    AskingIsRefused(cfg, t, d);
    var u := Run(cfg, t, Asking(t, d.subject));
    var v := Next(cfg, u, Operation(k));
    assert v.denials[|s.denials|].subject == d.subject;
    assert !Late(cfg, u, Operation(k));
    hide Next, ReportsOk, Late;
    OnTimeStep(cfg, u, Operation(k), []);
    AskingIsOnTime(cfg, t, d.subject, [Operation(k)] + []);
    var rest := Asking(t, d.subject) + ([Operation(k)] + []);
    OnTimeStep(cfg, s, wait, rest);
    actions := [wait] + rest;
    RunConcat(cfg, s, [wait], rest);
    RunOne(cfg, s, wait);
    RunConcat(cfg, t, Asking(t, d.subject), [Operation(k)]);
    RunOne(cfg, u, Operation(k));
    assert [Operation(k)] + [] == [Operation(k)];
    hide Run, OnTime;
  }

  /**
   * Whether the window of a report can be reported again, from any state with such a report. It can exactly when the
   * window is still open or one of its refused calls is underway; and by calls that all report before their window is
   * over, exactly when the window is still open and the subject's latest report is forgotten before its end.
   */
  lemma AgainIff(cfg: Config, past: seq<Action>, i: nat, last: nat)
    requires cfg.window >= 1
    requires var ds := Run(cfg, START, past).denials;
             i < |ds| && last < |ds| && ds[last].subject == ds[i].subject && Latest(ds, last)
    ensures var s := Run(cfg, START, past); var d := s.denials[i];
            && ((exists actions :: Again(s, Run(cfg, s, actions), d)) <==> s.now < End(cfg, d) || Underway(s, d))
            && ((exists actions :: OnTime(cfg, s, actions) && Again(s, Run(cfg, s, actions), d)) <==>
                  s.now < End(cfg, d) && s.denials[last].until < End(cfg, d))
  {
    hide Run, OnTime;
    RunKeeps(cfg, START, past);
    var s := Run(cfg, START, past);
    var d := s.denials[i];
    AgainIfOpenOrUnderway(cfg, s, d);
    AgainOnTimeIfForgotten(cfg, s, d);
    assert s.cache.denied[d.subject] == s.denials[last].until;
  }

  lemma AgainIfOpenOrUnderway(cfg: Config, s: State, d: Denial)
    requires cfg.window >= 1 && ReportsOk(cfg, s) && d in s.denials
    ensures (exists actions :: Again(s, Run(cfg, s, actions), d)) <==> s.now < End(cfg, d) || Underway(s, d)
  {
    hide Run, Again, ReportsOk;
    if s.now < End(cfg, d) {
      var actions := OpenReports(cfg, s, d);
    } else if Underway(s, d) {
      var k :| 0 <= k < |s.calls| && RefusedIn(s.calls[k], d);
      var actions := UnderwayReports(cfg, s, k, d);
    } else {
      forall actions ensures !Again(s, Run(cfg, s, actions), d) { SettledStays(cfg, s, actions, d); }
    }
  }

  lemma AgainOnTimeIfForgotten(cfg: Config, s: State, d: Denial)
    requires cfg.window >= 1 && ReportsOk(cfg, s) && d in s.denials
    ensures d.subject in s.cache.denied
    ensures (exists actions :: OnTime(cfg, s, actions) && Again(s, Run(cfg, s, actions), d)) <==>
              s.now < End(cfg, d) && s.cache.denied[d.subject] < End(cfg, d)
  {
    assert MarkOk(cfg, s, d);
    hide Run, Again, ReportsOk, OnTime;
    if s.now < End(cfg, d) && s.cache.denied[d.subject] < End(cfg, d) {
      var actions := ForgottenReports(cfg, s, d);
    } else {
      forall actions | OnTime(cfg, s, actions) ensures !Again(s, Run(cfg, s, actions), d) {
        RememberedStays(cfg, s, actions, d);
      }
    }
  }
}
