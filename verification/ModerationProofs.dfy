/** What moderation keeps in every state, and when overturning appeals gives a target back what it held. */
module ModerationProofs {
  import opened Common
  import opened Moderation

  // ---- Every state ----

  /** The values enforcement writes, by kind of target. */
  predicate ProvenanceOk(p: Provenance) {
    && SameKind(p.before, p.enforced)
    && (p.before.Post? ==> p.before == Post(UnderReview) && p.enforced == Post(Restricted))
    && (p.before.Project? ==> p.enforced == Project(Draft))
    && (p.before.Account? ==> p.enforced == Account(false))
  }

  predicate CaseOk(c: Case) {
    && (c.status.Appealed? <==> c.appeal == Some(Pending))
    && (c.provenance.Some? ==> ProvenanceOk(c.provenance.value))
    && (Working(c.status) ==> c.provenance.None? && c.appeal.None?)
    && (c.status.ClosedNoAction? && c.provenance.Some? ==> c.appeal == Some(Overturned))
  }

  ghost predicate CasesOk(s: State) { forall k | 0 <= k < |s.cases| :: CaseOk(s.cases[k]) }

  /** A decision stands: its provenance, and containment, are never taken back. */
  predicate Stands(c: Case, d: Case) {
    && d.target == c.target && d.reporter == c.reporter && (c.contained ==> d.contained)
    && (c.provenance.Some? ==> d.provenance == c.provenance)
      && (!Working(c.status) ==> d.action == c.action && !Working(d.status))
    && (c.status.ClosedNoAction? ==> d.status.ClosedNoAction?)
  }

  ghost predicate AllStand(s: State, t: State) {
    |s.cases| <= |t.cases| && forall k | 0 <= k < |s.cases| :: Stands(s.cases[k], t.cases[k])
  }

  lemma NextKeeps(s: State, step: Step)
    requires CasesOk(s)
    ensures CasesOk(Next(s, step)) && AllStand(s, Next(s, step))
  {
    var t := Next(s, step);
    forall k | 0 <= k < |s.cases| ensures CaseOk(t.cases[k]) && Stands(s.cases[k], t.cases[k]) {
      assert CaseOk(s.cases[k]);
      if t.cases[k] != s.cases[k] { ChangedCase(s, step, k); }
      hide CaseOk, Next;
    }
    hide CaseOk, Stands;
  }

  lemma ChangedCase(s: State, step: Step, k: nat)
    requires k < |s.cases| && CaseOk(s.cases[k])
    ensures |Next(s, step).cases| >= |s.cases| && CaseOk(Next(s, step).cases[k])
            && Stands(s.cases[k], Next(s, step).cases[k])
  {
    var d := Next(s, step).cases[k];
    if step.DoDecide? && step.case_ == k && d != s.cases[k] && d.provenance.Some? {
      assert ProvenanceOk(d.provenance.value);
    }
  }

  lemma {:induction false} RunKeeps(s: State, steps: seq<Step>)
    requires CasesOk(s)
    ensures CasesOk(Run(s, steps)) && AllStand(s, Run(s, steps))
    decreases |steps|
  {
    if steps != [] {
      var t := Next(s, steps[0]);
      NextKeeps(s, steps[0]);
      RunKeeps(t, steps[1..]);
      forall k | 0 <= k < |s.cases| ensures Stands(s.cases[k], Run(s, steps).cases[k]) {
        assert Stands(s.cases[k], t.cases[k]) && Stands(t.cases[k], Run(t, steps[1..]).cases[k]);
      }
    }
    hide CaseOk, Next;
  }

  // ---- One overturned appeal ----

  predicate PendingAppeal(s: State, k: nat) {
    k < |s.cases| && s.cases[k].status.Appealed? && s.cases[k].appeal == Some(Pending)
  }

  /** The target still holds what the decision wrote. */
  predicate InForce(s: State, c: Case) {
    c.provenance.Some? ==> c.target in s.targets && s.targets[c.target] == c.provenance.value.enforced
  }

  /**
   * Overturning a pending appeal goes through exactly when the case is not under containment and nothing else changed
   * the target; it then gives the target back what it held, and otherwise changes nothing.
   */
  lemma OverturnMeans(s: State, k: nat)
    requires CasesOk(s) && PendingAppeal(s, k)
    ensures var c := s.cases[k]; var (t, out) := Resolve(s, k, Overturned, true, true);
            && (out.Ok? <==> !c.contained && InForce(s, c))
            && (out.Err? ==> t == s)
            && (out.Ok? ==> |t.cases| == |s.cases| && t.cases[k].status.ClosedNoAction?)
            && (out.Ok? ==> t.targets == if c.provenance.Some? then s.targets[c.target := c.provenance.value.before]
                else s.targets)
  {
    assert CaseOk(s.cases[k]);
  }

  /** Once contained, a case is never appealed anew, and no appeal of it gives the target back. */
  lemma ContainmentHolds(s: State, step: Step, k: nat)
    requires CasesOk(s) && k < |s.cases| && s.cases[k].contained
    ensures var t := Next(s, step);
            && k < |t.cases| && t.cases[k].contained
            && (t.cases[k].status.Appealed? ==> s.cases[k].status.Appealed?)
            && (step.DoResolve? && step.case_ == k ==> t.targets == s.targets)
  {
    NextKeeps(s, step);
    assert Stands(s.cases[k], Next(s, step).cases[k]);
  }

  // ---- Several cases on one target ----

  /** A decision that wrote this target and has not been overturned. */
  predicate LiveOn(c: Case, x: nat) {
    c.target == x && c.provenance.Some? && (c.status.ActionTaken? || c.status.Appealed?)
  }

  /** Every live decision on the target is in force. */
  ghost predicate AllInForce(s: State, x: nat) {
    forall k | 0 <= k < |s.cases| && LiveOn(s.cases[k], x) :: InForce(s, s.cases[k])
  }

  ghost predicate OtherLive(s: State, x: nat, k: nat) {
    exists j: nat :: j < |s.cases| && j != k && LiveOn(s.cases[j], x)
  }

  /**
   * An overturn that goes through leaves the other decisions on its target in force exactly when there is none, or when
   * the target held the enforced value already before the overturned decision.
   */
  lemma OverturnKeepsForce(s: State, k: nat)
    requires CasesOk(s) && PendingAppeal(s, k) && s.cases[k].provenance.Some? && AllInForce(s, s.cases[k].target)
    requires Resolve(s, k, Overturned, true, true).1.Ok?
    ensures var c := s.cases[k]; var t := Resolve(s, k, Overturned, true, true).0;
            AllInForce(t, c.target) <==>
            !OtherLive(s, c.target, k) || c.provenance.value.before == c.provenance.value.enforced
  {
    var c := s.cases[k];
    var t := Resolve(s, k, Overturned, true, true).0;
    assert CaseOk(c);
    OverturnMeans(s, k);
    hide Resolve;
    assert forall j | 0 <= j < |s.cases| && j != k :: t.cases[j] == s.cases[j] by { OthersSame(s, k); }
    forall j | 0 <= j < |s.cases| && j != k && LiveOn(s.cases[j], c.target)
      ensures InForce(t, t.cases[j]) <==> c.provenance.value.before == c.provenance.value.enforced
    {
      assert InForce(s, s.cases[j]) && InForce(s, c);
    }
    hide CaseOk;
  }

  lemma OthersSame(s: State, k: nat)
    requires PendingAppeal(s, k)
    ensures var t := Resolve(s, k, Overturned, true, true).0;
            |t.cases| == |s.cases| && forall j | 0 <= j < |s.cases| && j != k :: t.cases[j] == s.cases[j]
  {}

  // ---- Overturning in reverse order ----

  /** Whether a step overturns a live decision on the target, and whether it puts one on it. */
  predicate Lifts(s: State, step: Step, x: nat) {
    && step.DoResolve? && step.case_ < |s.cases| && LiveOn(s.cases[step.case_], x)
    && Next(s, step).cases[step.case_].status.ClosedNoAction?
  }

  predicate Puts(s: State, step: Step, x: nat) {
    && step.DoDecide? && step.case_ < |s.cases| && s.cases[step.case_].target == x
    && Working(s.cases[step.case_].status) && Next(s, step).cases[step.case_].provenance.Some?
  }

  /** The live decisions on the target in the order they were made, after a step that overturns only the last. */
  function OrderAfter(s: State, step: Step, x: nat, order: seq<nat>): seq<nat> {
    if Puts(s, step, x) then order + [step.case_]
    else if Lifts(s, step, x) && order != [] then order[..|order| - 1]
    else order
  }

  /** Nothing else writes the target, and appeals are overturned in reverse order of decision. */
  predicate Orderly(s: State, step: Step, x: nat, order: seq<nat>) {
    && (step.Outside? ==> step.target != x)
    && (Lifts(s, step, x) ==> order != [] && order[|order| - 1] == step.case_)
  }

  predicate OrderlyRun(s: State, steps: seq<Step>, x: nat, order: seq<nat>)
    decreases |steps|
  {
    steps == [] || (Orderly(s, steps[0], x, order)
                    && OrderlyRun(Next(s, steps[0]), steps[1..], x, OrderAfter(s, steps[0], x, order)))
  }

  function OrderAfterRun(s: State, steps: seq<Step>, x: nat, order: seq<nat>): seq<nat>
    decreases |steps|
  {
    if steps == [] then order else OrderAfterRun(Next(s, steps[0]), steps[1..], x, OrderAfter(s, steps[0], x, order))
  }

  /** What the first `n` decisions in `order` left on a target that held `origin`. */
  function Left(s: State, origin: Target, order: seq<nat>, n: nat): Target
    requires n <= |order|
  {
    if n == 0 || order[n - 1] >= |s.cases| || s.cases[order[n - 1]].provenance.None? then origin
    else s.cases[order[n - 1]].provenance.value.enforced
  }

  /** Each decision found what the one before it left, and the target holds what the last one left. */
  ghost predicate Chain(s: State, x: nat, origin: Target, order: seq<nat>) {
    && Members(s, x, order)
    && (forall i | 0 <= i < |order| :: Found(s, origin, order, i))
    && x in s.targets && s.targets[x] == Left(s, origin, order, |order|)
  }

  /** The live decisions on the target, each once. */
  ghost predicate Members(s: State, x: nat, order: seq<nat>) {
    && (forall i | 0 <= i < |order| :: order[i] < |s.cases| && LiveOn(s.cases[order[i]], x))
    && (forall k: nat | k < |s.cases| && LiveOn(s.cases[k], x) :: k in order)
    && (forall i, j | 0 <= i < j < |order| :: order[i] != order[j])
  }

  predicate Found(s: State, origin: Target, order: seq<nat>, i: nat)
    requires i < |order|
  {
    order[i] < |s.cases| && s.cases[order[i]].provenance.Some?
      && s.cases[order[i]].provenance.value.before == Left(s, origin, order, i)
  }

  lemma ChainSame(s: State, t: State, x: nat, origin: Target, order: seq<nat>)
    requires Chain(s, x, origin, order) && AllStand(s, t) && x in t.targets && t.targets[x] == s.targets[x]
    requires forall k: nat | k < |t.cases| :: LiveOn(t.cases[k], x) <==> k < |s.cases| && LiveOn(s.cases[k], x)
    ensures Chain(t, x, origin, order)
  {
    forall i | 0 <= i < |order|
      ensures Found(t, origin, order, i) && Left(t, origin, order, i + 1) == Left(s, origin, order, i + 1)
    {
      assert Found(s, origin, order, i);
      assert Stands(s.cases[order[i]], t.cases[order[i]]);
      if i > 0 { assert Stands(s.cases[order[i - 1]], t.cases[order[i - 1]]); }
    }
  }

  lemma ChainPut(s: State, t: State, x: nat, origin: Target, order: seq<nat>, k: nat)
    requires Chain(s, x, origin, order) && AllStand(s, t) && |t.cases| == |s.cases|
    requires k < |s.cases| && !LiveOn(s.cases[k], x) && LiveOn(t.cases[k], x)
    requires forall j: nat | j < |s.cases| && j != k :: t.cases[j] == s.cases[j]
    requires t.cases[k].provenance.value.before == s.targets[x]
    requires x in t.targets && t.targets[x] == t.cases[k].provenance.value.enforced
    ensures Chain(t, x, origin, order + [k])
  {
    var next := order + [k];
    forall i | 0 <= i < |next| ensures Found(t, origin, next, i) {
      if i < |order| { assert Found(s, origin, order, i); }
      if i > 0 { assert next[i - 1] == order[i - 1]; }
    }
    hide AllStand;
  }

  lemma ChainLift(s: State, t: State, x: nat, origin: Target, order: seq<nat>, k: nat)
    requires Chain(s, x, origin, order) && AllStand(s, t) && |t.cases| == |s.cases|
    requires order != [] && k == order[|order| - 1] && !LiveOn(t.cases[k], x)
    requires forall j: nat | j < |s.cases| && j != k :: t.cases[j] == s.cases[j]
    requires x in t.targets && t.targets[x] == s.cases[k].provenance.value.before
    ensures Chain(t, x, origin, order[..|order| - 1])
  {
    var next := order[..|order| - 1];
    MembersLift(s, t, x, order, k);
    hide AllStand, Members;
    forall i | 0 <= i < |next| ensures Found(t, origin, next, i) {
      LinkLift(s, t, origin, order, k, i);
    }
    assert Found(s, origin, order, |order| - 1);
    if next != [] { assert next[|next| - 1] == order[|order| - 2]; }
  }

  lemma LinkLift(s: State, t: State, origin: Target, order: seq<nat>, k: nat, i: nat)
    requires i + 1 < |order| && Found(s, origin, order, i) && |t.cases| == |s.cases| && order[i] != k
             && (i > 0 ==> order[i - 1] != k)
    requires forall j: nat | j < |s.cases| && j != k :: t.cases[j] == s.cases[j]
    ensures Found(t, origin, order[..|order| - 1], i)
  {
    var next := order[..|order| - 1];
    assert next[i] == order[i] && (i > 0 ==> next[i - 1] == order[i - 1]);
  }

  lemma MembersLift(s: State, t: State, x: nat, order: seq<nat>, k: nat)
    requires Members(s, x, order) && |t.cases| == |s.cases| && order != [] && k == order[|order| - 1]
             && !LiveOn(t.cases[k], x)
    requires forall j: nat | j < |s.cases| && j != k :: t.cases[j] == s.cases[j]
    ensures Members(t, x, order[..|order| - 1])
    ensures forall i | 0 <= i < |order| - 1 :: order[i] != k && order[i] < |s.cases|
  {
    hide LiveOn;
    assert order == order[..|order| - 1] + [k];
  }

  lemma ChainStep(s: State, step: Step, x: nat, origin: Target, order: seq<nat>)
    requires CasesOk(s) && Chain(s, x, origin, order) && Orderly(s, step, x, order)
    ensures Chain(Next(s, step), x, origin, OrderAfter(s, step, x, order))
  {
    var t := Next(s, step);
    NextKeeps(s, step);
    if Puts(s, step, x) {
      PutEffect(s, step, x);
      hide Next, CasesOk, AllStand;
      ChainPut(s, t, x, origin, order, step.case_);
    } else if Lifts(s, step, x) {
      LiftEffect(s, step, x);
      hide Next, CasesOk, AllStand;
      ChainLift(s, t, x, origin, order, step.case_);
    } else {
      OtherEffect(s, step, x);
      hide Next, CasesOk, AllStand, LiveOn;
      ChainSame(s, t, x, origin, order);
    }
  }

  /** A decision that writes the target records what it found and what it wrote. */
  lemma PutEffect(s: State, step: Step, x: nat)
    requires CasesOk(s) && Puts(s, step, x)
    ensures var t := Next(s, step); var k := step.case_;
            && k < |s.cases| == |t.cases| && !LiveOn(s.cases[k], x) && LiveOn(t.cases[k], x)
            && (forall j: nat | j < |s.cases| && j != k :: t.cases[j] == s.cases[j])
            && x in s.targets && t.cases[k].provenance.value.before == s.targets[x]
            && x in t.targets && t.targets[x] == t.cases[k].provenance.value.enforced
  {
    assert CaseOk(s.cases[step.case_]);
  }

  /** An overturned decision gives the target back what it found. */
  lemma LiftEffect(s: State, step: Step, x: nat)
    requires CasesOk(s) && Lifts(s, step, x)
    ensures var t := Next(s, step); var k := step.case_;
            && k < |s.cases| == |t.cases| && !LiveOn(t.cases[k], x)
            && (forall j: nat | j < |s.cases| && j != k :: t.cases[j] == s.cases[j])
            && x in t.targets && t.targets[x] == s.cases[k].provenance.value.before
  {
    assert CaseOk(s.cases[step.case_]);
  }

  /** Any other step leaves the target and the live decisions on it alone. */
  lemma OtherEffect(s: State, step: Step, x: nat)
    requires CasesOk(s) && x in s.targets && !Puts(s, step, x) && !Lifts(s, step, x)
             && (step.Outside? ==> step.target != x)
    ensures var t := Next(s, step);
            && x in t.targets && t.targets[x] == s.targets[x]
            && forall k: nat | k < |t.cases| :: LiveOn(t.cases[k], x) <==> k < |s.cases| && LiveOn(s.cases[k], x)
  {
    var t := Next(s, step);
    forall k: nat | k < |t.cases| ensures LiveOn(t.cases[k], x) <==> k < |s.cases| && LiveOn(s.cases[k], x) {
      if k < |s.cases| { assert CaseOk(s.cases[k]); }
    }
    if step.DoDecide? && step.case_ < |s.cases| { assert CaseOk(s.cases[step.case_]); }
  }

  lemma {:induction false} ChainRun(s: State, steps: seq<Step>, x: nat, origin: Target, order: seq<nat>)
    requires CasesOk(s) && Chain(s, x, origin, order) && OrderlyRun(s, steps, x, order)
    ensures Chain(Run(s, steps), x, origin, OrderAfterRun(s, steps, x, order))
    decreases |steps|
  {
    if steps != [] {
      NextKeeps(s, steps[0]);
      ChainStep(s, steps[0], x, origin, order);
      ChainRun(Next(s, steps[0]), steps[1..], x, origin, OrderAfter(s, steps[0], x, order));
    }
    hide CasesOk, Chain, Next, Orderly, OrderAfter;
  }

  ghost predicate AnyLive(s: State, x: nat) { exists k: nat :: k < |s.cases| && LiveOn(s.cases[k], x) }

  /**
   * Nothing else writing the target, overturning its cases in reverse order of decision gives back the original value;
   * until then the target holds what its live decisions enforce.
   */
  lemma ReverseOrderRestores(s: State, steps: seq<Step>, x: nat)
    requires CasesOk(s) && x in s.targets && !AnyLive(s, x) && OrderlyRun(s, steps, x, [])
    ensures var t := Run(s, steps);
            && x in t.targets && (!AnyLive(t, x) ==> t.targets[x] == s.targets[x])
            && (AnyLive(t, x) ==> AllInForce(t, x))
  {
    assert Chain(s, x, s.targets[x], []);
    ChainRun(s, steps, x, s.targets[x], []);
    RunKeeps(s, steps);
    var t, order := Run(s, steps), OrderAfterRun(s, steps, x, []);
    hide Run, OrderAfterRun, OrderlyRun;
    if order != [] { assert LiveOn(t.cases[order[|order| - 1]], x); }
    forall k: nat | k < |t.cases| && LiveOn(t.cases[k], x) ensures InForce(t, t.cases[k]) {
      ChainForce(t, x, s.targets[x], order, k);
    }
  }

  /** Decisions on one target all enforce the same value. */
  lemma ChainForce(t: State, x: nat, origin: Target, order: seq<nat>, k: nat)
    requires CasesOk(t) && Chain(t, x, origin, order) && k < |t.cases| && LiveOn(t.cases[k], x)
    ensures InForce(t, t.cases[k])
  {
    var i :| 0 <= i < |order| && order[i] == k;
    OneKind(t, x, origin, order, i, |order| - 1);
  }

  lemma {:induction false} OneKind(t: State, x: nat, origin: Target, order: seq<nat>, i: nat, j: nat)
    requires CasesOk(t) && Chain(t, x, origin, order) && i <= j < |order|
    ensures t.cases[order[i]].provenance.value.enforced == t.cases[order[j]].provenance.value.enforced
    decreases j
  {
    assert CaseOk(t.cases[order[i]]) && CaseOk(t.cases[order[j]]);
    if i < j {
      OneKind(t, x, origin, order, i, j - 1);
      assert Found(t, origin, order, j);
      assert CaseOk(t.cases[order[j - 1]]);
    }
  }

  // ---- Overturning out of order ----

  const OPEN := Project(OpenForContribution)

  function Reported(reporter: nat): Case { Case(0, reporter, New, None, None, None, false) }

  function Unpublished(reporter: nat, before: Target): Case {
    Reported(reporter).(action := Some(Unpublish), provenance := Some(Provenance(before, Project(Draft))),
                        status := ActionTaken)
  }

  function Appealing(reporter: nat, before: Target): Case {
    Unpublished(reporter, before).(appeal := Some(Pending), status := Appealed)
  }

  /** Two reports of one open project, the decision to unpublish it on each, and an appeal of each. */
  const REPORTS := [DoFile(0, 5, false), DoFile(0, 6, false)]
  const DECISIONS := [DoDecide(0, Unpublish, true, true), DoDecide(1, Unpublish, true, true)]
  const APPEALS := [DoAppeal(0, 5, true), DoAppeal(1, 6, true)]
  const UNREPORTED := State(map[0 := OPEN], [])
  const BOTH_APPEALED := State(map[0 := Project(Draft)], [Appealing(5, OPEN), Appealing(6, Project(Draft))])

  lemma RunTwo(s: State, a: Step, b: Step)
    ensures Run(s, [a, b]) == Next(Next(s, a), b)
  {
    hide Next;
    assert [a, b][1..] == [b] && [b][1..] == [];
    assert Run(Next(s, a), [b]) == Run(Next(Next(s, a), b), []);
  }

  lemma BothUnpublished()
    ensures Run(Run(Run(UNREPORTED, REPORTS), DECISIONS), APPEALS) == BOTH_APPEALED
  {
    var a := State(map[0 := OPEN], [Reported(5), Reported(6)]);
    var b := State(map[0 := Project(Draft)], [Unpublished(5, OPEN), Unpublished(6, Project(Draft))]);
    assert Next(Next(UNREPORTED, REPORTS[0]), REPORTS[1]) == a;
    assert Next(a, DECISIONS[0]) == State(map[0 := Project(Draft)], [Unpublished(5, OPEN), Reported(6)]);
    assert Next(Next(a, DECISIONS[0]), DECISIONS[1]) == b;
    assert Next(b, APPEALS[0]) == State(b.targets, [Appealing(5, OPEN), b.cases[1]]);
    assert Next(Next(b, APPEALS[0]), APPEALS[1]) == BOTH_APPEALED;
    hide Next, Run;
    RunTwo(UNREPORTED, REPORTS[0], REPORTS[1]);
    RunTwo(a, DECISIONS[0], DECISIONS[1]);
    RunTwo(b, APPEALS[0], APPEALS[1]);
  }

  /**
   * A project reported and unpublished twice: overturning the first decision alone publishes it again although the
   * second still stands, and the second then can no longer be overturned.
   */
  lemma FirstOverturnedFirst()
    ensures var s := Run(Run(Run(UNREPORTED, REPORTS), DECISIONS), APPEALS);
            var t := Resolve(s, 0, Overturned, true, true).0;
            && CasesOk(s) && Chain(s, 0, OPEN, [0, 1])
            && t.targets == map[0 := OPEN] && !AllInForce(t, 0)
            && Resolve(t, 1, Overturned, true, true) == (t, Err(Blocked))
  {
    BothUnpublished();
    hide Run;
    var s := BOTH_APPEALED;
    var t := Resolve(s, 0, Overturned, true, true).0;
    assert Found(s, OPEN, [0, 1], 0) && Found(s, OPEN, [0, 1], 1);
    assert t.cases[1] == s.cases[1] && LiveOn(t.cases[1], 0) && !InForce(t, t.cases[1]);
  }
}
