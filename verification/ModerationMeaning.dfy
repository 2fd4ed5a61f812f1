/** Which moderation calls go through, and what each leaves, on the case and its target alone. */
module ModerationMeaning {
  import opened Common
  import opened Moderation

  predicate Undecided(c: Case) { c.status == New || c.status == Reviewing || c.status == Escalated }

  /** Only the case at `k` differs, and it is `d`. */
  predicate CaseBecomes(s: State, t: State, k: nat, d: Case) {
    k < |s.cases| && t.cases == s.cases[k := d]
  }

  /** A report of an existing target opens a case, escalated for a security reason, and nothing else. */
  lemma FilingMeans(s: State, target: nat, reporter: nat, security: bool)
    ensures var t := File(s, target, reporter, security); var n := |s.cases|;
            && t.targets == s.targets
            && (target !in s.targets ==> t == s)
            && (target in s.targets ==>
                  && |t.cases| == n + 1 && t.cases[..n] == s.cases
                  && t.cases[n].target == target && t.cases[n].reporter == reporter
                  && t.cases[n].status == (if security then Escalated else New)
                  && t.cases[n].action == None && t.cases[n].provenance == None && t.cases[n].appeal == None
                  && !t.cases[n].contained)
  {}

  /** An administrator can take up any undecided case. */
  lemma AssignmentMeans(s: State, k: nat, admin: bool)
    ensures var (t, r) := Assign(s, k, admin);
            && (r.Ok? <==> k < |s.cases| && admin && Undecided(s.cases[k]))
            && (r.Err? ==> t == s)
            && (r.Ok? ==> t.targets == s.targets && CaseBecomes(s, t, k, s.cases[k].(status := Reviewing)))
  {}

  /** Content can be withdrawn from a post under review and from any project, and an account suspended. */
  predicate Enforceable(a: Action, target: Option<Target>) {
    match a
    case ContentRestriction => target == Some(Post(UnderReview)) || (target.Some? && target.value.Project?)
    case Unpublish => target == Some(Post(UnderReview)) || (target.Some? && target.value.Project?)
    case AccountSuspension => target.Some? && target.value.Account?
    case _ => true
  }

  /** What enforcement makes of a target: a restricted post, a draft project, a suspended account. */
  function AfterEnforcement(target: Target): Target {
    match target
    case Post(_) => Post(Restricted)
    case Project(_) => Project(Draft)
    case Account(_) => Account(false)
    case Plain => Plain
  }

  predicate Writes(a: Action) { a == ContentRestriction || a == Unpublish || a == AccountSuspension }

  function DecidedAs(a: Action): CaseStatus {
    if a == NoAction then ClosedNoAction else if a == Escalation then Escalated else ActionTaken
  }

  /**
   * An administrator who gives a reason decides an undecided case, where the action can be enforced on its target. The
   * target then is what the action makes of it, and the case keeps what it was and what it became.
   */
  lemma DecisionMeans(s: State, k: nat, a: Action, admin: bool, reasonOk: bool)
    ensures var (t, r) := Decide(s, k, a, admin, reasonOk);
            && (r.Ok? <==> k < |s.cases| && admin && reasonOk && Undecided(s.cases[k])
                           && Enforceable(a, TargetOf(s, s.cases[k].target)))
            && (r.Err? ==> t == s)
            && (r.Ok? ==>
                  var c := s.cases[k]; var x := c.target;
                  && (if Writes(a)
                      then
                        && x in s.targets && t.targets == s.targets[x := AfterEnforcement(s.targets[x])]
                        && CaseBecomes(s, t, k, c.(action := Some(a), status := DecidedAs(a),
                             provenance := Some(Provenance(s.targets[x], AfterEnforcement(s.targets[x])))))
                      else
                        && t.targets == s.targets
                        && CaseBecomes(s, t, k, c.(action := Some(a), status := DecidedAs(a), provenance := None))))
  {}

  /** Containment needs an administrator and a reason, whatever the case's status, and changes nothing else. */
  lemma ContainmentMeans(s: State, k: nat, admin: bool, reasonOk: bool)
    ensures var (t, r) := Contain(s, k, admin, reasonOk);
            && (r.Ok? <==> k < |s.cases| && admin && reasonOk)
            && (r.Err? ==> t == s)
            && (r.Ok? ==> t.targets == s.targets && CaseBecomes(s, t, k, s.cases[k].(contained := true)))
  {}

  /** The reporter appeals, with grounds, an action taken on a case that is not contained and has no appeal pending. */
  lemma AppealMeans(s: State, k: nat, member: nat, grounds: bool)
    ensures var (t, r) := FileAppeal(s, k, member, grounds);
            && (r.Ok? <==> k < |s.cases| && grounds && !s.cases[k].contained && s.cases[k].status == ActionTaken
                           && s.cases[k].reporter == member && s.cases[k].appeal != Some(Pending))
            && (r.Err? ==> t == s)
            && (r.Ok? ==> t.targets == s.targets
                          && CaseBecomes(s, t, k, s.cases[k].(appeal := Some(Pending), status := Appealed)))
  {}

  /** Nothing was written, or the target still is what the decision made it, and what it was before can be put back. */
  predicate Restorable(s: State, c: Case) {
    && !c.contained
    && (c.provenance.Some? ==>
          && c.target in s.targets && s.targets[c.target] == c.provenance.value.enforced
          && SameSort(s.targets[c.target], c.provenance.value.before))
  }

  predicate SameSort(a: Target, b: Target) {
    match a
    case Post(_) => b.Post?
    case Project(_) => b.Project?
    case Account(_) => b.Account?
    case Plain => false
  }

  /**
   * An administrator who gives a reason resolves a pending appeal. Upheld, the action stands. Overturned, where it can
   * be put back, the target is what it was and the case is closed.
   */
  lemma ResolutionMeans(s: State, k: nat, outcome: AppealStatus, admin: bool, reasonOk: bool)
    ensures var (t, r) := Resolve(s, k, outcome, admin, reasonOk);
            && (r.Ok? <==> k < |s.cases| && admin && reasonOk && s.cases[k].status == Appealed
                           && s.cases[k].appeal == Some(Pending)
                           && (outcome == Upheld || (outcome == Overturned && Restorable(s, s.cases[k]))))
            && (r.Err? ==> t == s)
            && (r.Ok? && outcome == Upheld ==>
                  && t.targets == s.targets
                  && CaseBecomes(s, t, k, s.cases[k].(appeal := Some(Upheld), status := ActionTaken)))
            && (r.Ok? && outcome == Overturned ==>
                  var c := s.cases[k];
                  && CaseBecomes(s, t, k, c.(appeal := Some(Overturned), status := ClosedNoAction))
                  && t.targets == if c.provenance.Some? then s.targets[c.target := c.provenance.value.before]
                    else s.targets)
  {}
}
