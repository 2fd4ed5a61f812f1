/** Moderation cases, the enforcement their decisions put on reported targets, and its reversal on appeal. */
module Moderation {
  import opened Common

  datatype PostState = NotReviewed | UnderReview | Restricted | Reinstated

  datatype ProjectStatus = Draft | InReview | ChangesRequested | Approved | OpenForContribution | Paused | Completed
    | Cancelled | Archived

  /** A reported target by the one field moderation writes; `Plain` targets have none. */
  datatype Target = Post(state: PostState) | Project(status: ProjectStatus) | Account(active: bool) | Plain

  datatype Action = NoAction | Warning | ContentRestriction | Unpublish | AccountSuspension | Escalation

  datatype CaseStatus = New | Reviewing | ActionTaken | ClosedNoAction | Appealed | Escalated

  datatype AppealStatus = Pending | Upheld | Overturned

  /** What the field held and what the decision made it. */
  datatype Provenance = Provenance(before: Target, enforced: Target)

  datatype Case = Case(
    target: nat, reporter: nat, status: CaseStatus, action: Option<Action>, provenance: Option<Provenance>,
    appeal: Option<AppealStatus>, contained: bool)

  /** A deleted target is missing from `targets`. */
  datatype State = State(targets: map<nat, Target>, cases: seq<Case>)

  datatype Error = Unauthorized | NoCase | BadReason | BadStatus | NotEnforceable | Contained | NotReporter | Blocked

  type Outcome = Result<(), Error>

  predicate Working(s: CaseStatus) { s in {New, Reviewing, Escalated} }

  function StatusAfter(a: Action): CaseStatus {
    match a
    case NoAction => ClosedNoAction
    case Escalation => Escalated
    case _ => ActionTaken
  }

  // ---- Operations ----

  /** `file_report`; security reasons open the case escalated. */
  function File(s: State, target: nat, reporter: nat, security: bool): State {
    if target !in s.targets then s
    else s.(cases := s.cases + [Case(target, reporter, if security then Escalated else New, None, None, None, false)])
  }

  function Assign(s: State, k: nat, admin: bool): (State, Outcome) {
    if k >= |s.cases| then (s, Err(NoCase))
    else if !admin then (s, Err(Unauthorized))
    else if !Working(s.cases[k].status) then (s, Err(BadStatus))
    else (s.(cases := s.cases[k := s.cases[k].(status := Reviewing)]), Ok(()))
  }

  /** What a decision makes of the target: Ok(None) leaves it alone, Err when it cannot be enforced there. */
  function Enforced(a: Action, target: Option<Target>): Result<Option<Target>, Error> {
    match a
    case ContentRestriction => Withdrawn(target)
    case Unpublish => Withdrawn(target)
    case AccountSuspension => if target.Some? && target.value.Account? then Ok(Some(Account(false)))
      else Err(NotEnforceable)
    case _ => Ok(None)
  }

  /** A post can only be restricted while under review; a project goes back to draft from anywhere. */
  function Withdrawn(target: Option<Target>): Result<Option<Target>, Error> {
    if target.None? then Err(NotEnforceable)
    else match target.value
      case Post(state) => if state.UnderReview? then Ok(Some(Post(Restricted))) else Err(NotEnforceable)
      case Project(_) => Ok(Some(Project(Draft)))
      case _ => Err(NotEnforceable)
  }

  function TargetOf(s: State, x: nat): Option<Target> { if x in s.targets then Some(s.targets[x]) else None }

  /** `record_decision`. */
  function Decide(s: State, k: nat, a: Action, admin: bool, reasonOk: bool): (State, Outcome) {
    if k >= |s.cases| then (s, Err(NoCase))
    else if !admin then (s, Err(Unauthorized))
    else if !reasonOk then (s, Err(BadReason))
    else if !Working(s.cases[k].status) then (s, Err(BadStatus))
    else
      var c := s.cases[k];
      match Enforced(a, TargetOf(s, c.target))
      case Err(e) => (s, Err(e))
      case Ok(None) => (s.(cases := s.cases[k := c.(action := Some(a), provenance := None, status := StatusAfter(a))]),
                        Ok(()))
      case Ok(Some(v)) =>
        if c.target !in s.targets then (s, Err(NotEnforceable))
        else
          var d := c.(action := Some(a), provenance := Some(Provenance(s.targets[c.target], v)),
                      status := StatusAfter(a));
          (State(s.targets[c.target := v], s.cases[k := d]), Ok(()))
  }

  function Contain(s: State, k: nat, admin: bool, reasonOk: bool): (State, Outcome) {
    if k >= |s.cases| then (s, Err(NoCase))
    else if !admin then (s, Err(Unauthorized))
    else if !reasonOk then (s, Err(BadReason))
    else (s.(cases := s.cases[k := s.cases[k].(contained := true)]), Ok(()))
  }

  function FileAppeal(s: State, k: nat, member: nat, grounds: bool): (State, Outcome) {
    if k >= |s.cases| then (s, Err(NoCase))
    else
      var c := s.cases[k];
      if !grounds then (s, Err(BadReason))
      else if c.contained then (s, Err(Contained))
      else if !c.status.ActionTaken? then (s, Err(BadStatus))
      else if c.reporter != member then (s, Err(NotReporter))
      else if c.appeal == Some(Pending) then (s, Err(BadStatus))
      else (s.(cases := s.cases[k := c.(appeal := Some(Pending), status := Appealed)]), Ok(()))
  }

  predicate SameKind(a: Target, b: Target) {
    (a.Post? && b.Post?) || (a.Project? && b.Project?) || (a.Account? && b.Account?)
  }

  /** `_restore_enforcement`: the targets afterwards, Err where it raises. */
  function Restored(targets: map<nat, Target>, c: Case): Result<map<nat, Target>, Error> {
    if c.contained then Err(Blocked)
    else match c.provenance
      case None => Ok(targets)
      case Some(p) =>
        if c.target !in targets || !SameKind(targets[c.target], p.before) || targets[c.target] != p.enforced
          then Err(Blocked)
        else Ok(targets[c.target := p.before])
  }

  /** `resolve_appeal`. */
  function Resolve(s: State, k: nat, outcome: AppealStatus, admin: bool, reasonOk: bool): (State, Outcome) {
    if k >= |s.cases| then (s, Err(NoCase))
    else
      var c := s.cases[k];
      if !admin then (s, Err(Unauthorized))
      else if outcome.Pending? || !reasonOk then (s, Err(BadReason))
      else if !c.status.Appealed? || c.appeal != Some(Pending) then (s, Err(BadStatus))
      else if outcome.Upheld? then (s.(cases := s.cases[k := c.(appeal := Some(Upheld), status := ActionTaken)]),
                                    Ok(()))
      else match Restored(s.targets, c)
        case Err(e) => (s, Err(e))
        case Ok(targets) => (State(targets, s.cases[k := c.(appeal := Some(Overturned), status := ClosedNoAction)]),
                             Ok(()))
  }

  // ---- Runs ----

  datatype Step =
    | DoFile(target: nat, reporter: nat, security: bool)
    | DoAssign(case_: nat, admin: bool)
    | DoDecide(case_: nat, action: Action, admin: bool, reasonOk: bool)
    | DoContain(case_: nat, admin: bool, reasonOk: bool)
    | DoAppeal(case_: nat, member: nat, grounds: bool)
    | DoResolve(case_: nat, outcome: AppealStatus, admin: bool, reasonOk: bool)
    | Outside(target: nat, value: Option<Target>)

  function Next(s: State, step: Step): State {
    match step
    case DoFile(x, r, security) => File(s, x, r, security)
    case DoAssign(k, admin) => Assign(s, k, admin).0
    case DoDecide(k, a, admin, ok) => Decide(s, k, a, admin, ok).0
    case DoContain(k, admin, ok) => Contain(s, k, admin, ok).0
    case DoAppeal(k, m, grounds) => FileAppeal(s, k, m, grounds).0
    case DoResolve(k, o, admin, ok) => Resolve(s, k, o, admin, ok).0
    case Outside(x, v) => s.(targets := if v.Some? then s.targets[x := v.value] else s.targets - {x})
  }

  function Run(s: State, steps: seq<Step>): State
    decreases |steps|
  {
    if steps == [] then s else Run(Next(s, steps[0]), steps[1..])
  }

  // ---- Performed in place ----

  class ModerationDesk {
    var targets: map<nat, Target>
    var cases: seq<Case>

    function View(): State reads this { State(targets, cases) }

    constructor ()
      ensures View() == State(map[], [])
    {
      targets, cases := map[], [];
    }

    /** `_enforce_action`: writes the target and tells what it held and holds. */
    method EnforceAction(x: nat, a: Action) returns (r: Result<Option<Provenance>, Error>)
      modifies this`targets
      ensures match Enforced(a, TargetOf(old(View()), x))
        case Err(e) => r == Err(e) && targets == old(targets)
        case Ok(None) => r == Ok(None) && targets == old(targets)
        case Ok(Some(v)) =>
          x in old(targets) && r == Ok(Some(Provenance(old(targets)[x], v)))
          && targets == old(targets)[x := v]
    {
      var target := if x in targets then Some(targets[x]) else None;
      if a.ContentRestriction? || a.Unpublish? {
        if target.Some? && target.value.Post? {
          if !target.value.state.UnderReview? { return Err(NotEnforceable); }
          targets := targets[x := Post(Restricted)];
          return Ok(Some(Provenance(target.value, Post(Restricted))));
        }
        if target.Some? && target.value.Project? {
          targets := targets[x := Project(Draft)];
          return Ok(Some(Provenance(target.value, Project(Draft))));
        }
        return Err(NotEnforceable);
      }
      if a.AccountSuspension? {
        if target.None? || !target.value.Account? { return Err(NotEnforceable); }
        targets := targets[x := Account(false)];
        return Ok(Some(Provenance(target.value, Account(false))));
      }
      return Ok(None);
    }

    method RecordDecision(k: nat, a: Action, admin: bool, reasonOk: bool) returns (r: Outcome)
      modifies this
      ensures (View(), r) == Decide(old(View()), k, a, admin, reasonOk)
    {
      if k >= |cases| { return Err(NoCase); }
      if !admin { return Err(Unauthorized); }
      if !reasonOk { return Err(BadReason); }
      if !Working(cases[k].status) { return Err(BadStatus); }
      var provenance := EnforceAction(cases[k].target, a);
      if provenance.Err? { return Err(provenance.error); }
      cases := cases[k := cases[k].(action := Some(a), provenance := provenance.value, status := StatusAfter(a))];
      return Ok(());
    }

    method AppealCase(k: nat, member: nat, grounds: bool) returns (r: Outcome)
      modifies this`cases
      ensures (View(), r) == FileAppeal(old(View()), k, member, grounds)
    {
      if k >= |cases| { return Err(NoCase); }
      if !grounds { return Err(BadReason); }
      if cases[k].contained { return Err(Contained); }
      if !cases[k].status.ActionTaken? { return Err(BadStatus); }
      if cases[k].reporter != member { return Err(NotReporter); }
      if cases[k].appeal == Some(Pending) { return Err(BadStatus); }
      cases := cases[k := cases[k].(appeal := Some(Pending), status := Appealed)];
      return Ok(());
    }

    method RestoreEnforcement(c: Case) returns (r: Outcome)
      modifies this`targets
      ensures match Restored(old(targets), c)
        case Err(e) => r == Err(e) && targets == old(targets)
        case Ok(after) => r == Ok(()) && targets == after
    {
      if c.contained { return Err(Blocked); }
      if c.provenance.None? { return Ok(()); }
      if c.target !in targets { return Err(Blocked); }
      var p := c.provenance.value;
      if !SameKind(targets[c.target], p.before) { return Err(Blocked); }
      if targets[c.target] != p.enforced { return Err(Blocked); }
      targets := targets[c.target := p.before];
      return Ok(());
    }

    method ResolveAppeal(k: nat, outcome: AppealStatus, admin: bool, reasonOk: bool) returns (r: Outcome)
      modifies this
      ensures (View(), r) == Resolve(old(View()), k, outcome, admin, reasonOk)
    {
      if k >= |cases| { return Err(NoCase); }
      if !admin { return Err(Unauthorized); }
      if outcome.Pending? || !reasonOk { return Err(BadReason); }
      if !cases[k].status.Appealed? || cases[k].appeal != Some(Pending) { return Err(BadStatus); }
      if outcome.Overturned? {
        r := RestoreEnforcement(cases[k]);
        if r.Err? { return; }
      }
      cases := cases[k := cases[k].(appeal := Some(outcome), status := if outcome.Upheld? then ActionTaken
                                    else ClosedNoAction)];
      return Ok(());
    }
  }
}
