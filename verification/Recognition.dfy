// Contribution records and the recognition derived from them: verification, holds, scores, badge awards and
// reversible corrections. Every call is a function on the stored tables; a call that raises inside its
// transaction leaves them unchanged.
module Recognition {
  import opened Common

  datatype Status = Candidate | PendingInfo | Accepted | Rejected | Revoked

  datatype Tier = Minor | Standard | Major

  /** The evidence file of a record and what its security scan said. */
  datatype File = NoFile | Unscanned | Clean | Quarantined

  datatype Record = Record(
    contributor: Option<nat>, project: nat, tier: Tier, file: File, status: Status,
    holdActive: bool, heldFrom: Option<Status>, responded: bool)

  datatype Score = Score(policy: nat, points: nat, reversedAt: Option<int>, reason: string)

  datatype Award = Award(
    badge: nat, recipient: nat, contribution: Option<nat>, active: bool,
    reason: string, revokedBy: Option<nat>, revokedAt: Option<int>)

  datatype BadgeRule = BadgeRule(badge: nat, minimum: nat)

  /** The active scoring policy; `badges` are its rules for active badges, in name order. */
  datatype Policy = Policy(version: nat, approver: Option<nat>, points: map<Tier, nat>, default_: nat,
                           badges: seq<BadgeRule>)

  datatype Kind = Consolidate | ReleaseHeld | Invalidate | AdjustScore

  datatype CorrectionStatus = Applied | Appealed | Upheld | Overturned

  /** What a correction remembers of the records it covers; contribution status is not part of it. */
  datatype HoldView = HoldView(active: bool, from: Option<Status>)
  datatype ScoreView = ScoreView(points: nat, reversedAt: Option<int>, reason: string)
  datatype AwardView = AwardView(contribution: Option<nat>, active: bool, reason: string, revokedBy: Option<nat>,
                                 revokedAt: Option<int>)
  datatype Snapshot = Snapshot(holds: map<nat, HoldView>, scores: map<nat, ScoreView>, awards: map<nat, AwardView>)

  datatype Correction = Correction(
    kind: Kind, covered: seq<nat>, recipient: nat, reason: string, appliedBy: nat,
    before: Snapshot, after: Snapshot, status: CorrectionStatus)

  /** Records, awards and corrections by position; scores by the contribution they belong to. */
  datatype Store = Store(records: seq<Record>, scores: map<nat, Score>, awards: seq<Award>,
                         corrections: seq<Correction>)

  datatype Error = Unauthorized | BadStatus | OnHold | FilePending | SelfApproval | NoApprover | BadSelection | NoRecord
                 | NotReversible | NotAppealable | SamePerson | NoPendingAppeal | StateConflict | UniquenessViolated

  type Outcome = Result<(), Error>

  predicate Unscored(s: Status) { s in {Candidate, PendingInfo} }

  // ---- Awards ----

  predicate HasActive(awards: seq<Award>, badge: nat, recipient: nat) {
    exists i | 0 <= i < |awards| :: awards[i].active && awards[i].badge == badge && awards[i].recipient == recipient
  }

  /** `_award_badge`: one active award a badge and member. */
  function WithAward(awards: seq<Award>, badge: nat, recipient: nat, contribution: Option<nat>): seq<Award> {
    if HasActive(awards, badge, recipient) then awards
    else awards + [Award(badge, recipient, contribution, true, "", None, None)]
  }

  predicate ActiveFor(a: Award, id: nat) { a.active && a.contribution == Some(id) }

  function RevokedAward(a: Award, reason: string, admin: nat, now: int): Award {
    a.(active := false, reason := reason, revokedBy := Some(admin), revokedAt := Some(now))
  }

  /** Revokes every active award that cites the contribution. */
  function WithoutAwards(awards: seq<Award>, id: nat, reason: string, admin: nat, now: int): seq<Award> {
    seq(|awards|, i requires 0 <= i < |awards| =>
      if ActiveFor(awards[i], id) then RevokedAward(awards[i], reason, admin, now) else awards[i])
  }

  // ---- Scores ----

  function PointsFor(p: Policy, t: Tier): nat { if t in p.points then p.points[t] else p.default_ }

  /** The member's points under the policy over the first `n` records; reversed scores are included. */
  function TotalUpTo(s: Store, member: nat, policy: nat, n: nat): nat
    requires n <= |s.records|
  {
    if n == 0 then 0
    else TotalUpTo(s, member, policy, n - 1)
         + (if s.records[n - 1].contributor == Some(member) && s.records[n - 1].status.Accepted?
               && n - 1 in s.scores && s.scores[n - 1].policy == policy
            then s.scores[n - 1].points else 0)
  }

  /** The awards after the first `n` badge rules were considered. */
  function AwardsAfter(awards: seq<Award>, rules: seq<BadgeRule>, total: nat, member: nat, id: nat, n: nat): seq<Award>
    requires n <= |rules|
  {
    if n == 0 then awards
    else
      var before := AwardsAfter(awards, rules, total, member, id, n - 1);
      if total >= rules[n - 1].minimum then WithAward(before, rules[n - 1].badge, member, Some(id)) else before
  }

  /** `evaluate_accepted_contribution`; no policy stands for recognition being off too. */
  function Evaluate(s: Store, id: nat, policy: Option<Policy>): Result<Store, Error>
    requires id < |s.records|
  {
    var r := s.records[id];
    if !r.status.Accepted? || r.contributor.None? || policy.None? then Ok(s)
    else if policy.value.approver.None? then Err(NoApprover)
    else if id in s.scores then Ok(s)
    else
      var p := policy.value;
      var t := s.(scores := s.scores[id := Score(p.version, PointsFor(p, r.tier), None, "")]);
      var total := TotalUpTo(t, r.contributor.value, p.version, |t.records|);
      Ok(t.(awards := AwardsAfter(t.awards, p.badges, total, r.contributor.value, id, |p.badges|)))
  }

  function ReversedScore(x: Score, reason: string, now: int): Score {
    if x.reversedAt.Some? then x else x.(reversedAt := Some(now), reason := reason)
  }

  /** Reverses the contribution's score, if it has one, and every active award that cites it. */
  function Reverse(s: Store, id: nat, reason: string, admin: nat, now: int): Store {
    s.(scores := if id in s.scores then s.scores[id := ReversedScore(s.scores[id], reason, now)] else s.scores,
       awards := WithoutAwards(s.awards, id, reason, admin, now))
  }

  /** `recompute_scores` after the first `n` of the unscored accepted records the query returned, in its order. */
  function Recomputed(s: Store, queue: seq<nat>, p: Policy, cap: nat, n: nat): (Store, map<(nat, nat), nat>)
    requires n <= |queue|
  {
    if n == 0 then (s, map[])
    else
      var (t, used) := Recomputed(s, queue, p, cap, n - 1);
      var id := queue[n - 1];
      if !Scorable(t, id) then (t, used)
      else
        var key := (t.records[id].project, t.records[id].contributor.value);
        var count := if key in used then used[key] else 0;
        if count >= cap then (t, used)
        else (t.(scores := t.scores[id := Score(p.version, PointsFor(p, t.records[id].tier), None, "")]),
              used[key := count + 1])
  }

  predicate Scorable(s: Store, id: nat) {
    id < |s.records| && s.records[id].status.Accepted? && s.records[id].contributor.Some? && id !in s.scores
  }

  // ---- Verification and holds ----

  function NewCandidate(contributor: Option<nat>, project: nat, tier: Tier, withFile: bool): Record {
    Record(contributor, project, tier, if withFile then Unscanned else NoFile, Candidate, false, None, false)
  }

  /** `record_evidence_scan_result`; a failed scan quarantines the file. */
  function Scan(s: Store, id: nat, clean: bool): (Store, Outcome) {
    if id >= |s.records| then (s, Err(NoRecord))
    else if s.records[id].file.NoFile? then (s, Err(BadSelection))
    else (s.(records := s.records[id := s.records[id].(file := if clean then Clean else Quarantined)]), Ok(()))
  }

  datatype Decision = Accept | Reject | AskInfo

  function DecidedStatus(d: Decision): Status {
    match d
    case Accept => Accepted
    case Reject => Rejected
    case AskInfo => PendingInfo
  }

  /** `verify`; `allowed` covers who asks and the given reason, `selfApproved` the rule on one's own work. */
  function Verify(s: Store, id: nat, d: Decision, allowed: bool, selfApproved: bool, policy: Option<Policy>)
    : (Store, Outcome) {
    if id >= |s.records| then (s, Err(NoRecord))
    else
      var r := s.records[id];
      if !allowed then (s, Err(Unauthorized))
      else if r.status.Revoked? then (s, Err(BadStatus))
      else if r.holdActive then (s, Err(OnHold))
      else if d.Accept? && r.file in {Unscanned, Quarantined} then (s, Err(FilePending))
      else if r.status.Accepted? then (s, Err(BadStatus))
      else if !selfApproved then (s, Err(SelfApproval))
      else
        var t := s.(records := s.records[id := r.(status := DecidedStatus(d))]);
        if !d.Accept? then (t, Ok(()))
        else match Evaluate(t, id, policy)
          case Err(e) => (s, Err(e))
          case Ok(u) => (u, Ok(()))
  }

  function RevokeRecord(s: Store, id: nat, allowed: bool, reason: string, admin: nat, now: int): (Store, Outcome) {
    if id >= |s.records| then (s, Err(NoRecord))
    else if !allowed then (s, Err(Unauthorized))
    else if !s.records[id].status.Accepted? then (s, Err(BadStatus))
    else (Reverse(s.(records := s.records[id := s.records[id].(status := Revoked)]), id, reason, admin, now), Ok(()))
  }

  function Held(r: Record): Record { r.(holdActive := true, heldFrom := Some(r.status), responded := false) }

  predicate Holdable(r: Record) { !r.holdActive && Unscored(r.status) }

  function Hold(s: Store, id: nat, allowed: bool): (Store, Outcome) {
    if id >= |s.records| then (s, Err(NoRecord))
    else if !allowed then (s, Err(Unauthorized))
    else if !Holdable(s.records[id]) then (s, Err(BadStatus))
    else (s.(records := s.records[id := Held(s.records[id])]), Ok(()))
  }

  predicate Releasable(r: Record) { r.holdActive && r.heldFrom.Some? && Unscored(r.heldFrom.value) }

  function Released(r: Record): Record { r.(holdActive := false) }

  function Release(s: Store, id: nat, allowed: bool): (Store, Outcome) {
    if id >= |s.records| then (s, Err(NoRecord))
    else if !allowed then (s, Err(Unauthorized))
    else if !Releasable(s.records[id]) then (s, Err(BadStatus))
    else (s.(records := s.records[id := Released(s.records[id])]), Ok(()))
  }

  function Respond(s: Store, id: nat, member: nat): (Store, Outcome) {
    if id >= |s.records| then (s, Err(NoRecord))
    else if s.records[id].contributor != Some(member) then (s, Err(Unauthorized))
    else if !s.records[id].holdActive || s.records[id].responded then (s, Err(BadStatus))
    else (s.(records := s.records[id := s.records[id].(responded := true)]), Ok(()))
  }

  // ---- Corrections ----

  /** The awards that cite one of the covered contributions. */
  predicate Cites(a: Award, covered: seq<nat>) { a.contribution.Some? && a.contribution.value in covered }

  function ViewScore(x: Score): ScoreView { ScoreView(x.points, x.reversedAt, x.reason) }

  function ViewAward(a: Award): AwardView { AwardView(a.contribution, a.active, a.reason, a.revokedBy, a.revokedAt) }

  function AwardViews(awards: seq<Award>, covered: seq<nat>): map<nat, AwardView> {
    map i: nat | i < |awards| && Cites(awards[i], covered) :: ViewAward(awards[i])
  }

  function ScoreViews(scores: map<nat, Score>, covered: seq<nat>): map<nat, ScoreView> {
    map id | id in covered && id in scores :: ViewScore(scores[id])
  }

  /** `_recognition_snapshot`. */
  function Snap(s: Store, covered: seq<nat>): Snapshot
    requires forall id | id in covered :: id < |s.records|
  {
    Snapshot(
      map id | id in covered :: HoldView(s.records[id].holdActive, s.records[id].heldFrom),
      ScoreViews(s.scores, covered),
      AwardViews(s.awards, covered))
  }

  predicate Distinct(ids: seq<nat>) { forall i, j | 0 <= i < j < |ids| :: ids[i] != ids[j] }

  /** The selected records in order of their key. */
  function Ordered(ids: seq<nat>, n: nat): seq<nat> {
    if n == 0 then [] else Ordered(ids, n - 1) + (if n - 1 in ids then [n - 1] else [])
  }

  /** A correction asked for: `textsGiven` is whether reason, basis and notice are all present and valid. */
  datatype Request = Request(kind: Kind, ids: seq<nat>, points: Option<nat>, textsGiven: bool, reason: string,
                             actor: nat)

  predicate ValidRequest(s: Store, q: Request) {
    && q.ids != [] && Distinct(q.ids) && q.textsGiven
    && (forall id | id in q.ids :: id < |s.records| && s.records[id].contributor.Some?)
    && q.ids[0] < |s.records|
    && (forall id | id in q.ids :: s.records[id].contributor == s.records[q.ids[0]].contributor)
    && (q.kind.Consolidate? ==> |q.ids| >= 2)
    && (q.kind.AdjustScore? ==> |q.ids| == 1)
    && (q.kind.Consolidate? || q.kind.AdjustScore? ==> q.points.Some?)
  }

  function ReleaseAll(s: Store, covered: seq<nat>, n: nat): (t: Store)
    requires n <= |covered| && forall id | id in covered :: id < |s.records|
    ensures |t.records| == |s.records|
  {
    if n == 0 then s
    else var t := ReleaseAll(s, covered, n - 1);
         assert covered[n - 1] in covered;
         t.(records := t.records[covered[n - 1] := Released(t.records[covered[n - 1]])])
  }

  /** Reverses the scores and awards of `covered[from..n]`. */
  function ReverseAll(s: Store, covered: seq<nat>, from: nat, n: nat, reason: string, admin: nat, now: int): (t: Store)
    requires from <= n <= |covered|
    ensures t.records == s.records && t.corrections == s.corrections && |t.awards| == |s.awards|
    decreases n
  {
    if n == from then s else Reverse(ReverseAll(s, covered, from, n - 1, reason, admin, now), covered[n - 1], reason,
                                     admin, now)
  }

  function WithPoints(s: Store, id: nat, points: nat): Store {
    if id in s.scores then s.(scores := s.scores[id := s.scores[id].(points := points)]) else s
  }

  /** `_apply_correction_state`; Err where it raises. */
  function Change(s: Store, q: Request, covered: seq<nat>, now: int): (r: Result<Store, Error>)
    requires covered != [] && forall id | id in covered :: id < |s.records|
    ensures r.Ok? ==> |r.value.records| == |s.records|
  {
    if q.kind.ReleaseHeld? then
      if exists id | id in covered :: !Releasable(s.records[id]) || s.records[id].responded then Err(NotReversible)
      else Ok(ReleaseAll(s, covered, |covered|))
    else if exists id | id in covered :: id !in s.scores || s.scores[id].reversedAt.Some? then Err(NotReversible)
    else if q.kind.AdjustScore? then Ok(WithPoints(s, covered[0], q.points.GetOr(0)))
    else if q.kind.Consolidate?
    then Ok(ReverseAll(WithPoints(s, covered[0], q.points.GetOr(0)), covered, 1, |covered|, q.reason, q.actor, now))
    else Ok(ReverseAll(s, covered, 0, |covered|, q.reason, q.actor, now))
  }

  function Apply(s: Store, q: Request, allowed: bool, now: int): (Store, Outcome) {
    if !allowed then (s, Err(Unauthorized))
    else if !ValidRequest(s, q) then (s, Err(BadSelection))
    else
      var covered := Ordered(q.ids, |s.records|);
      OrderedIsSelection(q.ids, |s.records|);
      assert q.ids[0] in covered;
      match Change(s, q, covered, now)
      case Err(e) => (s, Err(e))
      case Ok(t) =>
        var c := Correction(q.kind, covered, s.records[q.ids[0]].contributor.value, q.reason, q.actor,
                            Snap(s, covered), Snap(t, covered), Applied);
        (t.(corrections := t.corrections + [c]), Ok(()))
  }

  lemma {:induction false} OrderedIsSelection(ids: seq<nat>, n: nat)
    ensures forall id :: id in Ordered(ids, n) <==> id in ids && id < n
  {
    if n > 0 { OrderedIsSelection(ids, n - 1); }
  }

  /** `appeal_correction`; `allowed` is whether the member is the affected one, in time and gives grounds. */
  function Appeal(s: Store, k: nat, allowed: bool): (Store, Outcome) {
    if k >= |s.corrections| then (s, Err(NoRecord))
    else if !allowed then (s, Err(Unauthorized))
    else if !s.corrections[k].status.Applied? then (s, Err(NotAppealable))
    else (s.(corrections := s.corrections[k := s.corrections[k].(status := Appealed)]), Ok(()))
  }

  function HoldAll(s: Store, covered: seq<nat>, n: nat): (t: Store)
    requires n <= |covered| && forall id | id in covered :: id < |s.records|
    ensures |t.records| == |s.records| && t.corrections == s.corrections
  {
    if n == 0 then s
    else var t := HoldAll(s, covered, n - 1);
         assert covered[n - 1] in covered;
         t.(records := t.records[covered[n - 1] := Held(t.records[covered[n - 1]])])
  }

  /** The scores with those of the first `n` covered contributions put back. */
  function ScoresRestored(scores: map<nat, Score>, covered: seq<nat>, before: map<nat, ScoreView>, n: nat)
    : map<nat, Score>
    requires n <= |covered|
  {
    if n == 0 then scores
    else
      var done := ScoresRestored(scores, covered, before, n - 1);
      var id := covered[n - 1];
      if id in done && id in before
      then done[id := RestoredScore(done[id], before[id])]
      else done
  }

  function RestoredScore(x: Score, v: ScoreView): Score {
    x.(points := v.points, reversedAt := v.reversedAt, reason := v.reason)
  }

  function RestoredAward(a: Award, v: AwardView): Award {
    a.(active := v.active, reason := v.reason, revokedBy := v.revokedBy, revokedAt := v.revokedAt)
  }

  /** The first `n` awards put back; Err where one is unknown to the snapshot or becomes a second active one. */
  function AwardsRestored(awards: seq<Award>, covered: seq<nat>, before: map<nat, AwardView>, n: nat)
    : Result<seq<Award>, Error>
    requires n <= |awards|
  {
    if n == 0 then Ok(awards)
    else match AwardsRestored(awards, covered, before, n - 1)
      case Err(e) => Err(e)
      case Ok(done) =>
        var i := n - 1;
        if i >= |done| || !Cites(done[i], covered) then Ok(done)
        else if i !in before then Err(StateConflict)
        else if before[i].active && HasActive(done[i := done[i].(active := false)], done[i].badge, done[i].recipient)
        then Err(UniquenessViolated)
        else Ok(done[i := RestoredAward(done[i], before[i])])
  }

  /** `_restore_correction_state`; Err where it raises. */
  function PutBack(s: Store, c: Correction): Result<Store, Error>
    requires forall id | id in c.covered :: id < |s.records|
  {
    if c.kind.ReleaseHeld? then
      if exists id | id in c.covered :: !Holdable(s.records[id]) then Err(StateConflict)
      else Ok(HoldAll(s, c.covered, |c.covered|))
    else if exists id | id in c.covered :: id in s.scores && id !in c.before.scores then Err(StateConflict)
    else match AwardsRestored(s.awards, c.covered, c.before.awards, |s.awards|)
      case Err(e) => Err(e)
      case Ok(awards) =>
        Ok(s.(scores := ScoresRestored(s.scores, c.covered, c.before.scores, |c.covered|), awards := awards))
  }

  /**
   * `resolve_correction_appeal`. Without a pending appeal the outcome is recorded all the same, and only then
   * does the call raise.
   */
  function Resolve(s: Store, k: nat, outcome: CorrectionStatus, allowed: bool, actor: nat): (Store, Outcome) {
    if k >= |s.corrections| then (s, Err(NoRecord))
    else
      var c := s.corrections[k];
      if !allowed || !(outcome.Upheld? || outcome.Overturned?) then (s, Err(Unauthorized))
      else if c.appliedBy == actor then (s, Err(SamePerson))
      else
        var recorded := s.corrections[k := c.(status := outcome)];
        if !c.status.Appealed? then (s.(corrections := recorded), Err(NoPendingAppeal))
        else if outcome.Upheld? then (s.(corrections := recorded), Ok(()))
        else if (exists id | id in c.covered :: id >= |s.records|) || Snap(s, c.covered) != c.after
          then (s, Err(StateConflict))
        else match PutBack(s, c)
          case Err(e) => (s, Err(e))
          case Ok(t) => (t.(corrections := recorded), Ok(()))
  }

  // ---- Runs ----

  datatype Step =
    | NewRecord(contributor: Option<nat>, project: nat, tier: Tier, withFile: bool)
    | DoScan(id: nat, clean: bool)
    | DoVerify(id: nat, decision: Decision, allowed: bool, selfApproved: bool, policy: Option<Policy>)
    | DoRevoke(id: nat, allowed: bool, reason: string, admin: nat, now: int)
    | DoHold(id: nat, allowed: bool)
    | DoRelease(id: nat, allowed: bool)
    | DoRespond(id: nat, member: nat)
    | DoRecompute(queue: seq<nat>, active: Policy, cap: nat)
    | DoAward(badge: nat, recipient: nat, contribution: Option<nat>)
    | DoRevokeAward(award: nat, reason: string, admin: nat, now: int)
    | DoApply(request: Request, allowed: bool, now: int)
    | DoAppeal(correction: nat, allowed: bool)
    | DoResolve(correction: nat, outcome: CorrectionStatus, allowed: bool, actor: nat)

  function RevokeAward(s: Store, i: nat, reason: string, admin: nat, now: int): Store {
    if i < |s.awards| && s.awards[i].active
      then s.(awards := s.awards[i := RevokedAward(s.awards[i], reason, admin, now)]) else s
  }

  function Next(s: Store, step: Step): Store {
    match step
    case NewRecord(c, p, t, f) => s.(records := s.records + [NewCandidate(c, p, t, f)])
    case DoScan(id, clean) => Scan(s, id, clean).0
    case DoVerify(id, d, allowed, self, policy) => Verify(s, id, d, allowed, self, policy).0
    case DoRevoke(id, allowed, reason, admin, now) => RevokeRecord(s, id, allowed, reason, admin, now).0
    case DoHold(id, allowed) => Hold(s, id, allowed).0
    case DoRelease(id, allowed) => Release(s, id, allowed).0
    case DoRespond(id, member) => Respond(s, id, member).0
    case DoRecompute(queue, p, cap) => Recomputed(s, queue, p, cap, |queue|).0
    case DoAward(badge, recipient, contribution) =>
      if contribution.Some? && contribution.value >= |s.records| then s
      else s.(awards := WithAward(s.awards, badge, recipient, contribution))
    case DoRevokeAward(i, reason, admin, now) => RevokeAward(s, i, reason, admin, now)
    case DoApply(q, allowed, now) => Apply(s, q, allowed, now).0
    case DoAppeal(k, allowed) => Appeal(s, k, allowed).0
    case DoResolve(k, outcome, allowed, actor) => Resolve(s, k, outcome, allowed, actor).0
  }

  function Run(s: Store, steps: seq<Step>): Store
    decreases |steps|
  {
    if steps == [] then s else Run(Next(s, steps[0]), steps[1..])
  }
}
