/** Applying a correction, any run of calls, and overturning the appeal against it. */
module CorrectionUndo {
  import opened Common
  import opened Recognition
  import opened Corrections
  import opened CorrectionRuns

  ghost predicate InRange(s: Store, covered: seq<nat>) { forall id | id in covered :: id < |s.records| }

  /** Correction `k` of `u` is the one applied in `s`, with an appeal pending and someone else to decide it. */
  ghost predicate Pending(s: Store, q: Request, u: Store, actor: nat) {
    |s.corrections| < |u.corrections| && u.corrections[|s.corrections|].status.Appealed? && actor != q.actor
  }

  /** What the correction applied in `s` still says after any run. */
  lemma CorrectionPersists(s: Store, q: Request, now: int, steps: seq<Step>)
    requires StoreOk(s) && Apply(s, q, true, now).1.Ok?
    ensures var a := Apply(s, q, true, now).0; var u := Run(a, steps); var covered := Ordered(q.ids, |s.records|);
            && StoreOk(a) && StoreOk(u) && Kept(s, a) && Kept(a, u)
            && InRange(s, covered) && InRange(a, covered) && InRange(u, covered) && covered != []
            && |s.corrections| < |a.corrections| <= |u.corrections|
            && (var c := u.corrections[|s.corrections|];
                c.kind == q.kind && c.covered == covered && c.appliedBy == q.actor && CorrectionOk(u, c)
                && c.before == Snap(s, covered) && c.after == Snap(a, covered))
  {
    var a := Apply(s, q, true, now).0;
    var covered := Ordered(q.ids, |s.records|);
    OrderedIsSelection(q.ids, |s.records|);
    assert q.ids[0] in covered;
    ApplyKeeps(s, q, true, now);
    AppliedCorrectionOk(s, q, now);
    assert Snap(a, covered) == Snap(Change(s, q, covered, now).value, covered);
    RunKeeps(a, steps);
    hide Change, ValidRequest, Snap, Run, HoldOk, UniqueActive, CorrectionOk, SameAward;
  }

  /**
   * Overturning succeeds exactly when nothing the correction covers changed since it was applied and no badge it took
   * away was granted to the member again. It then puts the covered scores and awards back as they were before the
   * correction and leaves all other scores and awards, and every record, alone; otherwise it changes nothing.
   */
  lemma OverturnUndoes(s: Store, q: Request, now: int, steps: seq<Step>, actor: nat)
    requires StoreOk(s) && !q.kind.ReleaseHeld? && Apply(s, q, true, now).1.Ok?
    requires Pending(s, q, Run(Apply(s, q, true, now).0, steps), actor)
    ensures var a := Apply(s, q, true, now).0; var u := Run(a, steps); var k := |s.corrections|;
            var covered := Ordered(q.ids, |s.records|);
            var (t, out) := Resolve(u, k, Overturned, true, actor);
            && InRange(s, covered) && InRange(a, covered) && InRange(u, covered) && InRange(t, covered)
            && (out.Ok? <==> Snap(u, covered) == Snap(a, covered) && !Regranted(u, u.corrections[k]))
            && (out.Ok? ==> Snap(t, covered) == Snap(s, covered) && SameElsewhere(u, t, covered))
            && (out.Err? ==> t == u)
  {
    CorrectionPersists(s, q, now, steps);
    hide Apply, Run, Snap, Resolve, StoreOk, Kept, CorrectionOk, SameElsewhere, Regranted;
    var u := Run(Apply(s, q, true, now).0, steps);
    ResolveOverturned(u, |s.corrections|, actor);
  }

  lemma ResolveOverturned(u: Store, k: nat, actor: nat)
    requires StoreOk(u) && k < |u.corrections| && !u.corrections[k].kind.ReleaseHeld?
    requires u.corrections[k].status.Appealed? && u.corrections[k].appliedBy != actor
    ensures var c := u.corrections[k]; var (t, out) := Resolve(u, k, Overturned, true, actor);
            && InRange(u, c.covered) && |t.records| == |u.records|
            && (out.Ok? <==> Snap(u, c.covered) == c.after && !Regranted(u, c))
            && (out.Ok? ==> Snap(t, c.covered) == c.before && SameElsewhere(u, t, c.covered))
            && (out.Err? ==> t == u)
  {
    var c := u.corrections[k];
    hide StoreOk, PutBack, Regranted, CorrectionOk, Snap, SnapshotsOk, BeforeUnique, SameElsewhere;
    OneCorrectionOk(u, k);
    if Untouched(u, c) { PutBackUndoes(u, c); }
  }

  lemma OneCorrectionOk(u: Store, k: nat)
    requires StoreOk(u) && k < |u.corrections|
    ensures CorrectionOk(u, u.corrections[k]) && InRange(u, u.corrections[k].covered)
  {
    hide UniqueActive, SnapshotsOk, BeforeUnique;
  }

  /** The covered records have the status they had when the correction was applied. */
  ghost predicate SameStatus(s: Store, u: Store, covered: seq<nat>)
    requires InRange(s, covered) && InRange(u, covered)
  {
    forall id | id in covered :: u.records[id].status == s.records[id].status
  }

  /**
   * Overturning the release of holds holds the records again from the status they have now; that is the state before
   * the release exactly when no status changed in between.
   */
  lemma OverturnHoldsAgain(s: Store, q: Request, now: int, steps: seq<Step>, actor: nat)
    requires StoreOk(s) && q.kind.ReleaseHeld? && Apply(s, q, true, now).1.Ok?
    requires Pending(s, q, Run(Apply(s, q, true, now).0, steps), actor)
    ensures var a := Apply(s, q, true, now).0; var u := Run(a, steps);
            var covered := Ordered(q.ids, |s.records|);
            var (t, out) := Resolve(u, |s.corrections|, Overturned, true, actor);
            && InRange(s, covered) && InRange(a, covered) && InRange(u, covered) && InRange(t, covered)
            && (out.Ok? <==>
                Snap(u, covered) == Snap(a, covered) && forall id | id in covered :: Unscored(u.records[id].status))
            && (out.Ok? ==> (Snap(t, covered) == Snap(s, covered) <==> SameStatus(s, u, covered)))
            && (out.Ok? ==> t.scores == u.scores && t.awards == u.awards)
            && (out.Err? ==> t == u)
  {
    CorrectionPersists(s, q, now, steps);
    ReleasedView(s, q, now);
    hide Apply, Run, Snap, Resolve, StoreOk, Kept, CorrectionOk, SameStatus, Released;
    ResolveHeldAgain(s, Apply(s, q, true, now).0, Run(Apply(s, q, true, now).0, steps), |s.corrections|, actor);
  }

  lemma ResolveHeldAgain(s: Store, a: Store, u: Store, k: nat, actor: nat)
    requires StoreOk(s) && StoreOk(u) && k < |u.corrections| && u.corrections[k].kind.ReleaseHeld?
    requires u.corrections[k].status.Appealed? && u.corrections[k].appliedBy != actor
    requires var covered := u.corrections[k].covered;
             && InRange(s, covered) && InRange(a, covered) && u.corrections[k].after == Snap(a, covered)
             && a.scores == s.scores && a.awards == s.awards
             && forall id | id in covered :: s.records[id].holdActive && a.records[id] == Released(s.records[id])
    ensures var covered := u.corrections[k].covered; var (t, out) := Resolve(u, k, Overturned, true, actor);
            && InRange(u, covered) && |t.records| == |u.records|
            && (out.Ok? <==>
                Snap(u, covered) == Snap(a, covered) && forall id | id in covered :: Unscored(u.records[id].status))
            && (out.Ok? ==> (Snap(t, covered) == Snap(s, covered) <==> SameStatus(s, u, covered)))
            && (out.Ok? ==> t.scores == u.scores && t.awards == u.awards)
            && (out.Err? ==> t == u)
  {
    var c := u.corrections[k];
    assert CorrectionOk(u, c);
    HeldPutBack(u, c);
    if Untouched(u, c) {
      StillReleased(a, u, c.covered);
      forall id | id in c.covered ensures Holdable(u.records[id]) <==> Unscored(u.records[id].status) {
        assert !a.records[id].holdActive;
      }
      if PutBack(u, c).Ok? { HeldAgainView(s, u, PutBack(u, c).value, c.covered); }
    }
    hide StoreOk, CorrectionOk, PutBack, SameStatus, ScoreViews, AwardViews, Released, Held, Holdable, Unscored;
  }

  lemma HeldPutBack(u: Store, c: Correction)
    requires InRange(u, c.covered) && c.kind.ReleaseHeld?
    ensures PutBack(u, c).Ok? <==> forall id | id in c.covered :: Holdable(u.records[id])
    ensures PutBack(u, c).Ok? ==> (var t := PutBack(u, c).value;
              t == u.(records := t.records) && |t.records| == |u.records|
              && forall id | id in c.covered :: t.records[id] == Held(u.records[id]))
  {
    AllHeld(u, c.covered);
    hide Holdable, Held, HoldAll;
  }

  /** Releasing holds changes no score or award and leaves every covered record free. */
  lemma ReleasedView(s: Store, q: Request, now: int)
    requires StoreOk(s) && q.kind.ReleaseHeld? && Apply(s, q, true, now).1.Ok?
    ensures var a := Apply(s, q, true, now).0; var covered := Ordered(q.ids, |s.records|);
            && a.scores == s.scores && a.awards == s.awards && |a.records| == |s.records| && InRange(s, covered)
            && (forall id | id in covered :: s.records[id].holdActive && a.records[id] == Released(s.records[id]))
  {
    var covered := Ordered(q.ids, |s.records|);
    OrderedIsSelection(q.ids, |s.records|);
    assert q.ids[0] in covered;
    AllReleased(s, covered);
    hide StoreOk, Snap, ReleaseAll;
  }

  lemma StillReleased(a: Store, u: Store, covered: seq<nat>)
    requires InRange(a, covered) && InRange(u, covered) && Snap(u, covered) == Snap(a, covered)
    ensures ScoreViews(u.scores, covered) == ScoreViews(a.scores, covered)
    ensures AwardViews(u.awards, covered) == AwardViews(a.awards, covered)
    ensures forall id | id in covered ::
            u.records[id].holdActive == a.records[id].holdActive && u.records[id].heldFrom == a.records[id].heldFrom
  {
    forall id | id in covered
      ensures u.records[id].holdActive == a.records[id].holdActive && u.records[id].heldFrom == a.records[id].heldFrom
    {
      assert id in Snap(u, covered).holds && Snap(u, covered).holds[id] == Snap(a, covered).holds[id];
    }
    hide ScoreViews, AwardViews;
  }

  lemma HeldAgainView(s: Store, u: Store, w: Store, covered: seq<nat>)
    requires StoreOk(s) && InRange(s, covered) && InRange(u, covered) && |w.records| == |u.records|
    requires ScoreViews(w.scores, covered) == ScoreViews(s.scores, covered)
             && AwardViews(w.awards, covered) == AwardViews(s.awards, covered)
    requires forall id | id in covered :: s.records[id].holdActive && w.records[id] == Held(u.records[id])
    ensures Snap(w, covered) == Snap(s, covered) <==> SameStatus(s, u, covered)
  {
    forall id | id in covered
      ensures HoldView(w.records[id].holdActive, w.records[id].heldFrom)
              == HoldView(s.records[id].holdActive, s.records[id].heldFrom)
              <==> u.records[id].status == s.records[id].status
    {
      assert HoldOk(s.records[id]);
    }
    if Snap(w, covered) == Snap(s, covered) {
      forall id | id in covered ensures u.records[id].status == s.records[id].status {
        assert id in Snap(w, covered).holds && Snap(w, covered).holds[id] == Snap(s, covered).holds[id];
      }
    }
    hide ScoreViews, AwardViews, StoreOk, HoldOk;
  }

  /** Without a pending appeal the call raises, yet the outcome is recorded and nothing else changes. */
  lemma OutcomeWithoutAppeal(s: Store, k: nat, outcome: CorrectionStatus, actor: nat)
    requires k < |s.corrections| && s.corrections[k].appliedBy != actor && (outcome.Upheld? || outcome.Overturned?)
    ensures var (t, out) := Resolve(s, k, outcome, true, actor);
            && (out == Err(NoPendingAppeal) <==> !s.corrections[k].status.Appealed?)
            && (out == Err(NoPendingAppeal) ==>
                t == s.(corrections := t.corrections) && t.corrections[k].status == outcome)
  {
    var c := s.corrections[k];
    if c.status.Appealed? && outcome.Overturned? && Untouched(s, c) { PutBackError(s, c); }
    hide PutBack, Snap;
  }

  lemma PutBackError(s: Store, c: Correction)
    requires InRange(s, c.covered)
    ensures PutBack(s, c).Err? ==> PutBack(s, c).error in {StateConflict, UniquenessViolated}
  {
    AwardsError(s.awards, c.covered, c.before.awards, |s.awards|);
  }

  lemma {:induction false} AwardsError(awards: seq<Award>, covered: seq<nat>, before: map<nat, AwardView>, n: nat)
    requires n <= |awards|
    ensures var r := AwardsRestored(awards, covered, before, n);
            r.Err? ==> r.error in {StateConflict, UniquenessViolated}
  {
    if n > 0 { AwardsError(awards, covered, before, n - 1); }
  }

  // ---- Credit of revoked contributions ----

  /** No unreversed score and no active award cites a revoked contribution. */
  ghost predicate NoRevokedCredit(s: Store) {
    && (forall id | id in s.scores && id < |s.records| && s.records[id].status.Revoked? ::
        s.scores[id].reversedAt.Some?)
    && (forall i | 0 <= i < |s.awards| && s.awards[i].active && s.awards[i].contribution.Some? ::
        !IsRevoked(s, s.awards[i].contribution.value))
  }

  predicate IsRevoked(s: Store, id: nat) { id < |s.records| && s.records[id].status.Revoked? }

  /**
   * The two calls that credit a revoked contribution: an overturned appeal that goes through and covers one, since the
   * snapshots leave the status out, and a badge given by hand for one.
   */
  ghost predicate Reinstates(s: Store, step: Step) {
    match step
    case DoResolve(k, outcome, allowed, actor) =>
      && Overturns(s, k, outcome, allowed, actor) && !s.corrections[k].kind.ReleaseHeld?
        && !Regranted(s, s.corrections[k])
      && exists id | id in s.corrections[k].covered :: IsRevoked(s, id)
    case DoAward(badge, recipient, contribution) =>
      contribution.Some? && IsRevoked(s, contribution.value) && !HasActive(s.awards, badge, recipient)
    case _ => false
  }

  /** Credit that was only added for records that are not revoked, or was taken away. */
  lemma CreditAdded(s: Store, t: Store)
    requires StoreOk(s) && NoRevokedCredit(s) && |s.awards| <= |t.awards|
    requires forall id :: IsRevoked(t, id) ==> IsRevoked(s, id)
    requires forall id | id in t.scores && t.scores[id].reversedAt.None?
             && !(id in s.scores && s.scores[id].reversedAt.None?) :: !IsRevoked(t, id)
    requires forall i | 0 <= i < |s.awards| :: AwardLessened(s.awards[i], t.awards[i])
    requires forall i | |s.awards| <= i < |t.awards| && t.awards[i].contribution.Some? ::
             !IsRevoked(t, t.awards[i].contribution.value)
    ensures NoRevokedCredit(t)
  {
    forall i | 0 <= i < |t.awards| && t.awards[i].active && t.awards[i].contribution.Some?
      ensures !IsRevoked(t, t.awards[i].contribution.value)
    {
      if i < |s.awards| {
        assert AwardLessened(s.awards[i], t.awards[i]);
        assert !IsRevoked(s, s.awards[i].contribution.value);
      }
    }
    forall id | id in t.scores && IsRevoked(t, id) ensures t.scores[id].reversedAt.Some? {
      assert IsRevoked(s, id);
    }
    hide StoreOk;
  }

  lemma VerifyCredit(s: Store, id: nat, d: Decision, allowed: bool, self: bool, policy: Option<Policy>)
    requires StoreOk(s) && NoRevokedCredit(s)
    ensures NoRevokedCredit(Verify(s, id, d, allowed, self, policy).0)
  {
    var t := Verify(s, id, d, allowed, self, policy).0;
    if t != s {
      var r := s.records[id].(status := DecidedStatus(d));
      var u := s.(records := s.records[id := r]);
      RecordKeeps(s, id, r);
      if d.Accept? { EvaluateKeeps(u, id, policy); }
      hide Verify, Evaluate, StoreOk, Kept;
      assert t.records == u.records;
      CreditAdded(s, t);
    }
    hide NoRevokedCredit, StoreOk, Kept;
  }

  lemma RevokeCredit(s: Store, id: nat, allowed: bool, reason: string, admin: nat, now: int)
    requires StoreOk(s) && NoRevokedCredit(s)
    ensures NoRevokedCredit(RevokeRecord(s, id, allowed, reason, admin, now).0)
  {
    var t := RevokeRecord(s, id, allowed, reason, admin, now).0;
    if t != s {
      var u := s.(records := s.records[id := s.records[id].(status := Revoked)]);
      RecordKeeps(s, id, s.records[id].(status := Revoked));
      ReverseKeeps(u, id, reason, admin, now);
      assert t == Reverse(u, id, reason, admin, now);
      hide Reverse, RevokeRecord, StoreOk, Kept;
      forall i | 0 <= i < |t.awards| && t.awards[i].active && t.awards[i].contribution.Some?
        ensures !IsRevoked(t, t.awards[i].contribution.value)
      {
        assert !ActiveFor(t.awards[i], id) && AwardLessened(s.awards[i], t.awards[i]);
        assert !IsRevoked(s, s.awards[i].contribution.value);
      }
    }
  }

  lemma ApplyCredit(s: Store, q: Request, allowed: bool, now: int)
    requires StoreOk(s) && NoRevokedCredit(s)
    ensures NoRevokedCredit(Apply(s, q, allowed, now).0)
  {
    var (t, out) := Apply(s, q, allowed, now);
    if out.Ok? {
      var covered := Ordered(q.ids, |s.records|);
      OrderedIsSelection(q.ids, |s.records|);
      assert q.ids[0] in covered;
      var u := Change(s, q, covered, now).value;
      assert t.records == u.records && t.scores == u.scores && t.awards == u.awards;
      hide Apply, Snap, ValidRequest, NoRevokedCredit;
      if q.kind.ReleaseHeld? {
        AllReleased(s, covered);
        ReleasedAllOk(s, covered);
        hide ReleaseAll, StoreOk;
        forall id ensures IsRevoked(t, id) ==> IsRevoked(s, id) {}
      } else {
        ChangeLessens(s, q, covered, now);
        hide Change, StoreOk;
      }
      CreditAdded(s, t);
    }
  }

  /** An overturned appeal that goes through leaves every covered score counting again. */
  lemma ResolveCredit(s: Store, k: nat, outcome: CorrectionStatus, allowed: bool, actor: nat)
    requires StoreOk(s) && NoRevokedCredit(s)
    ensures NoRevokedCredit(Resolve(s, k, outcome, allowed, actor).0) <==>
            !Reinstates(s, DoResolve(k, outcome, allowed, actor))
  {
    var t := Resolve(s, k, outcome, allowed, actor).0;
    if k < |s.corrections| && Overturns(s, k, outcome, allowed, actor) {
      OneCorrectionOk(s, k);
      if s.corrections[k].kind.ReleaseHeld? { HeldAgainCredit(s, k, actor); } else { PutBackCredit(s, k, actor); }
      hide StoreOk, NoRevokedCredit, Resolve, Regranted;
    } else {
      assert t.records == s.records && t.scores == s.scores && t.awards == s.awards;
      hide StoreOk, Resolve, PutBack, Snap, Regranted;
    }
  }

  lemma HeldAgainCredit(s: Store, k: nat, actor: nat)
    requires StoreOk(s) && NoRevokedCredit(s) && Overturns(s, k, Overturned, true, actor)
             && s.corrections[k].kind.ReleaseHeld?
    requires InRange(s, s.corrections[k].covered)
    ensures NoRevokedCredit(Resolve(s, k, Overturned, true, actor).0)
  {
    var c := s.corrections[k];
    var t := Resolve(s, k, Overturned, true, actor).0;
    AllHeld(s, c.covered);
    hide HoldAll, StoreOk, Snap, NoRevokedCredit;
    assert t.scores == s.scores && t.awards == s.awards;
    forall id ensures IsRevoked(t, id) ==> IsRevoked(s, id) {}
    CreditAdded(s, t);
  }

  lemma PutBackCredit(s: Store, k: nat, actor: nat)
    requires StoreOk(s) && NoRevokedCredit(s) && Overturns(s, k, Overturned, true, actor)
             && !s.corrections[k].kind.ReleaseHeld?
    requires CorrectionOk(s, s.corrections[k])
    ensures NoRevokedCredit(Resolve(s, k, Overturned, true, actor).0)
            <==> Regranted(s, s.corrections[k]) || !(exists id | id in s.corrections[k].covered :: IsRevoked(s, id))
  {
    var c := s.corrections[k];
    var t := Resolve(s, k, Overturned, true, actor).0;
    ResolveOverturned(s, k, actor);
    PutBackUndoes(s, c);
    UntouchedKnown(s, c);
    assert forall id | id in c.covered :: c.before.scores[id].reversedAt.None?;
    hide StoreOk, PutBack, SameElsewhere, Known, CorrectionOk, NoRevokedCredit, Regranted, Resolve;
    if !Regranted(s, c) { OverturnedCredit(s, t, c); } else { assert t == s; }
    hide Snap;
  }

  lemma OverturnedCredit(s: Store, t: Store, c: Correction)
    requires StoreOk(s) && NoRevokedCredit(s) && c.covered != [] && InRange(s, c.covered)
    requires SameElsewhere(s, t, c.covered) && ScoreViews(t.scores, c.covered) == c.before.scores
    requires forall id | id in c.covered ::
             id in s.scores && id in c.before.scores && c.before.scores[id].reversedAt.None?
    ensures NoRevokedCredit(t) <==> !(exists id | id in c.covered :: IsRevoked(s, id))
  {
    forall id | id in c.covered ensures id in t.scores && t.scores[id].reversedAt.None? {
      assert id in ScoreViews(t.scores, c.covered);
    }
    if id :| id in c.covered && IsRevoked(s, id) {
      assert t.scores[id].reversedAt.None?;
    } else {
      forall i | 0 <= i < |t.awards| && t.awards[i].active && t.awards[i].contribution.Some?
        ensures !IsRevoked(t, t.awards[i].contribution.value)
      {
        OverturnedAwardCredit(s, t, c.covered, i);
      }
    }
    hide StoreOk, SameElsewhere, ScoreViews;
  }

  lemma OverturnedAwardCredit(s: Store, t: Store, covered: seq<nat>, i: nat)
    requires NoRevokedCredit(s) && SameElsewhere(s, t, covered)
    requires i < |t.awards| && t.awards[i].active && t.awards[i].contribution.Some?
    requires forall id | id in covered :: !IsRevoked(s, id)
    ensures !IsRevoked(t, t.awards[i].contribution.value)
  {
    assert SameAward(s.awards[i], t.awards[i]);
    if Cites(s.awards[i], covered) { assert t.awards[i].contribution.value in covered; }
  }

  lemma AwardingCredit(s: Store, step: Step)
    requires StoreOk(s) && NoRevokedCredit(s) && (step.DoAward? || step.DoRevokeAward?)
    ensures NoRevokedCredit(Next(s, step)) <==> !Reinstates(s, step)
  {
    var t := Next(s, step);
    if step.DoAward? && t != s {
      assert t.awards[|s.awards|].active;
      assert forall i | 0 <= i < |s.awards| :: t.awards[i] == s.awards[i];
    }
    hide HasActive, StoreOk;
  }

  /** A call keeps revoked contributions without credit exactly when it is not one of the two that give it back. */
  lemma StepCredit(s: Store, step: Step)
    requires StoreOk(s) && NoRevokedCredit(s)
    ensures NoRevokedCredit(Next(s, step)) <==> !Reinstates(s, step)
  {
    if step.DoAward? || step.DoRevokeAward? { AwardingCredit(s, step); }
    if step.NewRecord? { CreditAdded(s, Next(s, step)); }
    if step.DoScan? || step.DoHold? || step.DoRelease? || step.DoRespond? { CreditAdded(s, Next(s, step)); }
    if step.DoAppeal? { CreditAdded(s, Next(s, step)); }
    hide StoreOk, NoRevokedCredit, Scan, Verify, RevokeRecord, Hold, Release, Respond, Recomputed, Apply, Appeal,
      Resolve, RevokeAward, WithAward;
    match step
    case NewRecord(c, p, t, f) =>
    case DoScan(id, clean) =>
    case DoVerify(id, d, allowed, self, policy) => VerifyCredit(s, id, d, allowed, self, policy);
    case DoRevoke(id, allowed, reason, admin, now) => RevokeCredit(s, id, allowed, reason, admin, now);
    case DoHold(id, allowed) =>
    case DoRelease(id, allowed) =>
    case DoRespond(id, member) =>
    case DoRecompute(queue, p, cap) =>
      RecomputedKeeps(s, queue, p, cap, |queue|);
      CreditAdded(s, Next(s, step));
    case DoAward(badge, recipient, contribution) =>
    case DoRevokeAward(i, reason, admin, now) =>
    case DoApply(q, allowed, now) => ApplyCredit(s, q, allowed, now);
    case DoAppeal(k, allowed) =>
    case DoResolve(k, outcome, allowed, actor) => ResolveCredit(s, k, outcome, allowed, actor);
  }

  ghost predicate NeverCreditedThroughout(s: Store, steps: seq<Step>)
    decreases |steps|
  {
    NoRevokedCredit(s) && (steps == [] || NeverCreditedThroughout(Next(s, steps[0]), steps[1..]))
  }

  ghost predicate NeverReinstates(s: Store, steps: seq<Step>)
    decreases |steps|
  {
    steps == [] || (!Reinstates(s, steps[0]) && NeverReinstates(Next(s, steps[0]), steps[1..]))
  }

  /** In every state of a run revoked contributions carry no credit, exactly when no call of the run gives it back. */
  lemma {:induction false} RevokedCreditThroughout(s: Store, steps: seq<Step>)
    requires StoreOk(s) && NoRevokedCredit(s)
    ensures NeverCreditedThroughout(s, steps) <==> NeverReinstates(s, steps)
    decreases |steps|
  {
    if steps != [] {
      var t := Next(s, steps[0]);
      StepCredit(s, steps[0]);
      NextKeeps(s, steps[0]);
      if NoRevokedCredit(t) { RevokedCreditThroughout(t, steps[1..]); }
    }
    hide StoreOk, NoRevokedCredit, Next, Reinstates, Kept;
  }
}
