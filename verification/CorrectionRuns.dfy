// Runs over the recognition tables: what every call keeps, that an overturned correction is undone exactly or not
// at all whatever happened since, and when a revoked contribution can carry credit again.
module CorrectionRuns {
  import opened Common
  import opened Recognition
  import opened Corrections

  // ---- What every call keeps ----

  predicate HoldOk(r: Record) { r.holdActive ==> r.heldFrom == Some(r.status) && Unscored(r.status) }

  ghost predicate StoreOk(s: Store) {
    && (forall id | 0 <= id < |s.records| :: HoldOk(s.records[id]))
    && (forall id | id in s.scores :: id < |s.records|)
    && (forall i | 0 <= i < |s.awards| && s.awards[i].contribution.Some? ::
        s.awards[i].contribution.value < |s.records|)
    && UniqueActive(s.awards)
    && (forall k | 0 <= k < |s.corrections| :: CorrectionOk(s, s.corrections[k]))
  }

  /** Nothing is deleted, an award keeps who and what it is for, a correction only moves through its appeal. */
  ghost predicate Kept(s: Store, t: Store) {
    && |s.records| <= |t.records| && |s.awards| <= |t.awards| && |s.corrections| <= |t.corrections|
    && s.scores.Keys <= t.scores.Keys
    && (forall id | 0 <= id < |s.records| :: s.records[id].contributor == t.records[id].contributor)
    && (forall id | 0 <= id < |s.records| && s.records[id].status.Revoked? :: t.records[id].status.Revoked?)
    && (forall i | 0 <= i < |s.awards| :: SameAward(s.awards[i], t.awards[i]))
    && (forall k | 0 <= k < |s.corrections| :: t.corrections[k] == s.corrections[k].(status := t.corrections[k].status))
  }

  lemma KeptTransitive(s: Store, t: Store, u: Store)
    requires Kept(s, t) && Kept(t, u)
    ensures Kept(s, u)
  {
    forall i | 0 <= i < |s.awards| ensures SameAward(s.awards[i], u.awards[i]) {
      assert SameAward(s.awards[i], t.awards[i]) && SameAward(t.awards[i], u.awards[i]);
    }
    hide SameAward;
  }

  lemma CorrectionStaysOk(s: Store, t: Store, c: Correction, d: Correction)
    requires Kept(s, t) && CorrectionOk(s, c) && d == c.(status := d.status)
    ensures CorrectionOk(t, d)
  {
    if !c.kind.ReleaseHeld? {
      forall i, j | i in c.before.awards && j in c.before.awards && i != j && c.before.awards[i].active
        && c.before.awards[j].active
        ensures !SameKey(t.awards[i], t.awards[j])
      {
        assert SameAward(s.awards[i], t.awards[i]) && SameAward(s.awards[j], t.awards[j]);
        assert !SameKey(s.awards[i], s.awards[j]);
      }
    }
  }

  /** With the tables kept, the earlier corrections stay sound, so only new rows have to be looked at. */
  lemma KeptStaysOk(s: Store, t: Store)
    requires StoreOk(s) && Kept(s, t)
    ensures forall k | 0 <= k < |s.corrections| :: CorrectionOk(t, t.corrections[k])
  {
    forall k | 0 <= k < |s.corrections| ensures CorrectionOk(t, t.corrections[k]) {
      CorrectionStaysOk(s, t, s.corrections[k], t.corrections[k]);
    }
  }

  // ---- Awards stay unique while active ----

  lemma WithAwardUnique(awards: seq<Award>, badge: nat, recipient: nat, contribution: Option<nat>)
    requires UniqueActive(awards)
    ensures var t := WithAward(awards, badge, recipient, contribution);
            UniqueActive(t) && |awards| <= |t| && t[..|awards|] == awards && HasActive(t, badge, recipient)
            && (forall i | |awards| <= i < |t| :: t[i] == Award(badge, recipient, contribution, true, "", None, None))
  {
    if !HasActive(awards, badge, recipient) {
      var t := WithAward(awards, badge, recipient, contribution);
      assert t[|awards|].active;
    }
  }

  /** One of the first `n` rules gives this badge for the total. */
  predicate Earned(badge: nat, rules: seq<BadgeRule>, total: nat, n: nat)
    requires n <= |rules|
  {
    exists j | 0 <= j < n :: rules[j].badge == badge && total >= rules[j].minimum
  }

  /** Every badge whose minimum is reached ends up held; new awards are only for those, and cite the contribution. */
  lemma {:induction false} AwardsAfterUnique(awards: seq<Award>, rules: seq<BadgeRule>, total: nat, member: nat,
                                             id: nat, n: nat)
    requires UniqueActive(awards) && n <= |rules|
    ensures var t := AwardsAfter(awards, rules, total, member, id, n);
            UniqueActive(t) && |awards| <= |t| && t[..|awards|] == awards
            && (forall i | |awards| <= i < |t| ::
                t[i].contribution == Some(id) && t[i].recipient == member && t[i].active)
            && (forall i | |awards| <= i < |t| :: Earned(t[i].badge, rules, total, n))
            && (forall j | 0 <= j < n && total >= rules[j].minimum :: HasActive(t, rules[j].badge, member))
  {
    if n > 0 {
      AwardsAfterUnique(awards, rules, total, member, id, n - 1);
      var before := AwardsAfter(awards, rules, total, member, id, n - 1);
      if total >= rules[n - 1].minimum {
        WithAwardUnique(before, rules[n - 1].badge, member, Some(id));
        var t := WithAward(before, rules[n - 1].badge, member, Some(id));
        assert t[..|awards|] == t[..|before|][..|awards|];
        forall j | 0 <= j < n - 1 && total >= rules[j].minimum ensures HasActive(t, rules[j].badge, member) {
          var i :| 0 <= i < |before| && before[i].active && before[i].badge == rules[j].badge
            && before[i].recipient == member;
          assert t[..|before|][i] == t[i];
        }
      }
      hide UniqueActive, WithAward;
    }
  }

  /** Taking awards away, or one award back where no other active one stands, keeps them unique. */
  lemma LessenedUnique(awards: seq<Award>, t: seq<Award>)
    requires UniqueActive(awards) && |t| == |awards| && forall i | 0 <= i < |awards| :: AwardLessened(awards[i], t[i])
    ensures UniqueActive(t)
  {
    forall i, j | 0 <= i < j < |t| && t[i].active && t[j].active ensures !SameKey(t[i], t[j]) {
      assert AwardLessened(awards[i], t[i]) && AwardLessened(awards[j], t[j]);
      assert !SameKey(awards[i], awards[j]);
    }
  }

  lemma OneBackUnique(awards: seq<Award>, i: nat, a: Award)
    requires UniqueActive(awards) && i < |awards| && SameKey(a, awards[i])
    requires a.active ==> !HasActive(awards[i := awards[i].(active := false)], a.badge, a.recipient)
    ensures UniqueActive(awards[i := a])
  {
    var t, others := awards[i := a], awards[i := awards[i].(active := false)];
    forall j, k | 0 <= j < k < |t| && t[j].active && t[k].active ensures !SameKey(t[j], t[k]) {
      assert others[j].badge == t[j].badge && others[k].badge == t[k].badge;
      assert !SameKey(awards[j], awards[k]) || j == i || k == i;
    }
  }

  lemma {:induction false} RestoredUnique(awards: seq<Award>, covered: seq<nat>, before: map<nat, AwardView>, n: nat)
    requires UniqueActive(awards) && n <= |awards|
    ensures var r := AwardsRestored(awards, covered, before, n);
            r.Ok? ==> (UniqueActive(r.value) && |r.value| == |awards|
                       && forall i | 0 <= i < |awards| :: SameAward(awards[i], r.value[i]))
  {
    if n > 0 {
      RestoredUnique(awards, covered, before, n - 1);
      var r := AwardsRestored(awards, covered, before, n - 1);
      if r.Ok? && Cites(r.value[n - 1], covered) && n - 1 in before {
        var a := RestoredAward(r.value[n - 1], before[n - 1]);
        if a.active ==> !HasActive(r.value[n - 1 := r.value[n - 1].(active := false)], a.badge, a.recipient) {
          OneBackUnique(r.value, n - 1, a);
          assert SameAward(awards[n - 1], r.value[n - 1]);
        }
        hide UniqueActive, HasActive, SameKey;
      }
    }
  }

  // ---- Each call ----

  lemma EvaluateKeeps(s: Store, id: nat, policy: Option<Policy>)
    requires StoreOk(s) && id < |s.records| && Evaluate(s, id, policy).Ok?
    ensures var t := Evaluate(s, id, policy).value;
            && StoreOk(t) && Kept(s, t) && t.records == s.records && t.corrections == s.corrections
            && (forall i | 0 <= i < |s.awards| :: t.awards[i] == s.awards[i])
            && (forall i | |s.awards| <= i < |t.awards| ::
                t.awards[i].contribution == Some(id) && s.records[id].status.Accepted?)
            && (forall x | x in s.scores :: t.scores[x] == s.scores[x])
            && (forall x | x in t.scores && x !in s.scores :: x == id && s.records[id].status.Accepted?)
  {
    var t := Evaluate(s, id, policy).value;
    if t != s {
      var p := policy.value;
      var scored := s.(scores := s.scores[id := Score(p.version, PointsFor(p, s.records[id].tier), None, "")]);
      var total := TotalUpTo(scored, s.records[id].contributor.value, p.version, |s.records|);
      AwardsAfterUnique(s.awards, p.badges, total, s.records[id].contributor.value, id, |p.badges|);
      forall i | 0 <= i < |s.awards| ensures t.awards[i] == s.awards[i] {
        assert t.awards[..|s.awards|][i] == t.awards[i];
      }
      assert Kept(s, t);
    }
    KeptStaysOk(s, t);
    hide UniqueActive, CorrectionOk, HoldOk, AwardsAfter;
  }

  lemma ReverseKeeps(s: Store, id: nat, reason: string, admin: nat, now: int)
    requires StoreOk(s)
    ensures var t := Reverse(s, id, reason, admin, now);
            && StoreOk(t) && Kept(s, t) && Lessened(s, t, [id])
            && (id in t.scores ==> t.scores[id].reversedAt.Some?)
            && (forall i | 0 <= i < |t.awards| :: !ActiveFor(t.awards[i], id))
  {
    var t := Reverse(s, id, reason, admin, now);
    ReverseLessens(s, id, [id], reason, admin, now);
    LessenedUnique(s.awards, t.awards);
    assert Kept(s, t);
    KeptStaysOk(s, t);
    hide UniqueActive, CorrectionOk, HoldOk;
  }

  lemma {:induction false} RecomputedKeeps(s: Store, queue: seq<nat>, p: Policy, cap: nat, n: nat)
    requires n <= |queue|
    ensures var t := Recomputed(s, queue, p, cap, n).0;
            && t == s.(scores := t.scores)
            && (forall x | x in s.scores :: x in t.scores && t.scores[x] == s.scores[x])
            && (forall x | x in t.scores && x !in s.scores :: x < |s.records| && s.records[x].status.Accepted?)
  {
    if n > 0 { RecomputedKeeps(s, queue, p, cap, n - 1); }
  }

  /** Recording a record anew keeps everything when its hold stays sound and a revoked one stays revoked. */
  lemma RecordKeeps(s: Store, id: nat, r: Record)
    requires StoreOk(s) && id < |s.records| && HoldOk(r) && r.contributor == s.records[id].contributor
    requires s.records[id].status.Revoked? ==> r.status.Revoked?
    ensures var t := s.(records := s.records[id := r]); StoreOk(t) && Kept(s, t)
  {
    RecordsKeep(s, s.records[id := r]);
  }

  lemma VerifyKeeps(s: Store, id: nat, d: Decision, allowed: bool, self: bool, policy: Option<Policy>)
    requires StoreOk(s)
    ensures var t := Verify(s, id, d, allowed, self, policy).0; StoreOk(t) && Kept(s, t)
  {
    var t := Verify(s, id, d, allowed, self, policy).0;
    if t != s {
      var r := s.records[id].(status := DecidedStatus(d));
      RecordKeeps(s, id, r);
      var u := s.(records := s.records[id := r]);
      if d.Accept? { EvaluateKeeps(u, id, policy); KeptTransitive(s, u, t); }
    }
    hide StoreOk, Kept, Evaluate;
  }

  lemma RevokeKeeps(s: Store, id: nat, allowed: bool, reason: string, admin: nat, now: int)
    requires StoreOk(s)
    ensures var t := RevokeRecord(s, id, allowed, reason, admin, now).0; StoreOk(t) && Kept(s, t)
  {
    var t := RevokeRecord(s, id, allowed, reason, admin, now).0;
    if t != s {
      var r := s.records[id].(status := Revoked);
      RecordKeeps(s, id, r);
      var u := s.(records := s.records[id := r]);
      ReverseKeeps(u, id, reason, admin, now);
      KeptTransitive(s, u, t);
    }
    hide StoreOk, Kept, Reverse;
  }

  lemma AwardsKeep(s: Store, awards: seq<Award>)
    requires StoreOk(s) && |s.awards| <= |awards| && UniqueActive(awards)
    requires forall i | 0 <= i < |s.awards| :: SameAward(s.awards[i], awards[i])
    requires forall i | |s.awards| <= i < |awards| && awards[i].contribution.Some? ::
             awards[i].contribution.value < |s.records|
    ensures StoreOk(s.(awards := awards)) && Kept(s, s.(awards := awards))
  {
    var t := s.(awards := awards);
    assert Kept(s, t);
    KeptStaysOk(s, t);
    forall i | 0 <= i < |t.awards| && t.awards[i].contribution.Some?
      ensures t.awards[i].contribution.value < |t.records|
    {
      if i < |s.awards| { assert SameAward(s.awards[i], t.awards[i]); }
    }
    hide UniqueActive, CorrectionOk, HoldOk;
  }

  lemma RecordsKeep(s: Store, records: seq<Record>)
    requires StoreOk(s) && |records| == |s.records|
    requires forall id | 0 <= id < |records| ::
             HoldOk(records[id]) && records[id].contributor == s.records[id].contributor
    requires forall id | 0 <= id < |records| && s.records[id].status.Revoked? :: records[id].status.Revoked?
    ensures var t := s.(records := records); StoreOk(t) && Kept(s, t)
  {
    var t := s.(records := records);
    assert Kept(s, t);
    KeptStaysOk(s, t);
    hide UniqueActive, CorrectionOk, HoldOk;
  }

  /** Changed only in their hold, and soundly, records may stand for the earlier ones. */
  predicate Stands(r: Record, after: Record) {
    HoldOk(after) && after.contributor == r.contributor && after.status == r.status
  }

  lemma AllStand(s: Store, after: seq<Record>)
    requires StoreOk(s) && |after| == |s.records| && forall id | 0 <= id < |after| :: Stands(s.records[id], after[id])
    ensures var t := s.(records := after); StoreOk(t) && Kept(s, t)
  {
    hide StoreOk, Kept, HoldOk;
    RecordsKeep(s, after);
  }

  lemma ReleasedStands(s: Store, id: nat)
    requires StoreOk(s) && id < |s.records|
    ensures Stands(s.records[id], s.records[id]) && Stands(s.records[id], Released(s.records[id]))
    ensures Holdable(s.records[id]) ==> Stands(s.records[id], Held(s.records[id]))
  {
    assert HoldOk(s.records[id]);
    hide UniqueActive, CorrectionOk;
  }

  lemma ReleasedAllOk(s: Store, covered: seq<nat>)
    requires StoreOk(s) && forall id | id in covered :: id < |s.records|
    ensures var t := ReleaseAll(s, covered, |covered|); StoreOk(t) && Kept(s, t)
  {
    hide *;
    AllReleased(s, covered);
    var t := ReleaseAll(s, covered, |covered|);
    forall id: nat | id < |s.records| ensures Stands(s.records[id], t.records[id]) { ReleasedStands(s, id); }
    AllStand(s, t.records);
  }

  lemma HeldAllOk(s: Store, covered: seq<nat>)
    requires StoreOk(s) && forall id | id in covered :: id < |s.records| && Holdable(s.records[id])
    ensures var t := HoldAll(s, covered, |covered|); StoreOk(t) && Kept(s, t)
  {
    hide *;
    AllHeld(s, covered);
    var t := HoldAll(s, covered, |covered|);
    forall id: nat | id < |s.records| ensures Stands(s.records[id], t.records[id]) { ReleasedStands(s, id); }
    AllStand(s, t.records);
  }

  lemma LessenedOk(s: Store, t: Store, covered: seq<nat>)
    requires StoreOk(s) && Lessened(s, t, covered)
    ensures StoreOk(t) && Kept(s, t)
  {
    LessenedUnique(s.awards, t.awards);
    forall i | 0 <= i < |s.awards| ensures SameAward(s.awards[i], t.awards[i]) {
      assert AwardLessened(s.awards[i], t.awards[i]);
    }
    assert Kept(s, t);
    KeptStaysOk(s, t);
    forall i | 0 <= i < |t.awards| && t.awards[i].contribution.Some?
      ensures t.awards[i].contribution.value < |t.records|
    {
      assert SameAward(s.awards[i], t.awards[i]);
    }
    hide UniqueActive, CorrectionOk, HoldOk;
  }

  lemma ChangeKeeps(s: Store, q: Request, covered: seq<nat>, now: int)
    requires StoreOk(s) && covered != [] && (forall id | id in covered :: id < |s.records|)
             && Change(s, q, covered, now).Ok?
    ensures var t := Change(s, q, covered, now).value; StoreOk(t) && Kept(s, t) && t.corrections == s.corrections
  {
    if q.kind.ReleaseHeld? {
      ReleasedAllOk(s, covered);
      ReleaseKeepsRest(s, covered, |covered|);
    } else {
      ChangeLessens(s, q, covered, now);
      LessenedOk(s, Change(s, q, covered, now).value, covered);
    }
    hide StoreOk, Kept, ReverseAll;
  }

  lemma OneMoreCorrection(s: Store, c: Correction)
    requires StoreOk(s)
    requires CorrectionOk(s.(corrections := s.corrections + [c]), c)
    ensures var t := s.(corrections := s.corrections + [c]); StoreOk(t) && Kept(s, t)
  {
    var t := s.(corrections := s.corrections + [c]);
    assert Kept(s, t);
    KeptStaysOk(s, t);
    hide UniqueActive, CorrectionOk, HoldOk;
  }

  lemma ApplyKeeps(s: Store, q: Request, allowed: bool, now: int)
    requires StoreOk(s)
    ensures var t := Apply(s, q, allowed, now).0; StoreOk(t) && Kept(s, t)
  {
    var (t, out) := Apply(s, q, allowed, now);
    if out.Ok? {
      var covered := Ordered(q.ids, |s.records|);
      OrderedIsSelection(q.ids, |s.records|);
      assert q.ids[0] in covered;
      var u := Change(s, q, covered, now).value;
      ChangeKeeps(s, q, covered, now);
      AppliedCorrectionOk(s, q, now);
      var c := t.corrections[|s.corrections|];
      assert t == u.(corrections := u.corrections + [c]);
      hide Apply, CorrectionOk;
      OneMoreCorrection(u, c);
      hide StoreOk, Kept;
      KeptTransitive(s, u, t);
    }
  }

  /** The appeal being resolved, when the call goes on to put the state back. */
  ghost predicate Overturns(s: Store, k: nat, outcome: CorrectionStatus, allowed: bool, actor: nat) {
    && k < |s.corrections| && allowed && outcome.Overturned? && s.corrections[k].appliedBy != actor
    && s.corrections[k].status.Appealed? && Untouched(s, s.corrections[k])
  }

  lemma ResolveKeeps(s: Store, k: nat, outcome: CorrectionStatus, allowed: bool, actor: nat)
    requires StoreOk(s)
    ensures var t := Resolve(s, k, outcome, allowed, actor).0; StoreOk(t) && Kept(s, t)
  {
    var (t, out) := Resolve(s, k, outcome, allowed, actor);
    if t != s {
      var c := s.corrections[k];
      var u := s.(corrections := s.corrections[k := c.(status := outcome)]);
      CorrectionOkAnyStatus(s, k, outcome);
      if t != u {
        assert Overturns(s, k, outcome, allowed, actor);
        var w := PutBack(s, c).value;
        if c.kind.ReleaseHeld? {
          HeldAllOk(s, c.covered);
          HoldAllHolds(s, c.covered, |c.covered|);
        } else {
          PutBackUndoes(s, c);
          RestoredUnique(s.awards, c.covered, c.before.awards, |s.awards|);
          var m := s.(awards := w.awards);
          AwardsKeep(s, w.awards);
          assert w == m.(scores := w.scores) && w.scores.Keys == m.scores.Keys;
          ScoresKeep(m, w.scores);
          KeptTransitive(s, m, w);
        }
        assert StoreOk(w) && Kept(s, w) && w.corrections == s.corrections;
        CorrectionOkAnyStatus(w, k, outcome);
        assert t == w.(corrections := w.corrections[k := w.corrections[k].(status := outcome)]);
        KeptTransitive(s, w, t);
      }
    }
    hide StoreOk, Kept, PutBack, Snap, SameElsewhere;
  }

  lemma ScoresKeep(s: Store, scores: map<nat, Score>)
    requires StoreOk(s) && s.scores.Keys <= scores.Keys && forall id | id in scores :: id < |s.records|
    ensures StoreOk(s.(scores := scores)) && Kept(s, s.(scores := scores))
  {
    var t := s.(scores := scores);
    assert Kept(s, t);
    KeptStaysOk(s, t);
    hide UniqueActive, CorrectionOk, HoldOk;
  }

  lemma CorrectionOkAnyStatus(s: Store, k: nat, status: CorrectionStatus)
    requires StoreOk(s) && k < |s.corrections|
    ensures var t := s.(corrections := s.corrections[k := s.corrections[k].(status := status)]);
            StoreOk(t) && Kept(s, t)
  {
    var t := s.(corrections := s.corrections[k := s.corrections[k].(status := status)]);
    assert Kept(s, t);
    KeptStaysOk(s, t);
    hide UniqueActive, CorrectionOk, HoldOk;
  }

  lemma NewRecordKeeps(s: Store, r: Record)
    requires StoreOk(s) && HoldOk(r)
    ensures var t := s.(records := s.records + [r]); StoreOk(t) && Kept(s, t)
  {
    var t := s.(records := s.records + [r]);
    assert Kept(s, t);
    KeptStaysOk(s, t);
    hide UniqueActive, CorrectionOk, HoldOk;
  }

  lemma HoldsKeep(s: Store, id: nat, allowed: bool, member: nat, clean: bool)
    requires StoreOk(s)
    ensures StoreOk(Scan(s, id, clean).0) && Kept(s, Scan(s, id, clean).0)
    ensures StoreOk(Hold(s, id, allowed).0) && Kept(s, Hold(s, id, allowed).0)
    ensures StoreOk(Release(s, id, allowed).0) && Kept(s, Release(s, id, allowed).0)
    ensures StoreOk(Respond(s, id, member).0) && Kept(s, Respond(s, id, member).0)
  {
    if id < |s.records| {
      assert HoldOk(s.records[id]);
      if Holdable(s.records[id]) { RecordKeeps(s, id, Held(s.records[id])); }
      RecordKeeps(s, id, Released(s.records[id]));
      RecordKeeps(s, id, s.records[id].(responded := true));
      RecordKeeps(s, id, s.records[id].(file := if clean then Clean else Quarantined));
    }
    assert Kept(s, s);
    hide StoreOk, Kept, HoldOk;
  }

  lemma AwardingKeeps(s: Store, step: Step)
    requires StoreOk(s) && (step.DoAward? || step.DoRevokeAward?)
    ensures StoreOk(Next(s, step)) && Kept(s, Next(s, step))
  {
    assert Kept(s, s);
    match step
    case DoAward(badge, recipient, contribution) =>
      var awards := WithAward(s.awards, badge, recipient, contribution);
      if contribution.None? || contribution.value < |s.records| {
        WithAwardUnique(s.awards, badge, recipient, contribution);
        forall i | 0 <= i < |s.awards| ensures awards[i] == s.awards[i] { assert awards[..|s.awards|][i] == awards[i]; }
        AwardsKeep(s, awards);
      }
    case DoRevokeAward(i, reason, admin, now) =>
      var awards := RevokeAward(s, i, reason, admin, now).awards;
      LessenedUnique(s.awards, awards);
      AwardsKeep(s, awards);
  }

  lemma RecomputeKeeps(s: Store, queue: seq<nat>, p: Policy, cap: nat)
    requires StoreOk(s)
    ensures var t := Recomputed(s, queue, p, cap, |queue|).0; StoreOk(t) && Kept(s, t)
  {
    RecomputedKeeps(s, queue, p, cap, |queue|);
    var t := Recomputed(s, queue, p, cap, |queue|).0;
    hide Recomputed;
    assert s.scores.Keys <= t.scores.Keys;
    ScoresKeep(s, t.scores);
  }

  /** Calls about records. */
  lemma RecordCallKeeps(s: Store, step: Step)
    requires StoreOk(s) && !step.DoAward? && !step.DoRevokeAward? && !step.DoApply? && !step.DoAppeal?
             && !step.DoResolve?
    ensures StoreOk(Next(s, step)) && Kept(s, Next(s, step))
  {
    if step.NewRecord? { NewRecordKeeps(s, NewCandidate(step.contributor, step.project, step.tier, step.withFile)); }
    hide StoreOk, Kept, Scan, Verify, RevokeRecord, Hold, Release, Respond, Recomputed;
    match step
    case DoScan(id, clean) => HoldsKeep(s, id, true, 0, clean);
    case DoVerify(id, d, allowed, self, policy) => VerifyKeeps(s, id, d, allowed, self, policy);
    case DoRevoke(id, allowed, reason, admin, now) => RevokeKeeps(s, id, allowed, reason, admin, now);
    case DoHold(id, allowed) => HoldsKeep(s, id, allowed, 0, false);
    case DoRelease(id, allowed) => HoldsKeep(s, id, allowed, 0, false);
    case DoRespond(id, member) => HoldsKeep(s, id, true, member, false);
    case DoRecompute(queue, p, cap) => RecomputeKeeps(s, queue, p, cap);
    case _ =>
  }

  /** Calls about corrections. */
  lemma CorrectionCallKeeps(s: Store, step: Step)
    requires StoreOk(s) && (step.DoApply? || step.DoAppeal? || step.DoResolve?)
    ensures StoreOk(Next(s, step)) && Kept(s, Next(s, step))
  {
    hide StoreOk, Kept, Apply, Resolve, Appeal;
    match step
    case DoApply(q, allowed, now) => ApplyKeeps(s, q, allowed, now);
    case DoAppeal(k, allowed) => AppealKeeps(s, k, allowed);
    case DoResolve(k, outcome, allowed, actor) => ResolveKeeps(s, k, outcome, allowed, actor);
    case _ =>
  }

  lemma AppealKeeps(s: Store, k: nat, allowed: bool)
    requires StoreOk(s)
    ensures StoreOk(Appeal(s, k, allowed).0) && Kept(s, Appeal(s, k, allowed).0)
  {
    assert Kept(s, s);
    if k < |s.corrections| { CorrectionOkAnyStatus(s, k, Appealed); }
    hide StoreOk, Kept;
  }

  /** Every call keeps the tables sound; a revoked record in particular stays revoked. */
  lemma NextKeeps(s: Store, step: Step)
    requires StoreOk(s)
    ensures StoreOk(Next(s, step)) && Kept(s, Next(s, step))
  {
    hide *;
    if step.DoAward? || step.DoRevokeAward? {
      AwardingKeeps(s, step);
    } else if step.DoApply? || step.DoAppeal? || step.DoResolve? {
      CorrectionCallKeeps(s, step);
    } else {
      RecordCallKeeps(s, step);
    }
  }

  lemma {:induction false} RunKeeps(s: Store, steps: seq<Step>)
    requires StoreOk(s)
    ensures StoreOk(Run(s, steps)) && Kept(s, Run(s, steps))
    decreases |steps|
  {
    if steps != [] {
      NextKeeps(s, steps[0]);
      RunKeeps(Next(s, steps[0]), steps[1..]);
      KeptTransitive(s, Next(s, steps[0]), Run(s, steps));
    }
    hide StoreOk, Kept, Next;
  }
}
