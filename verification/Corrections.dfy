/** What a correction changes, and that overturning it on appeal puts exactly that back. */
module Corrections {
  import opened Common
  import opened Recognition

  /** An award keeps who it is for; a correction can only take it away. */
  predicate AwardLessened(a: Award, b: Award) {
    a.badge == b.badge && a.recipient == b.recipient && a.contribution == b.contribution && (b.active ==> a.active)
  }

  /** `t` differs from `s` only in scores and awards of the covered contributions, and grants nothing new. */
  ghost predicate Lessened(s: Store, t: Store, covered: seq<nat>) {
    && t.records == s.records && t.corrections == s.corrections
    && t.scores.Keys == s.scores.Keys && |t.awards| == |s.awards|
    && (forall id | id in s.scores && id !in covered :: t.scores[id] == s.scores[id])
    && (forall id | id in s.scores && s.scores[id].reversedAt.Some? :: t.scores[id].reversedAt.Some?)
    && (forall i | 0 <= i < |s.awards| :: AwardLessened(s.awards[i], t.awards[i]))
    && (forall i | 0 <= i < |s.awards| && !Cites(s.awards[i], covered) :: t.awards[i] == s.awards[i])
  }

  lemma ReverseLessens(s: Store, id: nat, covered: seq<nat>, reason: string, admin: nat, now: int)
    requires id in covered
    ensures Lessened(s, Reverse(s, id, reason, admin, now), covered)
  {}

  lemma LessenedTransitive(s: Store, t: Store, u: Store, covered: seq<nat>)
    requires Lessened(s, t, covered) && Lessened(t, u, covered)
    ensures Lessened(s, u, covered)
  {
    forall i | 0 <= i < |s.awards|
      ensures AwardLessened(s.awards[i], u.awards[i]) && (!Cites(s.awards[i], covered) ==> u.awards[i] == s.awards[i])
    {
      assert AwardLessened(s.awards[i], t.awards[i]) && AwardLessened(t.awards[i], u.awards[i]);
    }
  }

  /** Reversing a stretch of the covered contributions: each ends reversed and without an active award. */
  lemma {:induction false} ReverseAllLessens(
    s: Store, covered: seq<nat>, from: nat, n: nat, reason: string, admin: nat, now: int)
    requires from <= n <= |covered|
    ensures var t := ReverseAll(s, covered, from, n, reason, admin, now);
            && Lessened(s, t, covered)
            && (forall j | from <= j < n && covered[j] in t.scores :: t.scores[covered[j]].reversedAt.Some?)
            && (forall j, i | from <= j < n && 0 <= i < |t.awards| :: !ActiveFor(t.awards[i], covered[j]))
            && (forall id | id in s.scores && id !in covered[from..n] :: t.scores[id] == s.scores[id])
            && (forall id | id in s.scores :: t.scores[id].points == s.scores[id].points)
    decreases n
  {
    if n > from {
      var t := ReverseAll(s, covered, from, n - 1, reason, admin, now);
      var id := covered[n - 1];
      ReverseAllLessens(s, covered, from, n - 1, reason, admin, now);
      assert id in covered;
      ReverseLessens(t, id, covered, reason, admin, now);
      LessenedTransitive(s, t, Reverse(t, id, reason, admin, now), covered);
      assert covered[from..n] == covered[from..n - 1] + [id];
    }
  }

  lemma PointsLessen(s: Store, covered: seq<nat>, points: nat)
    requires covered != []
    ensures Lessened(s, WithPoints(s, covered[0], points), covered)
  {
    assert covered[0] in covered;
  }

  /** A change other than releasing holds touches only what it covers and grants nothing. */
  lemma ChangeLessens(s: Store, q: Request, covered: seq<nat>, now: int)
    requires covered != [] && forall id | id in covered :: id < |s.records|
    requires !q.kind.ReleaseHeld? && Change(s, q, covered, now).Ok?
    ensures Lessened(s, Change(s, q, covered, now).value, covered)
    ensures forall id | id in covered :: id in s.scores && s.scores[id].reversedAt.None?
  {
    var t := WithPoints(s, covered[0], q.points.GetOr(0));
    PointsLessen(s, covered, q.points.GetOr(0));
    ReverseAllLessens(s, covered, 0, |covered|, q.reason, q.actor, now);
    ReverseAllLessens(t, covered, 1, |covered|, q.reason, q.actor, now);
    if q.kind.Consolidate? { LessenedTransitive(s, t, Change(s, q, covered, now).value, covered); }
  }

  /**
   * What each kind of correction leaves behind. Invalidating reverses every covered score and award; consolidating
   * keeps the first score at the corrected points and reverses the others; adjusting only sets the points.
   */
  lemma ChangeMeans(s: Store, q: Request, covered: seq<nat>, now: int)
    requires covered != [] && Distinct(covered) && forall id | id in covered :: id < |s.records|
    requires !q.kind.ReleaseHeld? && Change(s, q, covered, now).Ok?
    ensures var t := Change(s, q, covered, now).value;
            && (q.kind.Invalidate? ==> forall j | 0 <= j < |covered| ::
                covered[j] in t.scores && t.scores[covered[j]].reversedAt.Some?)
            && (q.kind.Invalidate? ==> forall j, i | 0 <= j < |covered| && 0 <= i < |t.awards| ::
                !ActiveFor(t.awards[i], covered[j]))
            && (!q.kind.Invalidate? ==> covered[0] in t.scores)
            && (!q.kind.Invalidate? ==> t.scores[covered[0]] == s.scores[covered[0]].(points := q.points.GetOr(0)))
            && (q.kind.Consolidate? ==> forall j | 1 <= j < |covered| ::
                covered[j] in t.scores && t.scores[covered[j]].reversedAt.Some?)
            && (q.kind.Consolidate? ==> forall j, i | 1 <= j < |covered| && 0 <= i < |t.awards| ::
                !ActiveFor(t.awards[i], covered[j]))
            && (q.kind.AdjustScore? ==> t.awards == s.awards)
  {
    hide ReverseAll, Lessened, ActiveFor;
    assert covered[0] in covered && covered[0] !in covered[1..];
    var w := WithPoints(s, covered[0], q.points.GetOr(0));
    if q.kind.Invalidate? {
      ReverseAllLessens(s, covered, 0, |covered|, q.reason, q.actor, now);
      assert forall j | 0 <= j < |covered| :: covered[j] in covered;
    } else if q.kind.Consolidate? {
      ReverseAllLessens(w, covered, 1, |covered|, q.reason, q.actor, now);
      assert forall j | 0 <= j < |covered| :: covered[j] in covered;
    }
  }

  // ---- What a stored correction guarantees ----

  predicate SameKey(a: Award, b: Award) { a.badge == b.badge && a.recipient == b.recipient }

  ghost predicate UniqueActive(awards: seq<Award>) {
    forall i, j | 0 <= i < j < |awards| && awards[i].active && awards[j].active :: !SameKey(awards[i], awards[j])
  }

  /** The two snapshots are of the same rows, and the change between them only took away. */
  ghost predicate SnapshotsOk(c: Correction) {
    && c.before.holds == c.after.holds
    && c.before.scores.Keys == c.after.scores.Keys == (set id | id in c.covered)
    && (forall id | id in c.before.scores :: c.before.scores[id].reversedAt.None?)
    && c.before.awards.Keys == c.after.awards.Keys
    && (forall i | i in c.before.awards :: c.before.awards[i].contribution == c.after.awards[i].contribution)
    && (forall i | i in c.after.awards && c.after.awards[i].active :: c.before.awards[i].active)
  }

  /** The awards that were active before the correction were for different badges or members. */
  ghost predicate BeforeUnique(awards: seq<Award>, before: map<nat, AwardView>) {
    && (forall i | i in before :: i < |awards|)
    && (forall i, j | i in before && j in before && i != j && before[i].active && before[j].active ::
        !SameKey(awards[i], awards[j]))
  }

  ghost predicate CorrectionOk(s: Store, c: Correction) {
    && c.covered != []
    && (forall id | id in c.covered :: id < |s.records|)
    && (!c.kind.ReleaseHeld? ==> SnapshotsOk(c) && BeforeUnique(s.awards, c.before.awards))
  }

  /** A freshly applied correction satisfies what later calls rely on. */
  lemma AppliedCorrectionOk(s: Store, q: Request, now: int)
    requires UniqueActive(s.awards) && Apply(s, q, true, now).1.Ok?
    ensures var t := Apply(s, q, true, now).0;
            && |t.corrections| == |s.corrections| + 1 && t.corrections[..|s.corrections|] == s.corrections
            && CorrectionOk(t, t.corrections[|s.corrections|])
  {
    var covered := Ordered(q.ids, |s.records|);
    OrderedIsSelection(q.ids, |s.records|);
    assert q.ids[0] in covered;
    var t := Change(s, q, covered, now).value;
    if q.kind.ReleaseHeld? {
      ReleaseKeepsRest(s, covered, |covered|);
    } else {
      ChangeLessens(s, q, covered, now);
      var c := Apply(s, q, true, now).0.corrections[|s.corrections|];
      assert c.before.scores.Keys == set id | id in covered;
      assert c.after.scores.Keys == c.before.scores.Keys;
      assert c.before.awards.Keys == c.after.awards.Keys;
      forall i | i in c.before.awards
        ensures c.before.awards[i].contribution == c.after.awards[i].contribution
        ensures c.after.awards[i].active ==> c.before.awards[i].active
      {
        assert AwardLessened(s.awards[i], t.awards[i]);
      }
      forall i, j | i in c.before.awards && j in c.before.awards && i != j && c.before.awards[i].active
        && c.before.awards[j].active
        ensures !SameKey(t.awards[i], t.awards[j])
      {
        assert AwardLessened(s.awards[i], t.awards[i]) && AwardLessened(s.awards[j], t.awards[j]);
        if i < j { assert !SameKey(s.awards[i], s.awards[j]); } else { assert !SameKey(s.awards[j], s.awards[i]); }
      }
    }
  }

  lemma {:induction false} ReleaseKeepsRest(s: Store, covered: seq<nat>, n: nat)
    requires n <= |covered| && forall id | id in covered :: id < |s.records|
    ensures var t := ReleaseAll(s, covered, n);
            && t == s.(records := t.records)
            && (forall id | 0 <= id < |s.records| ::
                t.records[id] == if id in covered[..n] then Released(s.records[id]) else s.records[id])
  {
    if n > 0 {
      ReleaseKeepsRest(s, covered, n - 1);
      var id, before := covered[n - 1], ReleaseAll(s, covered, n - 1);
      assert id in covered && covered[..n] == covered[..n - 1] + [id];
      assert Released(before.records[id]) == Released(s.records[id]);
      hide Released;
    }
  }

  lemma AllReleased(s: Store, covered: seq<nat>)
    requires forall id | id in covered :: id < |s.records|
    ensures var t := ReleaseAll(s, covered, |covered|);
            && t == s.(records := t.records)
            && (forall id | 0 <= id < |s.records| ::
                t.records[id] == if id in covered then Released(s.records[id]) else s.records[id])
  {
    ReleaseKeepsRest(s, covered, |covered|);
    assert covered[..|covered|] == covered;
    hide ReleaseAll, Released;
  }

  lemma AllHeld(s: Store, covered: seq<nat>)
    requires forall id | id in covered :: id < |s.records|
    ensures var t := HoldAll(s, covered, |covered|);
            && t == s.(records := t.records)
            && (forall id | 0 <= id < |s.records| ::
                t.records[id] == if id in covered then Held(s.records[id]) else s.records[id])
  {
    HoldAllHolds(s, covered, |covered|);
    assert covered[..|covered|] == covered;
    hide HoldAll, Held;
  }

  // ---- Overturning ----

  /**
   * Award `j` is an active one, outside the correction, for the badge and member of award `i` that was active before
   * it.
   */
  ghost predicate Blocks(awards: seq<Award>, covered: seq<nat>, before: map<nat, AwardView>, i: nat, j: nat) {
    && i in before && before[i].active && i < |awards| && j < |awards|
    && awards[j].active && !Cites(awards[j], covered) && SameKey(awards[i], awards[j])
  }

  /** A badge the correction took away has been granted to the member again for other work. */
  ghost predicate Regranted(s: Store, c: Correction) {
    exists i: nat, j: nat :: Blocks(s.awards, c.covered, c.before.awards, i, j)
  }

  /** Nothing the correction covers has changed since. */
  ghost predicate Untouched(s: Store, c: Correction) {
    (forall id | id in c.covered :: id < |s.records|) && Snap(s, c.covered) == c.after
  }

  /** The snapshot knows every covered award, and every one still active was active before. */
  ghost predicate Known(awards: seq<Award>, covered: seq<nat>, before: map<nat, AwardView>) {
    && BeforeUnique(awards, before)
    && (forall i | i in before :: Cites(awards[i], covered) && before[i].contribution == awards[i].contribution)
    && (forall i: nat | i < |awards| && Cites(awards[i], covered) ::
        i in before && (awards[i].active ==> before[i].active))
  }

  lemma UntouchedKnown(s: Store, c: Correction)
    requires CorrectionOk(s, c) && !c.kind.ReleaseHeld? && Untouched(s, c)
    ensures Known(s.awards, c.covered, c.before.awards)
    ensures forall id | id in c.covered :: id in s.scores && id in c.before.scores
  {
    var snap := Snap(s, c.covered);
    forall id | id in c.covered ensures id in s.scores && id in c.before.scores {
      assert id in c.after.scores && id in snap.scores;
    }
    forall i: nat | i < |s.awards| && Cites(s.awards[i], c.covered)
      ensures i in c.before.awards && (s.awards[i].active ==> c.before.awards[i].active)
    {
      assert i in snap.awards;
    }
    forall i | i in c.before.awards
      ensures Cites(s.awards[i], c.covered) && c.before.awards[i].contribution == s.awards[i].contribution
    {
      assert i in snap.awards;
    }
  }

  /** The award at each position below `n` is put back if it is covered, and as it was otherwise. */
  ghost predicate PutBackUpTo(awards: seq<Award>, done: seq<Award>, covered: seq<nat>, before: map<nat, AwardView>,
                              n: nat) {
    && |done| == |awards|
    && (forall i | 0 <= i < |awards| && (i >= n || !Cites(awards[i], covered)) :: done[i] == awards[i])
    && (forall i | 0 <= i < |awards| && i < n && Cites(awards[i], covered) ::
        i in before && done[i] == RestoredAward(awards[i], before[i]))
  }

  /** An award that was active goes back unless an active award outside the correction is in its way. */
  lemma OneAwardBack(awards: seq<Award>, covered: seq<nat>, before: map<nat, AwardView>, done: seq<Award>, i: nat)
    requires Known(awards, covered, before) && i in before && before[i].active
             && PutBackUpTo(awards, done, covered, before, i)
    ensures HasActive(done[i := done[i].(active := false)], done[i].badge, done[i].recipient)
            <==> exists j: nat :: Blocks(awards, covered, before, i, j)
  {
    var others := done[i := done[i].(active := false)];
    if HasActive(others, done[i].badge, done[i].recipient) {
      var j: nat :| j < |others| && others[j].active && others[j].badge == done[i].badge
        && others[j].recipient == done[i].recipient;
      assert j != i && SameKey(awards[i], awards[j]);
      if Cites(awards[j], covered) {
        assert false;
      }
      assert Blocks(awards, covered, before, i, j);
    }
    if j: nat :| Blocks(awards, covered, before, i, j) {
      assert others[j].active && others[j].badge == done[i].badge && others[j].recipient == done[i].recipient;
    }
  }

  /** What putting back the award at position `i` comes to, the ones before it being back. */
  lemma NextAwardBack(awards: seq<Award>, covered: seq<nat>, before: map<nat, AwardView>, done: seq<Award>, i: nat)
    requires Known(awards, covered, before) && i < |awards| && PutBackUpTo(awards, done, covered, before, i)
    ensures |done| == |awards| && (Cites(done[i], covered) <==> i in before)
    ensures i !in before ==> PutBackUpTo(awards, done, covered, before, i + 1)
    ensures i in before ==> PutBackUpTo(awards, done[i := RestoredAward(done[i], before[i])], covered, before, i + 1)
    ensures i in before && before[i].active
            && HasActive(done[i := done[i].(active := false)], done[i].badge, done[i].recipient)
            <==> exists j: nat :: Blocks(awards, covered, before, i, j)
  {
    assert done[i] == awards[i];
    if i in before && before[i].active { OneAwardBack(awards, covered, before, done, i); }
    hide HasActive, SameKey, RestoredAward;
  }

  /** The first `n` awards go back exactly when none of them is blocked. */
  lemma {:induction false} AwardsGoBack(awards: seq<Award>, covered: seq<nat>, before: map<nat, AwardView>, n: nat)
    requires Known(awards, covered, before) && n <= |awards|
    ensures var r := AwardsRestored(awards, covered, before, n);
            && (r.Err? ==> r.error == UniquenessViolated)
            && (r.Ok? ==> PutBackUpTo(awards, r.value, covered, before, n))
            && (r.Err? <==> exists i: nat, j: nat :: i < n && Blocks(awards, covered, before, i, j))
  {
    hide Known, HasActive, SameKey, Blocks, RestoredAward, Cites, PutBackUpTo;
    if n > 0 {
      AwardsGoBack(awards, covered, before, n - 1);
      var r := AwardsRestored(awards, covered, before, n - 1);
      if r.Ok? { NextAwardBack(awards, covered, before, r.value, n - 1); }
    } else {
      NoneBack(awards, covered, before);
    }
  }

  lemma NoneBack(awards: seq<Award>, covered: seq<nat>, before: map<nat, AwardView>)
    ensures AwardsRestored(awards, covered, before, 0) == Ok(awards) && PutBackUpTo(awards, awards, covered, before, 0)
  {}

  lemma {:induction false} ScoresGoBack(scores: map<nat, Score>, covered: seq<nat>, before: map<nat, ScoreView>, n: nat)
    requires n <= |covered| && forall id | id in covered :: id in scores && id in before
    ensures var t := ScoresRestored(scores, covered, before, n);
            && t.Keys == scores.Keys
            && (forall id | id in scores ::
                t[id] == if id in covered[..n] && id in before then RestoredScore(scores[id], before[id])
                         else scores[id])
  {
    if n > 0 {
      ScoresGoBack(scores, covered, before, n - 1);
      var done, id := ScoresRestored(scores, covered, before, n - 1), covered[n - 1];
      assert id in covered && covered[..n] == covered[..n - 1] + [id];
      assert RestoredScore(done[id], before[id]) == RestoredScore(scores[id], before[id]);
      hide RestoredScore;
    }
  }

  /** An award stays for the same badge, member and contribution. */
  predicate SameAward(a: Award, b: Award) {
    a.badge == b.badge && a.recipient == b.recipient && a.contribution == b.contribution
  }

  /** Scores and awards of other contributions, and every record, are as they were. */
  ghost predicate SameElsewhere(s: Store, t: Store, covered: seq<nat>) {
    && t.records == s.records && t.scores.Keys == s.scores.Keys && |t.awards| == |s.awards|
    && (forall id | id in s.scores && id !in covered :: t.scores[id] == s.scores[id])
    && (forall i | 0 <= i < |s.awards| && !Cites(s.awards[i], covered) :: t.awards[i] == s.awards[i])
    && (forall i | 0 <= i < |s.awards| :: SameAward(s.awards[i], t.awards[i]))
  }

  /** With the covered awards put back, the awards of the snapshot are the earlier ones. */
  lemma AwardViewsGoBack(awards: seq<Award>, done: seq<Award>, covered: seq<nat>, before: map<nat, AwardView>)
    requires Known(awards, covered, before) && PutBackUpTo(awards, done, covered, before, |awards|)
    ensures AwardViews(done, covered) == before
  {
    forall i: nat | i < |awards|
      ensures Cites(done[i], covered) <==> i in before
      ensures i in before ==> ViewAward(done[i]) == before[i]
    {
      if Cites(awards[i], covered) { assert i in before; }
    }
    hide Cites, ViewAward, RestoredAward;
  }

  /** The covered scores put back make the scores of the snapshot the earlier ones. */
  lemma ScoreViewsGoBack(scores: map<nat, Score>, covered: seq<nat>, before: map<nat, ScoreView>)
    requires before.Keys == (set id | id in covered) && forall id | id in covered :: id in scores
    ensures var t := ScoresRestored(scores, covered, before, |covered|);
            && t.Keys == scores.Keys && (forall id | id in scores && id !in covered :: t[id] == scores[id])
            && ScoreViews(t, covered) == before
  {
    ScoresGoBack(scores, covered, before, |covered|);
    assert covered[..|covered|] == covered;
    forall id | id in covered ensures ViewScore(RestoredScore(scores[id], before[id])) == before[id] {}
    hide ViewScore, RestoredScore, ScoresRestored;
  }

  /**
   * Putting an untouched correction back succeeds exactly when no badge of it was granted again, and undoes it exactly.
   */
  lemma PutBackUndoes(s: Store, c: Correction)
    requires CorrectionOk(s, c) && !c.kind.ReleaseHeld? && Untouched(s, c)
    ensures PutBack(s, c).Ok? <==> !Regranted(s, c)
    ensures PutBack(s, c).Err? ==> PutBack(s, c).error == UniquenessViolated
    ensures PutBack(s, c).Ok? ==> (var t := PutBack(s, c).value;
              SameElsewhere(s, t, c.covered) && t.corrections == s.corrections && Snap(t, c.covered) == c.before)
  {
    UntouchedKnown(s, c);
    AwardsGoBack(s.awards, c.covered, c.before.awards, |s.awards|);
    ScoreViewsGoBack(s.scores, c.covered, c.before.scores);
    var r := PutBack(s, c);
    if r.Ok? {
      var t := r.value;
      forall i | 0 <= i < |s.awards| ensures SameAward(s.awards[i], t.awards[i]) {
        if Cites(s.awards[i], c.covered) { assert t.awards[i] == RestoredAward(s.awards[i], c.before.awards[i]); }
      }
      AwardViewsGoBack(s.awards, t.awards, c.covered, c.before.awards);
      assert Snap(t, c.covered).holds == Snap(s, c.covered).holds == c.before.holds;
    }
    hide Known, HasActive, SameKey, BeforeUnique, ScoreViews, AwardViews, ScoresRestored, AwardsRestored, Cites;
  }

  lemma {:induction false} HoldAllHolds(s: Store, covered: seq<nat>, n: nat)
    requires n <= |covered| && forall id | id in covered :: id < |s.records|
    ensures var t := HoldAll(s, covered, n);
            && t == s.(records := t.records)
            && (forall id | 0 <= id < |s.records| ::
                t.records[id] == if id in covered[..n] then Held(s.records[id]) else s.records[id])
  {
    if n > 0 {
      HoldAllHolds(s, covered, n - 1);
      var id, before := covered[n - 1], HoldAll(s, covered, n - 1);
      assert id in covered && covered[..n] == covered[..n - 1] + [id];
      assert Held(before.records[id]) == Held(s.records[id]);
      hide Held;
    }
  }
}
