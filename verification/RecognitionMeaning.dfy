// What each call on records, holds, awards and corrections does, and what a snapshot remembers, stated on the columns.
module RecognitionMeaning {
  import opened Common
  import opened Recognition
  import opened Corrections

  // ---- Records ----

  predicate Open(r: Record) { r.status == Candidate || r.status == PendingInfo }

  /** Nothing differs but the record at `id`, which is `r`. */
  predicate RecordBecomes(s: Store, t: Store, id: nat, r: Record) {
    id < |s.records| && t == s.(records := s.records[id := r])
  }

  /** A new record is a candidate, free and unanswered, with its file still to be scanned, if it has one. */
  lemma NewRecordMeans(contributor: Option<nat>, project: nat, tier: Tier, withFile: bool)
    ensures var r := NewCandidate(contributor, project, tier, withFile);
            && r.contributor == contributor && r.project == project && r.tier == tier && r.status == Candidate
            && r.file == (if withFile then Unscanned else NoFile)
            && !r.holdActive && r.heldFrom == None && !r.responded
  {}

  /** A scan marks an existing file as clean or quarantines it. */
  lemma ScanMeans(s: Store, id: nat, clean: bool)
    ensures var (t, r) := Scan(s, id, clean);
            && (r.Ok? <==> id < |s.records| && s.records[id].file != NoFile)
            && (r.Err? ==> t == s)
            && (r.Ok? ==> RecordBecomes(s, t, id, s.records[id].(file := if clean then Clean else Quarantined)))
  {}

  /**
   * A verifier decides a record that is neither revoked nor accepted nor held, not being its contributor, and accepts
   * it only with a clean file or none. A rejection or a question changes the status only; an acceptance is evaluated,
   * and refused as a whole where the policy has no approver.
   */
  lemma VerifyMeans(s: Store, id: nat, d: Decision, allowed: bool, selfApproved: bool, policy: Option<Policy>)
    ensures var (t, r) := Verify(s, id, d, allowed, selfApproved, policy);
            && (r.Err? ==> t == s)
            && (r.Ok? <==>
                && id < |s.records| && allowed && selfApproved && !s.records[id].holdActive
                && s.records[id].status != Accepted && s.records[id].status != Revoked
                && (d == Accept ==>
                      && s.records[id].file != Unscanned && s.records[id].file != Quarantined
                      && (s.records[id].contributor.Some? && policy.Some? ==> policy.value.approver.Some?)))
            && (r.Ok? && d == Decision.Reject ==> RecordBecomes(s, t, id, s.records[id].(status := Status.Rejected)))
            && (r.Ok? && d == AskInfo ==> RecordBecomes(s, t, id, s.records[id].(status := PendingInfo)))
            && (r.Ok? && d == Accept ==>
                  var u := s.(records := s.records[id := s.records[id].(status := Accepted)]);
                  Evaluate(u, id, policy) == Ok(t))
  {
    hide Evaluate;
    if id < |s.records| {
      var u := s.(records := s.records[id := s.records[id].(status := Accepted)]);
      EvaluationRefused(u, id, policy);
      assert u.records[id].contributor == s.records[id].contributor;
    }
  }

  lemma EvaluationRefused(s: Store, id: nat, policy: Option<Policy>)
    requires id < |s.records| && s.records[id].status == Accepted
    ensures Evaluate(s, id, policy).Err? <==>
            s.records[id].contributor.Some? && policy.Some? && policy.value.approver.None?
  {}

  /** An active award that cites the contribution is taken away; every other stays as it is. */
  predicate AwardRevokedFor(a: Award, b: Award, id: nat, reason: string, admin: nat, now: int) {
    if a.active && a.contribution == Some(id)
    then b == a.(active := false, reason := reason, revokedBy := Some(admin), revokedAt := Some(now))
    else b == a
  }

  /** Its score, if it has one that counts, stops counting now, and its awards are taken away. */
  predicate RecognitionReversed(s: Store, t: Store, id: nat, reason: string, admin: nat, now: int) {
    && t.corrections == s.corrections
    && t.scores == (if id in s.scores && s.scores[id].reversedAt == None
                    then s.scores[id := s.scores[id].(reversedAt := Some(now), reason := reason)] else s.scores)
    && |t.awards| == |s.awards|
    && forall i | 0 <= i < |s.awards| :: AwardRevokedFor(s.awards[i], t.awards[i], id, reason, admin, now)
  }

  lemma ReverseMeans(s: Store, id: nat, reason: string, admin: nat, now: int)
    ensures var t := Reverse(s, id, reason, admin, now);
            t.records == s.records && RecognitionReversed(s, t, id, reason, admin, now)
  {
    if id in s.scores && s.scores[id].reversedAt.Some? { assert s.scores[id := s.scores[id]] == s.scores; }
  }

  /** An accepted record is revoked together with its recognition. */
  lemma RevokeMeans(s: Store, id: nat, allowed: bool, reason: string, admin: nat, now: int)
    ensures var (t, r) := RevokeRecord(s, id, allowed, reason, admin, now);
            && (r.Ok? <==> id < |s.records| && allowed && s.records[id].status == Accepted)
            && (r.Err? ==> t == s)
            && (r.Ok? ==> t.records == s.records[id := s.records[id].(status := Revoked)]
                          && RecognitionReversed(s, t, id, reason, admin, now))
  {
    if id < |s.records| {
      ReverseMeans(s.(records := s.records[id := s.records[id].(status := Revoked)]), id, reason, admin, now);
    }
    hide Reverse;
  }

  /** A free record that waits for a decision is held, remembering its status, with the answer still to come. */
  lemma HoldMeans(s: Store, id: nat, allowed: bool)
    ensures var (t, r) := Hold(s, id, allowed);
            && (r.Ok? <==> id < |s.records| && allowed && !s.records[id].holdActive && Open(s.records[id]))
            && (r.Err? ==> t == s)
            && (r.Ok? ==> RecordBecomes(s, t, id,
                  s.records[id].(holdActive := true, heldFrom := Some(s.records[id].status), responded := false)))
  {}

  /** A hold from a status that waits for a decision is released; only the hold ends. */
  lemma ReleaseMeans(s: Store, id: nat, allowed: bool)
    ensures var (t, r) := Release(s, id, allowed);
            && (r.Ok? <==> id < |s.records| && allowed && s.records[id].holdActive
                           && s.records[id].heldFrom in {Some(Candidate), Some(PendingInfo)})
            && (r.Err? ==> t == s)
            && (r.Ok? ==> RecordBecomes(s, t, id, s.records[id].(holdActive := false)))
  {}

  /** The contributor answers a hold once. */
  lemma RespondMeans(s: Store, id: nat, member: nat)
    ensures var (t, r) := Respond(s, id, member);
            && (r.Ok? <==> id < |s.records| && s.records[id].contributor == Some(member) && s.records[id].holdActive
                           && !s.records[id].responded)
            && (r.Err? ==> t == s)
            && (r.Ok? ==> RecordBecomes(s, t, id, s.records[id].(responded := true)))
  {}

  // ---- Awards by hand ----

  /** A badge is given unless the member holds it, as an active award with nothing recorded against it. */
  lemma AwardMeans(awards: seq<Award>, badge: nat, member: nat, contribution: Option<nat>)
    ensures var t := WithAward(awards, badge, member, contribution);
            if exists i | 0 <= i < |awards| ::
              awards[i].active && awards[i].badge == badge && awards[i].recipient == member
            then t == awards
            else t == awards + [Award(badge, member, contribution, true, "", None, None)]
  {}

  /** An active award is taken away, with who, when and why. */
  lemma RevokeAwardMeans(s: Store, i: nat, reason: string, admin: nat, now: int)
    ensures var t := RevokeAward(s, i, reason, admin, now);
            if i < |s.awards| && s.awards[i].active
            then t == s.(awards := s.awards[i := s.awards[i].(active := false, reason := reason,
                                                              revokedBy := Some(admin), revokedAt := Some(now))])
            else t == s
  {}

  // ---- Snapshots ----

  predicate Covers(a: Award, covered: seq<nat>) { a.contribution.Some? && a.contribution.value in covered }

  /** The same holds, from the same statuses. */
  ghost predicate SameHolds(s: Store, t: Store, covered: seq<nat>)
    requires forall id | id in covered :: id < |s.records| && id < |t.records|
  {
    forall id | id in covered ::
      s.records[id].holdActive == t.records[id].holdActive && s.records[id].heldFrom == t.records[id].heldFrom
  }

  /** The same covered contributions scored, for the same points, and reversed at the same time for the same reason. */
  ghost predicate SameScores(s: Store, t: Store, covered: seq<nat>) {
    && (forall id | id in covered :: id in s.scores <==> id in t.scores)
    && (forall id | id in covered && id in s.scores && id in t.scores ::
          && s.scores[id].points == t.scores[id].points && s.scores[id].reversedAt == t.scores[id].reversedAt
          && s.scores[id].reason == t.scores[id].reason)
  }

  /** The same awards for covered contributions, and each held or taken away alike. */
  ghost predicate SameAwards(s: Store, t: Store, covered: seq<nat>) {
    && (forall i: nat :: i < |s.awards| && Covers(s.awards[i], covered) <==>
        i < |t.awards| && Covers(t.awards[i], covered))
    && (forall i: nat | i < |s.awards| && i < |t.awards| && Covers(s.awards[i], covered) ::
          var a, b := s.awards[i], t.awards[i];
          && a.contribution == b.contribution && a.active == b.active && a.reason == b.reason
          && a.revokedBy == b.revokedBy && a.revokedAt == b.revokedAt)
  }

  lemma ScoreViewsMean(s: Store, t: Store, covered: seq<nat>)
    ensures ScoreViews(s.scores, covered) == ScoreViews(t.scores, covered) <==> SameScores(s, t, covered)
  {
    var a, b := ScoreViews(s.scores, covered), ScoreViews(t.scores, covered);
    forall id | id in covered && id in s.scores && id in t.scores
      ensures a[id] == b[id] <==> s.scores[id].points == t.scores[id].points
                                  && s.scores[id].reversedAt == t.scores[id].reversedAt
                                  && s.scores[id].reason == t.scores[id].reason
    {}
    if a == b {
      forall id | id in covered ensures id in s.scores <==> id in t.scores { assert id in a <==> id in b; }
    }
  }

  lemma AwardViewsMean(s: Store, t: Store, covered: seq<nat>)
    ensures AwardViews(s.awards, covered) == AwardViews(t.awards, covered) <==> SameAwards(s, t, covered)
  {
    var a, b := AwardViews(s.awards, covered), AwardViews(t.awards, covered);
    assert forall i: nat :: i in a <==> i < |s.awards| && Covers(s.awards[i], covered);
    assert forall i: nat :: i in b <==> i < |t.awards| && Covers(t.awards[i], covered);
  }

  lemma HoldsMean(s: Store, t: Store, covered: seq<nat>)
    requires forall id | id in covered :: id < |s.records| && id < |t.records|
    ensures Snap(s, covered).holds == Snap(t, covered).holds <==> SameHolds(s, t, covered)
  {
    hide ScoreViews, AwardViews;
    var a, b := Snap(s, covered).holds, Snap(t, covered).holds;
    assert forall id | id in covered :: id in a && id in b;
    if SameHolds(s, t, covered) { assert a == b; }
    if a == b {
      forall id | id in covered ensures s.records[id].holdActive == t.records[id].holdActive
                                        && s.records[id].heldFrom == t.records[id].heldFrom
      {
        assert a[id] == b[id];
      }
    }
  }

  /** A snapshot remembers the holds, scores and awards of what it covers, and nothing else. */
  lemma SnapshotMeans(s: Store, t: Store, covered: seq<nat>)
    requires forall id | id in covered :: id < |s.records| && id < |t.records|
    ensures Snap(s, covered) == Snap(t, covered) <==>
            SameHolds(s, t, covered) && SameScores(s, t, covered) && SameAwards(s, t, covered)
  {
    ScoreViewsMean(s, t, covered);
    AwardViewsMean(s, t, covered);
    HoldsMean(s, t, covered);
    hide ScoreViews, AwardViews, SameScores, SameAwards, SameHolds;
  }

  // ---- Corrections ----

  /** Different records of one contributor, as many as the kind asks for, points where it sets them, and the texts. */
  predicate Selectable(s: Store, q: Request) {
    && q.textsGiven && |q.ids| >= 1
    && (forall i, j | 0 <= i < |q.ids| && 0 <= j < |q.ids| && i != j :: q.ids[i] != q.ids[j])
    && (forall i | 0 <= i < |q.ids| :: q.ids[i] < |s.records| && s.records[q.ids[i]].contributor.Some?)
    && (forall i, j | 0 <= i < |q.ids| && 0 <= j < |q.ids| && q.ids[i] < |s.records| && q.ids[j] < |s.records| ::
          s.records[q.ids[i]].contributor == s.records[q.ids[j]].contributor)
    && (q.kind == Consolidate ==> |q.ids| >= 2 && q.points.Some?)
    && (q.kind == AdjustScore ==> |q.ids| == 1 && q.points.Some?)
  }

  lemma SelectionMeans(s: Store, q: Request)
    ensures ValidRequest(s, q) <==> Selectable(s, q)
  {
    if ValidRequest(s, q) {
      forall i, j | 0 <= i < |q.ids| && 0 <= j < |q.ids| && i != j ensures q.ids[i] != q.ids[j] {
        if i < j { assert q.ids[i] != q.ids[j]; } else { assert q.ids[j] != q.ids[i]; }
      }
      forall i | 0 <= i < |q.ids| ensures q.ids[i] in q.ids {}
    }
    if Selectable(s, q) {
      forall id | id in q.ids ensures id < |s.records| && s.records[id].contributor.Some?
                                      && s.records[id].contributor == s.records[q.ids[0]].contributor
      {
        var i :| 0 <= i < |q.ids| && q.ids[i] == id;
      }
    }
  }

  /** A record that can be released: held from a waiting status, and its hold not answered. */
  predicate StillHeld(r: Record) {
    r.holdActive && r.heldFrom in {Some(Candidate), Some(PendingInfo)} && !r.responded
  }

  /** What a correction needs of the records it covers: unanswered holds to release, or scores that count. */
  ghost predicate Correctable(s: Store, q: Request) {
    if q.kind == ReleaseHeld then forall i | 0 <= i < |q.ids| ::
      q.ids[i] < |s.records| && StillHeld(s.records[q.ids[i]])
    else forall i | 0 <= i < |q.ids| :: q.ids[i] in s.scores && s.scores[q.ids[i]].reversedAt == None
  }

  /** A correction is applied exactly where it may be, and records its kind, author, cause and the records in order. */
  lemma ApplyMeans(s: Store, q: Request, allowed: bool, now: int)
    ensures var (t, r) := Apply(s, q, allowed, now); var n := |s.corrections|;
            && (r.Ok? <==> allowed && Selectable(s, q) && Correctable(s, q))
            && (r.Err? ==> t == s)
            && (r.Ok? ==>
                  && |t.corrections| == n + 1 && t.corrections[..n] == s.corrections
                  && var c := t.corrections[n];
                     && c.kind == q.kind && c.reason == q.reason && c.appliedBy == q.actor && c.status == Applied
                     && s.records[q.ids[0]].contributor == Some(c.recipient)
                     && (forall id :: id in c.covered <==> id in q.ids)
                     && Ascends(c.covered, |s.records|))
  {
    SelectionMeans(s, q);
    var covered := Ordered(q.ids, |s.records|);
    OrderedIsSelection(q.ids, |s.records|);
    OrderedAscends(q.ids, |s.records|);
    if ValidRequest(s, q) {
      assert q.ids[0] in covered;
      forall id | id in q.ids ensures id in covered {}
      CorrectableMeans(s, q, covered, now);
      ChangeKeepsCorrections(s, q, covered, now);
      var t := Apply(s, q, allowed, now).0;
      if Apply(s, q, allowed, now).1.Ok? { assert t.corrections[|s.corrections|].covered == covered; }
    }
    hide Change, ValidRequest, Selectable, Correctable, Snap, Ordered;
  }

  predicate Ascends(ids: seq<nat>, n: nat) {
    && (forall i | 0 <= i < |ids| :: ids[i] < n)
    && forall i, j | 0 <= i < j < |ids| :: ids[i] < ids[j]
  }

  lemma {:induction false} OrderedAscends(ids: seq<nat>, n: nat)
    ensures Ascends(Ordered(ids, n), n)
  {
    if n > 0 {
      OrderedAscends(ids, n - 1);
      AscendsMore(Ordered(ids, n - 1), n - 1);
      assert Ordered(ids, n - 1) + [] == Ordered(ids, n - 1);
    }
  }

  lemma AscendsMore(ids: seq<nat>, n: nat)
    requires Ascends(ids, n)
    ensures Ascends(ids, n + 1) && Ascends(ids + [n], n + 1)
  {}

  lemma CorrectableMeans(s: Store, q: Request, covered: seq<nat>, now: int)
    requires covered != [] && (forall id | id in covered :: id < |s.records|)
             && forall id :: id in covered <==> id in q.ids
    ensures Change(s, q, covered, now).Ok? <==> Correctable(s, q)
  {
    forall i | 0 <= i < |q.ids| ensures q.ids[i] in covered {}
    forall id | id in covered ensures exists i :: 0 <= i < |q.ids| && q.ids[i] == id { assert id in q.ids; }
    hide ReleaseAll, ReverseAll, WithPoints;
  }

  lemma ChangeKeepsCorrections(s: Store, q: Request, covered: seq<nat>, now: int)
    requires covered != [] && forall id | id in covered :: id < |s.records|
    ensures Change(s, q, covered, now).Ok? ==> Change(s, q, covered, now).value.corrections == s.corrections
  {
    ReleaseKeepsCorrections(s, covered, |covered|);
    hide ReleaseAll;
  }

  lemma {:induction false} ReleaseKeepsCorrections(s: Store, covered: seq<nat>, n: nat)
    requires n <= |covered| && forall id | id in covered :: id < |s.records|
    ensures ReleaseAll(s, covered, n).corrections == s.corrections
  {
    if n > 0 { ReleaseKeepsCorrections(s, covered, n - 1); }
  }

  /** The member the correction affects appeals it once, as long as nothing was decided. */
  lemma AppealMeans(s: Store, k: nat, allowed: bool)
    ensures var (t, r) := Appeal(s, k, allowed);
            && (r.Ok? <==> k < |s.corrections| && allowed && s.corrections[k].status == Applied)
            && (r.Err? ==> t == s)
            && (r.Ok? ==> t == s.(corrections := s.corrections[k := s.corrections[k].(status := Appealed)]))
  {}

  /** An upheld appeal leaves everything but the outcome; someone else than the author of the correction resolves it. */
  lemma UpholdMeans(s: Store, k: nat, allowed: bool, actor: nat)
    ensures var (t, r) := Resolve(s, k, Upheld, allowed, actor);
            && (r.Ok? <==> k < |s.corrections| && allowed && s.corrections[k].appliedBy != actor
                           && s.corrections[k].status == Appealed)
            && (r.Ok? ==> t == s.(corrections := s.corrections[k := s.corrections[k].(status := Upheld)]))
  {}
}
