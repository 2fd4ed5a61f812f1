/** The verification and recognition services over the stored tables, performed in place. */
module RecognitionDesks {
  import opened Common
  import opened Recognition

  class RecognitionDesk {
    var records: seq<Record>
    var scores: map<nat, Score>
    var awards: seq<Award>
    var corrections: seq<Correction>

    function View(): Store reads this { Store(records, scores, awards, corrections) }

    constructor ()
      ensures View() == Store([], map[], [], [])
    {
      records, scores, awards, corrections := [], map[], [], [];
    }

    /** Rolls back to what the tables held when the transaction began. */
    method Rollback(saved: Store)
      modifies this
      ensures View() == saved
    {
      records, scores, awards, corrections := saved.records, saved.scores, saved.awards, saved.corrections;
    }

    // ---- Scores and badges ----

    method TotalPoints(member: nat, policy: nat) returns (total: nat)
      ensures total == TotalUpTo(View(), member, policy, |records|)
    {
      total := 0;
      for i := 0 to |records|
        invariant total == TotalUpTo(View(), member, policy, i)
      {
        if records[i].contributor == Some(member) && records[i].status.Accepted? && i in scores
          && scores[i].policy == policy {
          total := total + scores[i].points;
        }
      }
    }

    method AwardBadge(badge: nat, recipient: nat, contribution: Option<nat>)
      modifies this`awards
      ensures awards == WithAward(old(awards), badge, recipient, contribution)
    {
      var found := false;
      for i := 0 to |awards|
        invariant awards == old(awards)
        invariant found <==> exists k | 0 <= k < i ::
                  awards[k].active && awards[k].badge == badge && awards[k].recipient == recipient
      {
        if awards[i].active && awards[i].badge == badge && awards[i].recipient == recipient { found := true; }
      }
      if !found { awards := awards + [Award(badge, recipient, contribution, true, "", None, None)]; }
    }

    method EvaluateAccepted(id: nat, policy: Option<Policy>) returns (r: Outcome)
      requires id < |records|
      modifies this`scores, this`awards
      ensures r.Ok? <==> Evaluate(old(View()), id, policy).Ok?
      ensures r.Ok? ==> View() == Evaluate(old(View()), id, policy).value
      ensures r.Err? ==> View() == old(View()) && r.error == Evaluate(old(View()), id, policy).error
    {
      var record := records[id];
      if !record.status.Accepted? || record.contributor.None? || policy.None? { return Ok(()); }
      if policy.value.approver.None? { return Err(NoApprover); }
      if id in scores { return Ok(()); }
      var p := policy.value;
      scores := scores[id := Score(p.version, PointsFor(p, record.tier), None, "")];
      var total := TotalPoints(record.contributor.value, p.version);
      for n := 0 to |p.badges|
        invariant scores == old(scores)[id := Score(p.version, PointsFor(p, record.tier), None, "")]
        invariant awards == AwardsAfter(old(awards), p.badges, total, record.contributor.value, id, n)
      {
        if total >= p.badges[n].minimum { AwardBadge(p.badges[n].badge, record.contributor.value, Some(id)); }
      }
      return Ok(());
    }

    method ReverseAccepted(id: nat, reason: string, admin: nat, now: int)
      modifies this`scores, this`awards
      ensures View() == Reverse(old(View()), id, reason, admin, now)
    {
      if id in scores && scores[id].reversedAt.None? {
        scores := scores[id := scores[id].(reversedAt := Some(now), reason := reason)];
      }
      for i := 0 to |awards|
        invariant scores == Reverse(old(View()), id, reason, admin, now).scores
        invariant |awards| == |old(awards)|
        invariant awards[..i] == WithoutAwards(old(awards), id, reason, admin, now)[..i]
        invariant awards[i..] == old(awards)[i..]
      {
        assert awards[i] == old(awards)[i];
        if ActiveFor(awards[i], id) { awards := awards[i := RevokedAward(awards[i], reason, admin, now)]; }
      }
    }

    method RecomputeScores(queue: seq<nat>, p: Policy, cap: nat)
      modifies this`scores
      ensures View() == Recomputed(old(View()), queue, p, cap, |queue|).0
    {
      var used: map<(nat, nat), nat> := map[];
      for n := 0 to |queue|
        invariant (View(), used) == Recomputed(old(View()), queue, p, cap, n)
      {
        var id := queue[n];
        if id < |records| && records[id].status.Accepted? && records[id].contributor.Some? && id !in scores {
          var key := (records[id].project, records[id].contributor.value);
          var count := if key in used then used[key] else 0;
          if count < cap {
            used := used[key := count + 1];
            scores := scores[id := Score(p.version, PointsFor(p, records[id].tier), None, "")];
          }
        }
      }
    }

    // ---- Verification ----

    method VerifyRecord(id: nat, d: Decision, allowed: bool, selfApproved: bool, policy: Option<Policy>)
      returns (r: Outcome)
      modifies this
      ensures (View(), r) == Verify(old(View()), id, d, allowed, selfApproved, policy)
    {
      if id >= |records| { return Err(NoRecord); }
      var record := records[id];
      if !allowed { return Err(Unauthorized); }
      if record.status.Revoked? { return Err(BadStatus); }
      if record.holdActive { return Err(OnHold); }
      if d.Accept? && record.file in {Unscanned, Quarantined} { return Err(FilePending); }
      if record.status.Accepted? { return Err(BadStatus); }
      if !selfApproved { return Err(SelfApproval); }
      var saved := View();
      records := records[id := record.(status := DecidedStatus(d))];
      if d.Accept? {
        r := EvaluateAccepted(id, policy);
        if r.Err? { Rollback(saved); return; }
      }
      return Ok(());
    }

    method Revoke(id: nat, allowed: bool, reason: string, admin: nat, now: int) returns (r: Outcome)
      modifies this
      ensures (View(), r) == RevokeRecord(old(View()), id, allowed, reason, admin, now)
    {
      if id >= |records| { return Err(NoRecord); }
      if !allowed { return Err(Unauthorized); }
      if !records[id].status.Accepted? { return Err(BadStatus); }
      records := records[id := records[id].(status := Revoked)];
      ReverseAccepted(id, reason, admin, now);
      return Ok(());
    }

    method PlaceOnHold(id: nat, allowed: bool) returns (r: Outcome)
      modifies this`records
      ensures (View(), r) == Hold(old(View()), id, allowed)
    {
      if id >= |records| { return Err(NoRecord); }
      if !allowed { return Err(Unauthorized); }
      if records[id].holdActive || !Unscored(records[id].status) { return Err(BadStatus); }
      records := records[id := records[id].(heldFrom := Some(records[id].status), holdActive := true,
                                            responded := false)];
      return Ok(());
    }

    method ReleaseHold(id: nat, allowed: bool) returns (r: Outcome)
      modifies this`records
      ensures (View(), r) == Release(old(View()), id, allowed)
    {
      if id >= |records| { return Err(NoRecord); }
      if !allowed { return Err(Unauthorized); }
      if !records[id].holdActive || records[id].heldFrom.None? || !Unscored(records[id].heldFrom.value) {
        return Err(BadStatus);
      }
      records := records[id := records[id].(holdActive := false)];
      return Ok(());
    }

    method RespondToHold(id: nat, member: nat) returns (r: Outcome)
      modifies this`records
      ensures (View(), r) == Respond(old(View()), id, member)
    {
      if id >= |records| { return Err(NoRecord); }
      if records[id].contributor != Some(member) { return Err(Unauthorized); }
      if !records[id].holdActive || records[id].responded { return Err(BadStatus); }
      records := records[id := records[id].(responded := true)];
      return Ok(());
    }

    // ---- Corrections ----

    /** The records selected, in order of their key. */
    method Select(ids: seq<nat>) returns (covered: seq<nat>)
      ensures covered == Ordered(ids, |records|)
    {
      covered := [];
      for n := 0 to |records|
        invariant covered == Ordered(ids, n)
      {
        if n in ids { covered := covered + [n]; }
      }
    }

    method ApplyState(q: Request, covered: seq<nat>, now: int) returns (r: Outcome)
      requires covered != [] && forall id | id in covered :: id < |records|
      modifies this
      ensures r.Ok? <==> Change(old(View()), q, covered, now).Ok?
      ensures r.Ok? ==> View() == Change(old(View()), q, covered, now).value
      ensures r.Err? ==> View() == old(View()) && r.error == Change(old(View()), q, covered, now).error
    {
      if q.kind.ReleaseHeld? {
        if exists id | id in covered :: !Releasable(records[id]) || records[id].responded { return Err(NotReversible); }
        for n := 0 to |covered|
          invariant View() == ReleaseAll(old(View()), covered, n)
        {
          var id := covered[n];
          assert id in covered;
          records := records[id := Released(records[id])];
        }
        return Ok(());
      }
      if exists id | id in covered :: id !in scores || scores[id].reversedAt.Some? { return Err(NotReversible); }
      var first := covered[0];
      if q.kind.AdjustScore? || q.kind.Consolidate? {
        assert first in covered;
        scores := scores[first := scores[first].(points := q.points.GetOr(0))];
      }
      if q.kind.AdjustScore? { return Ok(()); }
      var from := if q.kind.Consolidate? then 1 else 0;
      ghost var start := View();
      for n := from to |covered|
        invariant View() == ReverseAll(start, covered, from, n, q.reason, q.actor, now)
      {
        ReverseAccepted(covered[n], q.reason, q.actor, now);
      }
      return Ok(());
    }

    method ApplyCorrection(q: Request, allowed: bool, now: int) returns (r: Outcome)
      modifies this
      ensures (View(), r) == Apply(old(View()), q, allowed, now)
    {
      if !allowed { return Err(Unauthorized); }
      if !ValidRequest(View(), q) { return Err(BadSelection); }
      var covered := Select(q.ids);
      OrderedIsSelection(q.ids, |records|);
      assert q.ids[0] in covered;
      var recipient := records[q.ids[0]].contributor.value;
      var before := Snap(View(), covered);
      r := ApplyState(q, covered, now);
      if r.Err? { return; }
      var after := Snap(View(), covered);
      corrections := corrections + [Correction(q.kind, covered, recipient, q.reason, q.actor, before, after, Applied)];
      return Ok(());
    }

    method AppealCorrection(k: nat, allowed: bool) returns (r: Outcome)
      modifies this`corrections
      ensures (View(), r) == Appeal(old(View()), k, allowed)
    {
      if k >= |corrections| { return Err(NoRecord); }
      if !allowed { return Err(Unauthorized); }
      if !corrections[k].status.Applied? { return Err(NotAppealable); }
      corrections := corrections[k := corrections[k].(status := Appealed)];
      return Ok(());
    }

    method RestoreState(c: Correction) returns (r: Outcome)
      requires forall id | id in c.covered :: id < |records|
      modifies this
      ensures r.Ok? <==> PutBack(old(View()), c).Ok?
      ensures r.Ok? ==> View() == PutBack(old(View()), c).value
      ensures r.Err? ==> View() == old(View()) && r.error == PutBack(old(View()), c).error
      ensures corrections == old(corrections)
    {
      var saved := View();
      if c.kind.ReleaseHeld? {
        if exists id | id in c.covered :: !Holdable(records[id]) { return Err(StateConflict); }
        for n := 0 to |c.covered|
          invariant View() == HoldAll(saved, c.covered, n)
        {
          var id := c.covered[n];
          assert id in c.covered;
          records := records[id := Held(records[id])];
        }
        return Ok(());
      }
      if exists id | id in c.covered :: id in scores && id !in c.before.scores { return Err(StateConflict); }
      for n := 0 to |c.covered|
        invariant View() == saved.(scores := ScoresRestored(saved.scores, c.covered, c.before.scores, n))
      {
        var id := c.covered[n];
        if id in scores && id in c.before.scores {
          scores := scores[id := RestoredScore(scores[id], c.before.scores[id])];
        }
      }
      r := RestoreAwards(c);
      if r.Err? { Rollback(saved); }
    }

    method RestoreAwards(c: Correction) returns (r: Outcome)
      modifies this`awards
      ensures r.Ok? || r.error in {StateConflict, UniquenessViolated}
      ensures r.Ok? <==> AwardsRestored(old(awards), c.covered, c.before.awards, |old(awards)|).Ok?
      ensures r.Ok? ==> awards == AwardsRestored(old(awards), c.covered, c.before.awards, |old(awards)|).value
      ensures r.Err? ==> r.error == AwardsRestored(old(awards), c.covered, c.before.awards, |old(awards)|).error
    {
      for i := 0 to |awards|
        invariant |awards| == |old(awards)|
        invariant AwardsRestored(old(awards), c.covered, c.before.awards, i) == Ok(awards)
      {
        if Cites(awards[i], c.covered) {
          if i !in c.before.awards {
            AwardsStayRefused(old(awards), c.covered, c.before.awards, i + 1, |old(awards)|);
            return Err(StateConflict);
          }
          var row := c.before.awards[i];
          if row.active && HasActive(awards[i := awards[i].(active := false)], awards[i].badge, awards[i].recipient) {
            AwardsStayRefused(old(awards), c.covered, c.before.awards, i + 1, |old(awards)|);
            return Err(UniquenessViolated);
          }
          awards := awards[i := RestoredAward(awards[i], row)];
        }
      }
      return Ok(());
    }

    method ResolveAppeal(k: nat, outcome: CorrectionStatus, allowed: bool, actor: nat) returns (r: Outcome)
      modifies this
      ensures (View(), r) == Resolve(old(View()), k, outcome, allowed, actor)
    {
      if k >= |corrections| { return Err(NoRecord); }
      var c := corrections[k];
      if !allowed || !(outcome.Upheld? || outcome.Overturned?) { return Err(Unauthorized); }
      if c.appliedBy == actor { return Err(SamePerson); }
      r := Ok(());
      if !c.status.Appealed? {
        r := Err(NoPendingAppeal);
      } else if outcome.Overturned? {
        if (exists id | id in c.covered :: id >= |records|) || Snap(View(), c.covered) != c.after {
          return Err(StateConflict);
        }
        r := RestoreState(c);
        if r.Err? { return; }
        r := Ok(());
      }
      assert corrections == old(corrections);
      corrections := corrections[k := c.(status := outcome)];
    }
  }

  /** Once an award is refused, considering further ones does not change that. */
  lemma {:induction false} AwardsStayRefused(awards: seq<Award>, covered: seq<nat>, before: map<nat, AwardView>, i: nat,
                                             n: nat)
    requires i <= n <= |awards| && AwardsRestored(awards, covered, before, i).Err?
    ensures AwardsRestored(awards, covered, before, n) == AwardsRestored(awards, covered, before, i)
    decreases n
  {
    if i < n { AwardsStayRefused(awards, covered, before, i, n - 1); }
  }
}
