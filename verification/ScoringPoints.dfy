// What recognition is worth: the points of a tier, the totals badges are judged by, and which records a recomputation
// scores, stated on the policy and the tables alone.
module ScoringPoints {
  import opened Common
  import opened Recognition
  import opened Scoring

  /** The points the policy sets for a tier, or its default where it sets none. */
  predicate Worth(p: Policy, t: Tier, points: nat) {
    (t in p.points ==> points == p.points[t]) && (t !in p.points ==> points == p.default_)
  }

  /**
   * A score of a member's accepted record under the policy version adds its points to the member's total, and to no
   * other.
   */
  lemma {:induction false} TotalGrows(s: Store, id: nat, x: Score, member: nat, policy: nat, n: nat)
    requires id < |s.records| && id !in s.scores && n <= |s.records|
    ensures TotalUpTo(s.(scores := s.scores[id := x]), member, policy, n)
            == TotalUpTo(s, member, policy, n)
               + if id < n && s.records[id].contributor == Some(member) && s.records[id].status == Accepted
                 && x.policy == policy
                 then x.points else 0
  {
    if n > 0 { TotalGrows(s, id, x, member, policy, n - 1); }
  }

  lemma {:induction false} NothingScoredTotal(s: Store, member: nat, policy: nat, n: nat)
    requires n <= |s.records| && s.scores == map[]
    ensures TotalUpTo(s, member, policy, n) == 0
  {
    if n > 0 { NothingScoredTotal(s, member, policy, n - 1); }
  }

  /** The member holds an active award of the badge. */
  ghost predicate Holds(awards: seq<Award>, badge: nat, member: nat) {
    exists i | 0 <= i < |awards| :: awards[i].active && awards[i].badge == badge && awards[i].recipient == member
  }

  /**
   * Evaluating an accepted record that has no score, under an approved policy, gives it the points of its tier, raises
   * the member's total by exactly these and nobody else's, and leaves the member with every badge whose minimum the new
   * total reaches; new awards are of such badges, to the member, for this contribution, and earlier ones stay.
   */
  lemma EvaluationMeans(s: Store, id: nat, p: Policy, other: nat)
    requires id < |s.records| && s.records[id].status == Accepted && s.records[id].contributor.Some?
    requires id !in s.scores && p.approver.Some?
    ensures var r := Evaluate(s, id, Some(p)); var member := s.records[id].contributor.value; var n := |s.records|;
            && r.Ok? && r.value.records == s.records && r.value.corrections == s.corrections
            && id in r.value.scores && Worth(p, s.records[id].tier, r.value.scores[id].points)
            && r.value.scores[id].policy == p.version && r.value.scores[id].reversedAt == None
            && r.value.scores == s.scores[id := r.value.scores[id]]
            && TotalUpTo(r.value, member, p.version, n)
              == TotalUpTo(s, member, p.version, n) + r.value.scores[id].points
            && (other != member ==> TotalUpTo(r.value, other, p.version, n) == TotalUpTo(s, other, p.version, n))
            && (forall b | b in p.badges ::
                  TotalUpTo(r.value, member, p.version, n) >= b.minimum ==> Holds(r.value.awards, b.badge, member))
            && s.awards <= r.value.awards
            && (forall i | |s.awards| <= i < |r.value.awards| ::
                  NewlyEarned(r.value.awards[i], p, TotalUpTo(r.value, member, p.version, n), member, id))
  {
    var member := s.records[id].contributor.value;
    var t := Evaluate(s, id, Some(p)).value;
    var u := s.(scores := s.scores[id := t.scores[id]]);
    TotalGrows(s, id, t.scores[id], member, p.version, |s.records|);
    TotalGrows(s, id, t.scores[id], other, p.version, |s.records|);
    TotalReadsScores(u, t, member, p.version, |s.records|);
    TotalReadsScores(u, t, other, p.version, |s.records|);
    var total := TotalUpTo(u, member, p.version, |s.records|);
    AwardsEarned(s.awards, p, total, member, id, |p.badges|);
    assert t.awards == AwardsAfter(s.awards, p.badges, total, member, id, |p.badges|);
    hide TotalUpTo, AwardsAfter;
    assert forall b | b in p.badges :: exists j | 0 <= j < |p.badges| :: p.badges[j] == b;
  }

  predicate NewlyEarned(a: Award, p: Policy, total: nat, member: nat, id: nat) {
    && a.active && a.recipient == member && a.contribution == Some(id)
    && exists j | 0 <= j < |p.badges| :: p.badges[j].badge == a.badge && total >= p.badges[j].minimum
  }

  lemma {:induction false} TotalReadsScores(s: Store, t: Store, member: nat, policy: nat, n: nat)
    requires n <= |s.records| && t.records == s.records && t.scores == s.scores
    ensures TotalUpTo(t, member, policy, n) == TotalUpTo(s, member, policy, n)
  {
    if n > 0 { TotalReadsScores(s, t, member, policy, n - 1); }
  }

  lemma {:induction false} AwardsEarned(awards: seq<Award>, p: Policy, total: nat, member: nat, id: nat, n: nat)
    requires n <= |p.badges|
    ensures var t := AwardsAfter(awards, p.badges, total, member, id, n);
            && awards <= t
            && (forall j | 0 <= j < n && total >= p.badges[j].minimum :: Holds(t, p.badges[j].badge, member))
            && (forall i | |awards| <= i < |t| :: NewlyEarned(t[i], p, total, member, id))
  {
    if n > 0 {
      AwardsEarned(awards, p, total, member, id, n - 1);
      var before := AwardsAfter(awards, p.badges, total, member, id, n - 1);
      var t := AwardsAfter(awards, p.badges, total, member, id, n);
      forall j | 0 <= j < n && total >= p.badges[j].minimum ensures Holds(t, p.badges[j].badge, member) {
        if j < n - 1 {
          HoldsMore(before, t, p.badges[j].badge, member);
        } else if !HasActive(before, p.badges[j].badge, member) {
          assert t[|before|].active;
        }
      }
    }
  }

  lemma HoldsMore(a: seq<Award>, b: seq<Award>, badge: nat, member: nat)
    requires a <= b && Holds(a, badge, member)
    ensures Holds(b, badge, member)
  {
    var i :| 0 <= i < |a| && a[i].active && a[i].badge == badge && a[i].recipient == member;
    assert b[i] == a[i];
  }

  /** Where there is nothing to score, nothing happens, except that a policy nobody approved is refused. */
  lemma EvaluationDeclines(s: Store, id: nat, policy: Option<Policy>)
    requires id < |s.records|
    ensures var idle := s.records[id].status != Accepted || s.records[id].contributor == None || policy == None;
            && (Evaluate(s, id, policy) == Err(NoApprover) <==> !idle && policy.value.approver == None)
            && (idle || (policy.value.approver != None && id in s.scores) ==> Evaluate(s, id, policy) == Ok(s))
  {}

  // ---- Recomputations ----

  lemma {:induction false} PrefixRecomputed(s: Store, queue: seq<nat>, p: Policy, cap: nat, n: nat)
    requires n <= |queue|
    ensures Recomputed(s, queue, p, cap, n) == Recomputed(s, queue[..n], p, cap, n)
  {
    PrefixAgrees(s, queue, queue[..n], p, cap, n);
  }

  lemma {:induction false} PrefixAgrees(s: Store, a: seq<nat>, b: seq<nat>, p: Policy, cap: nat, n: nat)
    requires n <= |a| && n <= |b| && a[..n] == b[..n]
    ensures Recomputed(s, a, p, cap, n) == Recomputed(s, b, p, cap, n)
  {
    if n > 0 {
      assert a[n - 1] == a[..n][n - 1] == b[n - 1];
      assert a[..n - 1] == a[..n][..n - 1] == b[..n - 1];
      PrefixAgrees(s, a, b, p, cap, n - 1);
    }
  }

  /** What is scored after a point of the queue comes later in it. */
  lemma {:induction false} LaterScored(s: Store, queue: seq<nat>, p: Policy, cap: nat, m: nat, n: nat)
    requires m <= n <= |queue|
    ensures var t, u := Recomputed(s, queue, p, cap, m).0, Recomputed(s, queue, p, cap, n).0;
            && (forall id | id in t.scores :: id in u.scores)
            && (forall id | id in u.scores && id !in t.scores :: exists k | m <= k < n :: queue[k] == id)
  {
    if m < n {
      LaterScored(s, queue, p, cap, m, n - 1);
      hide PointsFor;
    }
  }

  /** The accepted records of a project and member among some that have no score yet. */
  ghost function StillUnscored(s: Store, ids: seq<nat>, project: nat, member: nat): set<nat> {
    set id | id in ids && id < |s.records| && s.records[id].status == Accepted && id !in s.scores
             && s.records[id].contributor == Some(member) && s.records[id].project == project
  }

  lemma WaitingIs(s: Store, ids: seq<nat>, project: nat, member: nat)
    ensures Waiting(s, ids, project, member) == StillUnscored(s, ids, project, member)
  {}

  /** Whether the record at a place of the queue is scored when its turn comes. */
  lemma TurnComes(s: Store, queue: seq<nat>, p: Policy, cap: nat, j: nat)
    requires j < |queue| && (forall i | 0 <= i < j :: queue[i] != queue[j]) && queue[j] < |s.records|
    requires s.records[queue[j]].status == Accepted && s.records[queue[j]].contributor.Some? && queue[j] !in s.scores
    ensures var r := s.records[queue[j]];
            queue[j] in Recomputed(s, queue, p, cap, j + 1).0.scores <==>
            |StillUnscored(s, queue[..j], r.project, r.contributor.value)| < cap
  {
    var r := s.records[queue[j]];
    var (before, used) := Recomputed(s, queue, p, cap, j);
    PrefixRecomputed(s, queue, p, cap, j);
    WaitingIs(s, queue[..j], r.project, r.contributor.value);
    OneRound(s, queue[..j], p, cap, r.project, r.contributor.value);
    RecomputationCap(s, queue, p, cap, j);
    assert WithinCap(s, before, used, r.project, r.contributor.value, cap);
    LaterScored(s, queue, p, cap, 0, j);
    RecomputationScores(s, queue, p, cap, j);
    OneRecomputed(s, queue, p, cap, j);
    hide Recomputed, Waiting, StillUnscored, NewlyScored;
    assert before.records == s.records && queue[j] !in before.scores;
  }

  lemma ScoresAreWorth(s: Store, t: Store, ids: seq<nat>, p: Policy)
    requires OnlyScored(s, t, ids, p)
    ensures t == s.(scores := t.scores)
    ensures forall x | x in s.scores :: x in t.scores && t.scores[x] == s.scores[x]
    ensures forall x | x in t.scores && x !in s.scores ::
              && x in ids && x < |s.records| && s.records[x].status == Accepted && s.records[x].contributor.Some?
              && Worth(p, s.records[x].tier, t.scores[x].points) && t.scores[x].policy == p.version
              && t.scores[x].reversedAt == None
  {}

  /**
   * A recomputation scores the records of its queue that are accepted, have a contributor and no score, in order, as
   * long as fewer than the cap of the same project and member waited before them; each gets the points of its tier, and
   * nothing else changes.
   */
  lemma RecomputationMeans(s: Store, queue: seq<nat>, p: Policy, cap: nat, j: nat)
    requires j < |queue| && forall i, k | 0 <= i < k < |queue| :: queue[i] != queue[k]
    ensures var t := Recomputed(s, queue, p, cap, |queue|).0; var id := queue[j];
            && t == s.(scores := t.scores)
            && (forall x | x in s.scores :: x in t.scores && t.scores[x] == s.scores[x])
            && (forall x | x in t.scores && x !in s.scores :: x in queue)
            && (id in t.scores && id !in s.scores <==>
                && id < |s.records| && s.records[id].status == Accepted && s.records[id].contributor.Some?
                && id !in s.scores
                && |StillUnscored(s, queue[..j], s.records[id].project, s.records[id].contributor.value)| < cap)
            && (id in t.scores && id !in s.scores ==>
                  && Worth(p, s.records[id].tier, t.scores[id].points) && t.scores[id].policy == p.version
                  && t.scores[id].reversedAt == None)
  {
    hide Recomputed, StillUnscored, OnlyScored, Worth;
    var t := Recomputed(s, queue, p, cap, |queue|).0;
    var id := queue[j];
    RecomputationScores(s, queue, p, cap, |queue|);
    assert queue[..|queue|] == queue;
    ScoresAreWorth(s, t, queue, p);
    if id < |s.records| && s.records[id].status == Accepted && s.records[id].contributor.Some? && id !in s.scores {
      TurnComes(s, queue, p, cap, j);
      LaterScored(s, queue, p, cap, j + 1, |queue|);
    }
  }
}
