/** What scoring guarantees: the cap of a recomputation, and which scores a badge total counts. */
module Scoring {
  import opened Common
  import opened Recognition
  import opened Corrections

  function Group(s: Store, id: nat): (nat, Option<nat>)
    requires id < |s.records|
  {
    (s.records[id].project, s.records[id].contributor)
  }

  /** The records of one project and member that `t` scores and `s` did not. */
  ghost function NewlyScored(s: Store, t: Store, project: nat, member: nat): set<nat> {
    set id | id in t.scores && id !in s.scores && id < |s.records| && Group(s, id) == (project, Some(member))
  }

  /** How many places the recomputation has used for a project and member. */
  function Used(used: map<(nat, nat), nat>, project: nat, member: nat): nat {
    if (project, member) in used then used[(project, member)] else 0
  }

  /** `t` adds to `s` only scores of its own policy, for scorable records among `ids`. */
  ghost predicate OnlyScored(s: Store, t: Store, ids: seq<nat>, p: Policy) {
    && t == s.(scores := t.scores)
    && (forall id | id in s.scores :: id in t.scores && t.scores[id] == s.scores[id])
    && (forall id | id in t.scores && id !in s.scores :: id in ids && Scorable(s, id))
    && (forall id | id in t.scores && id !in s.scores :: id < |s.records|
          && t.scores[id] == Score(p.version, PointsFor(p, s.records[id].tier), None, ""))
  }

  lemma {:induction false} RecomputationScores(s: Store, queue: seq<nat>, p: Policy, cap: nat, n: nat)
    requires n <= |queue|
    ensures OnlyScored(s, Recomputed(s, queue, p, cap, n).0, queue[..n], p)
  {
    if n > 0 {
      RecomputationScores(s, queue, p, cap, n - 1);
      assert queue[..n] == queue[..n - 1] + [queue[n - 1]];
    }
  }

  /** An accepted record that is still unscored has every place of its project and member used up. */
  ghost predicate Capped(s: Store, t: Store, used: map<(nat, nat), nat>, id: nat, cap: nat) {
    Scorable(s, id) && id !in t.scores ==> Used(used, s.records[id].project, s.records[id].contributor.value) == cap
  }

  /**
   * A recomputation scores at most `cap` records of a project and member, and leaves an unscored accepted record of
   * its queue unscored only when that many were scored.
   */
  lemma {:induction false} RecomputationCap(s: Store, queue: seq<nat>, p: Policy, cap: nat, n: nat)
    requires n <= |queue|
    ensures var (t, used) := Recomputed(s, queue, p, cap, n);
            && (forall project: nat, member: nat :: WithinCap(s, t, used, project, member, cap))
            && (forall j | 0 <= j < n :: Capped(s, t, used, queue[j], cap))
  {
    hide WithinCap, Capped, OnlyScored;
    if n == 0 {
      forall project: nat, member: nat ensures WithinCap(s, s, map[], project, member, cap) {
        NoneScored(s, project, member, cap);
      }
    } else {
      RecomputationCap(s, queue, p, cap, n - 1);
      RecomputationScores(s, queue, p, cap, n - 1);
      CapStep(s, queue, p, cap, n - 1);
    }
  }

  predicate Fits(s: Store, t: Store, used: map<(nat, nat), nat>, id: nat, cap: nat) {
    Scorable(t, id) && Used(used, t.records[id].project, t.records[id].contributor.value) < cap
  }

  /** How many were scored in a group is how many places it used, and not more than the cap. */
  ghost predicate WithinCap(s: Store, t: Store, used: map<(nat, nat), nat>, project: nat, member: nat, cap: nat) {
    |NewlyScored(s, t, project, member)| == Used(used, project, member) <= cap
  }

  lemma NoneScored(s: Store, project: nat, member: nat, cap: nat)
    ensures WithinCap(s, s, map[], project, member, cap)
  {
    assert NewlyScored(s, s, project, member) == {};
  }

  /** One more record of the queue: scored when its group has a place left, and otherwise nothing changes. */
  lemma OneRecomputed(s: Store, queue: seq<nat>, p: Policy, cap: nat, n: nat)
    requires n < |queue|
    ensures var (before, used) := Recomputed(s, queue, p, cap, n);
            var (t, after) := Recomputed(s, queue, p, cap, n + 1); var id := queue[n];
            if Fits(s, before, used, id, cap)
            then (var key := (before.records[id].project, before.records[id].contributor.value);
                  t.records == before.records && t.scores.Keys == before.scores.Keys + {id}
                    && after == used[key := Used(used, key.0, key.1) + 1])
            else t == before && after == used
  {
    hide PointsFor;
  }

  lemma ScoredKeeps(s: Store, t: Store, ids: seq<nat>, p: Policy)
    requires OnlyScored(s, t, ids, p)
    ensures t.records == s.records && s.scores.Keys <= t.scores.Keys
  {}

  lemma CapStep(s: Store, queue: seq<nat>, p: Policy, cap: nat, n: nat)
    requires n < |queue|
    requires var (before, used) := Recomputed(s, queue, p, cap, n);
             && OnlyScored(s, before, queue[..n], p)
             && (forall project: nat, member: nat :: WithinCap(s, before, used, project, member, cap))
             && (forall j | 0 <= j < n :: Capped(s, before, used, queue[j], cap))
    ensures var (t, after) := Recomputed(s, queue, p, cap, n + 1);
            && (forall project: nat, member: nat :: WithinCap(s, t, after, project, member, cap))
            && (forall j | 0 <= j < n + 1 :: Capped(s, t, after, queue[j], cap))
  {
    hide Recomputed, OnlyScored, Capped, NewlyScored;
    var (before, used) := Recomputed(s, queue, p, cap, n);
    var (t, after) := Recomputed(s, queue, p, cap, n + 1);
    var id := queue[n];
    OneRecomputed(s, queue, p, cap, n);
    ScoredKeeps(s, before, queue[..n], p);
    if Fits(s, before, used, id, cap) {
      forall project: nat, member: nat ensures WithinCap(s, t, after, project, member, cap) {
        assert WithinCap(s, before, used, project, member, cap);
        OneMoreScored(s, before, t, used, after, id, cap, project, member);
      }
      CappedAfter(s, before, t, used, after, id, cap, queue, n);
    } else {
      if Scorable(before, id) {
        assert WithinCap(s, before, used, s.records[id].project, s.records[id].contributor.value, cap);
      }
      StaysCapped(s, before, used, id, cap);
    }
  }

  /** A record left out was not scorable, or its places were used up. */
  lemma StaysCapped(s: Store, before: Store, used: map<(nat, nat), nat>, id: nat, cap: nat)
    requires before.records == s.records && s.scores.Keys <= before.scores.Keys
    requires Scorable(before, id) ==> Used(used, s.records[id].project, s.records[id].contributor.value) == cap
    ensures Capped(s, before, used, id, cap)
  {}

  lemma CappedAfter(
    s: Store, before: Store, t: Store, used: map<(nat, nat), nat>, usedAfter: map<(nat, nat), nat>, id: nat, cap: nat,
    queue: seq<nat>, n: nat)
    requires n < |queue| && queue[n] == id && id < |s.records| && s.records[id].contributor.Some?
    requires t.scores.Keys == before.scores.Keys + {id}
    requires var key := (s.records[id].project, s.records[id].contributor.value);
             usedAfter == used[key := Used(used, key.0, key.1) + 1] && Used(used, key.0, key.1) < cap
    requires forall j | 0 <= j < n :: Capped(s, before, used, queue[j], cap)
    ensures forall j | 0 <= j < n + 1 :: Capped(s, t, usedAfter, queue[j], cap)
  {
    forall j | 0 <= j < n ensures Capped(s, t, usedAfter, queue[j], cap) {
      assert Capped(s, before, used, queue[j], cap);
    }
  }

  lemma OneMoreScored(
    s: Store, before: Store, t: Store, used: map<(nat, nat), nat>, usedAfter: map<(nat, nat), nat>, id: nat, cap: nat,
    project: nat, member: nat)
    requires s.records == before.records && s.scores.Keys <= before.scores.Keys && Scorable(before, id)
    requires |NewlyScored(s, before, project, member)| == Used(used, project, member) <= cap
    requires t.scores.Keys == before.scores.Keys + {id}
    requires var key := (s.records[id].project, s.records[id].contributor.value);
             usedAfter == used[key := Used(used, key.0, key.1) + 1] && Used(used, key.0, key.1) < cap
    ensures |NewlyScored(s, t, project, member)| == Used(usedAfter, project, member) <= cap
  {
    GroupAfter(s, before, t, id, project, member);
    hide NewlyScored, Scorable;
  }

  /** Scoring one more record adds it to its own group only. */
  lemma GroupAfter(s: Store, before: Store, t: Store, id: nat, project: nat, member: nat)
    requires s.records == before.records && s.scores.Keys <= before.scores.Keys && Scorable(before, id)
    requires t.scores.Keys == before.scores.Keys + {id}
    ensures var g := NewlyScored(s, before, project, member); var h := NewlyScored(s, t, project, member);
            if Group(s, id) == (project, Some(member)) then |h| == |g| + 1 else h == g
  {
    var g, h := NewlyScored(s, before, project, member), NewlyScored(s, t, project, member);
    assert id !in before.scores && id !in g;
    if Group(s, id) == (project, Some(member)) {
      assert h == g + {id};
    } else {
      assert h == g;
    }
  }

  // ---- Several recomputations of one window ----

  /** The records of a project and member in the queue that wait for a score. */
  ghost function Waiting(s: Store, queue: seq<nat>, project: nat, member: nat): set<nat> {
    set id | id in queue && Scorable(s, id) && Group(s, id) == (project, Some(member))
  }

  /** One recomputation scores as many records of a project and member as wait, up to the cap. */
  lemma OneRound(s: Store, queue: seq<nat>, p: Policy, cap: nat, project: nat, member: nat)
    ensures var t := Recomputed(s, queue, p, cap, |queue|).0; var scored := NewlyScored(s, t, project, member);
            && scored <= Waiting(s, queue, project, member)
              && |scored| == Min(cap, |Waiting(s, queue, project, member)|)
            && OnlyScored(s, t, queue, p)
  {
    hide Recomputed, OnlyScored, Capped;
    var (t, used) := Recomputed(s, queue, p, cap, |queue|);
    RecomputationScores(s, queue, p, cap, |queue|);
    RecomputationCap(s, queue, p, cap, |queue|);
    assert queue[..|queue|] == queue;
    assert WithinCap(s, t, used, project, member, cap);
    ScoredWaited(s, t, queue, p, project, member);
    LeftAtCap(s, t, used, queue, cap, project, member);
    SubsetSize(NewlyScored(s, t, project, member), Waiting(s, queue, project, member));
    hide NewlyScored, Waiting;
  }

  lemma ScoredWaited(s: Store, t: Store, queue: seq<nat>, p: Policy, project: nat, member: nat)
    requires OnlyScored(s, t, queue, p)
    ensures NewlyScored(s, t, project, member) <= Waiting(s, queue, project, member)
  {
    hide PointsFor;
  }

  /** Either all that waited were scored, or as many as the cap allows. */
  lemma LeftAtCap(s: Store, t: Store, used: map<(nat, nat), nat>, queue: seq<nat>, cap: nat, project: nat, member: nat)
    requires WithinCap(s, t, used, project, member, cap)
             && forall j | 0 <= j < |queue| :: Capped(s, t, used, queue[j], cap)
    requires NewlyScored(s, t, project, member) <= Waiting(s, queue, project, member)
    ensures var scored := NewlyScored(s, t, project, member);
            |scored| <= cap && (scored == Waiting(s, queue, project, member) || |scored| == cap)
  {
    var scored, waiting := NewlyScored(s, t, project, member), Waiting(s, queue, project, member);
    if id :| id in waiting && id !in scored {
      var j :| 0 <= j < |queue| && queue[j] == id;
      assert Capped(s, t, used, queue[j], cap);
    }
  }

  lemma {:induction false} SubsetSize(a: set<nat>, b: set<nat>)
    requires a <= b
    ensures |a| <= |b| && |b - a| == |b| - |a|
  {
    assert b == a + (b - a);
  }

  /** The store after a number of recomputations over the same records, each with its own counts. */
  function Rounds(s: Store, queue: seq<nat>, p: Policy, cap: nat, rounds: nat): Store {
    if rounds == 0 then s
    else
      var t := Rounds(s, queue, p, cap, rounds - 1);
      Recomputed(t, queue, p, cap, |queue|).0
  }

  /**
   * The cap holds for each call alone: that many recomputations of one window score as many records of a project and
   * member as wait there, up to the cap times the number of calls.
   */
  lemma {:induction false} RoundsScore(s: Store, queue: seq<nat>, p: Policy, cap: nat, rounds: nat, project: nat,
                                       member: nat)
    ensures var t := Rounds(s, queue, p, cap, rounds); var scored := NewlyScored(s, t, project, member);
            && scored <= Waiting(s, queue, project, member)
            && |scored| == Min(rounds * cap, |Waiting(s, queue, project, member)|)
            && OnlyScored(s, t, queue, p)
  {
    hide Recomputed, NewlyScored, Waiting, OnlyScored;
    if rounds == 0 {
      NothingScored(s, queue, p, project, member);
    } else {
      RoundsScore(s, queue, p, cap, rounds - 1, project, member);
      var t := Rounds(s, queue, p, cap, rounds - 1);
      OneRound(t, queue, p, cap, project, member);
      var u := Rounds(s, queue, p, cap, rounds);
      ScoredTwice(s, t, u, queue, p);
      ScoredKeeps(s, t, queue, p);
      ScoredKeeps(t, u, queue, p);
      OneMoreRound(s, t, u, queue, project, member);
      assert rounds * cap == (rounds - 1) * cap + cap;
    }
  }

  lemma NothingScored(s: Store, queue: seq<nat>, p: Policy, project: nat, member: nat)
    ensures NewlyScored(s, s, project, member) == {} && OnlyScored(s, s, queue, p)
  {}

  lemma ScoredTwice(s: Store, t: Store, u: Store, queue: seq<nat>, p: Policy)
    requires OnlyScored(s, t, queue, p) && OnlyScored(t, u, queue, p)
    ensures OnlyScored(s, u, queue, p)
  {
    hide PointsFor;
  }

  /** What two rounds score adds up, and what the first scored no longer waits for the second. */
  lemma OneMoreRound(s: Store, t: Store, u: Store, queue: seq<nat>, project: nat, member: nat)
    requires s.records == t.records == u.records && s.scores.Keys <= t.scores.Keys <= u.scores.Keys
    requires NewlyScored(s, t, project, member) <= Waiting(s, queue, project, member)
    requires NewlyScored(t, u, project, member) <= Waiting(t, queue, project, member)
    ensures NewlyScored(s, u, project, member) <= Waiting(s, queue, project, member)
    ensures |NewlyScored(s, u, project, member)|
            == |NewlyScored(s, t, project, member)| + |NewlyScored(t, u, project, member)|
    ensures |Waiting(t, queue, project, member)|
            == |Waiting(s, queue, project, member)| - |NewlyScored(s, t, project, member)|
  {
    var a, b := NewlyScored(s, t, project, member), NewlyScored(t, u, project, member);
    assert a !! b && NewlyScored(s, u, project, member) == a + b;
    assert Waiting(t, queue, project, member) == Waiting(s, queue, project, member) - a;
    SubsetSize(a, Waiting(s, queue, project, member));
  }

  /** A score counts towards badge totals the same whether it is reversed or not. */
  lemma {:induction false} TotalIgnoresReversal(s: Store, t: Store, member: nat, policy: nat, n: nat)
    requires n <= |s.records| && t.records == s.records && t.scores.Keys == s.scores.Keys
    requires forall id | id in s.scores ::
             t.scores[id].points == s.scores[id].points && t.scores[id].policy == s.scores[id].policy
    ensures TotalUpTo(t, member, policy, n) == TotalUpTo(s, member, policy, n)
  {
    if n > 0 { TotalIgnoresReversal(s, t, member, policy, n - 1); }
  }

  /** So an invalidating correction takes the covered awards away without lowering what later badges are judged by. */
  lemma InvalidatedScoresStillCount(s: Store, q: Request, covered: seq<nat>, now: int, member: nat, policy: nat)
    requires covered != [] && (forall id | id in covered :: id < |s.records|) && q.kind.Invalidate?
             && Change(s, q, covered, now).Ok?
    ensures var t := Change(s, q, covered, now).value;
            TotalUpTo(t, member, policy, |t.records|) == TotalUpTo(s, member, policy, |s.records|)
  {
    ReverseAllLessens(s, covered, 0, |covered|, q.reason, q.actor, now);
    ReverseAllPolicy(s, covered, 0, |covered|, q.reason, q.actor, now);
    TotalIgnoresReversal(s, Change(s, q, covered, now).value, member, policy, |s.records|);
  }

  lemma {:induction false} ReverseAllPolicy(s: Store, covered: seq<nat>, from: nat, n: nat, reason: string, admin: nat,
                                            now: int)
    requires from <= n <= |covered|
    ensures var t := ReverseAll(s, covered, from, n, reason, admin, now);
            t.scores.Keys == s.scores.Keys && forall id | id in s.scores :: t.scores[id].policy == s.scores[id].policy
    decreases n
  {
    if n > from { ReverseAllPolicy(s, covered, from, n - 1, reason, admin, now); }
  }
}
