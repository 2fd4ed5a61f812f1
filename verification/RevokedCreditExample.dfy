// A run in which a revoked contribution gets its credit back: its score is invalidated by a correction, the
// contribution is revoked while the appeal is pending, and the appeal is overturned.
module RevokedCreditExample {
  import opened Common
  import opened Recognition
  import opened CorrectionRuns
  import opened CorrectionUndo

  const ACCEPTED := Record(Some(1), 0, Standard, NoFile, Accepted, false, None, false)
  const REVOKED := Record(Some(1), 0, Standard, NoFile, Revoked, false, None, false)
  const COUNTED := Score(1, 5, None, "")
  const REVERSED := Score(1, 5, Some(10), "duplicate")
  const REQUEST := Request(Invalidate, [0], None, true, "duplicate", 7)
  const BEFORE := Snapshot(map[0 := HoldView(false, None)], map[0 := ScoreView(5, None, "")], map[])
  const AFTER := Snapshot(map[0 := HoldView(false, None)], map[0 := ScoreView(5, Some(10), "duplicate")], map[])
  const STEPS := [DoApply(REQUEST, true, 10), DoAppeal(0, true), DoRevoke(0, true, "plagiarism", 8, 20),
                  DoResolve(0, Overturned, true, 9)]

  function Case(status: CorrectionStatus): Correction {
    Correction(Invalidate, [0], 1, "duplicate", 7, BEFORE, AFTER, status)
  }

  const START := Store([ACCEPTED], map[0 := COUNTED], [], [])

  lemma SnapOf(r: Record, x: Score, cs: seq<Correction>)
    requires !r.holdActive && r.heldFrom == None
    ensures Snap(Store([r], map[0 := x], [], cs), [0])
            == Snapshot(map[0 := HoldView(false, None)], map[0 := ViewScore(x)], map[])
  {
    var s := Snap(Store([r], map[0 := x], [], cs), [0]);
    assert s.scores == map[0 := ViewScore(x)];
    assert s.awards == map[];
    assert s.holds == map[0 := HoldView(false, None)];
  }

  lemma Applying()
    ensures Next(START, STEPS[0]) == Store([ACCEPTED], map[0 := REVERSED], [], [Case(Applied)])
  {
    var covered := Ordered(REQUEST.ids, 1);
    assert covered == [0] by { assert Ordered(REQUEST.ids, 0) == []; }
    SnapOf(ACCEPTED, COUNTED, []);
    SnapOf(ACCEPTED, REVERSED, []);
    var t := Store([ACCEPTED], map[0 := REVERSED], [], []);
    assert ReverseAll(START, [0], 0, 1, "duplicate", 7, 10) == Reverse(START, 0, "duplicate", 7, 10) == t;
    hide Snap, ReverseAll, Ordered;
    assert Change(START, REQUEST, [0], 10) == Ok(t);
    hide Change;
    assert ValidRequest(START, REQUEST);
  }

  lemma AppealingAndRevoking()
    ensures Next(Next(Store([ACCEPTED], map[0 := REVERSED], [], [Case(Applied)]), STEPS[1]), STEPS[2])
            == Store([REVOKED], map[0 := REVERSED], [], [Case(Appealed)])
  {
    var a := Store([ACCEPTED], map[0 := REVERSED], [], [Case(Appealed)]);
    assert Next(Store([ACCEPTED], map[0 := REVERSED], [], [Case(Applied)]), STEPS[1]) == a;
    var u := Store([REVOKED], map[0 := REVERSED], [], [Case(Appealed)]);
    assert a.records[0 := REVOKED] == u.records;
    assert Reverse(u, 0, "plagiarism", 8, 20) == u;
    hide Reverse;
    assert RevokeRecord(a, 0, true, "plagiarism", 8, 20).0 == u;
  }

  lemma Overturning()
    ensures Next(Store([REVOKED], map[0 := REVERSED], [], [Case(Appealed)]), STEPS[3])
            == Store([REVOKED], map[0 := COUNTED], [], [Case(Overturned)])
  {
    var u := Store([REVOKED], map[0 := REVERSED], [], [Case(Appealed)]);
    SnapOf(REVOKED, REVERSED, [Case(Appealed)]);
    var c := Case(Appealed);
    assert ScoresRestored(u.scores, [0], BEFORE.scores, 1) == map[0 := COUNTED] by {
      assert ScoresRestored(u.scores, [0], BEFORE.scores, 0) == u.scores;
      assert RestoredScore(REVERSED, BEFORE.scores[0]) == COUNTED;
    }
    assert PutBack(u, c) == Ok(Store([REVOKED], map[0 := COUNTED], [], [Case(Appealed)]));
    hide PutBack, Snap;
  }

  lemma OverturnAfterRevocation()
    ensures StoreOk(START) && NoRevokedCredit(START)
    ensures Run(START, STEPS) == Store([REVOKED], map[0 := COUNTED], [], [Case(Overturned)])
    ensures !NoRevokedCredit(Run(START, STEPS))
  {
    Applying();
    AppealingAndRevoking();
    Overturning();
    FourSteps(START, STEPS[0], STEPS[1], STEPS[2], STEPS[3]);
    assert STEPS == [STEPS[0], STEPS[1], STEPS[2], STEPS[3]];
    assert Run(START, STEPS) == Store([REVOKED], map[0 := COUNTED], [], [Case(Overturned)]);
    assert 0 in Run(START, STEPS).scores;
    hide Next, Run;
  }

  lemma FourSteps(s: Store, a: Step, b: Step, c: Step, d: Step)
    ensures Run(s, [a, b, c, d]) == Next(Next(Next(Next(s, a), b), c), d)
  {
    hide Next;
    assert [a, b, c, d][1..] == [b, c, d] && [b, c, d][1..] == [c, d] && [c, d][1..] == [d] && [d][1..] == [];
    assert Run(s, [a, b, c, d]) == Run(Next(s, a), [b, c, d]) == Run(Next(Next(s, a), b), [c, d]);
    var x := Next(Next(Next(s, a), b), c);
    assert Run(Next(Next(s, a), b), [c, d]) == Run(x, [d]) == Run(Next(x, d), []);
  }
}
