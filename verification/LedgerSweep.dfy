/** The reconciliation sweep over the provider's paged event list. */
module LedgerSweep {
  import opened Common
  import opened GithubEvents
  import opened Ledger
  import opened LedgerCredit
  import opened LedgerTracking

  const PAGE_SIZE := 100

  /** The provider's event list for one repository, and the repository's names. */
  datatype Provider = Provider(events: seq<RawEvent>, foldedName: string, repositoryName: string)

  function TargetOf(cfg: Config, nodeId: string, project: nat, provider: Provider): Target {
    Target(provider.foldedName, RepositoryRef(nodeId, provider.repositoryName), BranchOf(cfg, project))
  }

  function PageNumber(cursor: Cursor): Result<nat, FetchError> {
    match cursor
    case Start => Ok(1)
    case Page(n) => if n < 1 then Err(BadCursor) else Ok(n)
    case Malformed => Err(BadCursor)
  }

  /** Page `n` of the list: at most a hundred events, none past the end. */
  function RawPage(events: seq<RawEvent>, n: nat): seq<RawEvent>
    requires n >= 1
  {
    var from := Min(PAGE_SIZE * (n - 1), |events|);
    events[from..Min(from + PAGE_SIZE, |events|)]
  }

  /** The events worth recording among the first `n`, or the first failure. */
  function NormalizedUpTo(raws: seq<RawEvent>, target: Target, enabled: set<EventType>, n: nat)
    : Result<seq<ReconciliationEvent>, FetchError>
    requires n <= |raws|
  {
    if n == 0 then Ok([])
    else match NormalizedUpTo(raws, target, enabled, n - 1)
      case Err(e) => Err(e)
      case Ok(done) =>
        match Normalize(raws[n - 1], target, enabled)
        case Err(e) => Err(e)
        case Ok(None) => Ok(done)
        case Ok(Some(event)) => Ok(done + [event])
  }

  function FetchPage(cfg: Config, c: Connection, provider: Provider): Result<FetchedPage, FetchError> {
    if c.project.None? then Err(NoProject)
    else if BranchOf(cfg, c.project.value) == "" then Err(NoDefaultBranch)
    else match PageNumber(c.cursor)
      case Err(e) => Err(e)
      case Ok(n) =>
        if n < 1 then Err(BadCursor) else
        var raws := RawPage(provider.events, n);
        match NormalizedUpTo(raws, TargetOf(cfg, c.nodeId, c.project.value, provider), cfg.enabled, |raws|)
        case Err(e) => Err(e)
        case Ok(events) => Ok(FetchedPage(events, if |raws| >= PAGE_SIZE then Page(n + 1) else Start))
  }

  /** `GithubReconciliationFetcher.fetch` while the provider answers. */
  method Fetch(cfg: Config, c: Connection, provider: Provider) returns (r: Result<FetchedPage, FetchError>)
    ensures r == FetchPage(cfg, c, provider)
  {
    if c.project.None? { return Err(NoProject); }
    if BranchOf(cfg, c.project.value) == "" { return Err(NoDefaultBranch); }
    var page := PageNumber(c.cursor);
    if page.Err? { return Err(page.error); }
    if page.value < 1 { return Err(BadCursor); }
    var raws := RawPage(provider.events, page.value);
    var target := TargetOf(cfg, c.nodeId, c.project.value, provider);
    var events := [];
    for i := 0 to |raws|
      invariant NormalizedUpTo(raws, target, cfg.enabled, i) == Ok(events)
    {
      var normalized := Normalize(raws[i], target, cfg.enabled);
      if normalized.Err? {
        ErrorPersists(raws, target, cfg.enabled, i + 1, |raws|);
        return Err(normalized.error);
      }
      if normalized.value.Some? { events := events + [normalized.value.value]; }
    }
    return Ok(FetchedPage(events, if |raws| >= PAGE_SIZE then Page(page.value + 1) else Start));
  }

  lemma {:induction false} ErrorPersists(raws: seq<RawEvent>, target: Target, enabled: set<EventType>, n: nat, m: nat)
    requires n <= m <= |raws| && NormalizedUpTo(raws, target, enabled, n).Err?
    ensures NormalizedUpTo(raws, target, enabled, m) == NormalizedUpTo(raws, target, enabled, n)
  {
    if n < m { ErrorPersists(raws, target, enabled, n, m - 1); }
  }

  /** One attempt to reconcile: at `now`, with the provider answering or not. */
  datatype Attempt = Attempt(up: bool, now: int)

  function Try(cfg: Config, s: State, k: nat, provider: Provider, a: Attempt): State
    requires k < |s.connections|
  {
    Reconcile(cfg, s, k, if a.up then FetchPage(cfg, s.connections[k], provider) else Err(ProviderFailure), a.now).0
  }

  /** What happens while a sweep goes on: attempts of its own, and anything else between them. */
  datatype Move = Attempted(attempt: Attempt) | Between(step: Step)

  function Moved(cfg: Config, s: State, k: nat, provider: Provider, m: Move): (t: State)
    requires k < |s.connections|
    ensures |s.connections| <= |t.connections|
  {
    match m
    case Attempted(a) => Try(cfg, s, k, provider, a)
    case Between(step) =>
      CursorStays(cfg, s, step);
      Next(cfg, s, step)
  }

  /** No connection disappears, and only its own sweep moves its cursor. */
  lemma CursorStays(cfg: Config, s: State, step: Step)
    ensures var t := Next(cfg, s, step);
            && |s.connections| <= |t.connections|
            && forall k | 0 <= k < |s.connections| && !(step.Sweep? && step.connection == k) ::
                 t.connections[k].cursor == s.connections[k].cursor
  {
    if step.Work? {
      DrainKeepsConnections(s, PendingFrom(s.rows, 0, step.limit), step.env, Tally(0, 0, 0));
    }
    hide DrainRows, PendingFrom, PersistFrom, RowFor;
  }

  lemma {:induction false} DrainKeepsConnections(s: State, todo: seq<nat>, env: Env, t: Tally)
    requires forall j | 0 <= j < |todo| :: todo[j] < |s.rows|
    ensures DrainRows(s, todo, env, t).0.connections == s.connections
    decreases |todo|
  {
    if todo != [] {
      var (s', v) := ProcessOne(s, todo[0], env);
      DrainKeepsConnections(s', todo[1..], env, Counted(t, v));
    }
  }

  function Moves(cfg: Config, s: State, k: nat, provider: Provider, moves: seq<Move>): (t: State)
    requires k < |s.connections|
    ensures k < |t.connections|
    decreases |moves|
  {
    if moves == [] then s else Moves(cfg, Moved(cfg, s, k, provider, moves[0]), k, provider, moves[1..])
  }

  predicate Up(m: Move) { m.Attempted? && m.attempt.up }

  /** How many of the moves are successful attempts. */
  function Ups(moves: seq<Move>): nat {
    if moves == [] then 0 else (if Up(moves[0]) then 1 else 0) + Ups(moves[1..])
  }

  /** What happens in between says what the world says, and is no other sweep of the connection. */
  ghost predicate FaithfulMoves(cfg: Config, w: World, s: State, provider: Provider, moves: seq<Move>)
    requires w.connection < |s.connections|
    decreases |moves|
  {
    moves != [] ==>
      && (moves[0].Between? ==> FaithfulBetween(cfg, w, s, moves[0].step))
      && FaithfulMoves(cfg, w, Moved(cfg, s, w.connection, provider, moves[0]), provider, moves[1..])
  }

  ghost predicate FaithfulBetween(cfg: Config, w: World, s: State, step: Step) {
    Faithful(cfg, w, s, step) && !(step.Sweep? && step.connection == w.connection)
  }

  /** How many pages a whole sweep reads. */
  function SweepLength(provider: Provider): nat { |provider.events| / PAGE_SIZE + 1 }

  function CursorAfter(provider: Provider, done: nat): Cursor {
    if done == 0 || done == SweepLength(provider) then Start else Page(done + 1)
  }

  /** The ids of the recordable events among the first `n` of the list. */
  ghost function Recordable(cfg: Config, w: World, provider: Provider, n: nat): set<string>
    requires n <= |provider.events|
  {
    var target := TargetOf(cfg, w.nodeId, w.project, provider);
    set i | 0 <= i < n && Records(provider.events[i], target, cfg.enabled) ::
      RecordedId(provider.events[i], target, cfg.enabled)
  }

  predicate Records(raw: RawEvent, target: Target, enabled: set<EventType>) {
    var n := Normalize(raw, target, enabled); n.Ok? && n.value.Some?
  }

  function RecordedId(raw: RawEvent, target: Target, enabled: set<EventType>): string
    requires Records(raw, target, enabled)
  {
    Normalize(raw, target, enabled).value.value.parsed.eventId
  }

  /** The provider lists only this repository's events, each as the world knows it. */
  ghost predicate Truthful(cfg: Config, w: World, provider: Provider) {
    var target := TargetOf(cfg, w.nodeId, w.project, provider);
    && BranchOf(cfg, w.project) != ""
    && forall raw | raw in provider.events :: AsKnown(w, Normalize(raw, target, cfg.enabled))
  }

  predicate AsKnown(w: World, n: Result<Option<ReconciliationEvent>, FetchError>) {
    n.Ok? && (n.value.Some? ==> Carried(w, n.value.value))
  }

  lemma {:induction false} PageNormalizes(cfg: Config, w: World, provider: Provider, raws: seq<RawEvent>, n: nat)
    requires Truthful(cfg, w, provider) && n <= |raws| && forall raw | raw in raws :: raw in provider.events
    ensures var target := TargetOf(cfg, w.nodeId, w.project, provider);
            var r := NormalizedUpTo(raws, target, cfg.enabled, n);
            && r.Ok?
            && (forall e | e in r.value :: Carried(w, e))
            && (forall i | 0 <= i < n && Records(raws[i], target, cfg.enabled) ::
                  exists e | e in r.value :: e.parsed.eventId == RecordedId(raws[i], target, cfg.enabled))
  {
    hide Normalize, Carried;
    if n > 0 {
      PageNormalizes(cfg, w, provider, raws, n - 1);
      var target := TargetOf(cfg, w.nodeId, w.project, provider);
      var before := NormalizedUpTo(raws, target, cfg.enabled, n - 1).value;
      var after := NormalizedUpTo(raws, target, cfg.enabled, n);
      assert raws[n - 1] in provider.events;
      assert before <= after.value;
      assert forall e | e in before :: e in after.value;
      if Records(raws[n - 1], target, cfg.enabled) { assert after.value[|before|] in after.value; }
    }
  }

  /** A sweep that has read `done` pages: the cursor stands after them and their events are in the ledger. */
  ghost predicate Progress(cfg: Config, w: World, provider: Provider, s: State, seen: set<string>, done: nat) {
    && done <= SweepLength(provider)
    && LedgerOk(s) && Tracks(w, s, seen)
    && s.connections[w.connection].cursor == CursorAfter(provider, done)
    && Recordable(cfg, w, provider, Min(PAGE_SIZE * done, |provider.events|)) <= seen
  }

  /** What a successful fetch returns at a given point of the sweep. */
  lemma NextPageFetched(cfg: Config, w: World, provider: Provider, c: Connection, done: nat)
    requires Truthful(cfg, w, provider) && c.nodeId == w.nodeId && c.project == Some(w.project)
    requires done < SweepLength(provider) && c.cursor == CursorAfter(provider, done)
    ensures PAGE_SIZE * done <= |provider.events|
    ensures var fetched := FetchPage(cfg, c, provider);
            var target := TargetOf(cfg, w.nodeId, w.project, provider);
            && fetched.Ok? && fetched.value.next == CursorAfter(provider, done + 1)
            && (forall e | e in fetched.value.events :: Carried(w, e))
            && (forall i | PAGE_SIZE * done <= i < Min(PAGE_SIZE * (done + 1), |provider.events|)
                           && Records(provider.events[i], target, cfg.enabled) ::
                  exists e | e in fetched.value.events ::
                    e.parsed.eventId == RecordedId(provider.events[i], target, cfg.enabled))
  {
    hide Normalize, NormalizedUpTo, Records, RecordedId;
    var raws := RawPage(provider.events, done + 1);
    PageNormalizes(cfg, w, provider, raws, |raws|);
    var target := TargetOf(cfg, w.nodeId, w.project, provider);
    var fetched := FetchPage(cfg, c, provider);
    assert fetched.Ok? && fetched.value.events == NormalizedUpTo(raws, target, cfg.enabled, |raws|).value;
    forall i | PAGE_SIZE * done <= i < Min(PAGE_SIZE * (done + 1), |provider.events|)
               && Records(provider.events[i], target, cfg.enabled)
      ensures exists e | e in fetched.value.events ::
              e.parsed.eventId == RecordedId(provider.events[i], target, cfg.enabled)
    {
      assert raws[i - PAGE_SIZE * done] == provider.events[i];
    }
  }

  /** A successful attempt reads the next page. */
  lemma UpAdvances(cfg: Config, w: World, provider: Provider, s: State, seen: set<string>, done: nat, now: int)
    returns (seen': set<string>)
    requires Consistent(w) && Truthful(cfg, w, provider) && Progress(cfg, w, provider, s, seen, done)
    requires done < SweepLength(provider)
    ensures Progress(cfg, w, provider, Try(cfg, s, w.connection, provider, Attempt(true, now)), seen', done + 1)
  {
    hide FetchPage, Records, RecordedId, PersistFrom, Truthful, LedgerOk;
    var c := s.connections[w.connection];
    var target := TargetOf(cfg, w.nodeId, w.project, provider);
    NextPageFetched(cfg, w, provider, c, done);
    var fetched := FetchPage(cfg, c, provider);
    SweepTracks(cfg, w, s, seen, w.connection, fetched, now);
    StepKeepsLedger(cfg, s, Sweep(w.connection, fetched, now));
    seen' := seen + Brings(w, Sweep(w.connection, fetched, now));
    PersistTracks(w, s, seen, fetched.value.events, 0, 0);
    var upTo := Min(PAGE_SIZE * (done + 1), |provider.events|);
    forall id | id in Recordable(cfg, w, provider, upTo) ensures id in seen' {
      var i :| 0 <= i < upTo && Records(provider.events[i], target, cfg.enabled)
               && id == RecordedId(provider.events[i], target, cfg.enabled);
      if i < PAGE_SIZE * done { assert id in Recordable(cfg, w, provider, PAGE_SIZE * done); }
    }
  }

  /** A failed attempt moves neither the cursor nor the ledger. */
  lemma DownKeepsPlace(cfg: Config, s: State, k: nat, provider: Provider, now: int)
    requires k < |s.connections|
    ensures var t := Try(cfg, s, k, provider, Attempt(false, now));
            && t.rows == s.rows && t.contributions == s.contributions && |t.connections| == |s.connections|
            && t.connections[k].cursor == s.connections[k].cursor
            && forall i | 0 <= i < |s.connections| && i != k :: t.connections[i] == s.connections[i]
  {}

  /** Whatever happens in between keeps the progress made. */
  lemma BetweenKeepsProgress(cfg: Config, w: World, provider: Provider, s: State, seen: set<string>, done: nat,
                             step: Step)
    requires Consistent(w) && Progress(cfg, w, provider, s, seen, done) && FaithfulBetween(cfg, w, s, step)
    ensures Progress(cfg, w, provider, Next(cfg, s, step), seen + Brings(w, step), done)
  {
    hide Recordable, RowTracks, LedgerOk, Next, GivenUp;
    StepTracks(cfg, w, s, seen, step);
    StepKeepsLedger(cfg, s, step);
    CursorStays(cfg, s, step);
  }

  lemma MoveProgress(cfg: Config, w: World, provider: Provider, s: State, seen: set<string>, done: nat, m: Move)
    returns (seen': set<string>)
    requires Consistent(w) && Truthful(cfg, w, provider) && Progress(cfg, w, provider, s, seen, done)
    requires m.Between? ==> FaithfulBetween(cfg, w, s, m.step)
    requires Up(m) ==> done < SweepLength(provider)
    ensures Progress(cfg, w, provider, Moved(cfg, s, w.connection, provider, m), seen', done + if Up(m) then 1 else 0)
  {
    assert w.connection < |s.connections|;
    hide Truthful, Progress, Try, Next, FaithfulBetween, Consistent;
    if m.Between? {
      BetweenKeepsProgress(cfg, w, provider, s, seen, done, m.step);
      seen' := seen + Brings(w, m.step);
    } else if m.attempt.up {
      seen' := UpAdvances(cfg, w, provider, s, seen, done, m.attempt.now);
    } else {
      DownKeepsProgress(cfg, w, provider, s, seen, done, m.attempt.now);
      seen' := seen;
    }
  }

  lemma {:induction false} SweepProgress(
    cfg: Config, w: World, provider: Provider, s: State, seen: set<string>, done: nat, moves: seq<Move>)
    returns (seen': set<string>)
    requires w.connection < |s.connections| && Consistent(w) && Truthful(cfg, w, provider)
             && Progress(cfg, w, provider, s, seen, done)
    requires FaithfulMoves(cfg, w, s, provider, moves) && done + Ups(moves) <= SweepLength(provider)
    ensures Progress(cfg, w, provider, Moves(cfg, s, w.connection, provider, moves), seen', done + Ups(moves))
    decreases |moves|
  {
    hide Truthful, Progress, Moved, FaithfulBetween, Consistent, SweepLength;
    seen' := seen;
    if moves != [] {
      var m := moves[0];
      var t := Moved(cfg, s, w.connection, provider, m);
      var more := MoveProgress(cfg, w, provider, s, seen, done, m);
      seen' := SweepProgress(cfg, w, provider, t, more, done + if Up(m) then 1 else 0, moves[1..]);
    }
  }

  lemma DownKeepsProgress(cfg: Config, w: World, provider: Provider, s: State, seen: set<string>, done: nat, now: int)
    requires Consistent(w) && Progress(cfg, w, provider, s, seen, done)
    ensures Progress(cfg, w, provider, Try(cfg, s, w.connection, provider, Attempt(false, now)), seen, done)
  {
    hide Recordable, RowTracks, LedgerOk;
    SweepTracks(cfg, w, s, seen, w.connection, Err(ProviderFailure), now);
    StepKeepsLedger(cfg, s, Sweep(w.connection, Err(ProviderFailure), now));
    assert seen + Brings(w, Sweep(w.connection, Err(ProviderFailure), now)) == seen;
  }

  /**
   * Over a fixed list of N events, floor(N / 100) + 1 successful attempts from an empty cursor, with any failures
   * and any other steps between them, put every event that normalises into the ledger and bring the cursor back to
   * empty.
   */
  lemma SweepCompletes(cfg: Config, w: World, provider: Provider, s: State, seen: set<string>, moves: seq<Move>)
    requires w.connection < |s.connections| && LedgerOk(s) && Tracks(w, s, seen)
    requires Consistent(w) && Truthful(cfg, w, provider)
    requires s.connections[w.connection].cursor.Start?
    requires FaithfulMoves(cfg, w, s, provider, moves) && Ups(moves) == SweepLength(provider)
    ensures var t := Moves(cfg, s, w.connection, provider, moves);
            && t.connections[w.connection].cursor.Start?
            && forall id | id in Recordable(cfg, w, provider, |provider.events|) :: HasEvent(t.rows, id)
  {
    hide Moves, FaithfulMoves, Truthful, RowTracks, Listed, Records, RecordedId, Consistent, LedgerOk;
    assert Recordable(cfg, w, provider, 0) == {};
    var seen' := SweepProgress(cfg, w, provider, s, seen, 0, moves);
  }

  lemma {:induction false} KnownPageAddsNothing(rows: seq<Row>, nodeId: string, events: seq<ReconciliationEvent>,
                                                i: nat, n: nat)
    requires i <= |events| && forall e | e in events :: HasEvent(rows, e.parsed.eventId)
    ensures var r := PersistFrom(rows, nodeId, events, i, n); r.Ok? ==> r.value == (rows, n)
    decreases |events| - i
  {
    if i < |events| { KnownPageAddsNothing(rows, nodeId, events, i + 1, n); }
  }

  lemma {:induction false} NormalizedAreRecordable(cfg: Config, w: World, provider: Provider, raws: seq<RawEvent>,
                                                   n: nat)
    requires n <= |raws| && forall raw | raw in raws :: raw in provider.events
    ensures var r := NormalizedUpTo(raws, TargetOf(cfg, w.nodeId, w.project, provider), cfg.enabled, n);
            r.Ok? ==> forall e | e in r.value :: e.parsed.eventId in Recordable(cfg, w, provider, |provider.events|)
  {
    hide Normalize;
    if n > 0 {
      NormalizedAreRecordable(cfg, w, provider, raws, n - 1);
      var target := TargetOf(cfg, w.nodeId, w.project, provider);
      assert raws[n - 1] in provider.events;
      var i :| 0 <= i < |provider.events| && provider.events[i] == raws[n - 1];
      if Records(raws[n - 1], target, cfg.enabled) {
        assert RecordedId(provider.events[i], target, cfg.enabled) in Recordable(cfg, w, provider, |provider.events|);
      }
    }
  }

  /** Once every recordable event is in the ledger, no further attempt adds a row, whatever the cursor says. */
  lemma {:induction false} FurtherSweepAddsNothing(cfg: Config, w: World, provider: Provider, s: State,
                                                   moves: seq<Move>)
    requires w.connection < |s.connections| && forall m | m in moves :: m.Attempted?
    requires s.connections[w.connection].nodeId == w.nodeId && s.connections[w.connection].project == Some(w.project)
    requires forall id | id in Recordable(cfg, w, provider, |provider.events|) :: HasEvent(s.rows, id)
    ensures Moves(cfg, s, w.connection, provider, moves).rows == s.rows
    decreases |moves|
  {
    if moves != [] {
      var c := s.connections[w.connection];
      var fetched := FetchPage(cfg, c, provider);
      if moves[0].attempt.up && fetched.Ok? {
        var raws := RawPage(provider.events, PageNumber(c.cursor).value);
        NormalizedAreRecordable(cfg, w, provider, raws, |raws|);
        KnownPageAddsNothing(s.rows, c.nodeId, fetched.value.events, 0, 0);
      }
      FurtherSweepAddsNothing(cfg, w, provider, Moved(cfg, s, w.connection, provider, moves[0]), moves[1..]);
    }
  }

  // ---- Pages that cannot be read ----

  /** An event of an enabled type that the provider lists under another repository's name. */
  predicate Foreign(raw: RawEvent, provider: Provider, enabled: set<EventType>) {
    raw.event.Some? && raw.event.value in enabled && raw.repositoryName != provider.foldedName
  }

  lemma {:induction false} NormalizesIff(raws: seq<RawEvent>, target: Target, enabled: set<EventType>, n: nat)
    requires n <= |raws|
    ensures NormalizedUpTo(raws, target, enabled, n).Ok? <==>
            forall i | 0 <= i < n :: raws[i].event.Some? && raws[i].event.value in enabled
                                     ==> raws[i].repositoryName == target.foldedName
  {
    if n > 0 { NormalizesIff(raws, target, enabled, n - 1); }
  }

  /** A page of a bound project with a branch is read exactly when it lists no event of another repository. */
  lemma PageReadIff(cfg: Config, c: Connection, provider: Provider)
    requires c.project.Some? && BranchOf(cfg, c.project.value) != "" && PageNumber(c.cursor).Ok?
    ensures PageNumber(c.cursor).value >= 1
    ensures FetchPage(cfg, c, provider).Ok? <==>
            forall raw | raw in RawPage(provider.events, PageNumber(c.cursor).value) ::
              !Foreign(raw, provider, cfg.enabled)
  {
    var raws := RawPage(provider.events, PageNumber(c.cursor).value);
    NormalizesIff(raws, TargetOf(cfg, c.nodeId, c.project.value, provider), cfg.enabled, |raws|);
    hide NormalizedUpTo, RawPage;
    assert forall i | 0 <= i < |raws| :: raws[i] in raws;
  }

  /** A page that lists one stops the sweep there: no attempt moves the cursor or adds a row. */
  lemma {:induction false} ForeignEventStalls(cfg: Config, s: State, k: nat, provider: Provider, moves: seq<Move>)
    requires k < |s.connections| && forall m | m in moves :: m.Attempted?
    requires var c := s.connections[k];
             && c.project.Some? && BranchOf(cfg, c.project.value) != "" && PageNumber(c.cursor).Ok?
             && PageNumber(c.cursor).value >= 1
             && exists raw | raw in RawPage(provider.events, PageNumber(c.cursor).value) ::
                  Foreign(raw, provider, cfg.enabled)
    ensures var t := Moves(cfg, s, k, provider, moves);
            t.rows == s.rows && t.connections[k].cursor == s.connections[k].cursor
    decreases |moves|
  {
    if moves != [] {
      PageReadIff(cfg, s.connections[k], provider);
      var t := Moved(cfg, s, k, provider, moves[0]);
      hide FetchPage, RawPage, PersistFrom;
      ForeignEventStalls(cfg, t, k, provider, moves[1..]);
    }
  }
}
