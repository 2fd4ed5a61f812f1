/** Notification rows, the queue of emails, and what one dispatch run does to them. */
module Notifications {
  import opened Common

  datatype Kind = ApplicationStatus | ReviewDecision | ReviewComment | Assignment | ContributionVerified
    | ContributionRevoked
                | BadgeAwarded | ProjectUpdate | ProjectStatus | BookmarkChange | Moderation | Security | Account

  datatype Channel = InApp | Email

  datatype Delivery = Pending | Sent | Delivered | Failed | Suppressed

  datatype Digest = NoDigest | Daily | Weekly

  datatype Preference = Preference(applications: bool, reviews: bool, contributions: bool, community: bool,
                                   digest: Digest)

  const DEFAULTS := Preference(true, true, true, false, NoDigest)

  datatype Row = Row(recipient: nat, kind: Kind, channel: Channel, status: Delivery, attempts: nat, error: string,
                     dedup: string)

  /** A handover to the mailer: whom it is for, the rows it covers, and whether it was accepted. */
  datatype Mail = Mail(to: nat, rows: seq<nat>, accepted: bool)

  datatype State = State(rows: seq<Row>, preferences: map<nat, Preference>, outbox: seq<Mail>)

  /** Totals of a run. */
  datatype Tally = Tally(sent: nat, failed: nat, suppressed: nat)

  const MAX_ATTEMPTS: nat := 2

  predicate Mandatory(k: Kind) { k in {Security, Account, Moderation} }

  /** Whether the member takes email of this kind; mandatory kinds have no switch. */
  predicate Allows(k: Kind, p: Preference) {
    match k
    case ApplicationStatus => p.applications
    case Assignment => p.applications
    case ReviewDecision => p.reviews
    case ReviewComment => p.reviews
    case ContributionVerified => p.contributions
    case ContributionRevoked => p.contributions
    case BadgeAwarded => p.community
    case ProjectUpdate => p.community
    case ProjectStatus => p.community
    case BookmarkChange => p.community
    case _ => true
  }

  function PreferenceOf(preferences: map<nat, Preference>, member: nat): Preference {
    if member in preferences then preferences[member] else DEFAULTS
  }

  // ---- Queueing ----

  predicate Taken(rows: seq<Row>, recipient: nat, dedup: string) {
    dedup != "" && exists i | 0 <= i < |rows| :: rows[i].recipient == recipient && rows[i].dedup == dedup
  }

  /** `notify`: an in-app row and an email row, or neither when one of their keys is taken. */
  function Notify(s: State, recipient: nat, kind: Kind, mandatory: bool, dedup: Option<string>): State {
    var inApp := Row(recipient, kind, InApp, Delivered, 0, "", dedup.GetOr(""));
    var wanted := mandatory || Mandatory(kind) || Allows(kind, PreferenceOf(s.preferences, recipient));
    var email := Row(recipient, kind, Email, if wanted then Pending else Suppressed, 0, "", if dedup.Some?
                     then "email:" + dedup.value else "");
    if Taken(s.rows, recipient, inApp.dedup) || Taken(s.rows + [inApp], recipient, email.dedup) then s
    else s.(rows := s.rows + [inApp, email])
  }

  // ---- The queue ----

  predicate Candidate(r: Row) {
    r.channel.Email? && (r.status.Pending? || (r.status.Failed? && r.attempts < MAX_ATTEMPTS))
  }

  /** Order of the queue: by recipient, then by age. */
  predicate Before(rows: seq<Row>, a: nat, b: nat)
    requires a < |rows| && b < |rows|
  {
    rows[a].recipient < rows[b].recipient || (rows[a].recipient == rows[b].recipient && a < b)
  }

  predicate InRows(rows: seq<Row>, ids: seq<nat>) { forall k | 0 <= k < |ids| :: ids[k] < |rows| }

  function Insert(rows: seq<Row>, ids: seq<nat>, id: nat): seq<nat>
    requires InRows(rows, ids) && id < |rows|
  {
    if ids == [] || Before(rows, id, ids[0]) then [id] + ids else [ids[0]] + Insert(rows, ids[1..], id)
  }

  /** The candidates among the first `n` rows, in queue order. */
  function QueueOf(rows: seq<Row>, n: nat): (ids: seq<nat>)
    requires n <= |rows|
    ensures InRows(rows, ids)
  {
    if n == 0 then []
    else
      var ids := QueueOf(rows, n - 1);
      if Candidate(rows[n - 1]) then
        InsertInRows(rows, ids, n - 1);
        Insert(rows, ids, n - 1)
      else ids
  }

  lemma {:induction false} InsertInRows(rows: seq<Row>, ids: seq<nat>, id: nat)
    requires InRows(rows, ids) && id < |rows|
    ensures InRows(rows, Insert(rows, ids, id))
  {
    if ids != [] && !Before(rows, id, ids[0]) { InsertInRows(rows, ids[1..], id); }
  }

  function Queue(rows: seq<Row>): seq<nat> { QueueOf(rows, |rows|) }

  /** Where the group of equal recipients that holds position `i` ends. */
  function GroupEnd(rows: seq<Row>, queue: seq<nat>, member: nat, i: nat): (j: nat)
    requires i <= |queue| && InRows(rows, queue)
    ensures i <= j <= |queue|
    ensures forall k | i <= k < j :: rows[queue[k]].recipient == member
    ensures j < |queue| ==> rows[queue[j]].recipient != member
    ensures i < |queue| && rows[queue[i]].recipient == member ==> i < j
    decreases |queue| - i
  {
    if i < |queue| && rows[queue[i]].recipient == member then GroupEnd(rows, queue, member, i + 1) else i
  }

  // ---- Dispatch ----

  function SuppressedRow(r: Row): Row { r.(status := Suppressed) }

  /** The row after a handover; `error` names the failure the mailer raised, if it did. */
  function Settled(r: Row, error: Option<string>): Row {
    match error
    case None => r.(status := Sent, error := "")
    case Some(e) => r.(status := Failed, error := e[..Min(|e|, 100)], attempts := Min(r.attempts + 1, MAX_ATTEMPTS))
  }

  function Suppress(rows: seq<Row>, ids: seq<nat>): (r: seq<Row>)
    ensures |r| == |rows|
  {
    seq(|rows|, i requires 0 <= i < |rows| => if i in ids then SuppressedRow(rows[i]) else rows[i])
  }

  function Settle(rows: seq<Row>, ids: seq<nat>, error: Option<string>): seq<Row> {
    seq(|rows|, i requires 0 <= i < |rows| => if i in ids then Settled(rows[i], error) else rows[i])
  }

  function Add(a: Tally, b: Tally): Tally { Tally(a.sent + b.sent, a.failed + b.failed, a.suppressed + b.suppressed) }

  const NOTHING := Tally(0, 0, 0)

  /** What the mailer does with each handover in turn: None when it accepts, otherwise the error it raises. */
  type Mailer = nat -> Option<string>

  /** `_deliver`: one email for the rows. */
  function Deliver(s: State, to: nat, ids: seq<nat>, mailer: Mailer): (r: (State, Tally))
    ensures |r.0.rows| == |s.rows|
  {
    if ids == [] then (s, NOTHING)
    else
      var error := mailer(|s.outbox|);
      (s.(rows := Settle(s.rows, ids, error), outbox := s.outbox + [Mail(to, ids, error.None?)]),
       if error.None? then Tally(|ids|, 0, 0) else Tally(0, |ids|, 0))
  }

  /** One email a row, for the first `n` of them. */
  function DeliverEach(s: State, to: nat, ids: seq<nat>, n: nat, mailer: Mailer): (r: (State, Tally))
    requires n <= |ids|
    ensures |r.0.rows| == |s.rows|
  {
    if n == 0 then (s, NOTHING)
    else
      var (t, before) := DeliverEach(s, to, ids, n - 1, mailer);
      var (u, one) := Deliver(t, to, [ids[n - 1]], mailer);
      (u, Add(before, one))
  }

  /** The ids among the first `n` whose kinds are, or are not, allowed. */
  function Sorted(rows: seq<Row>, ids: seq<nat>, p: Preference, allowed: bool, n: nat): seq<nat>
    requires InRows(rows, ids) && n <= |ids|
  {
    if n == 0 then []
    else
      var before := Sorted(rows, ids, p, allowed, n - 1);
      if Allows(rows[ids[n - 1]].kind, p) == allowed then before + [ids[n - 1]] else before
  }

  /** A recipient's rows: opted-out ones are suppressed, the others sent one by one or as a digest. */
  function DispatchGroup(s: State, member: nat, ids: seq<nat>, mailer: Mailer): (r: (State, Tally))
    requires InRows(s.rows, ids)
    ensures |r.0.rows| == |s.rows|
  {
    var p := PreferenceOf(s.preferences, member);
    var allowed, refused := Sorted(s.rows, ids, p, true, |ids|), Sorted(s.rows, ids, p, false, |ids|);
    var u := s.(rows := Suppress(s.rows, refused));
    var (t, tally) := if p.digest.NoDigest? then DeliverEach(u, member, allowed, |allowed|, mailer)
      else Deliver(u, member, allowed, mailer);
    (t, Add(Tally(0, 0, |refused|), tally))
  }

  /** The groups from position `i` of the queue on. */
  function DispatchFrom(s: State, queue: seq<nat>, i: nat, mailer: Mailer): (r: (State, Tally))
    requires i <= |queue| && InRows(s.rows, queue)
    ensures |r.0.rows| == |s.rows|
    decreases |queue| - i
  {
    if i == |queue| then (s, NOTHING)
    else
      var member := s.rows[queue[i]].recipient;
      var j := GroupEnd(s.rows, queue, member, i);
      var (t, here) := DispatchGroup(s, member, queue[i..j], mailer);
      var (u, later) := DispatchFrom(t, queue, j, mailer);
      (u, Add(here, later))
  }

  /** `send_pending_notifications`. */
  function Dispatch(s: State, mailer: Mailer): (State, Tally) { DispatchFrom(s, Queue(s.rows), 0, mailer) }

  // ---- Runs ----

  datatype Step =
    | DoNotify(recipient: nat, kind: Kind, mandatory: bool, dedup: Option<string>)
    | DoPrefer(member: nat, preference: Preference)
    | DoDispatch(mailer: Mailer)

  function Next(s: State, step: Step): State {
    match step
    case DoNotify(recipient, kind, mandatory, dedup) => Notify(s, recipient, kind, mandatory, dedup)
    case DoPrefer(member, p) => s.(preferences := s.preferences[member := p])
    case DoDispatch(mailer) => Dispatch(s, mailer).0
  }

  function Run(s: State, steps: seq<Step>): State
    decreases |steps|
  {
    if steps == [] then s else Run(Next(s, steps[0]), steps[1..])
  }
}
