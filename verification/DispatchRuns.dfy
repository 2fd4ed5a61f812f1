/** Dispatching over many runs: totals add up, no row is handed over a third time, and the queue dries up. */
module DispatchRuns {
  import opened Common
  import opened Notifications
  import opened Dispatching

  // ---- Totals ----

  /** How many of the rows have this status. */
  function CountIn(rows: seq<Row>, ids: seq<nat>, status: Delivery): nat
    requires InRows(rows, ids)
  {
    if ids == [] then 0
    else
      CountIn(rows, ids[..|ids| - 1], status)
      + (if rows[ids[|ids| - 1]].status == status then 1 else 0)
  }

  lemma {:induction false} CountSame(rows: seq<Row>, t: seq<Row>, ids: seq<nat>, status: Delivery)
    requires InRows(rows, ids) && |t| == |rows| && forall k | 0 <= k < |ids| :: t[ids[k]].status == rows[ids[k]].status
    ensures CountIn(t, ids, status) == CountIn(rows, ids, status)
  {
    if ids != [] { CountSame(rows, t, ids[..|ids| - 1], status); }
  }

  lemma {:induction false} CountAll(rows: seq<Row>, ids: seq<nat>, own: Delivery, status: Delivery)
    requires InRows(rows, ids) && forall k | 0 <= k < |ids| :: rows[ids[k]].status == own
    ensures CountIn(rows, ids, status) == if status == own then |ids| else 0
  {
    if ids != [] { CountAll(rows, ids[..|ids| - 1], own, status); }
  }

  lemma CountMore(rows: seq<Row>, ids: seq<nat>, id: nat, status: Delivery)
    requires InRows(rows, ids) && id < |rows|
    ensures CountIn(rows, ids + [id], status)
            == CountIn(rows, ids, status) + (if rows[id].status == status then 1 else 0)
  {
    assert (ids + [id])[..|ids|] == ids;
  }

  lemma {:induction false} CountConcat(rows: seq<Row>, a: seq<nat>, b: seq<nat>, status: Delivery)
    requires InRows(rows, a) && InRows(rows, b)
    ensures CountIn(rows, a + b, status) == CountIn(rows, a, status) + CountIn(rows, b, status)
  {
    if b == [] {
      assert a + b == a;
    } else {
      var c := b[..|b| - 1];
      CountConcat(rows, a, c, status);
      CountMore(rows, a + c, b[|b| - 1], status);
      assert a + b == a + c + [b[|b| - 1]];
    }
  }

  /** The totals say how the rows ended. */
  predicate Accounts(rows: seq<Row>, ids: seq<nat>, tally: Tally)
    requires InRows(rows, ids)
  {
    && tally.sent == CountIn(rows, ids, Sent) && tally.failed == CountIn(rows, ids, Failed)
    && tally.suppressed == CountIn(rows, ids, Suppressed) && tally.sent + tally.failed + tally.suppressed == |ids|
  }

  lemma DeliverAccounts(s: State, to: nat, ids: seq<nat>, mailer: Mailer)
    requires InRows(s.rows, ids)
    ensures var (t, tally) := Deliver(s, to, ids, mailer); Accounts(t.rows, ids, tally) && tally.suppressed == 0
  {
    if ids != [] {
      var t := Deliver(s, to, ids, mailer).0;
      var own := if mailer(|s.outbox|).None? then Sent else Failed;
      forall k | 0 <= k < |ids| ensures t.rows[ids[k]].status == own { assert ids[k] in ids; }
      CountAll(t.rows, ids, own, Sent);
      CountAll(t.rows, ids, own, Failed);
      CountAll(t.rows, ids, own, Suppressed);
    }
  }

  lemma {:induction false} DeliverEachAccounts(s: State, to: nat, ids: seq<nat>, n: nat, mailer: Mailer)
    requires InRows(s.rows, ids) && n <= |ids| && Distinct(ids)
    ensures var (t, tally) := DeliverEach(s, to, ids, n, mailer);
            Accounts(t.rows, ids[..n], tally) && tally.suppressed == 0
  {
    hide Accounts, Deliver;
    if n == 0 {
      assert ids[..0] == [];
      NoneToCount(s.rows);
    } else {
      DeliverEachAccounts(s, to, ids, n - 1, mailer);
      var (t, before) := DeliverEach(s, to, ids, n - 1, mailer);
      OneMoreDelivered(t, to, ids, n - 1, before, mailer);
    }
  }

  lemma NoneToCount(rows: seq<Row>)
    ensures Accounts(rows, [], NOTHING)
  {}

  lemma OneMoreDelivered(t: State, to: nat, ids: seq<nat>, n: nat, before: Tally, mailer: Mailer)
    requires InRows(t.rows, ids) && n < |ids| && Distinct(ids) && Accounts(t.rows, ids[..n], before)
             && before.suppressed == 0
    ensures var (u, last) := Deliver(t, to, [ids[n]], mailer);
            Accounts(u.rows, ids[..n + 1], Add(before, last)) && Add(before, last).suppressed == 0
  {
    hide Accounts, Deliver;
    var (u, last) := Deliver(t, to, [ids[n]], mailer);
    DeliverAccounts(t, to, [ids[n]], mailer);
    OthersStay(t, to, ids, n, mailer);
    assert ids[..n + 1] == ids[..n] + [ids[n]];
    JoinedAccounts(t.rows, u.rows, ids[..n], [ids[n]], before, last);
  }

  lemma OthersStay(t: State, to: nat, ids: seq<nat>, n: nat, mailer: Mailer)
    requires InRows(t.rows, ids) && n < |ids| && Distinct(ids)
    ensures forall k | 0 <= k < n ::
            Deliver(t, to, [ids[n]], mailer).0.rows[ids[..n][k]].status == t.rows[ids[..n][k]].status
  {
    forall k | 0 <= k < n ensures ids[..n][k] !in [ids[n]] {}
  }

  /** Totals of two lots add up when the second lot left the first as it was. */
  lemma JoinedAccounts(t: seq<Row>, u: seq<Row>, a: seq<nat>, b: seq<nat>, x: Tally, y: Tally)
    requires |u| == |t| && InRows(t, a) && InRows(u, b) && Accounts(t, a, x) && Accounts(u, b, y)
    requires forall k | 0 <= k < |a| :: u[a[k]].status == t[a[k]].status
    ensures InRows(u, a + b) && Accounts(u, a + b, Add(x, y))
  {
    CountSame(t, u, a, Sent);
    CountSame(t, u, a, Failed);
    CountSame(t, u, a, Suppressed);
    CountConcat(u, a, b, Sent);
    CountConcat(u, a, b, Failed);
    CountConcat(u, a, b, Suppressed);
    hide CountIn;
  }

  lemma SortedStep(rows: seq<Row>, ids: seq<nat>, p: Preference, n: nat)
    requires InRows(rows, ids) && n < |ids|
    ensures var allowed, refused := Sorted(rows, ids, p, true, n), Sorted(rows, ids, p, false, n);
            if Allows(rows[ids[n]].kind, p)
            then
              Sorted(rows, ids, p, true, n + 1) == allowed + [ids[n]]
              && Sorted(rows, ids, p, false, n + 1) == refused
            else
              Sorted(rows, ids, p, true, n + 1) == allowed
              && Sorted(rows, ids, p, false, n + 1) == refused + [ids[n]]
  {
    hide Allows;
  }

  lemma CountSplit(t: seq<Row>, whole: seq<nat>, a: seq<nat>, b: seq<nat>, last: nat, toA: bool, status: Delivery)
    requires InRows(t, whole) && InRows(t, a) && InRows(t, b) && last < |t|
    requires CountIn(t, whole, status) == CountIn(t, a, status) + CountIn(t, b, status)
    ensures var a' := if toA then a + [last] else a; var b' := if toA then b else b + [last];
            && InRows(t, a') && InRows(t, b') && InRows(t, whole + [last])
            && CountIn(t, whole + [last], status) == CountIn(t, a', status) + CountIn(t, b', status)
  {
    hide CountIn;
    CountMore(t, whole, last, status);
    CountMore(t, a, last, status);
    CountMore(t, b, last, status);
  }

  /** Counting the allowed and the refused of a group counts the group. */
  lemma {:induction false} CountSorted(rows: seq<Row>, t: seq<Row>, ids: seq<nat>, p: Preference, n: nat,
                                       status: Delivery)
    requires InRows(rows, ids) && |t| == |rows| && n <= |ids|
    ensures InRows(t, Sorted(rows, ids, p, true, n)) && InRows(t, Sorted(rows, ids, p, false, n)) && InRows(t, ids[..n])
    ensures CountIn(t, ids[..n], status)
            == CountIn(t, Sorted(rows, ids, p, true, n), status) + CountIn(t, Sorted(rows, ids, p, false, n), status)
  {
    if n == 0 {
      assert ids[..0] == [];
    } else {
      hide CountIn, Allows, Sorted;
      CountSorted(rows, t, ids, p, n - 1, status);
      SortedStep(rows, ids, p, n - 1);
      var last := ids[n - 1];
      assert ids[..n] == ids[..n - 1] + [last];
      CountSplit(t, ids[..n - 1], Sorted(rows, ids, p, true, n - 1), Sorted(rows, ids, p, false, n - 1), last,
                 Allows(rows[last].kind, p), status);
      hide InRows;
    }
  }

  lemma GroupAccounts(s: State, member: nat, ids: seq<nat>, mailer: Mailer)
    requires Group(s, member, ids)
    ensures var (t, tally) := DispatchGroup(s, member, ids, mailer); Accounts(t.rows, ids, tally)
  {
    hide Sorted, Suppress, Allows, CountIn, DeliverEach, Deliver;
    var p := PreferenceOf(s.preferences, member);
    var allowed, refused := Sorted(s.rows, ids, p, true, |ids|), Sorted(s.rows, ids, p, false, |ids|);
    var u := s.(rows := Suppress(s.rows, refused));
    var (t, tally) := DispatchGroup(s, member, ids, mailer);
    assert ids[..|ids|] == ids;
    SortedAre(s.rows, ids, p, true, |ids|);
    CountSorted(s.rows, t.rows, ids, p, |ids|, Sent);
    CountSorted(s.rows, t.rows, ids, p, |ids|, Failed);
    CountSorted(s.rows, t.rows, ids, p, |ids|, Suppressed);
    SentAccounts(u, member, allowed, p, mailer);
    RefusedAccounts(s, member, ids, mailer);
  }

  lemma SentAccounts(u: State, member: nat, allowed: seq<nat>, p: Preference, mailer: Mailer)
    requires InRows(u.rows, allowed) && Distinct(allowed)
    ensures var (t, tally) := if p.digest.NoDigest? then DeliverEach(u, member, allowed, |allowed|, mailer)
            else Deliver(u, member, allowed, mailer);
            Accounts(t.rows, allowed, tally) && tally.suppressed == 0
  {
    hide Accounts, DeliverEach, Deliver;
    assert allowed[..|allowed|] == allowed;
    DeliverEachAccounts(u, member, allowed, |allowed|, mailer);
    DeliverAccounts(u, member, allowed, mailer);
  }

  lemma RefusedAccounts(s: State, member: nat, ids: seq<nat>, mailer: Mailer)
    requires Group(s, member, ids)
    ensures var t := DispatchGroup(s, member, ids, mailer).0;
            var refused := Sorted(s.rows, ids, PreferenceOf(s.preferences, member), false, |ids|);
            && InRows(t.rows, refused) && CountIn(t.rows, refused, Suppressed) == |refused|
            && CountIn(t.rows, refused, Sent) == 0 && CountIn(t.rows, refused, Failed) == 0
  {
    hide DispatchGroup, Allows, CountIn, Sorted;
    var p := PreferenceOf(s.preferences, member);
    var refused := Sorted(s.rows, ids, p, false, |ids|);
    var t := DispatchGroup(s, member, ids, mailer).0;
    assert ids[..|ids|] == ids;
    SortedAre(s.rows, ids, p, false, |ids|);
    forall k | 0 <= k < |refused| ensures refused[k] < |t.rows| && t.rows[refused[k]].status == Suppressed {
      var id := refused[k];
      assert id in refused && id in ids && s.rows[id].recipient == member;
      GroupEffect(s, member, ids, mailer, id);
    }
    CountAll(t.rows, refused, Suppressed, Sent);
    CountAll(t.rows, refused, Suppressed, Failed);
    CountAll(t.rows, refused, Suppressed, Suppressed);
  }

  /**
   * Sent, failed and suppressed together are the rows that were queued, and each total counts the rows that ended so.
   */
  lemma {:induction false} DispatchAccounts(s: State, queue: seq<nat>, i: nat, mailer: Mailer)
    requires InOrder(s.rows, queue) && i <= |queue|
    ensures var (t, tally) := DispatchFrom(s, queue, i, mailer);
            InRows(t.rows, queue[i..]) && Accounts(t.rows, queue[i..], tally)
    decreases |queue| - i
  {
    hide DispatchGroup, Processed, Untouched, Accounts, InOrder;
    if i == |queue| {
      NoneToCount(s.rows);
    } else {
      IdsInRows(s.rows, queue);
      var member := s.rows[queue[i]].recipient;
      var j := GroupEnd(s.rows, queue, member, i);
      var ids := queue[i..j];
      var (t, here) := DispatchGroup(s, member, ids, mailer);
      GroupAt(s, queue, i, mailer);
      GroupAccounts(s, member, ids, mailer);
      DispatchAccounts(t, queue, j, mailer);
      var (u, later) := DispatchFrom(t, queue, j, mailer);
      forall k | 0 <= k < |ids| ensures u.rows[ids[k]].status == t.rows[ids[k]].status {
        LaterKeeps(t, queue, i, j, mailer, i + k);
      }
      assert queue[i..] == ids + queue[j..];
      JoinedAccounts(t.rows, u.rows, ids, queue[j..], here, later);
    }
  }

  lemma IdsInRows(rows: seq<Row>, queue: seq<nat>)
    requires InOrder(rows, queue)
    ensures InRows(rows, queue)
  {}

  lemma LaterKeeps(t: State, queue: seq<nat>, i: nat, j: nat, mailer: Mailer, k: nat)
    requires InOrder(t.rows, queue) && i <= k < j <= |queue|
    ensures var u := DispatchFrom(t, queue, j, mailer).0; u.rows[queue[k]] == t.rows[queue[k]]
  {
    DispatchEffect(t, queue, j, mailer, queue[k]);
    forall l | j <= l < |queue| ensures queue[l] != queue[k] { assert Before(t.rows, queue[k], queue[l]); }
    assert queue[k] !in queue[j..];
    hide DispatchFrom, Handed, Succeeded;
  }

  /** The totals of a whole run. */
  lemma RunAccounts(s: State, mailer: Mailer)
    ensures var (t, tally) := Dispatch(s, mailer);
            InRows(t.rows, Queue(s.rows)) && Accounts(t.rows, Queue(s.rows), tally)
  {
    QueueIs(s.rows, |s.rows|);
    DispatchAccounts(s, Queue(s.rows), 0, mailer);
    assert Queue(s.rows)[0..] == Queue(s.rows);
    hide DispatchFrom, QueueOf, Accounts;
  }

  // ---- Addresses ----

  /** Every email covers rows of the member it is sent to, and at least one. */
  ghost predicate Addressed(rows: seq<Row>, outbox: seq<Mail>) {
    forall k | 0 <= k < |outbox| :: MailOk(rows, outbox[k])
  }

  ghost predicate MailOk(rows: seq<Row>, m: Mail) {
    m.rows != [] && InRows(rows, m.rows) && forall k | 0 <= k < |m.rows| :: rows[m.rows[k]].recipient == m.to
  }

  lemma AddressedStays(rows: seq<Row>, t: seq<Row>, outbox: seq<Mail>)
    requires Addressed(rows, outbox) && |rows| <= |t|
             && forall i: nat | i < |rows| :: t[i].recipient == rows[i].recipient
    ensures Addressed(t, outbox)
  {
    forall k | 0 <= k < |outbox| ensures MailOk(t, outbox[k]) { assert MailOk(rows, outbox[k]); }
  }

  predicate SameRecipients(rows: seq<Row>, t: seq<Row>) {
    |t| == |rows| && forall i: nat | i < |rows| :: t[i].recipient == rows[i].recipient
  }

  lemma DeliverAddressed(s: State, to: nat, ids: seq<nat>, mailer: Mailer)
    requires Addressed(s.rows, s.outbox) && Group(s, to, ids)
    ensures var t := Deliver(s, to, ids, mailer).0; SameRecipients(s.rows, t.rows) && Addressed(t.rows, t.outbox)
  {
    var t := Deliver(s, to, ids, mailer).0;
    AddressedStays(s.rows, t.rows, s.outbox);
    if ids != [] { assert MailOk(t.rows, t.outbox[|s.outbox|]); }
    hide MailOk;
  }

  lemma {:induction false} DeliverEachAddressed(s: State, to: nat, ids: seq<nat>, n: nat, mailer: Mailer)
    requires Addressed(s.rows, s.outbox) && Group(s, to, ids) && n <= |ids|
    ensures var t := DeliverEach(s, to, ids, n, mailer).0; SameRecipients(s.rows, t.rows) && Addressed(t.rows, t.outbox)
  {
    hide Addressed, Deliver, Group;
    if n > 0 {
      DeliverEachAddressed(s, to, ids, n - 1, mailer);
      var t := DeliverEach(s, to, ids, n - 1, mailer).0;
      OneOfGroup(s, t, to, ids, n - 1);
      DeliverAddressed(t, to, [ids[n - 1]], mailer);
    }
  }

  lemma OneOfGroup(s: State, t: State, to: nat, ids: seq<nat>, k: nat)
    requires Group(s, to, ids) && k < |ids| && SameRecipients(s.rows, t.rows)
    ensures Group(t, to, [ids[k]])
  {}

  lemma GroupAddressed(s: State, member: nat, ids: seq<nat>, mailer: Mailer)
    requires Addressed(s.rows, s.outbox) && Group(s, member, ids)
    ensures var t := DispatchGroup(s, member, ids, mailer).0;
            SameRecipients(s.rows, t.rows) && Addressed(t.rows, t.outbox)
  {
    var p := PreferenceOf(s.preferences, member);
    var allowed := Sorted(s.rows, ids, p, true, |ids|);
    var u := s.(rows := Suppress(s.rows, Sorted(s.rows, ids, p, false, |ids|)));
    assert ids[..|ids|] == ids;
    SortedAre(s.rows, ids, p, true, |ids|);
    AddressedStays(s.rows, u.rows, s.outbox);
    forall k | 0 <= k < |allowed| ensures allowed[k] < |u.rows| && u.rows[allowed[k]].recipient == member {
      assert allowed[k] in allowed;
      var j :| 0 <= j < |ids| && ids[j] == allowed[k];
    }
    hide Addressed, Sorted, Suppress, DeliverEach, Deliver, Allows;
    DeliverEachAddressed(u, member, allowed, |allowed|, mailer);
    DeliverAddressed(u, member, allowed, mailer);
  }

  lemma {:induction false} DispatchAddressed(s: State, queue: seq<nat>, i: nat, mailer: Mailer)
    requires Addressed(s.rows, s.outbox) && InOrder(s.rows, queue) && i <= |queue|
    ensures var t := DispatchFrom(s, queue, i, mailer).0; SameRecipients(s.rows, t.rows) && Addressed(t.rows, t.outbox)
    decreases |queue| - i
  {
    if i < |queue| {
      var member := s.rows[queue[i]].recipient;
      var j := GroupEnd(s.rows, queue, member, i);
      GroupAt(s, queue, i, mailer);
      GroupAddressed(s, member, queue[i..j], mailer);
      DispatchAddressed(DispatchGroup(s, member, queue[i..j], mailer).0, queue, j, mailer);
      hide Addressed, InOrder, DispatchGroup;
    }
  }

  lemma {:induction false} NeverMailed(rows: seq<Row>, outbox: seq<Mail>, id: nat)
    requires Addressed(rows, outbox) && id >= |rows|
    ensures Handed(outbox, id) == 0 && Succeeded(outbox, id) == 0
  {
    if outbox != [] {
      NeverMailed(rows, outbox[..|outbox| - 1], id);
      assert MailOk(rows, outbox[|outbox| - 1]);
    }
  }

  // ---- The account of each row ----

  /** What a row's status and attempts say about the emails that covered it. */
  predicate RowOk(s: State, id: nat) {
    && id < |s.rows|
    && (var r, handed, taken := s.rows[id], Handed(s.outbox, id), Succeeded(s.outbox, id);
        if r.channel.InApp? then r.status.Delivered? && handed == 0 && taken == 0
        else match r.status
          case Pending => r.attempts == 0 && handed == 0 && taken == 0
          case Sent => r.attempts <= 1 && handed == r.attempts + 1 && taken == 1
          case Failed => 1 <= r.attempts <= MAX_ATTEMPTS && handed == r.attempts && taken == 0
          case Suppressed => r.attempts <= 1 && handed == r.attempts && taken == 0
          case Delivered => false)
  }

  ghost predicate StateOk(s: State) {
    Addressed(s.rows, s.outbox) && forall id: nat | id < |s.rows| :: RowOk(s, id)
  }

  lemma ProcessedOk(s: State, t: State, id: nat)
    requires RowOk(s, id) && id < |t.rows| == |s.rows|
    requires if Candidate(s.rows[id]) then Processed(s, t, id) else Untouched(s, t, id)
    ensures RowOk(t, id)
    ensures Candidate(t.rows[id]) ==>
            s.rows[id].status.Pending? && t.rows[id].status.Failed? && t.rows[id].attempts == 1
  {
    hide Handed, Succeeded, Allows;
  }

  lemma NotifyOk(s: State, recipient: nat, kind: Kind, mandatory: bool, dedup: Option<string>)
    requires StateOk(s)
    ensures StateOk(Notify(s, recipient, kind, mandatory, dedup))
  {
    var t := Notify(s, recipient, kind, mandatory, dedup);
    AddressedStays(s.rows, t.rows, s.outbox);
    NeverMailed(s.rows, s.outbox, |s.rows|);
    NeverMailed(s.rows, s.outbox, |s.rows| + 1);
    forall id: nat | id < |t.rows| ensures RowOk(t, id) {
      if id < |s.rows| { assert RowOk(s, id); }
    }
    hide Addressed, Handed, Succeeded;
  }

  lemma DispatchOk(s: State, mailer: Mailer)
    requires StateOk(s)
    ensures StateOk(Dispatch(s, mailer).0) && |Dispatch(s, mailer).0.rows| == |s.rows|
    ensures forall id: nat | id < |s.rows| && Candidate(Dispatch(s, mailer).0.rows[id])
              :: s.rows[id].status.Pending? && Dispatch(s, mailer).0.rows[id].attempts == 1
  {
    var t := Dispatch(s, mailer).0;
    QueueIs(s.rows, |s.rows|);
    DispatchAddressed(s, Queue(s.rows), 0, mailer);
    hide Addressed, Candidate, RowOk, Processed, Untouched, DispatchFrom, QueueOf, InOrder;
    forall id: nat | id < |s.rows|
      ensures RowOk(t, id) && (Candidate(t.rows[id]) ==> s.rows[id].status.Pending? && t.rows[id].attempts == 1)
    {
      RunEffect(s, mailer, id);
      ProcessedOk(s, t, id);
    }
  }

  lemma {:induction false} RunOk(s: State, steps: seq<Step>)
    requires StateOk(s)
    ensures StateOk(Run(s, steps))
    decreases |steps|
  {
    if steps != [] {
      match steps[0] {
        case DoNotify(recipient, kind, mandatory, dedup) => NotifyOk(s, recipient, kind, mandatory, dedup);
        case DoPrefer(member, p) => assert forall id: nat | id < |s.rows| :: RowOk(s, id) ==>
          RowOk(Next(s, steps[0]), id);
        case DoDispatch(mailer) => DispatchOk(s, mailer);
      }
      hide Addressed, RowOk, Dispatch, Notify;
      RunOk(Next(s, steps[0]), steps[1..]);
    }
  }

  /**
   * Over every run no row is in more than two emails or in more than one that was taken, and in one exactly if it is
   * sent.
   */
  lemma AtMostTwice(steps: seq<Step>, id: nat)
    ensures var s := Run(State([], map[], []), steps);
            && Handed(s.outbox, id) <= 2 && Succeeded(s.outbox, id) <= 1
            && (Succeeded(s.outbox, id) == 1 <==> id < |s.rows| && s.rows[id].status.Sent?)
            && Addressed(s.rows, s.outbox)
  {
    var s := Run(State([], map[], []), steps);
    RunOk(State([], map[], []), steps);
    if id < |s.rows| { assert RowOk(s, id); } else { NeverMailed(s.rows, s.outbox, id); }
    hide Run, Handed, Succeeded, Addressed;
  }

  /** With no new notification between them, two runs leave nothing to send, whatever the mailer and the switches do. */
  lemma TwoRunsSuffice(s: State, first: Mailer, preferences: map<nat, Preference>, second: Mailer, id: nat)
    requires StateOk(s) && id < |s.rows|
    ensures var t := Dispatch(s, first).0.(preferences := preferences); var u := Dispatch(t, second).0;
            |u.rows| == |s.rows| && !Candidate(u.rows[id])
  {
    hide Dispatch, Addressed, Handed, Succeeded;
    var d := Dispatch(s, first).0;
    var t := d.(preferences := preferences);
    DispatchOk(s, first);
    assert RowOk(d, id);
    forall i: nat | i < |t.rows| ensures RowOk(t, i) { assert RowOk(d, i); }
    DispatchOk(t, second);
  }
}
