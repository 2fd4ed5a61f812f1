/** The dispatcher over the stored rows, performed in place. */
module Dispatchers {
  import opened Common
  import opened Notifications
  import opened Dispatching

  class Dispatcher {
    var rows: seq<Row>
    var preferences: map<nat, Preference>
    var outbox: seq<Mail>

    function View(): State reads this { State(rows, preferences, outbox) }

    constructor ()
      ensures View() == State([], map[], [])
    {
      rows, preferences, outbox := [], map[], [];
    }

    method Record(recipient: nat, kind: Kind, mandatory: bool, dedup: Option<string>)
      modifies this`rows
      ensures View() == Notify(old(View()), recipient, kind, mandatory, dedup)
    {
      var status := Pending;
      if !mandatory && !Mandatory(kind) && !Allows(kind, PreferenceOf(preferences, recipient)) { status := Suppressed; }
      var inApp := Row(recipient, kind, InApp, Delivered, 0, "", dedup.GetOr(""));
      var email := Row(recipient, kind, Email, status, 0, "", if dedup.Some? then "email:" + dedup.value else "");
      var saved := rows;
      if Taken(rows, recipient, inApp.dedup) { return; }
      rows := rows + [inApp];
      if Taken(rows, recipient, email.dedup) {
        rows := saved;
        return;
      }
      rows := rows + [email];
    }

    /** `record_delivery_failure` and `_mark_sent`, for one row. */
    method Mark(id: nat, error: Option<string>)
      requires id < |rows|
      modifies this`rows
      ensures rows == old(rows)[id := Settled(old(rows)[id], error)]
    {
      var row := rows[id];
      match error {
        case None => rows := rows[id := row.(status := Sent, error := "")];
        case Some(e) =>
          var attempts := Min(row.attempts + 1, MAX_ATTEMPTS);
          rows := rows[id := row.(status := Failed, error := e[..Min(|e|, 100)], attempts := attempts)];
      }
    }

    method DeliverRows(to: nat, ids: seq<nat>, mailer: Mailer) returns (sent: nat, failed: nat)
      requires InRows(rows, ids) && forall i, j | 0 <= i < j < |ids| :: ids[i] != ids[j]
      modifies this`rows, this`outbox
      ensures (View(), Tally(sent, failed, 0)) == Deliver(old(View()), to, ids, mailer)
    {
      if ids == [] { return 0, 0; }
      var error := mailer(|outbox|);
      outbox := outbox + [Mail(to, ids, error.None?)];
      for n := 0 to |ids|
        invariant outbox == old(outbox) + [Mail(to, ids, error.None?)]
        invariant rows == Settle(old(rows), ids[..n], error)
      {
        assert ids[..n + 1] == ids[..n] + [ids[n]] && ids[n] !in ids[..n];
        Mark(ids[n], error);
      }
      assert ids[..|ids|] == ids;
      if error.None? { return |ids|, 0; } else { return 0, |ids|; }
    }

    method SendEach(member: nat, ids: seq<nat>, mailer: Mailer) returns (t: Tally)
      requires InRows(rows, ids)
      modifies this`rows, this`outbox
      ensures (View(), t) == DeliverEach(old(View()), member, ids, |ids|, mailer)
    {
      hide Deliver;
      t := NOTHING;
      ghost var s := View();
      for n := 0 to |ids|
        invariant |rows| == |old(rows)|
        invariant View() == DeliverEach(s, member, ids, n, mailer).0
        invariant t == DeliverEach(s, member, ids, n, mailer).1 && t.suppressed == 0
      {
        ghost var before := View();
        var sent, failed := DeliverRows(member, [ids[n]], mailer);
        assert DeliverEach(s, member, ids, n + 1, mailer) == (View(), Add(t, Tally(sent, failed, 0)));
        t := Tally(t.sent + sent, t.failed + failed, 0);
      }
    }

    /** One recipient's rows: the opted-out are suppressed together, the others go one by one or as a digest. */
    method SendGroup(member: nat, ids: seq<nat>, mailer: Mailer) returns (t: Tally)
      requires InRows(rows, ids) && forall i, j | 0 <= i < j < |ids| :: ids[i] != ids[j]
      modifies this`rows, this`outbox
      ensures (View(), t) == DispatchGroup(old(View()), member, ids, mailer)
    {
      hide Sorted, Suppress, Deliver, DeliverEach;
      var preference := PreferenceOf(preferences, member);
      var allowed, refused := SortGroup(ids, preference);
      SuppressNone(rows);
      if refused != [] { rows := Suppress(rows, refused); }
      NothingToSend(View(), member, mailer);
      t := NOTHING;
      if allowed != [] {
        if preference.digest.NoDigest? {
          t := SendEach(member, allowed, mailer);
        } else {
          var sent, failed := DeliverRows(member, allowed, mailer);
          t := Tally(sent, failed, 0);
        }
      }
      t := Add(Tally(0, 0, |refused|), t);
    }

    method SortGroup(ids: seq<nat>, preference: Preference) returns (allowed: seq<nat>, refused: seq<nat>)
      requires InRows(rows, ids) && forall i, j | 0 <= i < j < |ids| :: ids[i] != ids[j]
      ensures allowed == Sorted(rows, ids, preference, true, |ids|)
              && refused == Sorted(rows, ids, preference, false, |ids|)
      ensures InRows(rows, allowed) && forall i, j | 0 <= i < j < |allowed| :: allowed[i] != allowed[j]
    {
      allowed, refused := [], [];
      for n := 0 to |ids|
        invariant allowed == Sorted(rows, ids, preference, true, n)
                  && refused == Sorted(rows, ids, preference, false, n)
        invariant forall k | 0 <= k < |allowed| :: allowed[k] in ids[..n]
        invariant InRows(rows, allowed) && forall i, j | 0 <= i < j < |allowed| :: allowed[i] != allowed[j]
      {
        assert ids[..n + 1] == ids[..n] + [ids[n]] && ids[n] !in ids[..n];
        if Allows(rows[ids[n]].kind, preference) {
          allowed := allowed + [ids[n]];
        } else {
          refused := refused + [ids[n]];
        }
      }
    }
  
    /** `send_pending_notifications`: the queue, recipient by recipient. */
    method SendPending(mailer: Mailer) returns (t: Tally)
      modifies this`rows, this`outbox
      ensures (View(), t) == Dispatch(old(View()), mailer)
    {
      var queue := Queue(rows);
      QueueIs(rows, |rows|);
      t := NOTHING;
      var i := 0;
      RestStart(View(), queue, mailer);
      hide DispatchFrom, DispatchGroup, QueueOf, InOrder;
      while i < |queue|
        invariant i <= |queue| && InRows(rows, queue) && InOrder(rows, queue) && preferences == old(preferences)
        invariant Rest(View(), queue, i, mailer, t) == Dispatch(old(View()), mailer)
        decreases |queue| - i
      {
        var member := rows[queue[i]].recipient;
        var j := EndOfGroup(queue, member, i);
        GroupAt(View(), queue, i, mailer);
        RestStep(View(), queue, i, mailer, t);
        var here := SendGroup(member, queue[i..j], mailer);
        t := Add(t, here);
        i := j;
      }
      RestEnd(View(), queue, mailer, t);
    }

    method EndOfGroup(queue: seq<nat>, member: nat, i: nat) returns (j: nat)
      requires i <= |queue| && InRows(rows, queue)
      ensures j == GroupEnd(rows, queue, member, i)
    {
      j := i;
      while j < |queue| && rows[queue[j]].recipient == member
        invariant i <= j <= |queue|
        invariant GroupEnd(rows, queue, member, i) == GroupEnd(rows, queue, member, j)
      {
        j := j + 1;
      }
    }
  }

  /** What the run comes to from here, with `t` counted so far. */
  ghost function Rest(s: State, queue: seq<nat>, i: nat, mailer: Mailer, t: Tally): (State, Tally)
    requires i <= |queue| && InRows(s.rows, queue)
  {
    var (after, rest) := DispatchFrom(s, queue, i, mailer);
    (after, Add(t, rest))
  }

  lemma RestStart(s: State, queue: seq<nat>, mailer: Mailer)
    requires queue == Queue(s.rows)
    ensures Rest(s, queue, 0, mailer, NOTHING) == Dispatch(s, mailer)
  {
    hide DispatchFrom, QueueOf;
  }

  lemma RestEnd(s: State, queue: seq<nat>, mailer: Mailer, t: Tally)
    requires InRows(s.rows, queue)
    ensures Rest(s, queue, |queue|, mailer, t) == (s, t)
  {}

  lemma RestStep(s: State, queue: seq<nat>, i: nat, mailer: Mailer, t: Tally)
    requires i < |queue| && InRows(s.rows, queue)
    ensures var member := s.rows[queue[i]].recipient; var j := GroupEnd(s.rows, queue, member, i);
            var (u, here) := DispatchGroup(s, member, queue[i..j], mailer);
            Rest(s, queue, i, mailer, t) == Rest(u, queue, j, mailer, Add(t, here))
  {
    hide DispatchGroup;
  }

  lemma SuppressNone(rows: seq<Row>)
    ensures Suppress(rows, []) == rows
  {}

  lemma NothingToSend(s: State, to: nat, mailer: Mailer)
    ensures Deliver(s, to, [], mailer) == (s, NOTHING) && DeliverEach(s, to, [], 0, mailer) == (s, NOTHING)
  {}
}
