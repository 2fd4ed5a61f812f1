/** What dispatching guarantees over one run and over all of them. */
module Dispatching {
  import opened Common
  import opened Notifications

  // ---- The queue ----

  ghost predicate InOrder(rows: seq<Row>, ids: seq<nat>) {
    InRows(rows, ids) && forall i, j | 0 <= i < j < |ids| :: Before(rows, ids[i], ids[j])
  }

  lemma {:induction false} InsertOrdered(rows: seq<Row>, ids: seq<nat>, id: nat)
    requires InOrder(rows, ids) && id < |rows| && id !in ids
    ensures InOrder(rows, Insert(rows, ids, id))
    ensures forall x: nat :: x in Insert(rows, ids, id) <==> x == id || x in ids
  {
    if ids != [] && !Before(rows, id, ids[0]) {
      InsertOrdered(rows, ids[1..], id);
      var r := Insert(rows, ids[1..], id);
      forall j | 0 <= j < |r| ensures Before(rows, ids[0], r[j]) {
        assert r[j] in r;
        if r[j] != id { assert r[j] in ids[1..]; }
      }
    }
  }

  lemma EmptyInOrder(rows: seq<Row>)
    ensures InOrder(rows, [])
  {}

  /** The queue holds every candidate once and nothing else, recipients together and each one's rows by age. */
  lemma {:induction false} QueueIs(rows: seq<Row>, n: nat)
    requires n <= |rows|
    ensures InOrder(rows, QueueOf(rows, n))
    ensures forall x: nat :: x in QueueOf(rows, n) <==> x < n && Candidate(rows[x])
  {
    hide InOrder, Insert, Candidate;
    if n == 0 {
      EmptyInOrder(rows);
    } else {
      QueueIs(rows, n - 1);
      var ids := QueueOf(rows, n - 1);
      if Candidate(rows[n - 1]) {
        InsertOrdered(rows, ids, n - 1);
        assert QueueOf(rows, n) == Insert(rows, ids, n - 1);
      } else {
        assert QueueOf(rows, n) == ids;
      }
      hide QueueOf;
    }
  }

  predicate Distinct(ids: seq<nat>) { forall i, j | 0 <= i < j < |ids| :: ids[i] != ids[j] }

  /** In queue order the rows of a recipient stand together: none comes after its group. */
  lemma GroupIsWhole(rows: seq<Row>, queue: seq<nat>, i: nat)
    requires InOrder(rows, queue) && i < |queue|
    ensures var member := rows[queue[i]].recipient; var j := GroupEnd(rows, queue, member, i);
            forall k | j <= k < |queue| :: rows[queue[k]].recipient > member
  {
    var member := rows[queue[i]].recipient;
    var j := GroupEnd(rows, queue, member, i);
    forall k | j <= k < |queue| ensures rows[queue[k]].recipient > member {
      assert Before(rows, queue[i], queue[j]);
      if k > j { assert Before(rows, queue[j], queue[k]); }
    }
  }

  // ---- One handover ----

  /** How many emails covered a row, and how many of those the mailer took. */
  function Handed(outbox: seq<Mail>, id: nat): nat {
    if outbox == [] then 0
    else Handed(outbox[..|outbox| - 1], id) + (if id in outbox[|outbox| - 1].rows then 1 else 0)
  }

  function Succeeded(outbox: seq<Mail>, id: nat): nat {
    if outbox == [] then 0
    else
      Succeeded(outbox[..|outbox| - 1], id)
      + (if id in outbox[|outbox| - 1].rows && outbox[|outbox| - 1].accepted then 1 else 0)
  }

  predicate Untouched(s: State, t: State, id: nat) {
    && id < |s.rows| == |t.rows| && t.rows[id] == s.rows[id]
    && Handed(t.outbox, id) == Handed(s.outbox, id) && Succeeded(t.outbox, id) == Succeeded(s.outbox, id)
  }

  /** Handed over once: sent, or failed with one more attempt on record. */
  predicate Tried(s: State, t: State, id: nat) {
    && id < |s.rows| == |t.rows|
    && (var r, u := s.rows[id], t.rows[id];
        && u == r.(status := u.status, error := u.error, attempts := u.attempts)
        && (u.status.Sent? || u.status.Failed?)
        && u.attempts == (if u.status.Sent? then r.attempts else Min(r.attempts + 1, MAX_ATTEMPTS))
        && Handed(t.outbox, id) == Handed(s.outbox, id) + 1
        && Succeeded(t.outbox, id) == Succeeded(s.outbox, id) + (if u.status.Sent? then 1 else 0))
  }

  lemma OneMail(outbox: seq<Mail>, m: Mail, id: nat)
    ensures Handed(outbox + [m], id) == Handed(outbox, id) + (if id in m.rows then 1 else 0)
    ensures Succeeded(outbox + [m], id) == Succeeded(outbox, id) + (if id in m.rows && m.accepted then 1 else 0)
  {
    assert (outbox + [m])[..|outbox|] == outbox;
  }

  lemma DeliverEffect(s: State, to: nat, ids: seq<nat>, mailer: Mailer, id: nat)
    requires id < |s.rows|
    ensures var t := Deliver(s, to, ids, mailer).0; if id in ids then Tried(s, t, id) else Untouched(s, t, id)
  {
    if ids != [] {
      OneMail(s.outbox, Mail(to, ids, mailer(|s.outbox|).None?), id);
      hide Handed, Succeeded;
    }
  }

  lemma InTwoSteps(s: State, t: State, u: State, id: nat)
    ensures Untouched(s, t, id) && Untouched(t, u, id) ==> Untouched(s, u, id)
    ensures Untouched(s, t, id) && Tried(t, u, id) ==> Tried(s, u, id)
    ensures Tried(s, t, id) && Untouched(t, u, id) ==> Tried(s, u, id)
  {
    hide Handed, Succeeded;
  }

  lemma {:induction false} DeliverEachEffect(s: State, to: nat, ids: seq<nat>, n: nat, mailer: Mailer, id: nat)
    requires id < |s.rows| && n <= |ids| && Distinct(ids)
    ensures var t := DeliverEach(s, to, ids, n, mailer).0;
            if id in ids[..n] then Tried(s, t, id) else Untouched(s, t, id)
  {
    hide Tried, Handed, Succeeded, Deliver;
    if n > 0 {
      DeliverEachEffect(s, to, ids, n - 1, mailer, id);
      var t := DeliverEach(s, to, ids, n - 1, mailer).0;
      DeliverEffect(t, to, [ids[n - 1]], mailer, id);
      InTwoSteps(s, t, DeliverEach(s, to, ids, n, mailer).0, id);
      assert ids[..n] == ids[..n - 1] + [ids[n - 1]];
      assert forall k | 0 <= k < n - 1 :: ids[k] != ids[n - 1];
      hide Untouched, DeliverEach;
    }
  }

  // ---- One group ----

  lemma {:induction false} SortedAre(rows: seq<Row>, ids: seq<nat>, p: Preference, allowed: bool, n: nat)
    requires InRows(rows, ids) && n <= |ids| && Distinct(ids)
    ensures var r := Sorted(rows, ids, p, allowed, n);
            && Distinct(r) && |r| <= n
            && (forall x: nat :: x in r <==> x in ids[..n] && x < |rows| && Allows(rows[x].kind, p) == allowed)
            && |Sorted(rows, ids, p, true, n)| + |Sorted(rows, ids, p, false, n)| == n
  {
    if n > 0 {
      SortedAre(rows, ids, p, allowed, n - 1);
      var before := Sorted(rows, ids, p, allowed, n - 1);
      assert ids[..n] == ids[..n - 1] + [ids[n - 1]];
      assert ids[n - 1] !in ids[..n - 1];
      forall i | 0 <= i < |before| ensures before[i] != ids[n - 1] { assert before[i] in before; }
      hide Allows;
    }
  }

  /** What a run makes of a row of its queue. */
  predicate Processed(s: State, t: State, id: nat) {
    && id < |s.rows| == |t.rows|
    && if Allows(s.rows[id].kind, PreferenceOf(s.preferences, s.rows[id].recipient)) then Tried(s, t, id)
       else
         t.rows[id] == SuppressedRow(s.rows[id]) && Handed(t.outbox, id) == Handed(s.outbox, id)
         && Succeeded(t.outbox, id) == Succeeded(s.outbox, id)
  }

  ghost predicate Group(s: State, member: nat, ids: seq<nat>) {
    InRows(s.rows, ids) && Distinct(ids) && forall k | 0 <= k < |ids| :: s.rows[ids[k]].recipient == member
  }

  /** Suppressing rows hands nothing over. */
  lemma SuppressEffect(s: State, ids: seq<nat>, id: nat)
    requires id < |s.rows|
    ensures var u := s.(rows := Suppress(s.rows, ids));
            && |u.rows| == |s.rows| && u.outbox == s.outbox && u.preferences == s.preferences
            && u.rows[id] == if id in ids then SuppressedRow(s.rows[id]) else s.rows[id]
  {}

  lemma GroupEffect(s: State, member: nat, ids: seq<nat>, mailer: Mailer, id: nat)
    requires Group(s, member, ids) && id < |s.rows|
    ensures var t := DispatchGroup(s, member, ids, mailer).0;
            t.preferences == s.preferences && if id in ids then Processed(s, t, id) else Untouched(s, t, id)
  {
    hide Sorted, DeliverEach, Deliver, Allows, Handed, Succeeded, Suppress;
    var p := PreferenceOf(s.preferences, member);
    var allowed, refused := Sorted(s.rows, ids, p, true, |ids|), Sorted(s.rows, ids, p, false, |ids|);
    var u := s.(rows := Suppress(s.rows, refused));
    var t := DispatchGroup(s, member, ids, mailer).0;
    assert ids[..|ids|] == ids;
    SortedAre(s.rows, ids, p, true, |ids|);
    SortedAre(s.rows, ids, p, false, |ids|);
    SuppressEffect(s, refused, id);
    KeepsPreferences(u, member, allowed, |allowed|, mailer);
    SentEffect(u, member, allowed, p, mailer, id);
    if id in ids { assert s.rows[id].recipient == member; }
  }

  lemma SentEffect(u: State, member: nat, allowed: seq<nat>, p: Preference, mailer: Mailer, id: nat)
    requires id < |u.rows| && Distinct(allowed)
    ensures var t := if p.digest.NoDigest? then DeliverEach(u, member, allowed, |allowed|, mailer).0
            else Deliver(u, member, allowed, mailer).0;
            if id in allowed then Tried(u, t, id) else Untouched(u, t, id)
  {
    hide Tried, Untouched;
    assert allowed[..|allowed|] == allowed;
    DeliverEachEffect(u, member, allowed, |allowed|, mailer, id);
    DeliverEffect(u, member, allowed, mailer, id);
  }

  lemma {:induction false} KeepsPreferences(s: State, to: nat, ids: seq<nat>, n: nat, mailer: Mailer)
    requires n <= |ids|
    ensures DeliverEach(s, to, ids, n, mailer).0.preferences == s.preferences
            && Deliver(s, to, ids, mailer).0.preferences == s.preferences
  {
    DeliverKeepsPreferences(s, to, ids, mailer);
    if n > 0 {
      KeepsPreferences(s, to, ids, n - 1, mailer);
      DeliverKeepsPreferences(DeliverEach(s, to, ids, n - 1, mailer).0, to, [ids[n - 1]], mailer);
    }
    hide Deliver;
  }

  lemma DeliverKeepsPreferences(s: State, to: nat, ids: seq<nat>, mailer: Mailer)
    ensures Deliver(s, to, ids, mailer).0.preferences == s.preferences
  {
    hide Settle;
  }

  // ---- One run ----

  lemma Composed(s: State, t: State, u: State, id: nat)
    requires t.preferences == s.preferences
    ensures Untouched(s, t, id) && Untouched(t, u, id) ==> Untouched(s, u, id)
    ensures Untouched(s, t, id) && Processed(t, u, id) ==> Processed(s, u, id)
    ensures Processed(s, t, id) && Untouched(t, u, id) ==> Processed(s, u, id)
  {
    InTwoSteps(s, t, u, id);
    hide Allows, Handed, Succeeded;
  }

  lemma GroupIs(rows: seq<Row>, queue: seq<nat>, i: nat, j: nat)
    requires InOrder(rows, queue) && i <= j <= |queue|
    ensures Distinct(queue[i..j]) && InRows(rows, queue[i..j])
    ensures forall k | 0 <= k < |queue| && !(i <= k < j) :: queue[k] !in queue[i..j]
  {
    forall a, b | 0 <= a < b < |queue| ensures queue[a] != queue[b] { assert Before(rows, queue[a], queue[b]); }
  }

  lemma RecipientsStay(s: State, member: nat, ids: seq<nat>, mailer: Mailer)
    requires Group(s, member, ids)
    ensures var t := DispatchGroup(s, member, ids, mailer).0;
            (|s.rows| > 0 ==> t.preferences == s.preferences)
            && forall id: nat | id < |s.rows| ::
              t.rows[id].recipient == s.rows[id].recipient && t.rows[id].kind == s.rows[id].kind
  {
    var t := DispatchGroup(s, member, ids, mailer).0;
    if |s.rows| > 0 { GroupEffect(s, member, ids, mailer, 0); }
    forall id: nat | id < |s.rows|
      ensures t.rows[id].recipient == s.rows[id].recipient && t.rows[id].kind == s.rows[id].kind
    {
      GroupEffect(s, member, ids, mailer, id);
    }
    hide DispatchGroup;
  }

  lemma OrderStays(rows: seq<Row>, t: seq<Row>, queue: seq<nat>)
    requires InOrder(rows, queue) && |t| == |rows|
             && forall id: nat | id < |rows| :: t[id].recipient == rows[id].recipient
    ensures InOrder(t, queue)
  {
    forall i, j | 0 <= i < j < |queue| ensures Before(t, queue[i], queue[j]) {
      assert Before(rows, queue[i], queue[j]);
    }
  }

  /** The group at position `i` is one member's, and what it does leaves the rest of the queue as it stands. */
  lemma GroupAt(s: State, queue: seq<nat>, i: nat, mailer: Mailer)
    requires InOrder(s.rows, queue) && i < |queue|
    ensures var member := s.rows[queue[i]].recipient; var j := GroupEnd(s.rows, queue, member, i);
            var t := DispatchGroup(s, member, queue[i..j], mailer).0;
            && Group(s, member, queue[i..j]) && t.preferences == s.preferences && InOrder(t.rows, queue)
            && (forall k | 0 <= k < |queue| && !(i <= k < j) :: queue[k] !in queue[i..j])
  {
    hide DispatchGroup, Before;
    var member := s.rows[queue[i]].recipient;
    var j := GroupEnd(s.rows, queue, member, i);
    GroupIs(s.rows, queue, i, j);
    RecipientsStay(s, member, queue[i..j], mailer);
    OrderStays(s.rows, DispatchGroup(s, member, queue[i..j], mailer).0.rows, queue);
  }

  lemma {:induction false} DispatchEffect(s: State, queue: seq<nat>, i: nat, mailer: Mailer, id: nat)
    requires InOrder(s.rows, queue) && i <= |queue| && id < |s.rows|
    ensures var t := DispatchFrom(s, queue, i, mailer).0;
            t.preferences == s.preferences && if id in queue[i..] then Processed(s, t, id) else Untouched(s, t, id)
    decreases |queue| - i
  {
    hide DispatchGroup, Processed, Untouched;
    if i == |queue| {
      Nothing(s, id);
    } else {
      var member := s.rows[queue[i]].recipient;
      var j := GroupEnd(s.rows, queue, member, i);
      var t := DispatchGroup(s, member, queue[i..j], mailer).0;
      GroupAt(s, queue, i, mailer);
      GroupEffect(s, member, queue[i..j], mailer, id);
      DispatchEffect(t, queue, j, mailer, id);
      Composed(s, t, DispatchFrom(t, queue, j, mailer).0, id);
      assert queue[i..] == queue[i..j] + queue[j..];
      if id in queue[j..] {
        var k :| j <= k < |queue| && queue[k] == id;
        assert id !in queue[i..j];
      }
      hide InOrder;
    }
  }

  lemma Nothing(s: State, id: nat)
    requires id < |s.rows|
    ensures Untouched(s, s, id)
  {}

  /**
   * One run: every row that was a candidate is suppressed if its kind is switched off now, otherwise handed over
   * exactly once; every other row, the in-app ones in particular, is left alone.
   */
  lemma RunEffect(s: State, mailer: Mailer, id: nat)
    requires id < |s.rows|
    ensures var t := Dispatch(s, mailer).0; if Candidate(s.rows[id]) then Processed(s, t, id) else Untouched(s, t, id)
  {
    QueueIs(s.rows, |s.rows|);
    DispatchEffect(s, Queue(s.rows), 0, mailer, id);
    assert Queue(s.rows)[0..] == Queue(s.rows);
    hide DispatchFrom, QueueOf, Processed, Untouched, InOrder;
  }

  lemma MandatoryAllowed(k: Kind, p: Preference)
    ensures Mandatory(k) ==> Allows(k, p)
  {}

  /**
   * A member's switch decides, not how the row was queued: a candidate ends suppressed exactly when its kind is
   * switched off.
   */
  lemma SuppressedIff(s: State, mailer: Mailer, id: nat)
    requires id < |s.rows| && Candidate(s.rows[id])
    ensures id < |Dispatch(s, mailer).0.rows|
    ensures Dispatch(s, mailer).0.rows[id].status.Suppressed?
            <==> !Allows(s.rows[id].kind, PreferenceOf(s.preferences, s.rows[id].recipient))
    ensures Mandatory(s.rows[id].kind) ==> !Dispatch(s, mailer).0.rows[id].status.Suppressed?
  {
    MandatoryAllowed(s.rows[id].kind, PreferenceOf(s.preferences, s.rows[id].recipient));
    hide Dispatch, Handed, Succeeded, Allows, Mandatory;
    RunEffect(s, mailer, id);
  }
}
