// Which notifications become email, stated without the tables of the services: the switches of a member, the rows an
// event leaves, the queue, and the emails a run hands over.
module NotificationMeaning {
  import opened Common
  import opened Notifications
  import opened Dispatching

  // ---- Switches ----

  /** The member's switch for the kind is on, or the kind has none; security, account and moderation have none. */
  predicate SwitchedOn(k: Kind, p: Preference) {
    && (k == ApplicationStatus || k == Assignment ==> p.applications)
    && (k == ReviewDecision || k == ReviewComment ==> p.reviews)
    && (k == ContributionVerified || k == ContributionRevoked ==> p.contributions)
    && (k == BadgeAwarded || k == ProjectUpdate || k == ProjectStatus || k == BookmarkChange ==> p.community)
  }

  /** What the member chose, or else applications, reviews and contributions on, community off, and no digest. */
  predicate Chosen(s: State, member: nat, p: Preference) {
    && (member in s.preferences ==> p == s.preferences[member])
    && (member !in s.preferences ==>
        p.applications && p.reviews && p.contributions && !p.community && p.digest == NoDigest)
  }

  lemma SwitchesAre(s: State, member: nat, k: Kind)
    ensures var p := PreferenceOf(s.preferences, member);
            Chosen(s, member, p) && (Allows(k, p) <==> SwitchedOn(k, p))
            && (k == Security || k == Account || k == Moderation ==> SwitchedOn(k, p))
  {}

  // ---- Queueing ----

  /** The key is given and the recipient has a row with it. */
  predicate KeyTaken(rows: seq<Row>, recipient: nat, key: string) {
    key != "" && exists i | 0 <= i < |rows| :: rows[i].recipient == recipient && rows[i].dedup == key
  }

  /**
   * An event adds a delivered in-app row and an email row, which is queued when the caller or its kind insists or the
   * recipient's switch is on, and otherwise suppressed. An event whose key, or that key for email, the recipient
   * already has adds neither.
   */
  lemma NotifyMeans(s: State, recipient: nat, kind: Kind, mandatory: bool, dedup: Option<string>)
    ensures var t := Notify(s, recipient, kind, mandatory, dedup); var n := |s.rows|;
            var p := PreferenceOf(s.preferences, recipient);
            && t.preferences == s.preferences && t.outbox == s.outbox && Chosen(s, recipient, p)
            && (if dedup.Some? && (KeyTaken(s.rows, recipient, dedup.value)
                                   || KeyTaken(s.rows, recipient, "email:" + dedup.value))
                then t == s
                else
                  && |t.rows| == n + 2 && t.rows[..n] == s.rows
                  && t.rows[n].channel == InApp && t.rows[n].status == Delivered
                  && t.rows[n + 1].channel == Email
                  && t.rows[n + 1].status == (if mandatory || kind == Security || kind == Account || kind == Moderation
                                                 || SwitchedOn(kind, p) then Pending else Suppressed)
                  && (forall i | n <= i < n + 2 ::
                        t.rows[i].recipient == recipient && t.rows[i].kind == kind && t.rows[i].attempts == 0
                        && t.rows[i].error == "")
                  && t.rows[n].dedup == dedup.GetOr("")
                  && t.rows[n + 1].dedup == (if dedup.Some? then "email:" + dedup.value else ""))
  {
    var inApp := Row(recipient, kind, InApp, Delivered, 0, "", dedup.GetOr(""));
    SwitchesAre(s, recipient, kind);
    if dedup.Some? {
      var key := "email:" + dedup.value;
      assert |key| > |dedup.value|;
      assert forall i | 0 <= i < |s.rows| :: (s.rows + [inApp])[i] == s.rows[i];
      assert Taken(s.rows + [inApp], recipient, key) <==> KeyTaken(s.rows, recipient, key);
    }
    hide Allows, SwitchedOn;
  }

  // ---- The queue ----

  /** An email never tried, or tried once and failed. */
  predicate Waiting(r: Row) {
    r.channel == Email && (r.status == Pending || (r.status == Failed && r.attempts <= 1))
  }

  /** The queue holds exactly the waiting emails, each once, by recipient and for one recipient by age. */
  lemma QueueHolds(rows: seq<Row>, x: nat)
    ensures x in Queue(rows) <==> x < |rows| && Waiting(rows[x])
    ensures forall i, j | 0 <= i < j < |Queue(rows)| ::
              var a, b := Queue(rows)[i], Queue(rows)[j];
              a < |rows| && b < |rows|
              && (rows[a].recipient < rows[b].recipient || (rows[a].recipient == rows[b].recipient && a < b))
  {
    QueueIs(rows, |rows|);
    var q := Queue(rows);
    forall i, j | 0 <= i < j < |q|
      ensures q[i] < |rows| && q[j] < |rows| && Before(rows, q[i], q[j])
    {}
    hide QueueOf;
  }

  // ---- Handing over ----

  /**
   * A handover tries all its rows at once: accepted, they are sent; refused, they have failed, with the start of the
   * error and one more attempt on record, two at most. Nothing is handed over for no rows.
   */
  lemma DeliverMeans(s: State, to: nat, ids: seq<nat>, mailer: Mailer, id: nat)
    requires id < |s.rows|
    ensures var t := Deliver(s, to, ids, mailer).0; var answer := mailer(|s.outbox|); var r := s.rows[id];
            && (ids == [] ==> t == s)
            && (ids != [] ==> t.outbox == s.outbox + [Mail(to, ids, answer == None)])
            && (id !in ids ==> t.rows[id] == r)
            && (id in ids && answer == None ==> t.rows[id] == r.(status := Sent, error := ""))
            && (id in ids && answer.Some? ==>
                  var e := answer.value;
                  && t.rows[id].status == Failed && t.rows[id].error <= e && |t.rows[id].error| <= 100
                  && (|e| <= 100 ==> t.rows[id].error == e) && (|e| > 100 ==> |t.rows[id].error| == 100)
                  && t.rows[id].attempts == (if r.attempts >= 1 then 2 else 1)
                  && t.rows[id] == r.(status := Failed, error := t.rows[id].error, attempts := t.rows[id].attempts))
  {}

  // ---- The emails of a run ----

  /** An email covers waiting rows of its recipient that are switched on: one of them, or for a digest all of them. */
  ghost predicate MailOk(s: State, m: Mail) {
    && m.rows != []
    && (forall k | 0 <= k < |m.rows| ::
          && m.rows[k] < |s.rows| && Waiting(s.rows[m.rows[k]]) && s.rows[m.rows[k]].recipient == m.to
          && SwitchedOn(s.rows[m.rows[k]].kind, PreferenceOf(s.preferences, m.to)))
    && (PreferenceOf(s.preferences, m.to).digest == NoDigest ==> |m.rows| == 1)
    && (PreferenceOf(s.preferences, m.to).digest != NoDigest ==>
          forall id: nat | id < |s.rows| && Waiting(s.rows[id]) && s.rows[id].recipient == m.to
                           && SwitchedOn(s.rows[id].kind, PreferenceOf(s.preferences, m.to)) :: id in m.rows)
  }

  /** The outbox only grows, and by emails as they should be. */
  ghost predicate MailsOk(s: State, before: seq<Mail>, after: seq<Mail>) {
    && |before| <= |after| && after[..|before|] == before
    && forall j | |before| <= j < |after| :: MailOk(s, after[j])
  }

  lemma MailsThen(s: State, a: seq<Mail>, b: seq<Mail>, c: seq<Mail>)
    requires MailsOk(s, a, b) && MailsOk(s, b, c)
    ensures MailsOk(s, a, c)
  {
    hide MailOk;
    assert c[..|a|] == c[..|b|][..|a|] == a;
    forall j | |a| <= j < |c| ensures MailOk(s, c[j]) {
      if j < |b| { assert c[j] == c[..|b|][j] == b[j]; }
    }
  }

  /** The rows a group sends: its switched-on ones. */
  ghost predicate Sendable(s: State, member: nat, allowed: seq<nat>) {
    forall k | 0 <= k < |allowed| ::
      && allowed[k] < |s.rows| && Waiting(s.rows[allowed[k]]) && s.rows[allowed[k]].recipient == member
      && SwitchedOn(s.rows[allowed[k]].kind, PreferenceOf(s.preferences, member))
  }

  lemma {:induction false} SinglesOk(s: State, u: State, member: nat, allowed: seq<nat>, n: nat, mailer: Mailer)
    requires Sendable(s, member, allowed) && n <= |allowed|
    requires PreferenceOf(s.preferences, member).digest == NoDigest
    ensures MailsOk(s, u.outbox, DeliverEach(u, member, allowed, n, mailer).0.outbox)
  {
    hide SwitchedOn, Waiting, Settle, MailsOk, MailOk, Sendable;
    if n == 0 {
      NoMailMore(s, u.outbox);
    } else {
      SinglesOk(s, u, member, allowed, n - 1, mailer);
      var t := DeliverEach(u, member, allowed, n - 1, mailer).0;
      var m := Mail(member, [allowed[n - 1]], mailer(|t.outbox|).None?);
      SingleOk(s, member, allowed, n - 1, m.accepted);
      OneMailMore(s, t.outbox, m);
      MailsThen(s, u.outbox, t.outbox, t.outbox + [m]);
    }
  }

  lemma SingleOk(s: State, member: nat, allowed: seq<nat>, i: nat, accepted: bool)
    requires Sendable(s, member, allowed) && i < |allowed|
    requires PreferenceOf(s.preferences, member).digest == NoDigest
    ensures MailOk(s, Mail(member, [allowed[i]], accepted))
  {
    hide SwitchedOn, Waiting;
  }

  lemma NoMailMore(s: State, outbox: seq<Mail>)
    ensures MailsOk(s, outbox, outbox)
  {}

  lemma OneMailMore(s: State, outbox: seq<Mail>, m: Mail)
    requires MailOk(s, m)
    ensures MailsOk(s, outbox, outbox + [m])
  {
    hide MailOk;
  }

  lemma DigestOk(s: State, u: State, member: nat, allowed: seq<nat>, mailer: Mailer)
    requires Sendable(s, member, allowed) && PreferenceOf(s.preferences, member).digest != NoDigest
    requires forall id: nat | id < |s.rows| && Waiting(s.rows[id]) && s.rows[id].recipient == member
                              && SwitchedOn(s.rows[id].kind, PreferenceOf(s.preferences, member)) :: id in allowed
    ensures MailsOk(s, u.outbox, Deliver(u, member, allowed, mailer).0.outbox)
  {
    hide SwitchedOn, Waiting, Settle;
  }

  /** A group of all waiting rows of a member, as the run finds them. */
  ghost predicate WholeGroup(s: State, member: nat, ids: seq<nat>) {
    && Group(s, member, ids) && (forall k | 0 <= k < |ids| :: Waiting(s.rows[ids[k]]))
    && forall id: nat | id < |s.rows| && Waiting(s.rows[id]) && s.rows[id].recipient == member :: id in ids
  }

  /** Rows, recipients, kinds and switches that the sending of earlier groups leaves as they are. */
  ghost predicate SameAudience(s: State, t: State, ids: seq<nat>) {
    && |t.rows| == |s.rows| && t.preferences == s.preferences
    && forall k | 0 <= k < |ids| :: ids[k] < |s.rows| && t.rows[ids[k]].kind == s.rows[ids[k]].kind
  }

  lemma GroupMails(s: State, t: State, member: nat, ids: seq<nat>, mailer: Mailer)
    requires WholeGroup(s, member, ids) && SameAudience(s, t, ids)
    ensures InRows(t.rows, ids) && MailsOk(s, t.outbox, DispatchGroup(t, member, ids, mailer).0.outbox)
  {
    var p := PreferenceOf(t.preferences, member);
    var allowed, refused := Sorted(t.rows, ids, p, true, |ids|), Sorted(t.rows, ids, p, false, |ids|);
    var u := t.(rows := Suppress(t.rows, refused));
    assert ids[..|ids|] == ids;
    SortedAre(t.rows, ids, p, true, |ids|);
    hide Sorted, Deliver, DeliverEach, Suppress, MailsOk, Waiting;
    forall k | 0 <= k < |allowed| ensures allowed[k] in ids && Allows(t.rows[allowed[k]].kind, p) {
      assert allowed[k] in allowed;
    }
    forall id | id in ids ensures Allows(t.rows[id].kind, p) <==> SwitchedOn(s.rows[id].kind, p) {
      SwitchesAre(s, member, t.rows[id].kind);
    }
    hide Allows, SwitchedOn;
    assert Sendable(s, member, allowed);
    if p.digest.NoDigest? {
      SinglesOk(s, u, member, allowed, |allowed|, mailer);
    } else {
      forall id: nat | id < |s.rows| && Waiting(s.rows[id]) && s.rows[id].recipient == member
                       && SwitchedOn(s.rows[id].kind, p)
        ensures id in allowed
      {
        assert id in ids;
      }
      DigestOk(s, u, member, allowed, mailer);
    }
  }

  /** The queue from `i` on is whole groups of the starting state, which earlier groups left alone. */
  ghost predicate Ahead(s: State, t: State, queue: seq<nat>, i: nat) {
    && InOrder(s.rows, queue) && InOrder(t.rows, queue) && i <= |queue|
    && |t.rows| == |s.rows| && t.preferences == s.preferences
    && (forall x: nat :: x in queue <==> x < |s.rows| && Waiting(s.rows[x]))
    && (forall id: nat | id < |s.rows| ::
          t.rows[id].recipient == s.rows[id].recipient && t.rows[id].kind == s.rows[id].kind)
    && (0 < i < |queue| ==> s.rows[queue[i - 1]].recipient < s.rows[queue[i]].recipient)
  }

  lemma EarlierSmaller(s: State, t: State, queue: seq<nat>, i: nat, k: nat)
    requires Ahead(s, t, queue, i) && k < i < |queue|
    ensures s.rows[queue[k]].recipient < s.rows[queue[i]].recipient
  {
    if k < i - 1 { assert Before(s.rows, queue[k], queue[i - 1]); }
    hide Waiting;
  }

  /** A member whose rows stand nowhere else in the queue has them all in the group. */
  lemma InGroup(rows: seq<Row>, queue: seq<nat>, i: nat, j: nat, member: nat, id: nat)
    requires InRows(rows, queue) && i <= j <= |queue| && id in queue && id < |rows| && rows[id].recipient == member
    requires forall k | 0 <= k < |queue| && !(i <= k < j) :: rows[queue[k]].recipient != member
    ensures id in queue[i..j]
  {
    var k :| 0 <= k < |queue| && queue[k] == id;
    assert queue[i..j][k - i] == id;
  }

  lemma GroupAhead(s: State, t: State, queue: seq<nat>, i: nat)
    requires Ahead(s, t, queue, i) && i < |queue|
    ensures var member := t.rows[queue[i]].recipient; var j := GroupEnd(t.rows, queue, member, i);
            WholeGroup(s, member, queue[i..j]) && SameAudience(s, t, queue[i..j]) && i < j
  {
    hide Waiting, GroupEnd;
    var member := t.rows[queue[i]].recipient;
    var j := GroupEnd(t.rows, queue, member, i);
    GroupIs(s.rows, queue, i, j);
    GroupIsWhole(t.rows, queue, i);
    forall k | 0 <= k < i ensures s.rows[queue[k]].recipient < member { EarlierSmaller(s, t, queue, i, k); }
    hide InOrder;
    GroupMembers(s, t, queue, i, j, member);
  }

  lemma GroupMembers(s: State, t: State, queue: seq<nat>, i: nat, j: nat, member: nat)
    requires i < j <= |queue| && InRows(s.rows, queue) && |t.rows| == |s.rows| && t.preferences == s.preferences
    requires forall x: nat :: x in queue <==> x < |s.rows| && Waiting(s.rows[x])
    requires forall id: nat | id < |s.rows| ::
               t.rows[id].recipient == s.rows[id].recipient && t.rows[id].kind == s.rows[id].kind
    requires forall k | 0 <= k < |queue| :: s.rows[queue[k]].recipient == member <==> i <= k < j
    requires Distinct(queue[i..j])
    ensures WholeGroup(s, member, queue[i..j]) && SameAudience(s, t, queue[i..j])
  {
    hide Waiting, Distinct;
    var ids := queue[i..j];
    forall k | 0 <= k < |ids| ensures ids[k] == queue[i + k] && ids[k] in queue {
      assert queue[i + k] in queue;
    }
    forall id: nat | id < |s.rows| && Waiting(s.rows[id]) && s.rows[id].recipient == member ensures id in ids {
      assert id in queue;
      InGroup(s.rows, queue, i, j, member, id);
    }
  }

  lemma StaysAhead(s: State, t: State, queue: seq<nat>, i: nat, mailer: Mailer)
    requires Ahead(s, t, queue, i) && i < |queue|
    ensures var member := t.rows[queue[i]].recipient; var j := GroupEnd(t.rows, queue, member, i);
            InRows(t.rows, queue[i..j]) && Ahead(s, DispatchGroup(t, member, queue[i..j], mailer).0, queue, j)
  {
    hide DispatchGroup, Waiting;
    var member := t.rows[queue[i]].recipient;
    var j := GroupEnd(t.rows, queue, member, i);
    GroupAt(t, queue, i, mailer);
    RecipientsStay(t, member, queue[i..j], mailer);
    GroupIsWhole(t.rows, queue, i);
  }

  lemma {:induction false} MailsFrom(s: State, t: State, queue: seq<nat>, i: nat, mailer: Mailer)
    requires Ahead(s, t, queue, i)
    ensures MailsOk(s, t.outbox, DispatchFrom(t, queue, i, mailer).0.outbox)
    decreases |queue| - i
  {
    hide DispatchGroup, MailOk, Waiting, WholeGroup, SameAudience;
    if i < |queue| {
      var member := t.rows[queue[i]].recipient;
      var j := GroupEnd(t.rows, queue, member, i);
      GroupAhead(s, t, queue, i);
      GroupMails(s, t, member, queue[i..j], mailer);
      StaysAhead(s, t, queue, i, mailer);
      var u := DispatchGroup(t, member, queue[i..j], mailer).0;
      hide Ahead, MailsOk;
      MailsFrom(s, u, queue, j, mailer);
      MailsThen(s, t.outbox, u.outbox, DispatchFrom(u, queue, j, mailer).0.outbox);
    }
  }

  /**
   * Every email of a run is for waiting rows of its recipient whose switch is on: without a digest for one row, with
   * one for all of them, so that a member with a digest gets at most one email a run.
   */
  lemma RunMails(s: State, mailer: Mailer)
    ensures MailsOk(s, s.outbox, Dispatch(s, mailer).0.outbox)
  {
    QueueIs(s.rows, |s.rows|);
    forall x: nat ensures x in Queue(s.rows) <==> x < |s.rows| && Waiting(s.rows[x]) { QueueHolds(s.rows, x); }
    hide DispatchFrom, QueueOf, MailsOk, Waiting, InOrder;
    MailsFrom(s, s, Queue(s.rows), 0, mailer);
  }
}
