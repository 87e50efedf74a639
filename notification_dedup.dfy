/** The three ways the engine raises a notification, each an append to the
    notification file: due-dose and refill alerts are skipped while an
    unprocessed alert with the same message is pending for the user; missed
    doses are always appended. */
module NotificationDedup {
  import opened Lang
  import opened Notifications

  /** An unprocessed due-dose alert with this user and message is in `ns`. */
  predicate PendingDue(ns: seq<Notification>, user: string, message: string)
  {
    exists n | n in ns :: n.username == user && n.kind == MedicineTime && n.message == message && !n.processed
  }

  /** An unprocessed alert of any type with this user and message is in `ns`. */
  predicate PendingMessage(ns: seq<Notification>, user: string, message: string)
  {
    exists n | n in ns :: n.username == user && n.message == message && !n.processed
  }

  /** The `anyMatch` of `addMedicineTimeNotification`, over one user's list. */
  predicate AnyPendingDue(mine: seq<Notification>, message: string)
  {
    exists n | n in mine :: n.kind == MedicineTime && n.message == message && !n.processed
  }

  /** The `anyMatch` of `addRefillNotification`, over one user's list. */
  predicate AnyPendingMessage(mine: seq<Notification>, message: string)
  {
    exists n | n in mine :: n.message == message && !n.processed
  }

  /** The notifications after `addMedicineTimeNotification(user, message)`:
      the old ones unchanged, then at most one new pending due alert, added
      exactly when none was pending; afterwards one is pending. */
  function AddDue(ns: seq<Notification>, user: string, message: string): (r: seq<Notification>)
    ensures |ns| <= |r| <= |ns| + 1 && r[..|ns|] == ns
    ensures |r| == |ns| + 1 <==> !PendingDue(ns, user, message)
    ensures |r| == |ns| + 1 ==> r[|ns|] == Notification(user, message, MedicineTime, false)
    ensures PendingDue(r, user, message)
  {
    if PendingDue(ns, user, message) then ns
    else
      var n := Notification(user, message, MedicineTime, false);
      assert n in ns + [n];
      ns + [n]
  }

  /** The notifications after `addRefillNotification(user, message)`: a new
      pending refill alert exactly when no alert of any type with that message
      is pending. */
  function AddRefill(ns: seq<Notification>, user: string, message: string): (r: seq<Notification>)
    ensures |ns| <= |r| <= |ns| + 1 && r[..|ns|] == ns
    ensures |r| == |ns| + 1 <==> !PendingMessage(ns, user, message)
    ensures |r| == |ns| + 1 ==> r[|ns|] == Notification(user, message, Refill, false)
    ensures PendingMessage(r, user, message)
  {
    if PendingMessage(ns, user, message) then ns
    else
      var n := Notification(user, message, Refill, false);
      assert n in ns + [n];
      ns + [n]
  }

  /** The notifications after `addMissedDoseNotification(user, message)`. */
  function AddMissed(ns: seq<Notification>, user: string, message: string): (r: seq<Notification>)
    ensures |r| == |ns| + 1 && r[..|ns|] == ns
    ensures r[|ns|] == Notification(user, message, MissedDose, false)
  {
    ns + [Notification(user, message, MissedDose, false)]
  }

  /** The user's list answers the `anyMatch` as the whole file would. */
  lemma AnyPendingIsPending(ns: seq<Notification>, user: string, message: string)
    ensures AnyPendingDue(Filter(ns, OwnedBy(user)), message) <==> PendingDue(ns, user, message)
    ensures AnyPendingMessage(Filter(ns, OwnedBy(user)), message) <==> PendingMessage(ns, user, message)
  {
    var mine := Filter(ns, OwnedBy(user));
    FilterMembers(ns, OwnedBy(user));
    if PendingDue(ns, user, message) {
      var n :| n in ns && n.username == user && n.kind == MedicineTime && n.message == message && !n.processed;
      assert OwnedBy(user)(n) && n in mine;
    }
    if PendingMessage(ns, user, message) {
      var n :| n in ns && n.username == user && n.message == message && !n.processed;
      assert OwnedBy(user)(n) && n in mine;
    }
    if AnyPendingDue(mine, message) {
      var n :| n in mine && n.kind == MedicineTime && n.message == message && !n.processed;
      assert OwnedBy(user)(n);
    }
    if AnyPendingMessage(mine, message) {
      var n :| n in mine && n.message == message && !n.processed;
      assert OwnedBy(user)(n);
    }
  }

  /** `NotificationManager.addMedicineTimeNotification`. */
  method AddMedicineTimeNotification(notes: NotificationFile, user: string, message: string)
    modifies notes
    ensures notes.records == AddDue(old(notes.records), user, message)
  {
    var mine := notes.GetUserNotifications(user);
    AnyPendingIsPending(notes.records, user, message);
    if !AnyPendingDue(mine, message) {
      notes.AddNotification(Notification(user, message, MedicineTime, false));
    }
  }

  /** `NotificationManager.addRefillNotification`. */
  method AddRefillNotification(notes: NotificationFile, user: string, message: string)
    modifies notes
    ensures notes.records == AddRefill(old(notes.records), user, message)
  {
    var mine := notes.GetUserNotifications(user);
    AnyPendingIsPending(notes.records, user, message);
    if !AnyPendingMessage(mine, message) {
      notes.AddNotification(Notification(user, message, Refill, false));
    }
  }

  /** `NotificationManager.addMissedDoseNotification`. */
  method AddMissedDoseNotification(notes: NotificationFile, user: string, message: string)
    modifies notes
    ensures notes.records == AddMissed(old(notes.records), user, message)
  {
    notes.AddNotification(Notification(user, message, MissedDose, false));
  }

  /** Raising a due alert for each message in turn, as one scan does. */
  function AddDueAll(ns: seq<Notification>, user: string, messages: seq<string>): (r: seq<Notification>)
    ensures |ns| <= |r| && r[..|ns|] == ns
  {
    if messages == [] then ns
    else
      var before := AddDueAll(ns, user, messages[..|messages| - 1]);
      var r := AddDue(before, user, messages[|messages| - 1]);
      assert r[..|before|] == before;
      assert r[..|ns|] == before[..|ns|];
      r
  }

  /** Appending keeps what was pending pending. */
  lemma PendingDueGrows(ns: seq<Notification>, r: seq<Notification>, user: string, message: string)
    requires |ns| <= |r| && r[..|ns|] == ns
    requires PendingDue(ns, user, message)
    ensures PendingDue(r, user, message)
  {
    var n :| n in ns && n.username == user && n.kind == MedicineTime && n.message == message && !n.processed;
    var k :| 0 <= k < |ns| && ns[k] == n;
    assert r[k] == n;
  }

  /** After a scan every message of the scan has a pending due alert. */
  lemma {:induction false} AddDueAllPending(ns: seq<Notification>, user: string, messages: seq<string>)
    ensures forall m | m in messages :: PendingDue(AddDueAll(ns, user, messages), user, m)
  {
    if messages != [] {
      var init := messages[..|messages| - 1];
      var last := messages[|messages| - 1];
      AddDueAllPending(ns, user, init);
      var before := AddDueAll(ns, user, init);
      var after := AddDue(before, user, last);
      forall m | m in messages
        ensures PendingDue(after, user, m)
      {
        if m != last {
          assert m in init;
          PendingDueGrows(before, after, user, m);
        }
      }
    }
  }

  /** A scan whose every message is already pending adds nothing. */
  lemma {:induction false} AddDueAllWhenPending(ns: seq<Notification>, user: string, messages: seq<string>)
    requires forall m | m in messages :: PendingDue(ns, user, m)
    ensures AddDueAll(ns, user, messages) == ns
  {
    if messages != [] {
      AddDueAllWhenPending(ns, user, messages[..|messages| - 1]);
    }
  }

  /** Running the same scan twice in a row adds nothing the second time. */
  lemma DueScanIdempotent(ns: seq<Notification>, user: string, messages: seq<string>)
    ensures AddDueAll(AddDueAll(ns, user, messages), user, messages) == AddDueAll(ns, user, messages)
  {
    AddDueAllPending(ns, user, messages);
    AddDueAllWhenPending(AddDueAll(ns, user, messages), user, messages);
  }

  /** Once the user has processed the alert, the same due message is raised again. */
  lemma ProcessedDueIsRaisedAgain(ns: seq<Notification>, user: string, message: string)
    ensures AddDue(MarkProcessed(ns, user, message), user, message)
              == MarkProcessed(ns, user, message) + [Notification(user, message, MedicineTime, false)]
  {
    var marked := MarkProcessed(ns, user, message);
    forall n | n in marked
      ensures !(n.username == user && n.message == message && !n.processed)
    {
      var k :| 0 <= k < |marked| && marked[k] == n;
    }
  }

  /** The same for refill alerts. */
  lemma ProcessedRefillIsRaisedAgain(ns: seq<Notification>, user: string, message: string)
    ensures AddRefill(MarkProcessed(ns, user, message), user, message)
              == MarkProcessed(ns, user, message) + [Notification(user, message, Refill, false)]
  {
    var marked := MarkProcessed(ns, user, message);
    forall n | n in marked
      ensures !(n.username == user && n.message == message && !n.processed)
    {
      var k :| 0 <= k < |marked| && marked[k] == n;
    }
  }

  /** No two pending alerts of the kind share a user and a message. */
  predicate UniquePending(ns: seq<Notification>, kind: NotificationType)
  {
    forall i, j | 0 <= i < j < |ns| ::
      ns[i].kind == kind && ns[j].kind == kind && !ns[i].processed && !ns[j].processed ==>
        !Matches(ns[j], ns[i].username, ns[i].message)
  }

  /** The de-duplication invariant: at most one pending due alert and one
      pending refill alert per user and message (missed-dose alerts may repeat). */
  predicate Deduplicated(ns: seq<Notification>)
  {
    UniquePending(ns, MedicineTime) && UniquePending(ns, Refill)
  }

  lemma AddDueKeepsDeduplicated(ns: seq<Notification>, user: string, message: string)
    requires Deduplicated(ns)
    ensures Deduplicated(AddDue(ns, user, message))
  {
    var r := AddDue(ns, user, message);
    if |r| > |ns| {
      forall i | 0 <= i < |ns| && ns[i].kind == MedicineTime && !ns[i].processed
        ensures !Matches(r[|ns|], ns[i].username, ns[i].message)
      {
        assert ns[i] in ns;
      }
    }
  }

  lemma AddRefillKeepsDeduplicated(ns: seq<Notification>, user: string, message: string)
    requires Deduplicated(ns)
    ensures Deduplicated(AddRefill(ns, user, message))
  {
    var r := AddRefill(ns, user, message);
    if |r| > |ns| {
      forall i | 0 <= i < |ns| && !ns[i].processed
        ensures !Matches(r[|ns|], ns[i].username, ns[i].message)
      {
        assert ns[i] in ns;
      }
    }
  }

  lemma AddMissedKeepsDeduplicated(ns: seq<Notification>, user: string, message: string)
    requires Deduplicated(ns)
    ensures Deduplicated(AddMissed(ns, user, message))
  {
  }

  lemma MarkProcessedKeepsDeduplicated(ns: seq<Notification>, user: string, message: string)
    requires Deduplicated(ns)
    ensures Deduplicated(MarkProcessed(ns, user, message))
  {
  }

  lemma {:induction false} AddDueAllKeepsDeduplicated(ns: seq<Notification>, user: string, messages: seq<string>)
    requires Deduplicated(ns)
    ensures Deduplicated(AddDueAll(ns, user, messages))
  {
    if messages != [] {
      AddDueAllKeepsDeduplicated(ns, user, messages[..|messages| - 1]);
      AddDueKeepsDeduplicated(AddDueAll(ns, user, messages[..|messages| - 1]), user, messages[|messages| - 1]);
    }
  }
}
