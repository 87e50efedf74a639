/** The two scans that turn untaken reminders into notifications, and the
    sorted reminder list shown for a medicine. Both scans walk the user's
    medicines in file order and, for each, that medicine's reminders in file
    order; "now" and "today" are parameters. */
module ReminderManager {
  import opened Lang
  import opened Clock
  import opened Reminders
  import opened NotificationDedup
  import Notifications
  import Medicines

  /** `"<medicine> due at <date> HH:mm"`. */
  function DueMessage(name: string, s: Slot): string
  {
    name + " due at " + SlotText(s)
  }

  /** `"<medicine> missed at HH:mm on <date>"`. */
  function MissedMessage(name: string, r: Reminder): string
  {
    name + " missed at " + TimeText(r.time) + " on " + DateText(r.date)
  }

  /** Due: untaken and scheduled strictly before now. */
  predicate IsDue(r: Reminder, now: Timestamp)
  {
    !r.taken && Before(At(SlotOf(r)), now)
  }

  /** Missed: untaken and dated strictly before today. */
  predicate IsMissed(r: Reminder, today: Day)
  {
    r.date < today && !r.taken
  }

  /** The due messages raised for one medicine's reminders, in order. */
  function DueIn(name: string, rems: seq<Reminder>, now: Timestamp): seq<string>
  {
    if rems == [] then []
    else
      var r := rems[|rems| - 1];
      DueIn(name, rems[..|rems| - 1], now) + if IsDue(r, now) then [DueMessage(name, SlotOf(r))] else []
  }

  /** The due messages of a whole scan over the user's medicines `meds`. */
  function DueScan(meds: seq<Medicines.Medicine>, rs: seq<Reminder>, user: string, now: Timestamp): seq<string>
  {
    if meds == [] then []
    else
      var name := meds[|meds| - 1].name;
      DueScan(meds[..|meds| - 1], rs, user, now) + DueIn(name, Filter(rs, Of(user, name)), now)
  }

  /** The missed messages raised for one medicine's reminders, in order. */
  function MissedIn(name: string, rems: seq<Reminder>, today: Day): seq<string>
  {
    if rems == [] then []
    else
      var r := rems[|rems| - 1];
      MissedIn(name, rems[..|rems| - 1], today) + if IsMissed(r, today) then [MissedMessage(name, r)] else []
  }

  function MissedScan(meds: seq<Medicines.Medicine>, rs: seq<Reminder>, user: string, today: Day): seq<string>
  {
    if meds == [] then []
    else
      var name := meds[|meds| - 1].name;
      MissedScan(meds[..|meds| - 1], rs, user, today) + MissedIn(name, Filter(rs, Of(user, name)), today)
  }

  /** Appending a missed-dose alert per message, with no de-duplication. */
  function AddMissedAll(ns: seq<Notifications.Notification>, user: string, messages: seq<string>): (r: seq<Notifications.Notification>)
    ensures |r| == |ns| + |messages| && r[..|ns|] == ns
    ensures forall k | 0 <= k < |messages| :: r[|ns| + k] == Notifications.Notification(user, messages[k], Notifications.MissedDose, false)
  {
    if messages == [] then ns
    else
      var before := AddMissedAll(ns, user, messages[..|messages| - 1]);
      var r := AddMissed(before, user, messages[|messages| - 1]);
      assert r[..|ns|] == before[..|ns|];
      r
  }

  // ---------------------------------------------------------------------------
  // What the scans raise

  lemma {:induction false} DueInMembers(name: string, rems: seq<Reminder>, now: Timestamp, msg: string)
    ensures msg in DueIn(name, rems, now) <==> exists r | r in rems :: IsDue(r, now) && msg == DueMessage(name, SlotOf(r))
  {
    if rems != [] {
      var init, last := rems[..|rems| - 1], rems[|rems| - 1];
      DueInMembers(name, init, now, msg);
      assert rems == init + [last];
      if exists r | r in rems :: IsDue(r, now) && msg == DueMessage(name, SlotOf(r)) {
        var r :| r in rems && IsDue(r, now) && msg == DueMessage(name, SlotOf(r));
        if r != last {
          assert r in init;
        }
      }
    }
  }

  /** Some untaken reminder of this user's medicine `name`, scheduled
      strictly before now, has the due message `msg`. */
  predicate DueFor(name: string, rs: seq<Reminder>, user: string, now: Timestamp, msg: string)
  {
    exists r | r in rs :: r.username == user && r.medicineName == name && IsDue(r, now) && msg == DueMessage(name, SlotOf(r))
  }

  lemma DueInFilter(name: string, rs: seq<Reminder>, user: string, now: Timestamp, msg: string)
    ensures msg in DueIn(name, Filter(rs, Of(user, name)), now) <==> DueFor(name, rs, user, now, msg)
  {
    DueInMembers(name, Filter(rs, Of(user, name)), now, msg);
    FilterMembers(rs, Of(user, name));
    if DueFor(name, rs, user, now, msg) {
      var r :| r in rs && r.username == user && r.medicineName == name && IsDue(r, now) && msg == DueMessage(name, SlotOf(r));
      assert Of(user, name)(r);
    }
  }

  /** A due message is raised exactly for each untaken reminder, of one of
      the user's medicines, scheduled strictly before now; a reminder
      scheduled exactly at now, or taken, raises none. */
  lemma {:induction false} DueScanMembers(meds: seq<Medicines.Medicine>, rs: seq<Reminder>, user: string, now: Timestamp, msg: string)
    ensures msg in DueScan(meds, rs, user, now) <==> exists m | m in meds :: DueFor(m.name, rs, user, now, msg)
  {
    if meds != [] {
      var init, last := meds[..|meds| - 1], meds[|meds| - 1];
      DueScanMembers(init, rs, user, now, msg);
      DueInFilter(last.name, rs, user, now, msg);
      assert DueScan(meds, rs, user, now) == DueScan(init, rs, user, now) + DueIn(last.name, Filter(rs, Of(user, last.name)), now);
      forall m | m in meds
        ensures m in init || m == last
      {
        assert meds == init + [last];
      }
      if DueFor(last.name, rs, user, now, msg) {
        assert last in meds;
      }
      forall m | m in init
        ensures m in meds
      {
        assert meds == init + [last];
      }
    }
  }

  /** A reminder is never due at its own scheduled instant. */
  lemma NotDueAtItsOwnTime(r: Reminder)
    ensures !IsDue(r, At(SlotOf(r)))
  {
  }

  lemma {:induction false} MissedInMembers(name: string, rems: seq<Reminder>, today: Day, msg: string)
    ensures msg in MissedIn(name, rems, today) <==> exists r | r in rems :: IsMissed(r, today) && msg == MissedMessage(name, r)
  {
    if rems != [] {
      var init, last := rems[..|rems| - 1], rems[|rems| - 1];
      MissedInMembers(name, init, today, msg);
      assert rems == init + [last];
      if exists r | r in rems :: IsMissed(r, today) && msg == MissedMessage(name, r) {
        var r :| r in rems && IsMissed(r, today) && msg == MissedMessage(name, r);
        if r != last {
          assert r in init;
        }
      }
    }
  }

  /** Some untaken reminder of this user's medicine `name`, dated strictly
      before today, has the missed message `msg`. */
  predicate MissedFor(name: string, rs: seq<Reminder>, user: string, today: Day, msg: string)
  {
    exists r | r in rs :: r.username == user && r.medicineName == name && IsMissed(r, today) && msg == MissedMessage(name, r)
  }

  lemma MissedInFilter(name: string, rs: seq<Reminder>, user: string, today: Day, msg: string)
    ensures msg in MissedIn(name, Filter(rs, Of(user, name)), today) <==> MissedFor(name, rs, user, today, msg)
  {
    MissedInMembers(name, Filter(rs, Of(user, name)), today, msg);
    FilterMembers(rs, Of(user, name));
    if MissedFor(name, rs, user, today, msg) {
      var r :| r in rs && r.username == user && r.medicineName == name && IsMissed(r, today) && msg == MissedMessage(name, r);
      assert Of(user, name)(r);
    }
  }

  /** A missed message is raised exactly for each untaken reminder, of one of
      the user's medicines, dated strictly before today. */
  lemma {:induction false} MissedScanMembers(meds: seq<Medicines.Medicine>, rs: seq<Reminder>, user: string, today: Day, msg: string)
    ensures msg in MissedScan(meds, rs, user, today) <==> exists m | m in meds :: MissedFor(m.name, rs, user, today, msg)
  {
    if meds != [] {
      var init, last := meds[..|meds| - 1], meds[|meds| - 1];
      MissedScanMembers(init, rs, user, today, msg);
      MissedInFilter(last.name, rs, user, today, msg);
      assert MissedScan(meds, rs, user, today) == MissedScan(init, rs, user, today) + MissedIn(last.name, Filter(rs, Of(user, last.name)), today);
      forall m | m in meds
        ensures m in init || m == last
      {
        assert meds == init + [last];
      }
      if MissedFor(last.name, rs, user, today, msg) {
        assert last in meds;
      }
      forall m | m in init
        ensures m in meds
      {
        assert meds == init + [last];
      }
    }
  }

  /** Two missed scans in a row append what one scan over the messages
      twice over would: every missed alert is raised again. */
  lemma MissedScansConcatenate(ns: seq<Notifications.Notification>, user: string, first: seq<string>, second: seq<string>)
    ensures AddMissedAll(AddMissedAll(ns, user, first), user, second) == AddMissedAll(ns, user, first + second)
  {
    var once := AddMissedAll(ns, user, first);
    var lhs := AddMissedAll(once, user, second);
    var rhs := AddMissedAll(ns, user, first + second);
    forall k | 0 <= k < |lhs|
      ensures lhs[k] == rhs[k]
    {
      if k < |ns| {
        assert lhs[k] == lhs[..|once|][k] == once[..|ns|][k];
        assert rhs[k] == rhs[..|ns|][k];
      } else if k < |once| {
        var i := k - |ns|;
        assert lhs[k] == lhs[..|once|][k] == once[|ns| + i];
        assert (first + second)[i] == first[i];
        assert rhs[k] == rhs[|ns| + i];
      } else {
        var i := k - |once|;
        assert lhs[k] == lhs[|once| + i];
        assert (first + second)[|first| + i] == second[i];
        assert rhs[k] == rhs[|ns| + (|first| + i)];
      }
    }
  }

  /** The missed scan keeps the de-duplication invariant of due and refill alerts. */
  lemma {:induction false} AddMissedAllKeepsDeduplicated(ns: seq<Notifications.Notification>, user: string, messages: seq<string>)
    requires Deduplicated(ns)
    ensures Deduplicated(AddMissedAll(ns, user, messages))
  {
    if messages != [] {
      AddMissedAllKeepsDeduplicated(ns, user, messages[..|messages| - 1]);
      AddMissedKeepsDeduplicated(AddMissedAll(ns, user, messages[..|messages| - 1]), user, messages[|messages| - 1]);
    }
  }

  // ---------------------------------------------------------------------------
  // The scans

  lemma DueAllStep(ns: seq<Notifications.Notification>, user: string, messages: seq<string>, msg: string)
    ensures AddDueAll(ns, user, messages + [msg]) == AddDue(AddDueAll(ns, user, messages), user, msg)
  {
    assert (messages + [msg])[..|messages|] == messages;
  }

  lemma MissedAllStep(ns: seq<Notifications.Notification>, user: string, messages: seq<string>, msg: string)
    ensures AddMissedAll(ns, user, messages + [msg]) == AddMissed(AddMissedAll(ns, user, messages), user, msg)
  {
    assert (messages + [msg])[..|messages|] == messages;
  }

  lemma DueInStep(name: string, rems: seq<Reminder>, j: nat, now: Timestamp)
    requires j < |rems|
    ensures DueIn(name, rems[..j + 1], now)
              == DueIn(name, rems[..j], now) + if IsDue(rems[j], now) then [DueMessage(name, SlotOf(rems[j]))] else []
  {
    assert rems[..j + 1][..j] == rems[..j];
  }

  lemma DueScanStep(meds: seq<Medicines.Medicine>, i: nat, rs: seq<Reminder>, user: string, now: Timestamp)
    requires i < |meds|
    ensures DueScan(meds[..i + 1], rs, user, now)
              == DueScan(meds[..i], rs, user, now) + DueIn(meds[i].name, Filter(rs, Of(user, meds[i].name)), now)
  {
    assert meds[..i + 1][..i] == meds[..i];
  }

  lemma MissedInStep(name: string, rems: seq<Reminder>, j: nat, today: Day)
    requires j < |rems|
    ensures MissedIn(name, rems[..j + 1], today)
              == MissedIn(name, rems[..j], today) + if IsMissed(rems[j], today) then [MissedMessage(name, rems[j])] else []
  {
    assert rems[..j + 1][..j] == rems[..j];
  }

  lemma MissedScanStep(meds: seq<Medicines.Medicine>, i: nat, rs: seq<Reminder>, user: string, today: Day)
    requires i < |meds|
    ensures MissedScan(meds[..i + 1], rs, user, today)
              == MissedScan(meds[..i], rs, user, today) + MissedIn(meds[i].name, Filter(rs, Of(user, meds[i].name)), today)
  {
    assert meds[..i + 1][..i] == meds[..i];
  }

  /** The inner loop of `checkDueReminders`: one medicine's reminders. */
  method DueForMedicine(notes: Notifications.NotificationFile, user: string, name: string, rems: seq<Reminder>, now: Timestamp,
                        ghost base: seq<Notifications.Notification>, ghost raised: seq<string>)
    requires notes.records == AddDueAll(base, user, raised)
    modifies notes
    ensures notes.records == AddDueAll(base, user, raised + DueIn(name, rems, now))
  {
    var j := 0;
    assert raised + DueIn(name, rems[..0], now) == raised;
    while j < |rems|
      invariant 0 <= j <= |rems|
      invariant notes.records == AddDueAll(base, user, raised + DueIn(name, rems[..j], now))
    {
      DueInStep(name, rems, j, now);
      var r := rems[j];
      if !r.taken && Before(At(SlotOf(r)), now) {
        var msg := DueMessage(name, SlotOf(r));
        AppendAssociates(raised, DueIn(name, rems[..j], now), [msg]);
        DueAllStep(base, user, raised + DueIn(name, rems[..j], now), msg);
        AddMedicineTimeNotification(notes, user, msg);
      } else {
        assert DueIn(name, rems[..j + 1], now) == DueIn(name, rems[..j], now) + [] == DueIn(name, rems[..j], now);
      }
      j := j + 1;
    }
    assert rems[..j] == rems;
  }

  /** `ReminderManager.checkDueReminders`: a due-dose alert, de-duplicated,
      for every due reminder of every medicine of the user. */
  method CheckDueReminders(notes: Notifications.NotificationFile, meds: Medicines.MedicineFile, rems: ReminderFile,
                           user: string, now: Timestamp)
    modifies notes
    ensures notes.records == AddDueAll(old(notes.records), user, DueScan(Filter(meds.records, Medicines.OwnedBy(user)), rems.records, user, now))
  {
    var medicines := meds.GetUserMedicines(user);
    var i := 0;
    while i < |medicines|
      invariant 0 <= i <= |medicines|
      invariant notes.records == AddDueAll(old(notes.records), user, DueScan(medicines[..i], rems.records, user, now))
    {
      var mine := rems.GetRemindersByMedicine(user, medicines[i].name);
      DueScanStep(medicines, i, rems.records, user, now);
      DueForMedicine(notes, user, medicines[i].name, mine, now, old(notes.records), DueScan(medicines[..i], rems.records, user, now));
      i := i + 1;
    }
    assert medicines[..i] == medicines;
  }

  /** The inner loop of `checkMissedDoses`: one medicine's reminders. */
  method MissedForMedicine(notes: Notifications.NotificationFile, user: string, name: string, rems: seq<Reminder>, today: Day,
                           ghost base: seq<Notifications.Notification>, ghost raised: seq<string>)
    requires notes.records == AddMissedAll(base, user, raised)
    modifies notes
    ensures notes.records == AddMissedAll(base, user, raised + MissedIn(name, rems, today))
  {
    var j := 0;
    assert raised + MissedIn(name, rems[..0], today) == raised;
    while j < |rems|
      invariant 0 <= j <= |rems|
      invariant notes.records == AddMissedAll(base, user, raised + MissedIn(name, rems[..j], today))
    {
      MissedInStep(name, rems, j, today);
      var r := rems[j];
      if r.date < today && !r.taken {
        var msg := MissedMessage(name, r);
        AppendAssociates(raised, MissedIn(name, rems[..j], today), [msg]);
        MissedAllStep(base, user, raised + MissedIn(name, rems[..j], today), msg);
        AddMissedDoseNotification(notes, user, msg);
      } else {
        assert MissedIn(name, rems[..j + 1], today) == MissedIn(name, rems[..j], today) + [] == MissedIn(name, rems[..j], today);
      }
      j := j + 1;
    }
    assert rems[..j] == rems;
  }

  /** `ReminderManager.checkMissedDoses`: a missed-dose alert, never
      de-duplicated, for every missed reminder of every medicine of the user. */
  method CheckMissedDoses(notes: Notifications.NotificationFile, meds: Medicines.MedicineFile, rems: ReminderFile,
                          user: string, today: Day)
    modifies notes
    ensures notes.records == AddMissedAll(old(notes.records), user, MissedScan(Filter(meds.records, Medicines.OwnedBy(user)), rems.records, user, today))
  {
    var medicines := meds.GetUserMedicines(user);
    var i := 0;
    while i < |medicines|
      invariant 0 <= i <= |medicines|
      invariant notes.records == AddMissedAll(old(notes.records), user, MissedScan(medicines[..i], rems.records, user, today))
    {
      var mine := rems.GetRemindersByMedicine(user, medicines[i].name);
      MissedScanStep(medicines, i, rems.records, user, today);
      MissedForMedicine(notes, user, medicines[i].name, mine, today, old(notes.records), MissedScan(medicines[..i], rems.records, user, today));
      i := i + 1;
    }
    assert medicines[..i] == medicines;
  }

  /** `ReminderManager.viewReminders`: the medicine's reminders ordered by
      date, then time. */
  method ViewReminders(rems: ReminderFile, user: string, name: string) returns (shown: seq<Reminder>)
    ensures SortedBySlot(shown)
    ensures multiset(shown) == multiset(Filter(rems.records, Of(user, name)))
  {
    var mine := rems.GetRemindersByMedicine(user, name);
    shown := SortedReminders(mine);
  }
}
