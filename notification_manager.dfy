/** Resolving a notification the user picked: a refill tops the stock up, an
    expired medicine may be removed, a due dose is marked taken (reminder,
    dose history and stock) or copied as a missed dose; then every record with
    that user and message is marked processed. The user's menu answers, the
    entered amount and the current time are parameters.

    The effect of each handler is first given on the values of the four
    collections (`Stores`), where the properties are proved; the methods over
    the files are then proved to have exactly that effect. */
module NotificationManager {
  import opened Lang
  import opened Strings
  import opened Clock
  import opened Notifications
  import opened NotificationDedup
  import Medicines
  import Reminders
  import DoseHistories
  import DoseHistoryManager
  import ReminderManager

  /** The four collections the engine keeps. */
  datatype Stores = Stores(
    notes: seq<Notification>,
    meds: seq<Medicines.Medicine>,
    rems: seq<Reminders.Reminder>,
    history: seq<string>)

  function Snapshot(notes: NotificationFile, meds: Medicines.MedicineFile, rems: Reminders.ReminderFile,
                    hist: DoseHistoryManager.HistoryFile): Stores
    reads notes, meds, rems, hist
  {
    Stores(notes.records, meds.records, rems.records, hist.lines)
  }

  // ---------------------------------------------------------------------------
  // Reading the medicine name back out of a message

  const DueSeparator: string := " due at "
  const RefillPrefix: string := "Refill needed for: "

  datatype DueParse = MalformedMessage | UnparsableTime | Target(name: string, slot: Slot)

  /** How `handleMedicineTimeNotification` reads a due message: exactly two
      pieces around `" due at "`, each trimmed, the second a date and time. */
  function ParseDueMessage(message: string): DueParse
  {
    var parts := Split(message, DueSeparator);
    if |parts| != 2 then MalformedMessage
    else
      match ParseSlot(Trim(parts[1]))
      case None => UnparsableTime
      case Some(s) => Target(Trim(parts[0]), s)
  }

  /** The medicine name `handleRefill` reads out of a refill message. */
  function RefillName(message: string): string
  {
    Trim(RemoveAll(message, RefillPrefix))
  }

  /** The medicine name `removeExpiredMedicine` reads out of a message: the
      trimmed text before the first colon; None where `split(":")` returns no
      piece at all and taking the first one throws. */
  function ExpiredName(message: string): Option<string>
  {
    var parts := Split(message, ":");
    if parts == [] then None else Some(Trim(parts[0]))
  }

  /** No occurrence of `sep` starts in `s` when none lies within `s` and the
      first |sep| - 1 characters that follow it. */
  lemma NoMatchBefore(s: string, a: string, t: string, sep: string)
    requires |a| + 1 == |sep| && !Contains(s + a, sep)
    ensures forall i | 0 <= i < |s| :: !MatchAt(s + a + t, i, sep)
  {
    forall i | 0 <= i < |s|
      ensures !MatchAt(s + a + t, i, sep)
    {
      if MatchAt(s + a + t, i, sep) {
        assert (s + a + t)[i..i + |sep|] == (s + a)[i..i + |sep|];
        assert MatchAt(s + a, i, sep);
      }
    }
  }

  /** A due message built by the due scan reads back as the medicine name and
      the slot, for a name without surrounding blanks in which the separator
      does not start (" due at " inside it, or " due at" at its end, would
      split the message elsewhere). */
  lemma DueMessageRoundTrip(name: string, s: Slot)
    requires Trimmed(name) && !Contains(name + " due at", DueSeparator)
    ensures ParseDueMessage(ReminderManager.DueMessage(name, s)) == Target(name, s)
  {
    var text := SlotText(s);
    var message := ReminderManager.DueMessage(name, s);
    NoMatchBefore(name, " due at", " " + text, DueSeparator);
    assert message == name + " due at" + (" " + text) == name + (DueSeparator + text);
    PiecesPrefix(name, DueSeparator + text, DueSeparator);
    PiecesAtSeparator(text, DueSeparator);
    assert DueSeparator[1] == 'd';
    NoMatchWithoutChar(text, DueSeparator, 1);
    PiecesNoMatch(text, DueSeparator);
    assert |text| > 0;
    assert Pieces(DueSeparator + text, DueSeparator) == ["", text];
    assert name + "" == name;
    assert Pieces(message, DueSeparator) == [name, text];
    assert Split(message, DueSeparator) == [name, text];
    TrimmedTrim(name);
    TrimmedTrim(text);
    SlotTextRoundTrip(s);
  }

  /** The name of a refill alert reads back as written, for a name without
      surrounding blanks that does not itself hold the alert's prefix. */
  lemma RefillNameRoundTrip(name: string)
    requires Trimmed(name) && !Contains(name, RefillPrefix)
    ensures RefillName(Medicines.RefillMessage(name)) == name
  {
    assert Medicines.RefillMessage(name) == RefillPrefix + name;
    forall i | 0 <= i < |name|
      ensures !MatchAt(name, i, RefillPrefix)
    {
    }
    PiecesAtSeparator(name, RefillPrefix);
    PiecesNoMatch(name, RefillPrefix);
    assert Pieces(Medicines.RefillMessage(name), RefillPrefix) == ["", name];
    assert Join(["", name], "") == "" + "" + Join([name], "");
    TrimmedTrim(name);
  }

  /** The expired-medicine branch has no name to work with exactly when the
      message is a non-empty run of colons. */
  lemma ExpiredNameMissing(message: string)
    ensures ExpiredName(message).None? <==> message != [] && forall i | 0 <= i < |message| :: message[i] == ':'
  {
    assert ":" == [':'];
    SplitToNothing(message, ':');
  }

  // ---------------------------------------------------------------------------
  // Stock

  function HasName(name: string): Medicines.Medicine -> bool
  {
    (m: Medicines.Medicine) => m.name == name
  }

  /** The user's first medicine with this name, as `getUserMedicines`
      followed by a search by name finds it. */
  function UserMedicine(ms: seq<Medicines.Medicine>, user: string, name: string): (r: Option<Medicines.Medicine>)
    ensures r.Some? ==> r.value in ms && Medicines.Named(r.value, user, name)
    ensures r.None? <==> forall m | m in ms :: !Medicines.Named(m, user, name)
  {
    var mine := Filter(ms, Medicines.OwnedBy(user));
    FilterMembers(ms, Medicines.OwnedBy(user));
    var r := First(mine, HasName(name));
    if r.None? then
      assert forall m | m in mine :: !HasName(name)(m);
      r
    else
      r
  }

  /** `Medicine.updateMedicineStock(user, name, q)` on the values: the
      matching records hold `q`, and a refill alert is raised when `q` is not
      positive. */
  function Restock(ns: seq<Notification>, ms: seq<Medicines.Medicine>, user: string, name: string, q: Int32)
    : (seq<Notification>, seq<Medicines.Medicine>)
  {
    (if q <= 0 then AddRefill(ns, user, Medicines.RefillMessage(name)) else ns,
     Medicines.Restocked(ms, user, name, q))
  }

  /** The quantity the private `updateMedicineStock(user, name, delta)`
      writes: the first record's quantity plus `delta` (in `int`
      arithmetic), when that is not negative; None when it writes nothing. */
  function StockChange(ms: seq<Medicines.Medicine>, user: string, name: string, delta: Int32): Option<Int32>
  {
    match UserMedicine(ms, user, name)
    case None => None
    case Some(m) =>
      var q := Wrap32(m.quantity + delta);
      if q >= 0 then Some(q) else None
  }

  function AdjustStock(ns: seq<Notification>, ms: seq<Medicines.Medicine>, user: string, name: string, delta: Int32)
    : (seq<Notification>, seq<Medicines.Medicine>)
  {
    match StockChange(ms, user, name, delta)
    case None => (ns, ms)
    case Some(q) => Restock(ns, ms, user, name, q)
  }

  /** A stock adjustment never drives a quantity below zero: records that
      were not negative stay so; records of the medicine either keep their
      quantity or all hold the new, non-negative one. */
  lemma AdjustStockNeverNegative(ns: seq<Notification>, ms: seq<Medicines.Medicine>, user: string, name: string, delta: Int32)
    ensures var after := AdjustStock(ns, ms, user, name, delta).1;
            |after| == |ms| &&
            (forall k | 0 <= k < |ms| && ms[k].quantity >= 0 :: after[k].quantity >= 0) &&
            (StockChange(ms, user, name, delta).Some? ==>
               forall k | 0 <= k < |ms| && Medicines.Named(ms[k], user, name) :: after[k].quantity >= 0)
  {
  }

  /** Taking one dose removes one unit from every record of the medicine
      when the user's first record has stock, and changes nothing when it has
      none or the medicine is not in the inventory; a first record at the
      lowest `int` wraps around to the highest, written to every record. */
  lemma TakenDoseStock(ns: seq<Notification>, ms: seq<Medicines.Medicine>, user: string, name: string)
    ensures var after := AdjustStock(ns, ms, user, name, -1).1;
            match UserMedicine(ms, user, name)
            case None => after == ms
            case Some(m) =>
              if m.quantity >= 1 || m.quantity == -0x8000_0000 then
                var q := if m.quantity >= 1 then m.quantity - 1 else 0x7fff_ffff;
                |after| == |ms| &&
                forall k | 0 <= k < |ms| :: after[k].quantity == if Medicines.Named(ms[k], user, name) then q else ms[k].quantity
              else after == ms
  {
  }

  /** The quantity `handleRefill` writes: the current stock of the user's
      first record (0 when there is none) plus the amount, in `int` arithmetic. */
  function RefillQuantity(ms: seq<Medicines.Medicine>, user: string, name: string, amount: Int32): Int32
  {
    var current := match UserMedicine(ms, user, name) case None => 0 case Some(m) => m.quantity;
    Wrap32(current + amount)
  }

  // ---------------------------------------------------------------------------
  // The handlers on the values

  /** `handleRefill`: option 1 restocks the medicine named in the alert. */
  function RefillOutcome(ns: seq<Notification>, ms: seq<Medicines.Medicine>, n: Notification, choice: int, amount: Int32)
    : (seq<Notification>, seq<Medicines.Medicine>)
  {
    if choice != 1 then (ns, ms)
    else
      var name := RefillName(n.message);
      Restock(ns, ms, n.username, name, RefillQuantity(ms, n.username, name, amount))
  }

  /** `handleExpiredMedicine`: option 1 removes the medicine named before
      the first colon when the user has it; None when reading the name throws. */
  function ExpiredOutcome(ms: seq<Medicines.Medicine>, n: Notification, choice: int): Option<seq<Medicines.Medicine>>
  {
    if choice != 1 then Some(ms)
    else
      match ExpiredName(n.message)
      case None => None
      case Some(name) =>
        if UserMedicine(ms, n.username, name).Some? then Some(Medicines.Removed(ms, n.username, name)) else Some(ms)
  }

  /** `handleMedicineTimeNotification`: for a readable message, option 1
      marks the reminder taken, records the dose at `now` and takes one unit
      of stock; any other option appends a pending missed-dose copy of the
      alert. An unreadable message changes nothing. */
  function DueOutcome(st: Stores, n: Notification, choice: int, now: Timestamp): Stores
  {
    match ParseDueMessage(n.message)
    case Target(name, slot) =>
      if choice == 1 then
        var stock := AdjustStock(st.notes, st.meds, n.username, name, -1);
        Stores(stock.0, stock.1,
               Reminders.MarkTaken(st.rems, n.username, name, slot.date, slot.time),
               st.history + [DoseHistories.ToCsv(DoseHistories.DoseHistory(n.username, name, now))])
      else
        st.(notes := st.notes + [Notification(n.username, n.message, MissedDose, false)])
    case _ => st
  }

  /** `processNotification`: the handler for the notification's type, then
      every record with its user and message marked processed. None when the
      handler throws, and nothing is marked. A missed-dose notification is
      only displayed. */
  function Process(st: Stores, n: Notification, choice: int, amount: Int32, now: Timestamp): Option<Stores>
  {
    var handled :=
      match n.kind
      case MissedDose => Some(st)
      case Refill =>
        var r := RefillOutcome(st.notes, st.meds, n, choice, amount);
        Some(st.(notes := r.0, meds := r.1))
      case ExpiredMedicine =>
        (match ExpiredOutcome(st.meds, n, choice)
         case None => None
         case Some(ms) => Some(st.(meds := ms)))
      case MedicineTime => Some(DueOutcome(st, n, choice, now));
    match handled
    case None => None
    case Some(h) => Some(h.(notes := MarkProcessed(h.notes, n.username, n.message)))
  }

  // ---------------------------------------------------------------------------
  // What processing promises

  /** Every handler only appends notifications. */
  lemma HandlersAppend(st: Stores, n: Notification, choice: int, amount: Int32, now: Timestamp)
    ensures var r := RefillOutcome(st.notes, st.meds, n, choice, amount).0;
            |st.notes| <= |r| && r[..|st.notes|] == st.notes
    ensures var d := DueOutcome(st, n, choice, now).notes;
            |st.notes| <= |d| && d[..|st.notes|] == st.notes
  {
    if choice == 1 {
      var name := RefillName(n.message);
      RestockAppends(st.notes, st.meds, n.username, name, RefillQuantity(st.meds, n.username, name, amount));
    }
    DueOutcomeAppends(st, n, choice, now);
  }

  lemma RestockAppends(ns: seq<Notification>, ms: seq<Medicines.Medicine>, user: string, name: string, q: Int32)
    ensures var r := Restock(ns, ms, user, name, q).0;
            |ns| <= |r| && r[..|ns|] == ns
  {
    if q <= 0 {
      var r := AddRefill(ns, user, Medicines.RefillMessage(name));
      assert |ns| <= |r| && r[..|ns|] == ns;
    } else {
      assert ns[..|ns|] == ns;
    }
  }

  lemma DueOutcomeAppends(st: Stores, n: Notification, choice: int, now: Timestamp)
    ensures var d := DueOutcome(st, n, choice, now).notes;
            |st.notes| <= |d| && d[..|st.notes|] == st.notes
  {
    assert st.notes[..|st.notes|] == st.notes;
    match ParseDueMessage(n.message)
    case Target(name, slot) =>
      if choice == 1 {
        match StockChange(st.meds, n.username, name, -1)
        case None =>
        case Some(q) => RestockAppends(st.notes, st.meds, n.username, name, q);
      } else {
        assert (st.notes + [Notification(n.username, n.message, MissedDose, false)])[..|st.notes|] == st.notes;
      }
    case _ =>
  }

  lemma MarkProcessedAfterAppend(before: seq<Notification>, handled: seq<Notification>, user: string, message: string)
    requires |before| <= |handled| && handled[..|before|] == before
    ensures FlagsMonotone(before, MarkProcessed(handled, user, message))
  {
    var after := MarkProcessed(handled, user, message);
    forall k | 0 <= k < |before|
      ensures after[k].username == before[k].username && after[k].message == before[k].message &&
              after[k].kind == before[k].kind && (before[k].processed ==> after[k].processed)
    {
      assert handled[k] == before[k];
    }
  }

  /** Unless the handler throws, processing leaves every record with the
      notification's user and message processed (the missed-dose copy the
      "not taken" answer appends included), keeps every earlier record with
      its flag never cleared, and only appends. */
  lemma ProcessMarksProcessed(st: Stores, n: Notification, choice: int, amount: Int32, now: Timestamp)
    requires Process(st, n, choice, amount, now).Some?
    ensures var after := Process(st, n, choice, amount, now).value.notes;
            FlagsMonotone(st.notes, after) &&
            forall k | 0 <= k < |after| :: Matches(after[k], n.username, n.message) ==> after[k].processed
  {
    HandlersAppend(st, n, choice, amount, now);
    var handled: seq<Notification> :=
      match n.kind
      case Refill => RefillOutcome(st.notes, st.meds, n, choice, amount).0
      case MedicineTime => DueOutcome(st, n, choice, now).notes
      case _ => st.notes;
    assert Process(st, n, choice, amount, now).value.notes == MarkProcessed(handled, n.username, n.message);
    MarkProcessedAfterAppend(st.notes, handled, n.username, n.message);
  }

  /** Processing throws, and then changes nothing, exactly for an
      expired-medicine alert whose removal is confirmed and whose message is
      a non-empty run of colons. */
  lemma ProcessAbortsOnlyOnColons(st: Stores, n: Notification, choice: int, amount: Int32, now: Timestamp)
    ensures Process(st, n, choice, amount, now).None? <==>
              n.kind == ExpiredMedicine && choice == 1 &&
              n.message != [] && forall i | 0 <= i < |n.message| :: n.message[i] == ':'
  {
    ExpiredNameMissing(n.message);
  }

  /** A due alert whose message does not read back touches no reminder, no
      history and no stock: processing it only marks it processed. */
  lemma UnreadableDueChangesNothing(st: Stores, n: Notification, choice: int, amount: Int32, now: Timestamp)
    requires n.kind == MedicineTime && !ParseDueMessage(n.message).Target?
    ensures Process(st, n, choice, amount, now) == Some(st.(notes := MarkProcessed(st.notes, n.username, n.message)))
  {
  }

  /** Taking the dose named by a due alert marks the reminder taken, adds
      one dose-history entry at `now` that reads back for the user (to the
      second), and never drives a stock quantity below zero. */
  lemma TakenDose(st: Stores, n: Notification, name: string, slot: Slot, amount: Int32, now: Timestamp)
    requires n.kind == MedicineTime && ParseDueMessage(n.message) == Target(name, slot)
    requires Lacks(n.username, ',') && Lacks(name, ',')
    ensures var after := Process(st, n, 1, amount, now).value;
            after.rems == Reminders.MarkTaken(st.rems, n.username, name, slot.date, slot.time) &&
            after.history == st.history + [DoseHistories.ToCsv(DoseHistories.DoseHistory(n.username, name, now))] &&
            |after.meds| == |st.meds| &&
            (forall k | 0 <= k < |st.meds| && st.meds[k].quantity >= 0 :: after.meds[k].quantity >= 0)
    ensures var after := Process(st, n, 1, amount, now).value;
            DoseHistoryManager.ReadHistory(st.history, n.username, None).Some? ==>
              DoseHistoryManager.ReadHistory(after.history, n.username, None)
                == Some(DoseHistoryManager.ReadHistory(st.history, n.username, None).value +
                        [DoseHistories.DoseHistory(n.username, name, Truncated(now))])
  {
    AdjustStockNeverNegative(st.notes, st.meds, n.username, name, -1);
    DoseHistoryManager.AddThenRead(st.history, DoseHistories.DoseHistory(n.username, name, now));
  }

  /** The dose a due scan raised, once taken, is due no more: every reminder
      of that medicine at that slot is taken afterwards, so no later scan
      raises it again. */
  lemma TakenDoseIsNoLongerDue(st: Stores, user: string, name: string, slot: Slot, amount: Int32, now: Timestamp, later: Timestamp)
    requires Trimmed(name) && !Contains(name + " due at", DueSeparator)
    ensures var n := Notification(user, ReminderManager.DueMessage(name, slot), MedicineTime, false);
            var after := Process(st, n, 1, amount, now).value;
            |after.rems| == |st.rems| &&
            forall k | 0 <= k < |st.rems| && Reminders.Scheduled(st.rems[k], user, name, slot.date, slot.time) ::
              !ReminderManager.IsDue(after.rems[k], later)
  {
    DueMessageRoundTrip(name, slot);
  }

  /** Processing keeps at most one pending due alert and one pending refill
      alert per user and message. */
  lemma ProcessKeepsDeduplicated(st: Stores, n: Notification, choice: int, amount: Int32, now: Timestamp)
    requires Deduplicated(st.notes) && Process(st, n, choice, amount, now).Some?
    ensures Deduplicated(Process(st, n, choice, amount, now).value.notes)
  {
    var handled: seq<Notification> :=
      match n.kind
      case Refill => RefillOutcome(st.notes, st.meds, n, choice, amount).0
      case MedicineTime => DueOutcome(st, n, choice, now).notes
      case _ => st.notes;
    match n.kind {
      case Refill =>
        if choice == 1 {
          var name := RefillName(n.message);
          if RefillQuantity(st.meds, n.username, name, amount) <= 0 {
            AddRefillKeepsDeduplicated(st.notes, n.username, Medicines.RefillMessage(name));
          }
        }
      case MedicineTime =>
        match ParseDueMessage(n.message) {
          case Target(name, slot) =>
            if choice == 1 {
              var change := StockChange(st.meds, n.username, name, -1);
              if change.Some? && change.value <= 0 {
                AddRefillKeepsDeduplicated(st.notes, n.username, Medicines.RefillMessage(name));
              }
            } else {
              AddMissedKeepsDeduplicated(st.notes, n.username, n.message);
            }
          case _ =>
        }
      case _ =>
    }
    MarkProcessedKeepsDeduplicated(handled, n.username, n.message);
  }

  // ---------------------------------------------------------------------------
  // The handlers on the files

  /** The search by name over `getUserMedicines`, stopping at the first hit. */
  method FindUserMedicine(meds: Medicines.MedicineFile, user: string, name: string) returns (r: Option<Medicines.Medicine>)
    ensures r == UserMedicine(meds.records, user, name)
  {
    var medicines := meds.GetUserMedicines(user);
    var i := 0;
    while i < |medicines|
      invariant 0 <= i <= |medicines|
      invariant forall j | 0 <= j < i :: medicines[j].name != name
    {
      if medicines[i].name == name {
        assert HasName(name)(medicines[i]);
        return Some(medicines[i]);
      }
      i := i + 1;
    }
    return None;
  }

  /** The private `NotificationManager.updateMedicineStock`. */
  method UpdateMedicineStock(notes: NotificationFile, meds: Medicines.MedicineFile, user: string, name: string, delta: Int32)
    modifies notes, meds
    ensures (notes.records, meds.records) == AdjustStock(old(notes.records), old(meds.records), user, name, delta)
  {
    var found := FindUserMedicine(meds, user, name);
    if found.Some? {
      var q := Wrap32(found.value.quantity + delta);
      if q >= 0 {
        meds.UpdateMedicineStock(notes, user, name, q);
      }
    }
  }

  /** `NotificationManager.handleRefill`. */
  method HandleRefill(notes: NotificationFile, meds: Medicines.MedicineFile, n: Notification, choice: int, amount: Int32)
    modifies notes, meds
    ensures (notes.records, meds.records) == RefillOutcome(old(notes.records), old(meds.records), n, choice, amount)
  {
    if choice == 1 {
      var name := RefillName(n.message);
      var found := FindUserMedicine(meds, n.username, name);
      var current: Int32 := if found.Some? then found.value.quantity else 0;
      meds.UpdateMedicineStock(notes, n.username, name, Wrap32(current + amount));
    }
  }

  /** `NotificationManager.removeExpiredMedicine`; `aborted` when reading
      the name throws. */
  method RemoveExpiredMedicine(meds: Medicines.MedicineFile, user: string, message: string) returns (aborted: bool)
    modifies meds
    ensures aborted <==> ExpiredName(message).None?
    ensures !aborted ==> meds.records == (if UserMedicine(old(meds.records), user, ExpiredName(message).value).Some?
                                         then Medicines.Removed(old(meds.records), user, ExpiredName(message).value)
                                         else old(meds.records))
    ensures aborted ==> meds.records == old(meds.records)
  {
    var parts := Split(message, ":");
    if |parts| == 0 {
      return true;
    }
    var name := Trim(parts[0]);
    var found := FindUserMedicine(meds, user, name);
    if found.Some? {
      var _ := meds.RemoveMedicine(user, name);
    }
    return false;
  }

  /** `NotificationManager.handleExpiredMedicine`. */
  method HandleExpiredMedicine(meds: Medicines.MedicineFile, n: Notification, choice: int) returns (aborted: bool)
    modifies meds
    ensures aborted <==> ExpiredOutcome(old(meds.records), n, choice).None?
    ensures !aborted ==> meds.records == ExpiredOutcome(old(meds.records), n, choice).value
    ensures aborted ==> meds.records == old(meds.records)
  {
    aborted := false;
    if choice == 1 {
      aborted := RemoveExpiredMedicine(meds, n.username, n.message);
    }
  }

  /** `NotificationManager.handleMedicineTimeNotification`. */
  method HandleMedicineTimeNotification(notes: NotificationFile, meds: Medicines.MedicineFile, rems: Reminders.ReminderFile,
                                        hist: DoseHistoryManager.HistoryFile, n: Notification, choice: int, now: Timestamp)
    modifies notes, meds, rems, hist
    ensures Snapshot(notes, meds, rems, hist) == DueOutcome(old(Snapshot(notes, meds, rems, hist)), n, choice, now)
  {
    var parts := Split(n.message, DueSeparator);
    if |parts| != 2 {
      return;
    }
    var name := Trim(parts[0]);
    var due := ParseSlot(Trim(parts[1]));
    if due.None? {
      return;
    }
    if choice == 1 {
      var _ := rems.MarkReminderAsTaken(n.username, name, due.value.date, due.value.time);
      hist.AddDoseHistory(DoseHistories.DoseHistory(n.username, name, now));
      UpdateMedicineStock(notes, meds, n.username, name, -1);
    } else {
      notes.AddNotification(Notification(n.username, n.message, MissedDose, false));
    }
  }

  /** `NotificationManager.processNotification`; `aborted` when the handler
      throws before the notification is marked. */
  method ProcessNotification(notes: NotificationFile, meds: Medicines.MedicineFile, rems: Reminders.ReminderFile,
                             hist: DoseHistoryManager.HistoryFile, n: Notification, choice: int, amount: Int32, now: Timestamp)
    returns (aborted: bool)
    modifies notes, meds, rems, hist
    ensures aborted <==> Process(old(Snapshot(notes, meds, rems, hist)), n, choice, amount, now).None?
    ensures !aborted ==> Snapshot(notes, meds, rems, hist) == Process(old(Snapshot(notes, meds, rems, hist)), n, choice, amount, now).value
    ensures aborted ==> Snapshot(notes, meds, rems, hist) == old(Snapshot(notes, meds, rems, hist))
  {
    aborted := false;
    match n.kind {
      case MissedDose =>
      case Refill =>
        HandleRefill(notes, meds, n, choice, amount);
      case ExpiredMedicine =>
        aborted := HandleExpiredMedicine(meds, n, choice);
        if aborted {
          return;
        }
      case MedicineTime =>
        HandleMedicineTimeNotification(notes, meds, rems, hist, n, choice, now);
    }
    notes.MarkNotificationAsProcessed(n.username, n.message);
  }
}
