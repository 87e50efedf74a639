/** Medicines and the medicine file: records
    `username,name,dosage,quantity,HH:mm;HH:mm;...,start,end,expiry`, read per
    user, and rewritten as a whole to change a stock quantity or to remove a
    medicine. */
module Medicines {
  import opened Lang
  import opened Strings
  import opened Clock
  import Notifications
  import opened NotificationDedup

  datatype Medicine = Medicine(
    username: string, name: string, dosage: string, quantity: Int32,
    times: seq<Minute>, startDate: Day, endDate: Day, expiryDate: Day)

  // ---------------------------------------------------------------------------
  // Record format

  /** The dose-times field: each time as `HH:mm` followed by `;`. */
  function TimesField(times: seq<Minute>): string
  {
    if times == [] then "" else TimeText(times[0]) + ";" + TimesField(times[1..])
  }

  function TimeTexts(times: seq<Minute>): (r: seq<string>)
    ensures |r| == |times| && forall k | 0 <= k < |times| :: r[k] == TimeText(times[k])
  {
    seq(|times|, k requires 0 <= k < |times| => TimeText(times[k]))
  }

  /** `LocalTime.parse` of every piece; None when any piece is not a time. */
  function ParseTimes(texts: seq<string>): (r: Option<seq<Minute>>)
    ensures r.Some? ==> |r.value| == |texts|
  {
    if texts == [] then Some([])
    else
      match (ParseTimes(texts[..|texts| - 1]), ParseTime(texts[|texts| - 1]))
      case (Some(ts), Some(t)) => Some(ts + [t])
      case _ => None
  }

  /** The field is the times joined by `;` with an empty piece after the last one. */
  lemma {:induction false} TimesFieldIsJoin(times: seq<Minute>)
    ensures TimesField(times) == Join(TimeTexts(times) + [""], ";")
  {
    if times != [] {
      TimesFieldIsJoin(times[1..]);
      var texts := TimeTexts(times[1..]) + [""];
      assert TimeTexts(times) + [""] == [TimeText(times[0])] + texts;
      assert ([TimeText(times[0])] + texts)[1..] == texts;
    }
  }

  lemma {:induction false} ParseTimeTexts(times: seq<Minute>)
    ensures ParseTimes(TimeTexts(times)) == Some(times)
  {
    if times != [] {
      var init := times[..|times| - 1];
      ParseTimeTexts(init);
      assert TimeTexts(times)[..|times| - 1] == TimeTexts(init);
      TimeTextRoundTrip(times[|times| - 1]);
      assert init + [times[|times| - 1]] == times;
    }
  }

  lemma TimesFieldLacksComma(times: seq<Minute>)
    ensures Lacks(TimesField(times), ',')
    ensures times != [] ==> TimesField(times) != ""
  {
    if times != [] {
      TimesFieldLacksComma(times[1..]);
      assert NumericText(TimeText(times[0]));
    }
  }

  /** Splitting the field on `;` gives the times back, when there is at least one. */
  lemma TimesRoundTrip(times: seq<Minute>)
    requires times != []
    ensures ParseTimes(Split(TimesField(times), ";")) == Some(times)
  {
    var texts := TimeTexts(times);
    TimesFieldIsJoin(times);
    forall k | 0 <= k < |texts + [""]| ensures Lacks((texts + [""])[k], ';') {
      if k < |texts| {
        assert NumericText(TimeText(times[k]));
      }
    }
    PiecesOfJoin(texts + [""], ';');
    assert DropTrailingEmpty(texts + [""]) == texts;
    ParseTimeTexts(times);
  }

  /** A medicine with no dose times is written with an empty field, which the
      reader cannot parse back. */
  lemma NoTimesUnreadable()
    ensures ParseTimes(Split(TimesField([]), ";")) == None
  {
    assert Split("", ";") == [""];
  }

  /** The line written by `Medicine.addMedicine` and by the two rewrites. */
  function Encode(m: Medicine): string
  {
    Join(Fields(m), ",")
  }

  /** How `getUserMedicines` reads a line; None stands for the exceptions the
      reader lets escape (a missing field, a bad number, time or date). */
  function Decode(line: string): Option<Medicine>
  {
    var data := Split(line, ",");
    if |data| < 8 then None
    else
      match (ParseInt32(data[3]), ParseTimes(Split(data[4], ";")),
             ParseDate(data[5]), ParseDate(data[6]), ParseDate(data[7]))
      case (Some(q), Some(ts), Some(s), Some(e), Some(x)) =>
        Some(Medicine(data[0], data[1], data[2], q, ts, s, e, x))
      case _ => None
  }

  function Fields(m: Medicine): seq<string>
  {
    [m.username, m.name, m.dosage, IntText(m.quantity), TimesField(m.times),
     DateText(m.startDate), DateText(m.endDate), DateText(m.expiryDate)]
  }

  lemma IntTextLacksComma(i: int)
    ensures Lacks(IntText(i), ',')
  {
    if i < 0 {
      DigitsLackComma(NatText(-i));
    } else {
      DigitsLackComma(NatText(i));
    }
  }

  lemma FieldsLackComma(m: Medicine)
    requires Lacks(m.username, ',') && Lacks(m.name, ',') && Lacks(m.dosage, ',')
    ensures forall k | 0 <= k < |Fields(m)| :: Lacks(Fields(m)[k], ',')
  {
    IntTextLacksComma(m.quantity);
    TimesFieldLacksComma(m.times);
    DigitsLackComma(DateText(m.startDate));
    DigitsLackComma(DateText(m.endDate));
    DigitsLackComma(DateText(m.expiryDate));
  }

  lemma EncodeSplits(m: Medicine)
    requires Lacks(m.username, ',') && Lacks(m.name, ',') && Lacks(m.dosage, ',')
    ensures Split(Encode(m), ",") == Fields(m)
  {
    FieldsLackComma(m);
    var fields := Fields(m);
    assert fields[|fields| - 1] == DateText(m.expiryDate) != "";
    SplitJoin(fields, ',');
  }

  /** A medicine with comma-free names and at least one dose time reads back
      as written. */
  lemma CodecRoundTrip(m: Medicine)
    requires Lacks(m.username, ',') && Lacks(m.name, ',') && Lacks(m.dosage, ',')
    requires m.times != []
    ensures Decode(Encode(m)) == Some(m)
  {
    EncodeSplits(m);
    var data := Fields(m);
    IntTextRoundTrip(m.quantity);
    TimesRoundTrip(m.times);
    DateTextRoundTrip(m.startDate);
    DateTextRoundTrip(m.endDate);
    DateTextRoundTrip(m.expiryDate);
    assert ParseInt32(data[3]) == Some(m.quantity);
    assert ParseTimes(Split(data[4], ";")) == Some(m.times);
    assert ParseDate(data[5]) == Some(m.startDate);
    assert ParseDate(data[6]) == Some(m.endDate);
    assert ParseDate(data[7]) == Some(m.expiryDate);
  }

  // ---------------------------------------------------------------------------
  // The rewrites

  /** The record of `name` owned by `user`: names match exactly, case included. */
  predicate Named(m: Medicine, user: string, name: string)
  {
    m.username == user && m.name == name
  }

  function OwnedBy(user: string): Medicine -> bool
  {
    (m: Medicine) => m.username == user
  }

  function NotNamed(user: string, name: string): Medicine -> bool
  {
    (m: Medicine) => !Named(m, user, name)
  }

  /** The text of the refill alert for a medicine. */
  function RefillMessage(name: string): string
  {
    "Refill needed for: " + name
  }

  /** The medicines after `updateMedicineStock(user, name, q)`: every matching
      record holds `q`, as given (no clamping), and nothing else changes. */
  function Restocked(ms: seq<Medicine>, user: string, name: string, q: Int32): (r: seq<Medicine>)
    ensures |r| == |ms|
    ensures forall k | 0 <= k < |ms| ::
              r[k].quantity == (if Named(ms[k], user, name) then q else ms[k].quantity) &&
              r[k].(quantity := 0) == ms[k].(quantity := 0)
  {
    seq(|ms|, k requires 0 <= k < |ms| =>
      if Named(ms[k], user, name) then ms[k].(quantity := q) else ms[k])
  }

  /** The user's records still name the same medicines after a stock update,
      with the matching ones at the new quantity. */
  lemma {:induction false} RestockedUserView(ms: seq<Medicine>, user: string, name: string, q: Int32)
    ensures |Filter(Restocked(ms, user, name, q), OwnedBy(user))| == |Filter(ms, OwnedBy(user))|
    ensures forall m | m in Filter(Restocked(ms, user, name, q), OwnedBy(user)) && m.name == name :: m.quantity == q
  {
    if ms != [] {
      var init := ms[..|ms| - 1];
      RestockedUserView(init, user, name, q);
      assert Restocked(ms, user, name, q)[..|init|] == Restocked(init, user, name, q);
    }
  }

  /** The medicines after `removeMedicine(user, name)`: the others, in order. */
  function Removed(ms: seq<Medicine>, user: string, name: string): (r: seq<Medicine>)
    ensures forall m :: m in r <==> m in ms && !Named(m, user, name)
    ensures |r| < |ms| <==> exists k | 0 <= k < |ms| :: Named(ms[k], user, name)
  {
    FilterKeepsAll(ms, NotNamed(user, name));
    FilterMembers(ms, NotNamed(user, name));
    Filter(ms, NotNamed(user, name))
  }

  /** Removing twice removes nothing more. */
  lemma RemoveIdempotent(ms: seq<Medicine>, user: string, name: string)
    ensures Removed(Removed(ms, user, name), user, name) == Removed(ms, user, name)
  {
    var r := Removed(ms, user, name);
    assert forall k | 0 <= k < |r| :: r[k] in r;
    FilterKeepsAll(r, NotNamed(user, name));
  }

  /** The medicine file. */
  class MedicineFile {
    var records: seq<Medicine>

    constructor ()
      ensures records == []
    {
      records := [];
    }

    /** `Medicine.addMedicine`: appends one record at the end. */
    method AddMedicine(m: Medicine)
      modifies this
      ensures records == old(records) + [m]
    {
      records := records + [m];
    }

    /** `Medicine.getUserMedicines`: the user's records in file order. */
    method GetUserMedicines(user: string) returns (r: seq<Medicine>)
      ensures r == Filter(records, OwnedBy(user))
    {
      r := [];
      var i := 0;
      while i < |records|
        invariant 0 <= i <= |records|
        invariant r == Filter(records[..i], OwnedBy(user))
      {
        FilterStep(records, i, OwnedBy(user));
        if records[i].username == user {
          r := r + [records[i]];
        }
        i := i + 1;
      }
      assert records[..i] == records;
    }

    /** `Medicine.updateMedicineStock`: sets the quantity of every matching
        record and, when `q` is zero or less, raises a refill alert whether or
        not any record matched. */
    method UpdateMedicineStock(notes: Notifications.NotificationFile, user: string, name: string, q: Int32)
      modifies this, notes
      ensures records == Restocked(old(records), user, name, q)
      ensures notes.records == if q <= 0 then AddRefill(old(notes.records), user, RefillMessage(name))
                               else old(notes.records)
    {
      var medicines: seq<Medicine> := [];
      var i := 0;
      while i < |records|
        invariant 0 <= i <= |records|
        invariant records == old(records)
        invariant medicines == Restocked(records[..i], user, name, q)
      {
        var m := records[i];
        if m.username == user && m.name == name {
          m := m.(quantity := q);
        }
        medicines := medicines + [m];
        i := i + 1;
      }
      assert records[..i] == records;
      if q <= 0 {
        AddRefillNotification(notes, user, RefillMessage(name));
      }
      records := medicines;
    }

    /** `Medicine.removeMedicine`: drops every matching record and reports
        whether there was one. Reminders of the medicine are left in place. */
    method RemoveMedicine(user: string, name: string) returns (removed: bool)
      modifies this
      ensures records == Removed(old(records), user, name)
      ensures removed <==> exists k | 0 <= k < |old(records)| :: Named(old(records)[k], user, name)
    {
      var medicines: seq<Medicine> := [];
      removed := false;
      var i := 0;
      while i < |records|
        invariant 0 <= i <= |records|
        invariant records == old(records)
        invariant medicines == Filter(records[..i], NotNamed(user, name))
        invariant removed <==> |medicines| < i
      {
        FilterStep(records, i, NotNamed(user, name));
        if records[i].username == user && records[i].name == name {
          removed := true;
        } else {
          medicines := medicines + [records[i]];
        }
        i := i + 1;
      }
      assert records[..i] == records;
      assert medicines == Removed(records, user, name);
      records := medicines;
    }
  }
}
