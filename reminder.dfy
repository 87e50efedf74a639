/** Reminders and the reminder file: records
    `username,medicineName,HH:mm,<date>,taken`, the expansion of a medicine's
    dose times over its date window into reminders, marking a dose taken, and
    finding the next untaken dose. */
module Reminders {
  import opened Lang
  import opened Strings
  import opened Clock
  import Medicines

  datatype Reminder = Reminder(username: string, medicineName: string, time: Minute, date: Day, taken: bool)

  function SlotOf(r: Reminder): Slot
  {
    Slot(r.date, r.time)
  }

  // ---------------------------------------------------------------------------
  // Record format

  /** The line written by `Reminder.addReminder`. */
  function Encode(r: Reminder): string
  {
    Join([r.username, r.medicineName, TimeText(r.time), DateText(r.date), BoolText(r.taken)], ",")
  }

  /** How `getRemindersByMedicine` reads a line back; None stands for the
      exceptions it lets escape (a missing field, a bad time or date). */
  function Decode(line: string): Option<Reminder>
  {
    var data := Split(line, ",");
    if |data| < 5 then None
    else
      match (ParseTime(data[2]), ParseDate(data[3]))
      case (Some(t), Some(d)) => Some(Reminder(data[0], data[1], t, d, ParseBool(data[4])))
      case _ => None
  }

  lemma EncodeSplits(r: Reminder)
    requires Lacks(r.username, ',') && Lacks(r.medicineName, ',')
    ensures Split(Encode(r), ",") == [r.username, r.medicineName, TimeText(r.time), DateText(r.date), BoolText(r.taken)]
  {
    assert NumericText(TimeText(r.time));
    DigitsLackComma(DateText(r.date));
    assert Lacks(BoolText(r.taken), ',');
    SplitJoin([r.username, r.medicineName, TimeText(r.time), DateText(r.date), BoolText(r.taken)], ',');
  }

  /** A reminder with comma-free names reads back as written. */
  lemma CodecRoundTrip(r: Reminder)
    requires Lacks(r.username, ',') && Lacks(r.medicineName, ',')
    ensures Decode(Encode(r)) == Some(r)
  {
    EncodeSplits(r);
    TimeTextRoundTrip(r.time);
    DateTextRoundTrip(r.date);
    BoolTextRoundTrip(r.taken);
  }

  // ---------------------------------------------------------------------------
  // Marking a dose taken

  /** The reminder of `name` owned by `user` at this date and time. */
  predicate Scheduled(r: Reminder, user: string, name: string, date: Day, time: Minute)
  {
    r.username == user && r.medicineName == name && r.date == date && r.time == time
  }

  /** The reminders after `markReminderAsTaken(user, name, date, time)`: every
      matching record is taken, already-taken or not; nothing else changes. */
  function MarkTaken(rs: seq<Reminder>, user: string, name: string, date: Day, time: Minute): (r: seq<Reminder>)
    ensures |r| == |rs|
    ensures forall k | 0 <= k < |rs| ::
              r[k].taken == (rs[k].taken || Scheduled(rs[k], user, name, date, time)) &&
              r[k].(taken := false) == rs[k].(taken := false)
  {
    seq(|rs|, k requires 0 <= k < |rs| =>
      if Scheduled(rs[k], user, name, date, time) then rs[k].(taken := true) else rs[k])
  }

  /** When nothing matches, the collection is as it was (the source then
      skips the rewrite altogether). */
  lemma MarkTakenUnmatched(rs: seq<Reminder>, user: string, name: string, date: Day, time: Minute)
    requires forall k | 0 <= k < |rs| :: !Scheduled(rs[k], user, name, date, time)
    ensures MarkTaken(rs, user, name, date, time) == rs
  {
    var r := MarkTaken(rs, user, name, date, time);
    forall k | 0 <= k < |rs| ensures r[k] == rs[k] {
      assert r[k].(taken := false) == rs[k].(taken := false);
    }
  }

  lemma MarkTakenIdempotent(rs: seq<Reminder>, user: string, name: string, date: Day, time: Minute)
    ensures MarkTaken(MarkTaken(rs, user, name, date, time), user, name, date, time) == MarkTaken(rs, user, name, date, time)
  {
  }

  /** The line rewrite of `markReminderAsTaken`, which compares the time and
      date fields as text. */
  function MarkLine(line: string, user: string, name: string, date: Day, time: Minute): string
  {
    var data := Split(line, ",");
    if |data| >= 4 && data[0] == user && data[1] == name && data[3] == DateText(date) && data[2] == TimeText(time)
    then Join([data[0], data[1], data[2], data[3], "true"], ",")
    else line
  }

  /** Comparing the text fields is comparing the date and the time: the line
      rewrite is the record rewrite. */
  lemma MarkLineAgrees(r: Reminder, user: string, name: string, date: Day, time: Minute)
    requires Lacks(r.username, ',') && Lacks(r.medicineName, ',')
    ensures MarkLine(Encode(r), user, name, date, time) == Encode(MarkTaken([r], user, name, date, time)[0])
  {
    EncodeSplits(r);
    TimeTextRoundTrip(r.time);
    TimeTextRoundTrip(time);
    DateTextRoundTrip(r.date);
    DateTextRoundTrip(date);
  }

  // ---------------------------------------------------------------------------
  // Schedule generation

  /** The reminders of one medicine of one user. */
  function Of(user: string, name: string): Reminder -> bool
  {
    (r: Reminder) => r.username == user && r.medicineName == name
  }

  /** The (date, time) slots the medicine already has reminders at. */
  function Existing(rs: seq<Reminder>, user: string, name: string): set<Slot>
  {
    set r | r in Filter(rs, Of(user, name)) :: SlotOf(r)
  }

  function Absent(existing: set<Slot>): Reminder -> bool
  {
    (r: Reminder) => SlotOf(r) !in existing
  }

  /** The number of dates from `start` to `end`, both included. */
  function Days(start: Day, end: Day): nat
  {
    if start <= end then end - start + 1 else 0
  }

  /** What the date loop proposes for one dose time: one untaken reminder per
      date from `start` to `last`, in date order. */
  function DayRun(user: string, name: string, time: Minute, start: Day, last: int): (r: seq<Reminder>)
    ensures |r| == if start <= last then last - start + 1 else 0
    decreases last - start
  {
    if last < start then []
    else DayRun(user, name, time, start, last - 1) + [Reminder(user, name, time, last, false)]
  }

  /** The k-th proposal of a run falls k days after its start. */
  lemma {:induction false} DayRunAt(user: string, name: string, time: Minute, start: Day, last: int, k: nat)
    requires k < |DayRun(user, name, time, start, last)|
    ensures DayRun(user, name, time, start, last)[k] == Reminder(user, name, time, start + k, false)
    decreases last - start
  {
    if k < |DayRun(user, name, time, start, last - 1)| {
      DayRunAt(user, name, time, start, last - 1, k);
    }
  }

  lemma DayRunMembers(user: string, name: string, time: Minute, start: Day, last: int, x: Reminder)
    ensures x in DayRun(user, name, time, start, last) <==>
              x == Reminder(user, name, time, x.date, false) && start <= x.date <= last
  {
    var run := DayRun(user, name, time, start, last);
    if x in run {
      var k :| 0 <= k < |run| && run[k] == x;
      DayRunAt(user, name, time, start, last, k);
    }
    if x == Reminder(user, name, time, x.date, false) && start <= x.date <= last {
      DayRunAt(user, name, time, start, last, x.date - start);
    }
  }

  lemma DayRunDistinct(user: string, name: string, time: Minute, start: Day, last: int)
    ensures Distinct(DayRun(user, name, time, start, last))
  {
    var run := DayRun(user, name, time, start, last);
    forall i, j | 0 <= i < j < |run| ensures run[i] != run[j] {
      DayRunAt(user, name, time, start, last, i);
      DayRunAt(user, name, time, start, last, j);
    }
  }

  /** Every proposal of `generateMedicineSchedule`: for each dose time in
      turn, every date of the window. */
  function Candidates(user: string, name: string, times: seq<Minute>, start: Day, end: Day): (r: seq<Reminder>)
  {
    if times == [] then []
    else Candidates(user, name, times[..|times| - 1], start, end) + DayRun(user, name, times[|times| - 1], start, end)
  }

  /** One proposal per dose time and date. */
  lemma {:induction false} CandidatesCount(user: string, name: string, times: seq<Minute>, start: Day, end: Day)
    ensures |Candidates(user, name, times, start, end)| == |times| * Days(start, end)
  {
    if times != [] {
      var init := times[..|times| - 1];
      CandidatesCount(user, name, init, start, end);
      assert |times| * Days(start, end) == |init| * Days(start, end) + Days(start, end);
    }
  }

  lemma {:induction false} CandidatesMembers(user: string, name: string, times: seq<Minute>, start: Day, end: Day, x: Reminder)
    ensures x in Candidates(user, name, times, start, end) <==>
              x == Reminder(user, name, x.time, x.date, false) && x.time in times && start <= x.date <= end
  {
    if times != [] {
      var init := times[..|times| - 1];
      CandidatesMembers(user, name, init, start, end, x);
      DayRunMembers(user, name, times[|times| - 1], start, end, x);
      assert times == init + [times[|times| - 1]];
    }
  }

  /** With distinct dose times no proposal is made twice. */
  lemma {:induction false} CandidatesDistinct(user: string, name: string, times: seq<Minute>, start: Day, end: Day)
    requires Distinct(times)
    ensures Distinct(Candidates(user, name, times, start, end))
  {
    if times != [] {
      var init := times[..|times| - 1];
      var last := times[|times| - 1];
      assert Distinct(init);
      CandidatesDistinct(user, name, init, start, end);
      DayRunDistinct(user, name, last, start, end);
      var a := Candidates(user, name, init, start, end);
      var b := DayRun(user, name, last, start, end);
      forall i, j | 0 <= i < |a| && 0 <= j < |b| ensures a[i] != b[j] {
        CandidatesMembers(user, name, init, start, end, a[i]);
        DayRunMembers(user, name, last, start, end, b[j]);
        assert last !in init;
      }
      forall i, j | 0 <= i < j < |a + b| ensures (a + b)[i] != (a + b)[j] {
        if j < |a| {
        } else if i >= |a| {
          assert (a + b)[i] == b[i - |a|] && (a + b)[j] == b[j - |a|];
        } else {
          assert (a + b)[j] == b[j - |a|];
        }
      }
    }
  }

  /** What `generateMedicineSchedule` reports. */
  datatype Generation = NotFound | Generated(added: nat, skipped: nat)

  function Matching(user: string, name: string): Medicines.Medicine -> bool
  {
    (m: Medicines.Medicine) => Medicines.Named(m, user, name)
  }

  /** The reminders and the report after `generateMedicineSchedule(user, name)`
      over medicines `ms`: the first matching medicine's proposals whose slot
      is not already taken by one of its reminders are appended, in proposal
      order; the rest are counted as skipped. */
  function Generate(rs: seq<Reminder>, ms: seq<Medicines.Medicine>, user: string, name: string): (r: (seq<Reminder>, Generation))
    ensures r.1.NotFound? <==> forall k | 0 <= k < |ms| :: !Medicines.Named(ms[k], user, name)
    ensures r.1.NotFound? ==> r.0 == rs
    ensures r.1.Generated? ==> |r.0| == |rs| + r.1.added && r.0[..|rs|] == rs
  {
    match First(ms, Matching(user, name))
    case None => (rs, NotFound)
    case Some(m) =>
      var proposals := Candidates(user, name, m.times, m.startDate, m.endDate);
      var novel := Filter(proposals, Absent(Existing(rs, user, name)));
      assert (rs + novel)[..|rs|] == rs;
      (rs + novel, Generated(|novel|, |proposals| - |novel|))
  }

  /** The medicine generation works from: the first record matching the user and the name. */
  function Source(ms: seq<Medicines.Medicine>, user: string, name: string): Medicines.Medicine
    requires exists k | 0 <= k < |ms| :: Medicines.Named(ms[k], user, name)
  {
    First(ms, Matching(user, name)).value
  }

  /** Added and skipped together are one per dose time and date of the window;
      nothing at all when the window is empty. */
  lemma GenerateCount(rs: seq<Reminder>, ms: seq<Medicines.Medicine>, user: string, name: string)
    requires exists k | 0 <= k < |ms| :: Medicines.Named(ms[k], user, name)
    ensures Generate(rs, ms, user, name).1.added + Generate(rs, ms, user, name).1.skipped
              == |Source(ms, user, name).times| * Days(Source(ms, user, name).startDate, Source(ms, user, name).endDate)
  {
    var m := Source(ms, user, name);
    CandidatesCount(user, name, m.times, m.startDate, m.endDate);
  }

  /** The appended reminders are exactly the untaken reminders of the
      medicine at one of its dose times on a date of its window, whose slot
      had no reminder of the medicine yet. */
  lemma GenerateMembers(rs: seq<Reminder>, ms: seq<Medicines.Medicine>, user: string, name: string, x: Reminder)
    requires exists k | 0 <= k < |ms| :: Medicines.Named(ms[k], user, name)
    ensures var m := Source(ms, user, name);
            x in Generate(rs, ms, user, name).0[|rs|..] <==>
              x.username == user && x.medicineName == name && !x.taken &&
              x.time in m.times && m.startDate <= x.date <= m.endDate && SlotOf(x) !in Existing(rs, user, name)
  {
    var m := Source(ms, user, name);
    CandidatesMembers(user, name, m.times, m.startDate, m.endDate, x);
    var proposals := Candidates(user, name, m.times, m.startDate, m.endDate);
    var novel := Filter(proposals, Absent(Existing(rs, user, name)));
    FilterMembers(proposals, Absent(Existing(rs, user, name)));
    assert Generate(rs, ms, user, name).0[|rs|..] == novel;
  }

  /** Generating a second time with nothing changed in between appends
      nothing: every proposal now has a reminder at its slot. */
  lemma GenerateIdempotent(rs: seq<Reminder>, ms: seq<Medicines.Medicine>, user: string, name: string)
    ensures Generate(Generate(rs, ms, user, name).0, ms, user, name).0 == Generate(rs, ms, user, name).0
  {
    var once := Generate(rs, ms, user, name).0;
    match First(ms, Matching(user, name))
    case None =>
    case Some(m) =>
      var proposals := Candidates(user, name, m.times, m.startDate, m.endDate);
      var novel := Filter(proposals, Absent(Existing(rs, user, name)));
      assert once == rs + novel;
      FilterMembers(proposals, Absent(Existing(rs, user, name)));
      FilterMembers(rs, Of(user, name));
      FilterMembers(once, Of(user, name));
      forall x | x in proposals
        ensures !Absent(Existing(once, user, name))(x)
      {
        CandidatesMembers(user, name, m.times, m.startDate, m.endDate, x);
        assert Of(user, name)(x);
        if x in novel {
          assert x in once;
        } else {
          var y :| y in Filter(rs, Of(user, name)) && SlotOf(y) == SlotOf(x);
          assert y in once;
        }
      }
      FilterNone(proposals, Absent(Existing(once, user, name)));
      assert once + [] == once;
  }

  /** No two reminders of one medicine of one user fall at the same slot. */
  predicate NoDuplicateReminders(rs: seq<Reminder>)
  {
    forall i, j | 0 <= i < j < |rs| ::
      !(rs[i].username == rs[j].username && rs[i].medicineName == rs[j].medicineName && SlotOf(rs[i]) == SlotOf(rs[j]))
  }

  /** With distinct dose times, generation creates no duplicate reminder. */
  lemma GenerateNoDuplicates(rs: seq<Reminder>, ms: seq<Medicines.Medicine>, user: string, name: string)
    requires NoDuplicateReminders(rs)
    requires exists k | 0 <= k < |ms| :: Medicines.Named(ms[k], user, name)
    requires Distinct(Source(ms, user, name).times)
    ensures NoDuplicateReminders(Generate(rs, ms, user, name).0)
  {
    var m := Source(ms, user, name);
    var proposals := Candidates(user, name, m.times, m.startDate, m.endDate);
    var existing := Existing(rs, user, name);
    var novel := Filter(proposals, Absent(existing));
    var r := rs + novel;
    assert Generate(rs, ms, user, name).0 == r;
    CandidatesDistinct(user, name, m.times, m.startDate, m.endDate);
    FilterDistinct(proposals, Absent(existing));
    FilterMembers(proposals, Absent(existing));
    FilterMembers(rs, Of(user, name));
    forall i, j | 0 <= i < j < |r|
      ensures !(r[i].username == r[j].username && r[i].medicineName == r[j].medicineName && SlotOf(r[i]) == SlotOf(r[j]))
    {
      if j >= |rs| {
        var y := novel[j - |rs|];
        assert r[j] == y && y in novel;
        CandidatesMembers(user, name, m.times, m.startDate, m.endDate, y);
        if i >= |rs| {
          var x := novel[i - |rs|];
          assert r[i] == x && x in novel && x != y;
          CandidatesMembers(user, name, m.times, m.startDate, m.endDate, x);
        } else if r[i].username == user && r[i].medicineName == name {
          assert r[i] in Filter(rs, Of(user, name));
          assert SlotOf(r[i]) in existing;
        }
      }
    }
  }

  /** A dose time listed twice yields two identical reminders in one run. */
  lemma RepeatedTimeDuplicates(user: string, name: string, dosage: string, q: Int32, t: Minute, d: Day, expiry: Day)
    ensures Generate([], [Medicines.Medicine(user, name, dosage, q, [t, t], d, d, expiry)], user, name)
              == ([Reminder(user, name, t, d, false), Reminder(user, name, t, d, false)], Generated(2, 0))
  {
    var m := Medicines.Medicine(user, name, dosage, q, [t, t], d, d, expiry);
    var x := Reminder(user, name, t, d, false);
    assert First([m], Matching(user, name)) == Some(m);
    assert DayRun(user, name, t, d, d - 1) == [];
    assert DayRun(user, name, t, d, d) == [x];
    assert [t, t][..1] == [t];
    assert Candidates(user, name, [t], d, d) == [x];
    assert Candidates(user, name, [t, t], d, d) == [x, x];
    assert Existing([], user, name) == {};
    assert [x, x][..1] == [x];
    assert Filter([x], Absent({})) == [x];
  }


  // ---------------------------------------------------------------------------
  // Ordering by (date, time)

  predicate Le(x: Reminder, y: Reminder)
  {
    SlotLe(SlotOf(x), SlotOf(y))
  }

  predicate SortedBySlot(s: seq<Reminder>)
  {
    forall i, j | 0 <= i < j < |s| :: Le(s[i], s[j])
  }

  /** Exchanges `a[j - 1]` and `a[j]`. */
  method SwapDown(a: array<Reminder>, j: int)
    requires 0 < j < a.Length
    modifies a
    ensures a[j - 1] == old(a[j]) && a[j] == old(a[j - 1])
    ensures forall k | 0 <= k < a.Length && k != j - 1 && k != j :: a[k] == old(a[k])
    ensures multiset(a[..]) == old(multiset(a[..]))
  {
    a[j - 1], a[j] := a[j], a[j - 1];
  }

  /** One insertion step: moves `a[i]` down past every later slot, so that
      the sorted prefix grows by one. */
  method Sink(a: array<Reminder>, i: int)
    requires 0 < i < a.Length
    requires forall p, q | 0 <= p < q < i :: Le(a[p], a[q])
    modifies a
    ensures forall p, q | 0 <= p < q <= i :: Le(a[p], a[q])
    ensures multiset(a[..]) == old(multiset(a[..]))
  {
    var j := i;
    while j > 0 && !Le(a[j - 1], a[j])
      invariant 0 <= j <= i
      invariant multiset(a[..]) == old(multiset(a[..]))
      invariant forall p, q | 0 <= p < q <= i && p != j && q != j :: Le(a[p], a[q])
      invariant forall q | j < q <= i :: Le(a[j], a[q])
    {
      SwapDown(a, j);
      j := j - 1;
    }
  }

  /** The in-place sort of `viewReminders` and `getNextDoseDateTime`: by date,
      then by time. */
  method SortBySlot(a: array<Reminder>)
    modifies a
    ensures SortedBySlot(a[..])
    ensures multiset(a[..]) == multiset(old(a[..]))
  {
    var i := 1;
    while i < a.Length
      invariant a.Length == 0 || 1 <= i <= a.Length
      invariant forall p, q | 0 <= p < q < i && q < a.Length :: Le(a[p], a[q])
      invariant multiset(a[..]) == multiset(old(a[..]))
    {
      Sink(a, i);
      i := i + 1;
    }
  }

  /** The medicine's reminders as a sorted list, as the source sorts its list
      in place. */
  method SortedReminders(mine: seq<Reminder>) returns (s: seq<Reminder>)
    ensures SortedBySlot(s) && multiset(s) == multiset(mine)
    ensures forall r :: r in s <==> r in mine
  {
    var a := new Reminder[|mine|](k requires 0 <= k < |mine| => mine[k]);
    assert a[..] == mine;
    SortBySlot(a);
    s := a[..];
    assert forall r :: r in s <==> r in multiset(s);
    assert forall r :: r in mine <==> r in multiset(mine);
  }

  // ---------------------------------------------------------------------------
  // The generation loop, step by step

  /** One more dose time proposes its whole date run after the earlier ones. */
  lemma CandidatesStep(user: string, name: string, times: seq<Minute>, t: nat, start: Day, end: Day, existing: set<Slot>)
    requires t < |times|
    ensures Filter(Candidates(user, name, times[..t + 1], start, end), Absent(existing))
              == Filter(Candidates(user, name, times[..t], start, end), Absent(existing))
                 + Filter(DayRun(user, name, times[t], start, end), Absent(existing))
    ensures |Candidates(user, name, times[..t + 1], start, end)|
              == |Candidates(user, name, times[..t], start, end)| + Days(start, end)
  {
    assert times[..t + 1][..t] == times[..t] && times[..t + 1][t] == times[t];
    FilterAppend(Candidates(user, name, times[..t], start, end), DayRun(user, name, times[t], start, end), Absent(existing));
  }

  /** One more date of a run keeps one more reminder exactly when its slot is absent. */
  lemma KeptStep(user: string, name: string, time: Minute, start: Day, d: int, existing: set<Slot>)
    requires start <= d
    ensures Filter(DayRun(user, name, time, start, d), Absent(existing))
              == Filter(DayRun(user, name, time, start, d - 1), Absent(existing))
                 + if Slot(d, time) !in existing then [Reminder(user, name, time, d, false)] else []
  {
    var reminder := Reminder(user, name, time, d, false);
    FilterAppend(DayRun(user, name, time, start, d - 1), [reminder], Absent(existing));
    assert Filter([reminder], Absent(existing)) == Filter([], Absent(existing)) + if Absent(existing)(reminder) then [reminder] else [];
  }

  /** The search of the medicine file for the first matching record. */
  method FindMedicine(ms: seq<Medicines.Medicine>, user: string, name: string) returns (found: Option<Medicines.Medicine>)
    ensures found == First(ms, Matching(user, name))
  {
    var n := 0;
    while n < |ms| && !(ms[n].username == user && ms[n].name == name)
      invariant 0 <= n <= |ms|
      invariant forall k | 0 <= k < n :: !Medicines.Named(ms[k], user, name)
    {
      n := n + 1;
    }
    if n == |ms| {
      return None;
    }
    found := Some(ms[n]);
  }

  /** The `existingDateTimeSet` built from the medicine's reminders. */
  method SlotSet(mine: seq<Reminder>) returns (existing: set<Slot>)
    ensures existing == set r | r in mine :: SlotOf(r)
  {
    existing := {};
    var e := 0;
    while e < |mine|
      invariant 0 <= e <= |mine|
      invariant existing == set r | r in mine[..e] :: SlotOf(r)
    {
      assert mine[..e + 1] == mine[..e] + [mine[e]];
      existing := existing + {SlotOf(mine[e])};
      e := e + 1;
    }
    assert mine[..e] == mine;
  }

  /** The reminder file. */
  class ReminderFile {
    var records: seq<Reminder>

    constructor ()
      ensures records == []
    {
      records := [];
    }

    /** `Reminder.addReminder`: appends one record at the end. */
    method AddReminder(r: Reminder)
      modifies this
      ensures records == old(records) + [r]
    {
      records := records + [r];
    }

    /** `Reminder.getRemindersByMedicine`: the medicine's reminders in file order. */
    method GetRemindersByMedicine(user: string, name: string) returns (r: seq<Reminder>)
      ensures r == Filter(records, Of(user, name))
    {
      r := [];
      var i := 0;
      while i < |records|
        invariant 0 <= i <= |records|
        invariant r == Filter(records[..i], Of(user, name))
      {
        FilterStep(records, i, Of(user, name));
        if records[i].username == user && records[i].medicineName == name {
          r := r + [records[i]];
        }
        i := i + 1;
      }
      assert records[..i] == records;
    }

    /** `Reminder.markReminderAsTaken`: reports whether a record matched. */
    method MarkReminderAsTaken(user: string, name: string, date: Day, time: Minute) returns (found: bool)
      modifies this
      ensures records == MarkTaken(old(records), user, name, date, time)
      ensures found <==> exists k | 0 <= k < |old(records)| :: Scheduled(old(records)[k], user, name, date, time)
    {
      var lines: seq<Reminder> := [];
      found := false;
      var i := 0;
      while i < |records|
        invariant 0 <= i <= |records| && records == old(records)
        invariant lines == MarkTaken(records[..i], user, name, date, time)
        invariant found <==> exists k | 0 <= k < i :: Scheduled(records[k], user, name, date, time)
      {
        var r := records[i];
        if r.username == user && r.medicineName == name && r.date == date && r.time == time {
          lines := lines + [r.(taken := true)];
          found := true;
        } else {
          lines := lines + [r];
        }
        i := i + 1;
      }
      assert records[..i] == records;
      if found {
        records := lines;
      } else {
        MarkTakenUnmatched(records, user, name, date, time);
      }
    }


    /** `Reminder.getNextDoseDateTime`: the earliest slot among the
        medicine's untaken reminders, or None when it has none. */
    method GetNextDoseDateTime(user: string, name: string) returns (next: Option<Slot>)
      ensures next.None? <==> forall r | r in records && Of(user, name)(r) :: r.taken
      ensures next.Some? ==> exists r | r in records && Of(user, name)(r) && !r.taken :: SlotOf(r) == next.value
      ensures next.Some? ==> forall r | r in records && Of(user, name)(r) && !r.taken :: SlotLe(next.value, SlotOf(r))
    {
      var mine := GetRemindersByMedicine(user, name);
      FilterMembers(records, Of(user, name));
      var s := SortedReminders(mine);
      var i := 0;
      while i < |s|
        invariant 0 <= i <= |s|
        invariant forall k | 0 <= k < i :: s[k].taken
      {
        if !s[i].taken {
          next := Some(SlotOf(s[i]));
          assert s[i] in mine;
          forall r | r in records && Of(user, name)(r) && !r.taken
            ensures SlotLe(next.value, SlotOf(r))
          {
            assert r in s;
            var k :| 0 <= k < |s| && s[k] == r;
          }
          return;
        }
        i := i + 1;
      }
      next := None;
      forall r | r in records && Of(user, name)(r)
        ensures r.taken
      {
        assert r in s;
        var k :| 0 <= k < |s| && s[k] == r;
      }
    }

    /** The date loop for one dose time: appends each proposal whose slot is
        not in `existing` and counts the others as skipped. */
    method AddDayRun(user: string, name: string, time: Minute, start: Day, end: Day, existing: set<Slot>)
      returns (added: nat, skipped: nat)
      modifies this
      ensures records == old(records) + Filter(DayRun(user, name, time, start, end), Absent(existing))
      ensures added == |Filter(DayRun(user, name, time, start, end), Absent(existing))|
      ensures added + skipped == Days(start, end)
    {
      added, skipped := 0, 0;
      var d: int := start;
      while d <= end
        invariant start <= d && (d <= end + 1 || d == start)
        invariant records == old(records) + Filter(DayRun(user, name, time, start, d - 1), Absent(existing))
        invariant added == |records| - |old(records)| && added + skipped == d - start
      {
        var reminder := Reminder(user, name, time, d, false);
        ghost var kept := Filter(DayRun(user, name, time, start, d - 1), Absent(existing));
        KeptStep(user, name, time, start, d, existing);
        var fits := AddIfAbsent(reminder, existing);
        AppendAssociates(old(records), kept, if fits then [reminder] else []);
        if fits {
          added := added + 1;
        } else {
          skipped := skipped + 1;
        }
        d := d + 1;
      }
      if end < start {
        assert DayRun(user, name, time, start, end) == [] == DayRun(user, name, time, start, d - 1);
      }
    }

    /** One step of the date loop: the proposal is appended unless its slot is taken. */
    method AddIfAbsent(reminder: Reminder, existing: set<Slot>) returns (fits: bool)
      modifies this
      ensures fits <==> SlotOf(reminder) !in existing
      ensures records == old(records) + if fits then [reminder] else []
    {
      fits := SlotOf(reminder) !in existing;
      if fits {
        AddReminder(reminder);
      }
    }

    /** The loop over dose times, each with its date loop. */
    method AddSchedule(user: string, name: string, times: seq<Minute>, start: Day, end: Day, existing: set<Slot>)
      returns (added: nat, skipped: nat)
      modifies this
      ensures records == old(records) + Filter(Candidates(user, name, times, start, end), Absent(existing))
      ensures added == |Filter(Candidates(user, name, times, start, end), Absent(existing))|
      ensures added + skipped == |Candidates(user, name, times, start, end)|
    {
      added, skipped := 0, 0;
      var t := 0;
      ghost var kept: seq<Reminder> := [];
      while t < |times|
        invariant 0 <= t <= |times|
        invariant kept == Filter(Candidates(user, name, times[..t], start, end), Absent(existing))
        invariant records == old(records) + kept
        invariant added == |kept|
        invariant added + skipped == |Candidates(user, name, times[..t], start, end)|
      {
        CandidatesStep(user, name, times, t, start, end, existing);
        ghost var step := Filter(DayRun(user, name, times[t], start, end), Absent(existing));
        var more, fewer := AddDayRun(user, name, times[t], start, end, existing);
        AppendAssociates(old(records), kept, step);
        kept := kept + step;
        added, skipped := added + more, skipped + fewer;
        t := t + 1;
      }
      assert times[..t] == times;
    }

    /** `Reminder.generateMedicineSchedule`: reads the medicine file, appends
        the new reminders one by one and reports the two counters. */
    method GenerateMedicineSchedule(meds: Medicines.MedicineFile, user: string, name: string) returns (outcome: Generation)
      modifies this
      ensures (records, outcome) == Generate(old(records), meds.records, user, name)
    {
      var found := FindMedicine(meds.records, user, name);
      if found.None? {
        return NotFound;
      }
      var m := found.value;
      var mine := GetRemindersByMedicine(user, name);
      var existing := SlotSet(mine);
      assert existing == Existing(records, user, name);
      var added, skipped := AddSchedule(user, name, m.times, m.startDate, m.endDate, existing);
      outcome := Generated(added, skipped);
    }
  }
}
