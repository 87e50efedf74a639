/** The dose-history file: an append-only sequence of CSV lines, and the two
    queries that read it back through `DoseHistory.fromCSV`. */
module DoseHistoryManager {
  import opened Lang
  import opened Strings
  import opened Clock
  import opened DoseHistories

  /** Which entries a query keeps: the user's, and with `medicine` given, only
      those of that medicine. */
  predicate Wanted(h: DoseHistory, user: string, medicine: Option<string>)
  {
    h.username == user && (medicine.None? || h.medicineName == medicine.value)
  }

  /** What a query over `lines` returns: the wanted entries in file order,
      skipping lines `fromCSV` rejects; None when some line has three fields
      but an unreadable timestamp, since that exception escapes the query. */
  function ReadHistory(lines: seq<string>, user: string, medicine: Option<string>): Option<seq<DoseHistory>>
  {
    if lines == [] then Some([])
    else
      match ReadHistory(lines[..|lines| - 1], user, medicine)
      case None => None
      case Some(acc) =>
        match FromCsv(lines[|lines| - 1])
        case Unparsable => None
        case Rejected => Some(acc)
        case Parsed(h) => Some(if Wanted(h, user, medicine) then acc + [h] else acc)
  }

  /** A query result holds only wanted entries, each read from some line. */
  lemma {:induction false} ReadHistorySound(lines: seq<string>, user: string, medicine: Option<string>)
    requires ReadHistory(lines, user, medicine).Some?
    ensures forall h | h in ReadHistory(lines, user, medicine).value ::
              Wanted(h, user, medicine) && exists line | line in lines :: FromCsv(line) == Parsed(h)
  {
    if lines != [] {
      var init := lines[..|lines| - 1];
      ReadHistorySound(init, user, medicine);
      forall h | h in ReadHistory(lines, user, medicine).value
        ensures Wanted(h, user, medicine) && exists line | line in lines :: FromCsv(line) == Parsed(h)
      {
        if h in ReadHistory(init, user, medicine).value {
          var line :| line in init && FromCsv(line) == Parsed(h);
          assert line in lines;
        } else {
          assert FromCsv(lines[|lines| - 1]) == Parsed(h);
        }
      }
    }
  }

  /** Once a prefix of the file fails to read, the whole query fails. */
  lemma {:induction false} ReadHistoryFailurePersists(lines: seq<string>, i: nat, user: string, medicine: Option<string>)
    requires i <= |lines|
    requires ReadHistory(lines[..i], user, medicine).None?
    ensures ReadHistory(lines, user, medicine).None?
    decreases |lines| - i
  {
    if i < |lines| {
      assert lines[..i + 1][..i] == lines[..i];
      ReadHistoryFailurePersists(lines, i + 1, user, medicine);
    } else {
      assert lines[..i] == lines;
    }
  }

  function OfMedicine(medicine: string): DoseHistory -> bool
  {
    (h: DoseHistory) => h.medicineName == medicine
  }

  /** `getDoseHistoryByMedicine` returns the part of `getDoseHistoryByUser`
      that concerns the medicine, in the same order, and fails exactly when it does. */
  lemma {:induction false} ByMedicineRefinesByUser(lines: seq<string>, user: string, medicine: string)
    ensures ReadHistory(lines, user, Some(medicine)).None? <==> ReadHistory(lines, user, None).None?
    ensures ReadHistory(lines, user, None).Some? ==>
              ReadHistory(lines, user, Some(medicine)).value == Filter(ReadHistory(lines, user, None).value, OfMedicine(medicine))
  {
    if lines != [] {
      ByMedicineRefinesByUser(lines[..|lines| - 1], user, medicine);
      var p := OfMedicine(medicine);
      match ReadHistory(lines[..|lines| - 1], user, None)
      case None =>
      case Some(acc) =>
        match FromCsv(lines[|lines| - 1])
        case Unparsable =>
        case Rejected =>
        case Parsed(h) =>
          if Wanted(h, user, None) {
            assert (acc + [h])[..|acc|] == acc;
          }
    }
  }

  /** After `addDoseHistory(h)` the user's history is what it was, followed by
      `h` with its timestamp cut to whole seconds. */
  lemma AddThenRead(lines: seq<string>, h: DoseHistory)
    requires Lacks(h.username, ',') && Lacks(h.medicineName, ',')
    ensures ReadHistory(lines + [ToCsv(h)], h.username, None) ==
              match ReadHistory(lines, h.username, None)
              case None => None
              case Some(hs) => Some(hs + [h.(doseTime := Truncated(h.doseTime))])
  {
    CsvRoundTrip(h);
    assert (lines + [ToCsv(h)])[..|lines|] == lines;
  }

  /** The dose-history file. */
  class HistoryFile {
    var lines: seq<string>

    constructor ()
      ensures lines == []
    {
      lines := [];
    }

    /** `DoseHistoryManager.addDoseHistory`: appends one line. */
    method AddDoseHistory(h: DoseHistory)
      modifies this
      ensures lines == old(lines) + [ToCsv(h)]
    {
      lines := lines + [ToCsv(h)];
    }

    /** The read loop shared by both queries. */
    method Read(user: string, medicine: Option<string>) returns (r: Option<seq<DoseHistory>>)
      ensures r == ReadHistory(lines, user, medicine)
    {
      var acc: seq<DoseHistory> := [];
      var i := 0;
      while i < |lines|
        invariant 0 <= i <= |lines|
        invariant ReadHistory(lines[..i], user, medicine) == Some(acc)
      {
        assert lines[..i + 1][..i] == lines[..i];
        var read := FromCsv(lines[i]);
        if read.Unparsable? {
          ReadHistoryFailurePersists(lines, i + 1, user, medicine);
          return None;
        }
        if read.Parsed? && Wanted(read.entry, user, medicine) {
          acc := acc + [read.entry];
        }
        i := i + 1;
      }
      assert lines[..i] == lines;
      r := Some(acc);
    }

    /** `DoseHistoryManager.getDoseHistoryByUser`. */
    method GetDoseHistoryByUser(user: string) returns (r: Option<seq<DoseHistory>>)
      ensures r == ReadHistory(lines, user, None)
    {
      r := Read(user, None);
    }

    /** `DoseHistoryManager.getDoseHistoryByMedicine`. */
    method GetDoseHistoryByMedicine(user: string, medicine: string) returns (r: Option<seq<DoseHistory>>)
      ensures r == ReadHistory(lines, user, Some(medicine))
    {
      r := Read(user, Some(medicine));
    }
  }
}
