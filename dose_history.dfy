/** A dose-history entry (who took which medicine, and when) and its CSV line
    `username,medicineName,<date> HH:mm:ss`. The entry keeps one timestamp, the
    moment the dose was confirmed; there is no separate scheduled time. */
module DoseHistories {
  import opened Lang
  import opened Strings
  import opened Clock

  datatype DoseHistory = DoseHistory(username: string, medicineName: string, doseTime: Timestamp)

  /** `DoseHistory.toCSV`. */
  function ToCsv(h: DoseHistory): string
  {
    Join([h.username, h.medicineName, StampText(h.doseTime)], ",")
  }

  /** What `DoseHistory.fromCSV` does with a line: an entry, `null` (not three
      fields), or a DateTimeParseException from the timestamp field. */
  datatype CsvRead = Parsed(entry: DoseHistory) | Rejected | Unparsable

  /** `DoseHistory.fromCSV`. */
  function FromCsv(line: string): CsvRead
  {
    var values := Split(line, ",");
    if |values| == 3 then
      match ParseStamp(values[2])
      case Some(t) => Parsed(DoseHistory(values[0], values[1], t))
      case None => Unparsable
    else Rejected
  }

  /** An entry whose names hold no comma reads back as itself, up to the
      sub-second part of its timestamp. */
  lemma CsvRoundTrip(h: DoseHistory)
    requires Lacks(h.username, ',') && Lacks(h.medicineName, ',')
    ensures FromCsv(ToCsv(h)) == Parsed(h.(doseTime := Truncated(h.doseTime)))
  {
    var fields := [h.username, h.medicineName, StampText(h.doseTime)];
    assert Lacks(StampText(h.doseTime), ',');
    SplitJoin(fields, ',');
    StampTextRoundTrip(h.doseTime);
  }

  /** An entry whose user or medicine name holds a comma is written but never
      read back: its line has more than three fields. */
  lemma CommaInNameIsRejected(h: DoseHistory)
    requires !Lacks(h.username, ',') || !Lacks(h.medicineName, ',')
    ensures FromCsv(ToCsv(h)) == Rejected
  {
    var u, m, t := h.username, h.medicineName, StampText(h.doseTime);
    assert Lacks(t, ',');
    assert [u, m, t][1..] == [m, t] && [m, t][1..] == [t];
    assert Join([m, t], ",") == m + "," + t;
    assert ToCsv(h) == u + [','] + (m + [','] + t);
    PiecesAtChar(u, m + [','] + t, ',');
    PiecesAtChar(m, t, ',');
    NoMatchWithoutChar(t, ",", 0);
    PiecesNoMatch(t, ",");
    var pieces := Pieces(ToCsv(h), ",");
    assert pieces == Pieces(u, ",") + (Pieces(m, ",") + [t]);
    if !Lacks(u, ',') {
      var i :| 0 <= i < |u| && u[i] == ',';
      PiecesOfContaining(u, ',', i);
    } else {
      var i :| 0 <= i < |m| && m[i] == ',';
      PiecesOfContaining(m, ',', i);
    }
    assert |pieces| >= 4;
    assert pieces[|pieces| - 1] == t != "";
    assert Split(ToCsv(h), ",") == pieces;
  }
}
