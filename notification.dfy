/** Notifications and the notification file: records
    `username,message,TYPE,processed`, appended one at a time, read per user,
    and rewritten as a whole to set the processed flag. */
module Notifications {
  import opened Lang
  import opened Strings

  datatype NotificationType = MissedDose | Refill | ExpiredMedicine | MedicineTime

  datatype Notification = Notification(username: string, message: string, kind: NotificationType, processed: bool)

  /** `NotificationType.name()`. */
  function TypeName(t: NotificationType): string
  {
    match t
    case MissedDose => "MISSED_DOSE"
    case Refill => "REFILL"
    case ExpiredMedicine => "EXPIRED_MEDICINE"
    case MedicineTime => "MEDICINE_TIME"
  }

  /** `NotificationType.valueOf`: None stands for IllegalArgumentException. */
  function TypeOf(s: string): Option<NotificationType>
  {
    if s == "MISSED_DOSE" then Some(MissedDose)
    else if s == "REFILL" then Some(Refill)
    else if s == "EXPIRED_MEDICINE" then Some(ExpiredMedicine)
    else if s == "MEDICINE_TIME" then Some(MedicineTime)
    else None
  }

  /** The record line written by `Notification.addNotification`. */
  function Encode(n: Notification): string
  {
    Join([n.username, n.message, TypeName(n.kind), BoolText(n.processed)], ",")
  }

  /** How `getUserNotifications` reads a line back; None when the line has too
      few fields or an unknown type (the exceptions that escape the reader). */
  function Decode(line: string): Option<Notification>
  {
    var data := Split(line, ",");
    if |data| < 4 then None
    else
      match TypeOf(data[2])
      case None => None
      case Some(t) => Some(Notification(data[0], data[1], t, ParseBool(data[3])))
  }

  lemma EncodeFields(n: Notification)
    requires Lacks(n.username, ',') && Lacks(n.message, ',')
    ensures Split(Encode(n), ",") == [n.username, n.message, TypeName(n.kind), BoolText(n.processed)]
  {
    var fields := [n.username, n.message, TypeName(n.kind), BoolText(n.processed)];
    assert Lacks(TypeName(n.kind), ',') && Lacks(BoolText(n.processed), ',');
    SplitJoin(fields, ',');
  }

  /** For comma-free user names and messages, a record reads back as written. */
  lemma CodecRoundTrip(n: Notification)
    requires Lacks(n.username, ',') && Lacks(n.message, ',')
    ensures Decode(Encode(n)) == Some(n)
  {
    EncodeFields(n);
    BoolTextRoundTrip(n.processed);
  }

  predicate Matches(n: Notification, user: string, message: string)
  {
    n.username == user && n.message == message
  }

  /** The collection after `markNotificationAsProcessed(user, message)`: every
      record with that user and message is processed, whatever its type;
      nothing else about any record changes, nor their number or order. */
  function MarkProcessed(ns: seq<Notification>, user: string, message: string): (r: seq<Notification>)
    ensures |r| == |ns|
    ensures forall k | 0 <= k < |ns| :: r[k].processed == (ns[k].processed || Matches(ns[k], user, message))
    ensures forall k | 0 <= k < |ns| ::
              r[k].username == ns[k].username && r[k].message == ns[k].message && r[k].kind == ns[k].kind
  {
    seq(|ns|, k requires 0 <= k < |ns| =>
      if Matches(ns[k], user, message) then ns[k].(processed := true) else ns[k])
  }

  /** Marking twice marks nothing more than marking once. */
  lemma MarkProcessedIdempotent(ns: seq<Notification>, user: string, message: string)
    ensures MarkProcessed(MarkProcessed(ns, user, message), user, message) == MarkProcessed(ns, user, message)
  {
  }

  /** The processed flag never goes back to false. */
  predicate FlagsMonotone(before: seq<Notification>, after: seq<Notification>)
  {
    |before| <= |after| &&
    forall k | 0 <= k < |before| ::
      after[k].username == before[k].username && after[k].message == before[k].message &&
      after[k].kind == before[k].kind && (before[k].processed ==> after[k].processed)
  }

  /** The line-level rewrite of `markNotificationAsProcessed`: split, set field
      3 to "true" when user and message match, join again. */
  function MarkLine(line: string, user: string, message: string): string
  {
    var data := Split(line, ",");
    if |data| >= 4 && data[0] == user && data[1] == message then Join(data[3 := "true"], ",")
    else Join(data, ",")
  }

  /** On the lines of comma-free records, the line rewrite is the record
      rewrite: so the file may be modelled as a sequence of records. */
  lemma MarkLineAgrees(n: Notification, user: string, message: string)
    requires Lacks(n.username, ',') && Lacks(n.message, ',')
    ensures MarkLine(Encode(n), user, message) == Encode(MarkProcessed([n], user, message)[0])
  {
    EncodeFields(n);
    var data := [n.username, n.message, TypeName(n.kind), BoolText(n.processed)];
    if Matches(n, user, message) {
      assert data[3 := "true"] == [n.username, n.message, TypeName(n.kind), BoolText(true)];
    }
  }

  function OwnedBy(user: string): Notification -> bool
  {
    (n: Notification) => n.username == user
  }

  /** The notification file. */
  class NotificationFile {
    var records: seq<Notification>

    constructor ()
      ensures records == []
    {
      records := [];
    }

    /** `Notification.addNotification`: appends one record at the end. */
    method AddNotification(n: Notification)
      modifies this
      ensures records == old(records) + [n]
    {
      records := records + [n];
    }

    /** `Notification.getUserNotifications`: the user's records in file order. */
    method GetUserNotifications(user: string) returns (r: seq<Notification>)
      ensures r == Filter(records, OwnedBy(user))
    {
      r := [];
      var i := 0;
      while i < |records|
        invariant 0 <= i <= |records|
        invariant r == Filter(records[..i], OwnedBy(user))
      {
        FilterStep(records, i, OwnedBy(user));
        if records[i].username == user {
          r := r + [records[i]];
        }
        i := i + 1;
      }
      assert records[..i] == records;
    }

    /** `Notification.markNotificationAsProcessed`: rewrites every record. */
    method MarkNotificationAsProcessed(user: string, message: string)
      modifies this
      ensures records == MarkProcessed(old(records), user, message)
    {
      var rewritten: seq<Notification> := [];
      var i := 0;
      while i < |records|
        invariant 0 <= i <= |records| && records == old(records)
        invariant rewritten == MarkProcessed(records[..i], user, message)
      {
        var n := records[i];
        if n.username == user && n.message == message {
          n := n.(processed := true);
        }
        rewritten := rewritten + [n];
        i := i + 1;
      }
      assert records[..i] == records;
      records := rewritten;
    }
  }
}
