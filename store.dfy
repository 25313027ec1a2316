/**
 * The hosted database as in-memory tables. Each table is a sequence of rows in
 * insertion order; `nextId` stands for the database's id generator.
 */
module Store {
  import opened Types
  import Hours

  /** A closed session carries the hours derived from its own check-in and check-out. */
  predicate HoursDerived(a: Attendance) {
    && (a.checkOut.Some? <==> a.totalHours.Some?)
    && (a.checkOut.Some? ==> a.totalHours.value == Hours.CalculateHours(a.checkIn, a.checkOut.value))
  }

  /**
   * A salary record's total is base plus bonus minus deductions. The create
   * handler establishes it for the row it inserts; it is not part of `Db.Valid`,
   * because the salary update writes the submitted columns without recomputing
   * the total.
   */
  predicate TotalConsistent(s: SalaryRecord) {
    s.totalAmount == s.baseAmount + s.bonus - s.deductions
  }

  /** Attendance ids are below `nextId` and distinct, and every row's hours are derived. */
  ghost predicate AttendanceValid(rows: seq<Attendance>, nextId: int) {
    && (forall i :: 0 <= i < |rows| ==> rows[i].id < nextId)
    && (forall i, j :: 0 <= i < j < |rows| ==> rows[i].id != rows[j].id)
    && (forall i :: 0 <= i < |rows| ==> HoursDerived(rows[i]))
  }

  class Db {
    var profiles: seq<Profile>
    var attendance: seq<Attendance>
    var salaries: seq<SalaryRecord>
    var notifications: seq<Notification>
    var notificationReads: seq<NotificationRead>
    var auditLogs: seq<AuditEntry>
    var nextId: nat

    /** Generated ids are below `nextId`, attendance ids are distinct, and a closed session's hours agree with its times. */
    ghost predicate Valid()
      reads this
    {
      && AttendanceValid(attendance, nextId)
      && (forall i :: 0 <= i < |salaries| ==> salaries[i].id < nextId)
      && (forall i :: 0 <= i < |notifications| ==> notifications[i].id < nextId)
    }

    /** A store holding the given people and read receipts and nothing else. */
    constructor (profiles: seq<Profile>, readReceipts: seq<NotificationRead>)
      ensures Valid()
      ensures this.profiles == profiles && notificationReads == readReceipts
      ensures attendance == [] && salaries == [] && notifications == [] && auditLogs == []
    {
      this.profiles := profiles;
      notificationReads := readReceipts;
      attendance, salaries, notifications, auditLogs := [], [], [], [];
      nextId := 0;
    }

    /** The id the database assigns to the next inserted row. */
    method NewId() returns (id: Id)
      modifies this`nextId
      ensures id == old(nextId) && nextId == id + 1
    {
      id := nextId;
      nextId := nextId + 1;
    }
  }

  /** The position of the row with this id, if any. */
  function FindAttendance(rows: seq<Attendance>, id: Id): (r: Option<nat>)
    ensures r.Some? ==> r.value < |rows| && rows[r.value].id == id
    ensures r.None? ==> forall i :: 0 <= i < |rows| ==> rows[i].id != id
  {
    if rows == [] then None
    else if rows[|rows| - 1].id == id then Some(|rows| - 1)
    else FindAttendance(rows[..|rows| - 1], id)
  }

  /** A freshly numbered row with derived hours keeps the attendance part of `Db.Valid`. */
  lemma AppendRowValid(rows: seq<Attendance>, nextId: nat, a: Attendance)
    requires AttendanceValid(rows, nextId - 1)
    requires a.id == nextId - 1 && HoursDerived(a)
    ensures AttendanceValid(rows + [a], nextId)
  {
  }
}
