/**
 * `POST` of src/app/api/attendance/check-out/route.ts: close the caller's
 * open session, derive its hours and log the change.
 */
module CheckOutRoute {
  import opened Types
  import opened Store
  import Hours

  const NotFound := ApiError(404, "Attendance record not found")
  const AlreadyCheckedOut := ApiError(400, "Already checked out")

  /** The request body `{ attendance_id }` (None when the field is missing). */
  datatype CheckOutBody = CheckOutBody(attendanceId: Option<Id>)

  /** The row after check-out: `check_out` and `total_hours` set, everything else kept. */
  function Closed(a: Attendance, now: Time): (c: Attendance)
    ensures c.id == a.id && c.userId == a.userId && c.checkIn == a.checkIn && c.notes == a.notes
    ensures c.checkOut == Some(now) && c.totalHours == Some(Hours.CalculateHours(a.checkIn, now))
    ensures HoursDerived(c)
  {
    a.(checkOut := Some(now), totalHours := Some(Hours.CalculateHours(a.checkIn, now)))
  }

  /** The audit row written after a successful check-out. */
  function CheckOutAudit(caller: UserId, c: Attendance): (e: AuditEntry)
    requires c.checkOut.Some? && c.totalHours.Some?
    ensures e.userId == caller && e.action == "check_out" && e.entityType == "attendance"
    ensures e.entityId == Some(c.id)
    ensures e.oldValues.Some? && e.oldValues.value.Keys == {"check_out", "total_hours"}
    ensures e.oldValues.value["check_out"] == Null && e.oldValues.value["total_hours"] == Null
    ensures e.newValues.Some? && e.newValues.value.Keys == {"check_out", "total_hours"}
    ensures e.newValues.value["check_out"] == Int(c.checkOut.value)
    ensures e.newValues.value["total_hours"] == Hundredths(c.totalHours.value)
  {
    AuditEntry(caller, "check_out", "attendance", Some(c.id),
      Some(map["check_out" := Null, "total_hours" := Null]),
      Some(map["check_out" := Int(c.checkOut.value), "total_hours" := Hundredths(c.totalHours.value)]))
  }

  /** The audit row of a check-out logs the closing time and the hours derived from the row's own check-in. */
  lemma CheckOutAuditRecordsClosing(caller: UserId, a: Attendance, now: Time)
    ensures var e := CheckOutAudit(caller, Closed(a, now));
      && e.entityId == Some(a.id)
      && e.newValues.value["check_out"] == Int(now)
      && e.newValues.value["total_hours"] == Hundredths(Hours.CalculateHours(a.checkIn, now))
  {
  }

  /** The position of the row the request names, if there is one. */
  function Target(rows: seq<Attendance>, body: CheckOutBody): (r: Option<nat>)
    ensures body.attendanceId.None? ==> r.None?
    ensures r.Some? ==> r.value < |rows| && rows[r.value].id == body.attendanceId.value
    ensures body.attendanceId.Some? && r.None? ==> forall i :: 0 <= i < |rows| ==> rows[i].id != body.attendanceId.value
  {
    if body.attendanceId.None? then None else FindAttendance(rows, body.attendanceId.value)
  }

  /** The handler; the errors are checked in the order 401, 404, 403, 400. */
  method Post(db: Db, caller: Option<UserId>, body: CheckOutBody, now: Time)
    returns (res: Result<Attendance>)
    requires db.Valid()
    modifies db`attendance, db`auditLogs
    ensures db.Valid()
    ensures caller.None? ==> res == Fail(Unauthorized)
    ensures caller.Some? && Target(old(db.attendance), body).None? ==> res == Fail(NotFound)
    ensures caller.Some? && Target(old(db.attendance), body).Some? ==>
      var a := old(db.attendance)[Target(old(db.attendance), body).value];
      && (a.userId != caller.value ==> res == Fail(Forbidden))
      && (a.userId == caller.value && a.checkOut.Some? ==> res == Fail(AlreadyCheckedOut))
      && (a.userId == caller.value && a.checkOut.None? ==> res.Ok?)
    ensures res.Fail? ==> unchanged(db)
    ensures res.Ok? ==>
      var i := Target(old(db.attendance), body).value;
      && res.value == Closed(old(db.attendance)[i], now)
      && db.attendance == old(db.attendance)[i := res.value]
      && db.auditLogs == old(db.auditLogs) + [CheckOutAudit(caller.value, res.value)]
  {
    if caller.None? {
      return Fail(Unauthorized);
    }
    var user := caller.value;
    var found := Target(db.attendance, body);
    if found.None? {
      return Fail(NotFound);
    }
    var i := found.value;
    var attendance := db.attendance[i];
    if attendance.userId != user {
      return Fail(Forbidden);
    }
    if attendance.checkOut.Some? {
      return Fail(AlreadyCheckedOut);
    }
    var closed := Closed(attendance, now);
    UpdateValid(db.attendance, db.nextId, i, closed);
    db.attendance := db.attendance[i := closed];
    db.auditLogs := db.auditLogs + [CheckOutAudit(user, closed)];
    res := Ok(closed);
  }

  /** Replacing a row by one with the same id and derived hours keeps the table valid. */
  lemma UpdateValid(rows: seq<Attendance>, nextId: int, i: nat, c: Attendance)
    requires AttendanceValid(rows, nextId)
    requires i < |rows| && c.id == rows[i].id && HoursDerived(c)
    ensures AttendanceValid(rows[i := c], nextId)
  {
    var r := rows[i := c];
    forall k, l | 0 <= k < l < |r| ensures r[k].id != r[l].id {
      assert r[k].id == rows[k].id && r[l].id == rows[l].id;
    }
  }

  /**
   * The open-to-closed transition happens once: after a successful check-out,
   * a second check-out of the same id by the same caller is refused with 400
   * and changes nothing.
   */
  method CheckOutTwice(db: Db, caller: Option<UserId>, body: CheckOutBody, now1: Time, now2: Time)
    returns (first: Result<Attendance>, second: Result<Attendance>)
    requires db.Valid()
    modifies db`attendance, db`auditLogs
    ensures first.Ok? ==> second == Fail(AlreadyCheckedOut)
    ensures first.Ok? ==> first.value.checkOut == Some(now1)
  {
    first := Post(db, caller, body, now1);
    ghost var afterFirst := db.attendance;
    if first.Ok? {
      var i := Target(old(db.attendance), body).value;
      FindUnique(afterFirst, body.attendanceId.value, i);
    }
    second := Post(db, caller, body, now2);
  }

  /** With distinct ids, the lookup finds the only row carrying the id. */
  lemma FindUnique(rows: seq<Attendance>, id: Id, i: nat)
    requires forall k, l :: 0 <= k < l < |rows| ==> rows[k].id != rows[l].id
    requires i < |rows| && rows[i].id == id
    ensures FindAttendance(rows, id) == Some(i)
  {
  }
}
